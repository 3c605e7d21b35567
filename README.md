# PURL and ARK identifier actions of dgi_actions

This project models the identifier actions of the Drupal module `dgi_actions`. These actions sit between a content entity and a remote identifier service:

- **PURL actions.** They mint, update and delete PURLs through the service's REST API at `{host}/api/purl`.
  - Mint: one POST of a JSON document.
  - Update: for every PURL stored on the entity, in order, a PUT to `/api/purl/{id}` when the registry knows the PURL, otherwise a POST that creates it.
  - Delete: for every stored PURL, in order, a DELETE of `/api/purl/{id}` when the PURL exists, otherwise a logged skip.
  - All three go through `purlRequest()`, which re-throws a Guzzle RequestException with the service's own `responseCode` explanation appended.
- **ARK mint.** It merges EZID's internal `_target` and `_status=reserved` metadata in front of the entity's data, then POSTs the serialised metadata to `{host}/shoulder/{namespace}`. It reads the new identifier off the `success` key of the reply.
- **The update boundary.** `execute()` runs the update only for a fieldable entity with a configured identifier. It turns every exception thrown into a single log entry.

Modules:

- `Values`: Option, Result and two sequence facts.
- `Php`: the PHP runtime behaviour the code relies on, written out:
  - decoded JSON scalars and member reads;
  - integer interpolation;
  - normalisation of decimal strings into integer array keys;
  - loose `==` against an integer;
  - `trim($s, '/')`;
  - `array_merge` on string-keyed arrays.
- `Http`: requests, responses and Guzzle's exceptions, plus:
  - the failures an action can end with;
  - the log events;
  - a `Client` class that records every request sent and answers through a `respond` oracle;
  - an `Entity` class.
- `PurlTrait`, `MintPurl`, `UpdatePurl`, `DeletePurl`, `MintArk` and `UpdateIdentifier`: one each per source file.
  - The update and delete actions are classes with the source's state fields `purlId` and `purlPath` and a log.
  - Their loops are methods proved against the functions `UpdateRun` and `DeleteRun`.
  - What the source promises is proved about those functions as lemmas.

Two behaviours of the code that a reader might not expect:

- The entity path loses *every* leading and trailing `/`, because `trim` removes runs of them. It does not lose just one.
- In the EZID metadata, a `_target` or `_status` supplied by the entity overrides the forced value, because `array_merge` keeps the later value. The forced keys keep their place at the front.

## Model

| member | source | states |
|---|---|---|
| PurlTrait.BindingOf | modules/dgi_actions_purl/src/Utility/PurlTrait.php:41-71 | getHost, getApikey, getDomain, getInstitution and getTarget each return the service data under their own key (host, apikey, domain, institution, target); a binding is built only from service data holding all five |
| PurlTrait.EndpointParts | modules/dgi_actions_purl/src/Utility/PurlTrait.php:87-89 | getUri() is the configured host directly followed by "/api/purl" (MintPurl.php:70-72 overrides it with the same value read through getHost()); the host reads back off the front, and different hosts give different endpoints |
| PurlTrait.PurlDocumentFields | modules/dgi_actions_purl/src/Plugin/Action/MintPurl.php:90-94 | the PURL document has exactly the members purlPath, type, target, institutionCode in that order, type is "301" and the others carry the given values |
| PurlTrait.MapPurlResponseCodes | modules/dgi_actions_purl/src/Utility/PurlTrait.php:126-142 | a message is returned only for a decoded body with a non-null `responseCode` whose key is in the table, and it is one of the table's messages; otherwise FALSE (None) |
| PurlTrait.TableKeysNormalise | modules/dgi_actions_purl/src/Utility/PurlTrait.php:127-132 | the table keys written as strings '201', '400', '401', '404' are the integer keys 201, 400, 401, 404 |
| PurlTrait.ResponseCodeMeaning | modules/dgi_actions_purl/src/Utility/PurlTrait.php:127-138 | code 201/400/401/404, as a number or as its decimal text, maps to its fixed message; every other integer code maps to FALSE |
| PurlTrait.TextCodeMeaning | modules/dgi_actions_purl/src/Utility/PurlTrait.php:137-138 | a text code is recognised iff it is exactly "201", "400", "401" or "404" |
| PurlTrait.RethrownMessage | modules/dgi_actions_purl/src/Utility/PurlTrait.php:99-111 | the re-thrown exception keeps request and response, wraps the original, starts with the original message, and differs from it iff there is a response with a mapped code, in which case the rest is "PURL API Message: " + message with no separator |
| PurlTrait.PurlRequestOutcome | modules/dgi_actions_purl/src/Utility/PurlTrait.php:94-114 | purlRequest succeeds iff a response came back and returns it unchanged; a RequestException is always re-thrown wrapped, keeping request and response; other transfer exceptions pass through |
| PurlTrait.PassesCount | modules/dgi_actions_purl/src/Plugin/Action/UpdatePurl.php:148-157 | when every completed pass sends one request and logs two entries, a foreach over the stored URIs that completes sent one request and logged two entries per URI |
| PurlTrait.PassesSentAt | modules/dgi_actions_purl/src/Plugin/Action/UpdatePurl.php:148-157 | under the same condition, in a completed foreach the pass for the k-th URI completed and its request is the k-th request sent |
| PurlTrait.PassesLogAt | modules/dgi_actions_purl/src/Plugin/Action/UpdatePurl.php:148-157 | under the same condition, in a completed foreach the pass for the k-th URI completed and its two entries are entries 2k and 2k + 1 of the log |
| PurlTrait.RethrownInvalidKey | modules/dgi_actions_purl/src/Utility/PurlTrait.php:104-111 | an error response with responseCode 401 gets "PURL API Message: Invalid API key" appended to the message |
| Php.Member | modules/dgi_actions_purl/src/Utility/PurlTrait.php:134-138 | reading a member of a decoded body gives the stored value when present and null when the body or the member is missing |
| Php.DecimalValueOfText | modules/dgi_actions_purl/src/Plugin/Action/UpdatePurl.php:76-79 | an interpolated integer reads back as that integer, and a string reads as integer n exactly when it is n's decimal text |
| Php.KeyOf | modules/dgi_actions_purl/src/Utility/PurlTrait.php:138 | an integer indexes its own integer key; a string becomes an integer key exactly when it is a canonical decimal |
| Php.TextKeyIsIntKey | modules/dgi_actions_purl/src/Utility/PurlTrait.php:127-138 | a text member and an integer name the same array slot exactly when the text is the integer's decimal form |
| Php.LooseEqualsInt | modules/dgi_actions_purl/src/Plugin/Action/DeletePurl.php:141 | an integer equals n iff it is n; a string equals n iff it reads as the integer n |
| Php.TrimSlashesShape | modules/dgi_actions_purl/src/Plugin/Action/MintPurl.php:88 | the trimmed path neither starts nor ends with '/', is the middle of the input, and everything cut on either side was '/' |
| Php.TrimSlashesIdempotent | modules/dgi_actions_purl/src/Plugin/Action/UpdatePurl.php:106 | trimming a trimmed path changes nothing |
| Php.TrimSlashesExample | modules/dgi_actions_purl/src/Plugin/Action/MintPurl.php:88 | "//a/b//" trims to "a/b": runs of edge slashes go, inner slashes stay |
| Php.ArrayMergeKeys | modules/dgi_actions_ark_identifier/src/Plugin/Action/MintArkIdentifier.php:85-90 | the merged keys are the first array's keys in order, then the second's new keys in their order |
| Php.ArrayMergeLookup | modules/dgi_actions_ark_identifier/src/Plugin/Action/MintArkIdentifier.php:85-90 | under each key the merge holds the second array's value if it has the key, else the first's |
| Php.ArrayMergeDistinct | modules/dgi_actions_ark_identifier/src/Plugin/Action/MintArkIdentifier.php:85-90 | the merge has no key twice |
| MintPurl.MintDocument | modules/dgi_actions_purl/src/Plugin/Action/MintPurl.php:84-105 | purlPath is domain + "/" + p and target is target + "/" + p for the same p, which neither starts nor ends with '/' and is what remains of the entity path once the slashes before and after it are cut; type "301", the configured institution, members in source order |
| MintPurl.IdentifierFromResponse | modules/dgi_actions_purl/src/Plugin/Action/MintPurl.php:118-126 | the identifier is the host directly followed by the response's purlPath, which can be read back off it |
| MintPurl.MintedIdentifier | modules/dgi_actions_purl/src/Plugin/Action/MintPurl.php:84-126 | when the service echoes the purlPath it was sent, the minted PURL is host + domain + "/" + trimmed entity path |
| MintPurl.Mint | modules/dgi_actions_purl/src/Plugin/Action/MintPurl.php:110-125 | exactly one request, the mint request, is sent (none when the entity has no URL) and the result is the identifier from its response or purlRequest's failure; a minted identifier comes with one info "minted" entry naming the purlPath it is made of, a failure with none |
| UpdatePurl.UpdateVerbAndUri | modules/dgi_actions_purl/src/Plugin/Action/UpdatePurl.php:73-97 | PUT iff purlId > 0, POST otherwise; the URI carries "/" + id exactly for PUT and the id reads back from it; headers are the JSON Content-Type and the API key |
| UpdatePurl.UpdateAgreesWithMint | modules/dgi_actions_purl/src/Plugin/Action/UpdatePurl.php:102-124 | the update body carries the stored purlPath untouched and otherwise the same members and values as a mint of the entity; with purlId <= 0 the verb, URI and headers are a mint's |
| UpdatePurl.UpdateResponseLogged | modules/dgi_actions_purl/src/Plugin/Action/UpdatePurl.php:163-171 | handleUpdateResponse() logs one info "updated" entry naming the body's purlPath, or null when the body is not JSON or lacks it |
| UpdatePurl.UpdateStepShape | modules/dgi_actions_purl/src/Plugin/Action/UpdatePurl.php:149-156 | a URI without a path throws the TypeError and does nothing else; otherwise the first entry is "purlPath p has purlId id" for its path and looked-up id; a request is sent iff the URI has a path and the entity a URL, and it is the update request for that path and id; a completed pass logs the lookup and one "updated" entry |
| UpdatePurl.UpdateLoopRequests | modules/dgi_actions_purl/src/Plugin/Action/UpdatePurl.php:148-157 | the loop sends a prefix of one request per stored URI in list order, nothing without an entity URL, and completes iff it logged two entries per URI; then it sent all planned requests |
| UpdatePurl.UpdateLoopLog | modules/dgi_actions_purl/src/Plugin/Action/UpdatePurl.php:149-156 | every entry the update loop logs is an info entry, either a lookup or an "updated" entry |
| UpdatePurl.UpdateLoopLookup | modules/dgi_actions_purl/src/Plugin/Action/UpdatePurl.php:150-155 | in a completed loop every stored URI had a path, and the lookup entry of the k-th URI stands at position 2k of the log and is directly followed by its info "updated" entry |
| UpdatePurl.UpdateLoopSent | modules/dgi_actions_purl/src/Plugin/Action/UpdatePurl.php:148-157 | a completed loop ran with a target URL and sent exactly one request per stored URI, in list order: the k-th is the update request for that URI's path, its looked-up id and the target URL |
| UpdatePurl.UpdatePurl.Update | modules/dgi_actions_purl/src/Plugin/Action/UpdatePurl.php:129-158 | sends exactly UpdateRun's requests and logs its entries; no request and no state change when the field is missing or empty; the entity's field is unchanged; a completed run leaves purlPath and purlId at the last stored URI's path and id |
| UpdatePurl.UpdatePurl.UpdateOne | modules/dgi_actions_purl/src/Plugin/Action/UpdatePurl.php:150-155 | purlPath becomes the URI's path and purlId its looked-up id, and the log and the client grow by exactly one pass of UpdateStep (lookup entry, request, answer); a URI without a path leaves both unchanged and the pass stopped |
| UpdatePurl.UpdatePurl.Execute | src/Plugin/Action/UpdateIdentifier.php:20-50 | nothing unless the argument is fieldable; otherwise the entity is stored, update runs once iff an identifier is configured, a caught exception adds exactly one log entry (as the catch ladder is written) and only a PHP Error escapes; the field is unchanged; a completed update leaves purlPath and purlId at the last stored URI's |
| DeletePurl.DeleteUriCarriesId | modules/dgi_actions_purl/src/Plugin/Action/DeletePurl.php:74-83 | a DELETE goes to the endpoint + "/" + id, and the id reads back from the URI |
| DeletePurl.DeleteRequestsDistinct | modules/dgi_actions_purl/src/Plugin/Action/DeletePurl.php:81-83 | different ids give different URIs |
| DeletePurl.DeleteResponseMeaning | modules/dgi_actions_purl/src/Plugin/Action/DeletePurl.php:139-157 | status 2 (number or "2") logs deleted; status 1, null, missing or an undecodable body logs failed; always one info entry |
| DeletePurl.DeleteStepShape | modules/dgi_actions_purl/src/Plugin/Action/DeletePurl.php:121-132 | a URI without a path throws the TypeError and does nothing else; otherwise the first entry is "purlPath p has purlId id"; a DELETE of that id is sent iff the URI has a path and its id is > 0; id <= 0 logs the lookup and the skip and sends nothing; a completed pass logs exactly two entries |
| DeletePurl.PlannedDeletesExist | modules/dgi_actions_purl/src/Plugin/Action/DeletePurl.php:126-128 | every planned DELETE is for an id greater than 0 |
| DeletePurl.DeleteLoopRequests | modules/dgi_actions_purl/src/Plugin/Action/DeletePurl.php:120-133 | the loop sends a prefix of the planned DELETEs, completes iff it logged two entries per URI (lookup, then outcome), and then sent them all |
| DeletePurl.DeleteLoopLog | modules/dgi_actions_purl/src/Plugin/Action/DeletePurl.php:121-132 | every entry the delete loop logs is an info entry: a lookup, deleted, failed or skipped |
| DeletePurl.DeleteLoopLookup | modules/dgi_actions_purl/src/Plugin/Action/DeletePurl.php:122-125 | in a completed loop every stored URI had a path, and the lookup entry of the k-th URI stands at position 2k of the log and is directly followed by its outcome: deleted, failed or skipped |
| DeletePurl.DeletePurl.Delete | modules/dgi_actions_purl/src/Plugin/Action/DeletePurl.php:101-134 | sends exactly DeleteRun's requests and logs its entries; no request and no state change when the field is missing or empty; the entity's field is unchanged; a completed run leaves purlPath and purlId at the last stored URI's path and id |
| DeletePurl.DeletePurl.DeleteOne | modules/dgi_actions_purl/src/Plugin/Action/DeletePurl.php:122-131 | purlPath becomes the URI's path and purlId its looked-up id, and the log and the client grow by exactly one pass of DeleteStep (lookup entry, then request and answer or skip); a URI without a path leaves both unchanged and the pass stopped |
| UpdateIdentifier.ReportAsWritten | src/Plugin/Action/UpdateIdentifier.php:28-48 | as the catch ladder resolves: every Exception gives one error entry, "field not found" exactly for InvalidArgumentException; a PHP Error is not caught |
| UpdateIdentifier.Report | src/Plugin/Action/UpdateIdentifier.php:28-48 | as intended: the entity-URL exception gives a warning, InvalidArgumentException a "field not found" error, any other Exception an error; a PHP Error is not caught |
| UpdateIdentifier.EntityUrlWarningLost | src/Plugin/Action/UpdateIdentifier.php:28-34 | the two ladders differ exactly on the entity-URL exception, which as written is logged as a generic error |
| UpdateIdentifier.Boundary | src/Plugin/Action/UpdateIdentifier.php:22-48 | at most one entry, present exactly when update stopped on an Exception; it is the written ladder's report of that exception, always an error |
| UpdateIdentifier.BoundaryIntended | src/Plugin/Action/UpdateIdentifier.php:28-34 | with the intended ladder the same number of entries, a warning exactly for the entity-URL exception |
| UpdateIdentifier.Escaped | src/Plugin/Action/UpdateIdentifier.php:22-48 | only a failure that is not an Exception leaves execute, unchanged |
| MintArk.MetadataKeys | modules/dgi_actions_ark_identifier/src/Plugin/Action/MintArkIdentifier.php:85-90 | keys are _target, _status, then the entity's other keys in their order; each once; exactly the forced keys and the entity's keys |
| MintArk.MetadataValues | modules/dgi_actions_ark_identifier/src/Plugin/Action/MintArkIdentifier.php:85-90 | an entity-supplied _target or _status overrides the forced one; otherwise _target is the external URL and _status "reserved"; every other key reads as in the entity data |
| MintArk.ArkUriParts | modules/dgi_actions_ark_identifier/src/Plugin/Action/MintArkIdentifier.php:125-127 | the URI is host + "/shoulder/" + namespace, and the namespace reads back off its end |
| MintArk.ArkRequestConsistent | modules/dgi_actions_ark_identifier/src/Plugin/Action/MintArkIdentifier.php:118-144 | a POST to the shoulder URI whose Content-Length equals the body's byte length, Content-Type text/plain UTF-8, body the serialised merged metadata |
| MintArk.IdentifierFromResponseAsWritten | modules/dgi_actions_ark_identifier/src/Plugin/Action/MintArkIdentifier.php:97-113 | succeeds iff the reply has `success`; otherwise it fails with a PHP Error, not an Exception |
| MintArk.IdentifierFromResponse | modules/dgi_actions_ark_identifier/src/Plugin/Action/MintArkIdentifier.php:97-113 | with `success` the identifier is host + "/id/" + its value; without, the mint Exception and no identifier |
| MintArk.IdentifierRoundTrip | modules/dgi_actions_ark_identifier/src/Plugin/Action/MintArkIdentifier.php:100-106 | the `success` value reads back off the identifier made from it |
| MintArk.MintFailureEscapes | modules/dgi_actions_ark_identifier/src/Plugin/Action/MintArkIdentifier.php:108-112 | the written and intended versions agree whenever `success` is present; without it, only the intended failure is an Exception |

## Left out

- Debug log lines, log text and the translation `t()`: the info and error entries of the PURL actions are kept as a trace of event kinds with the purlPath, purlId, response path or exception message they name. The entity type and id (`@type`, `@id`) that most of those entries also name are not modelled. The lookup line "purlPath … has purlId …" is the `PurlLookedUp` event. The lines whose text starts with DEBUG carry no event.
- Registry changes during a run: `purlIdOf` (getPurlId) and `pathOf` (parse_url) are taken to answer the same way throughout a run. A path stored twice on the entity is therefore looked up with the same answer both times. Against the live registry, the first POST of an update would create the PURL and the second pass would PUT it.
- HTTP status codes of a response: `Response` keeps only the decoded body, because the actions read nothing else. Guzzle raises a RequestException for an error status, and that is the `RequestFailed` outcome.
- The info entry "ARK Identifier Minted" of MintArkIdentifier.php:101-105: the ARK hooks are modelled as functions without a log, because the `mint()` flow that owns the log lives in MintIdentifier, which is not part of this model.
- A service data map that lacks one of host, apikey, domain, institution or target: the getter's `string` return type then raises a TypeError, a PHP Error that escapes `execute()`. The actions take a complete binding, so this error path is not modelled.
- UpdatePurl.UpdatePurl.Update, DeletePurl.DeletePurl.Delete and UpdatePurl.UpdatePurl.Execute: after a run that stops early, the contract does not state where purlPath and purlId were left. Those fields are scratch state read only by the request builders.
- HTTP transport (`buildRequest`/`sendRequest`, Guzzle): it is the `Client` class. Its `respond` oracle stands for the remote service. HttpActionTrait is not part of this model.
- The HTTP basic-auth option of the ARK request (`getAuthorizationParams`): its source is not part of this model.
- `json_encode`/`json_decode`: JSON bodies are member lists and decoded maps of scalars. Floats, nested values and JSON numbers written with a fraction are not modelled.
- `parse_url` and `getPurlId`: these are the `pathOf` and `purlIdOf` oracles. `getFieldData` and `getExternalUrl` are inputs.
- EZID's request serialisation and reply parsing (EzidTrait): these are a `serialise` parameter and a parsed string map. The body's length is its byte count.
- `entity->toUrl()`: it is the entity's optional URL path. None stands for the UndefinedLinkTemplateException it throws.
- UpdatePurl.UpdatePurl.Update: computes the target URL once per update rather than once per request. This is the same value, because `toUrl()` depends only on the entity.
- UpdatePurl.UpdatePurl.Update and DeletePurl.DeletePurl.Delete: a field counts as empty iff it has no items. PHP's `empty()` on `getString()` would also treat a lone value "0" as empty.
- Php.LooseEqualsInt: strings that PHP 8 compares numerically without being canonical decimals (" 2", "2.0", "2e0") are not modelled. Keys beyond 64-bit integers are not modelled either.
- Integer-like keys in the ARK metadata (which `array_merge` would renumber): the entity's data is taken to have string keys only.
- DeleteIdentifier's `execute()` boundary around `delete()`: DeleteIdentifier.php is not part of this model. `Delete` therefore requires an entity and an identifier, as that caller supplies them.
- `getUuid`/`getEntity`, the `create()` and constructor wiring, AbstractIdentifier, the Purl service-data form, HttpActionUpdateTrait and EntityUpdateReaction: these are plumbing and configuration.
- Mint's "skip if already minted" gate and the ARK action's `mint()` flow: both live in MintIdentifier, which is not part of this model. Only the hooks MintArkIdentifier.php defines are modelled.

## Findings

| source | as written | input that shows it | evidently intended | confidence | as-written member | corrected member |
|---|---|---|---|---|---|---|
| src/Plugin/Action/UpdateIdentifier.php:28 | `catch (UndefinedLinkTemplateException …)` names a class that is neither imported nor in the action's namespace, so the clause never matches | an entity type without a canonical link template: `toUrl()` throws, and the generic `\Exception` branch logs an error | log a warning "Error retrieving Entity URL" for that exception | not executed; high | UpdateIdentifier.ReportAsWritten, UpdateIdentifier.EntityUrlWarningLost | UpdateIdentifier.Report |
| modules/dgi_actions_ark_identifier/src/Plugin/Action/MintArkIdentifier.php:108-112 | `new \Exception($message, [...])` passes an array as the integer `$code`, which raises a TypeError (an Error, not an Exception) | an EZID reply without a `success` key | throw the mint failure as an Exception, so that `catch (\Exception …)` handlers see it | not executed; high | MintArk.IdentifierFromResponseAsWritten, MintArk.MintFailureEscapes | MintArk.IdentifierFromResponse |
