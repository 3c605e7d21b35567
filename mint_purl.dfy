/**
  Minting a PURL: one POST of a JSON document to the collection endpoint; the
  identifier is the service host followed by the purlPath the service returns.
*/
module MintPurl {
  import opened Values
  import opened Php
  import opened Http
  import opened PurlTrait

  /** getRequestType(), getUri() and getRequestParams() of the mint action,
      for an entity whose canonical URL has the given path: the path, trimmed
      of every leading and trailing '/', is registered under the configured
      domain and points at the same path under the configured target. */
  function MintRequest(b: PurlBinding, entityPath: string): Request
  {
    var p := TrimSlashes(entityPath);
    Request(POST, Endpoint(b.host), PurlHeaders(b.apikey),
            JsonFields(PurlDocument(b.domain + "/" + p, b.target + "/" + p, b.institution)))
  }

  /** The two paths in a mint request end in the same remainder p of the
      entity's path: p neither starts nor ends with '/', and it is what is
      left of the path once the slashes before it and the slashes after it
      are taken away. */
  lemma MintDocument(b: PurlBinding, entityPath: string)
    ensures var f := MintRequest(b, entityPath).body.fields;
            exists p: string ::
              && Lookup(f, "purlPath") == Some(b.domain + "/" + p)
              && Lookup(f, "target") == Some(b.target + "/" + p)
              && (p == [] || (p[0] != '/' && p[|p| - 1] != '/'))
              && p <= entityPath[|entityPath| - |TrimLeading(entityPath)|..]
              && (forall k :: 0 <= k < |entityPath| - |TrimLeading(entityPath)| ==> entityPath[k] == '/')
              && (forall k :: |entityPath| - |TrimLeading(entityPath)| + |p| <= k < |entityPath| ==> entityPath[k] == '/')
    ensures var f := MintRequest(b, entityPath).body.fields;
            && KeysOf(f) == ["purlPath", "type", "target", "institutionCode"]
            && Lookup(f, "type") == Some("301") && Lookup(f, "institutionCode") == Some(b.institution)
  {
    var p := TrimSlashes(entityPath);
    PurlDocumentFields(b.domain + "/" + p, b.target + "/" + p, b.institution);
    TrimSlashesShape(entityPath);
    var lead := |entityPath| - |TrimLeading(entityPath)|;
    assert p == entityPath[lead..lead + |p|];
    assert p <= entityPath[lead..];
  }

  /** getIdentifierFromResponse(): the host directly followed (no separator
      added) by the response's purlPath; the purlPath can be read back off it. */
  function IdentifierFromResponse(host: string, resp: Response): (id: string)
    ensures host <= id
    ensures id[|host|..] == AsString(Member(resp.json, "purlPath"))
  {
    var id := host + AsString(Member(resp.json, "purlPath"));
    assert id[..|host|] == host;
    id
  }

  /** The info entry getIdentifierFromResponse() writes: the purlPath the
      service returned. */
  function MintedEntry(resp: Response): LogEntry
  {
    LogEntry(Info, PurlMinted(Member(resp.json, "purlPath")))
  }

  /** When the service echoes the purlPath the mint request sent, the minted
      PURL is host + domain + "/" + the trimmed entity path. */
  lemma MintedIdentifier(b: PurlBinding, entityPath: string, resp: Response)
    requires Member(resp.json, "purlPath") == JText(b.domain + "/" + TrimSlashes(entityPath))
    ensures Lookup(MintRequest(b, entityPath).body.fields, "purlPath") == Some(b.domain + "/" + TrimSlashes(entityPath))
    ensures IdentifierFromResponse(b.host, resp) == b.host + b.domain + "/" + TrimSlashes(entityPath)
  {
    var p := TrimSlashes(entityPath);
    PurlDocumentFields(b.domain + "/" + p, b.target + "/" + p, b.institution);
  }

  /** mint(): exactly one request — none when the entity has no canonical URL
      — and the identifier derived from that request's response, or the
      failure purlRequest() raised; a minted identifier comes with the one
      info entry naming the purlPath it was made from. */
  method Mint(b: PurlBinding, entity: Entity, client: Client) returns (r: Result<string, Failure>, log: seq<LogEntry>)
    modifies client
    ensures entity.urlPath.None? ==> client.sent == old(client.sent) && r == Err(EntityUrlError(EntityUrlMessage))
    ensures entity.urlPath.Some? ==>
              var req := MintRequest(b, entity.urlPath.value);
              && client.sent == old(client.sent) + [req]
              && r == (match PurlRequest(client.respond(|old(client.sent)|, req))
                       case Ok(resp) => Ok(IdentifierFromResponse(b.host, resp))
                       case Err(f) => Err(f))
              && log == (match PurlRequest(client.respond(|old(client.sent)|, req))
                         case Ok(resp) => [MintedEntry(resp)]
                         case Err(_) => [])
    ensures r.Err? ==> log == []
    ensures r.Ok? ==> |log| == 1 && log[0].level == Info && log[0].event.PurlMinted?
                      && r.value == b.host + AsString(log[0].event.mintedPath)
  {
    log := [];
    if entity.urlPath.None? {
      return Err(EntityUrlError(EntityUrlMessage)), log;
    }
    var req := MintRequest(b, entity.urlPath.value);
    var outcome := client.Send(req);
    var sent := PurlRequest(outcome);
    if sent.Err? {
      return Err(sent.error), log;
    }
    r := Ok(IdentifierFromResponse(b.host, sent.value));
    log := [MintedEntry(sent.value)];
  }
}
