/**
  Minting an ARK through EZID: the entity's metadata, with EZID's internal
  `_target` and `_status` keys merged in front, is serialised and POSTed to
  the configured shoulder; a response carrying `success` names the new
  identifier. Serialising the metadata and parsing the reply are EZID's own
  line formats and are taken as parameters.
*/
module MintArk {
  import opened Values
  import opened Php
  import opened Http

  /** The `host` and `namespace` entries of the identifier's service data. */
  datatype ArkBinding = ArkBinding(host: string, namespace: string)

  const ContentType := "text/plain; charset=UTF-8"

  /** EZID keeps an identifier that is still `reserved` deletable. */
  const ReservedStatus := "reserved"

  /** The message of the exception meant for a response without `success`. */
  const MintFailureMessage := "There was an issue minting the ARK Identifier for @type/@id: @contents"

  /** What PHP reports for `new \Exception($message, [...])`: the second
      argument of Exception's constructor must be an int code. */
  const ExceptionArgumentMessage := "Exception::__construct(): Argument #2 ($code) must be of type int, array given"

  /** The internal metadata forced in front of the entity's own. */
  function Defaults(externalUrl: string): Assoc
  {
    [("_target", externalUrl), ("_status", ReservedStatus)]
  }

  /** buildRequestBody() before serialisation: array_merge of the defaults
      with the entity's field data. */
  function Metadata(externalUrl: string, data: Assoc): Assoc
  {
    ArrayMerge(Defaults(externalUrl), data)
  }

  /** The metadata's keys: `_target`, then `_status`, then the entity's other
      keys in their own order; every key once, and no key but these. */
  lemma MetadataKeys(externalUrl: string, data: Assoc)
    requires Distinct(KeysOf(data))
    ensures KeysOf(Metadata(externalUrl, data)) == ["_target", "_status"] + Without(KeysOf(data), ["_target", "_status"])
    ensures Distinct(KeysOf(Metadata(externalUrl, data)))
    ensures forall k :: k in KeysOf(Metadata(externalUrl, data)) <==> k == "_target" || k == "_status" || k in KeysOf(data)
  {
    var d := Defaults(externalUrl);
    assert KeysOf(d) == ["_target", "_status"] by {
      assert d[1..] == [("_status", ReservedStatus)];
      assert d[1..][1..] == [];
    }
    ArrayMergeKeys(d, data);
    ArrayMergeDistinct(d, data);
    var ks := KeysOf(Metadata(externalUrl, data));
    var rest := Without(KeysOf(data), ["_target", "_status"]);
    forall i, j | 0 <= i < j < |ks| ensures ks[i] != ks[j] {
      if j >= 2 {
        assert ks[j] == rest[j - 2];
        assert ks[j] in rest;
      }
    }
  }

  /** The value under each key: the entity's own `_target` or `_status` wins
      over the forced one (array_merge keeps the later value); without one,
      `_target` is the external URL and `_status` is "reserved"; every other
      key reads as in the entity's data. */
  lemma MetadataValues(externalUrl: string, data: Assoc, key: string)
    requires Distinct(KeysOf(data))
    ensures Lookup(Metadata(externalUrl, data), "_target")
         == if "_target" in KeysOf(data) then Lookup(data, "_target") else Some(externalUrl)
    ensures Lookup(Metadata(externalUrl, data), "_status")
         == if "_status" in KeysOf(data) then Lookup(data, "_status") else Some(ReservedStatus)
    ensures key != "_target" && key != "_status" ==> Lookup(Metadata(externalUrl, data), key) == Lookup(data, key)
  {
    var d := Defaults(externalUrl);
    assert d[1..] == [("_status", ReservedStatus)];
    assert d[1..][1..] == [];
    ArrayMergeLookup(d, data, "_target");
    ArrayMergeLookup(d, data, "_status");
    ArrayMergeLookup(d, data, key);
  }

  /** getUri(): the configured host, then "/shoulder/", then the namespace. */
  function ArkUri(b: ArkBinding): string
  {
    b.host + "/shoulder/" + b.namespace
  }

  /** The shoulder URI starts with the host and the namespace can be read
      back off its end. */
  lemma ArkUriParts(b: ArkBinding)
    ensures b.host + "/shoulder/" <= ArkUri(b)
    ensures ArkUri(b)[|b.host| + 10..] == b.namespace
  {
  }

  /** getRequestType(), getUri() and getRequestParams() of the ARK mint: a
      POST to the shoulder of the serialised metadata, declared as UTF-8 text
      with its length in bytes. */
  function ArkRequest(b: ArkBinding, externalUrl: string, data: Assoc, serialise: Assoc -> seq<bv8>): Request
  {
    var body := serialise(Metadata(externalUrl, data));
    Request(POST, ArkUri(b),
            [("Content-Type", Text(ContentType)), ("Content-Length", Number(|body|))],
            Bytes(body))
  }

  /** The request's Content-Length header always agrees with its body, and
      the body is the serialisation of the merged metadata. */
  lemma ArkRequestConsistent(b: ArkBinding, externalUrl: string, data: Assoc, serialise: Assoc -> seq<bv8>)
    ensures var r := ArkRequest(b, externalUrl, data, serialise);
            && r.verb == POST && r.uri == ArkUri(b) && r.body.Bytes?
            && r.headers == [("Content-Type", Text(ContentType)), ("Content-Length", Number(|r.body.data|))]
            && r.body.data == serialise(Metadata(externalUrl, data))
  {
  }

  /** getIdentifierFromResponse() as written: without `success` it builds
      `new \Exception($message, $context)`, which raises a TypeError (an
      Error, not an Exception) instead of the intended exception. */
  function IdentifierFromResponseAsWritten(host: string, parsed: map<string, string>): (r: Result<string, Failure>)
    ensures r.Ok? <==> "success" in parsed
    ensures r.Err? ==> !r.error.IsException()
  {
    if "success" in parsed then Ok(host + "/id/" + parsed["success"])
    else Err(TypeError(ExceptionArgumentMessage))
  }

  /** getIdentifierFromResponse() as intended: `host/id/` followed by the
      `success` value, or the mint exception when there is none. */
  function IdentifierFromResponse(host: string, parsed: map<string, string>): (r: Result<string, Failure>)
    ensures "success" in parsed ==> r.Ok? && host + "/id/" <= r.value && r.value[|host| + 4..] == parsed["success"]
    ensures "success" !in parsed ==> r == Err(MintError(MintFailureMessage)) && r.error.IsException()
  {
    if "success" in parsed then
      var id := host + "/id/" + parsed["success"];
      assert id[..|host| + 4] == host + "/id/";
      Ok(id)
    else Err(MintError(MintFailureMessage))
  }

  /** Minting and reading back: the identifier made from a reply whose
      `success` is v yields v again, whatever else the reply holds. */
  lemma IdentifierRoundTrip(host: string, parsed: map<string, string>, v: string)
    ensures var r := IdentifierFromResponse(host, parsed["success" := v]);
            r.Ok? && r.value[|host| + 4..] == v
  {
  }

  /** The two versions agree on every reply with `success`; on one without,
      the written code's failure escapes a `catch (\Exception $e)` that the
      intended one is caught by. */
  lemma MintFailureEscapes(host: string, parsed: map<string, string>)
    ensures "success" in parsed ==> IdentifierFromResponseAsWritten(host, parsed) == IdentifierFromResponse(host, parsed)
    ensures "success" !in parsed ==>
              && !IdentifierFromResponseAsWritten(host, parsed).error.IsException()
              && IdentifierFromResponse(host, parsed).error.IsException()
  {
  }
}
