/**
  What every PURL action shares: the service binding and its getters, the
  collection endpoint, the request headers, the table of PURL application
  response codes, and purlRequest(), which sends a request and re-throws a
  RequestException with the PURL service's own explanation appended.
*/
module PurlTrait {
  import opened Values
  import opened Php
  import opened Http

  /** The PURL service data of an identifier configuration. */
  datatype PurlBinding = PurlBinding(host: string, apikey: string, domain: string, institution: string, target: string)

  /** An identifier configuration: the entity field that stores the PURLs
      and the service they are registered with. */
  datatype Identifier = Identifier(field: string, binding: PurlBinding)

  const BindingKeys: set<string> := {"host", "apikey", "domain", "institution", "target"}

  /** getHost(), getApikey(), getDomain(), getInstitution() and getTarget():
      each reads the service data under its own key. */
  function BindingOf(data: map<string, string>): (b: Option<PurlBinding>)
    ensures b.Some? <==> BindingKeys <= data.Keys
    ensures b.Some? ==> b.value.host == data["host"] && b.value.apikey == data["apikey"]
                        && b.value.domain == data["domain"] && b.value.institution == data["institution"]
                        && b.value.target == data["target"]
  {
    if BindingKeys <= data.Keys
    then Some(PurlBinding(data["host"], data["apikey"], data["domain"], data["institution"], data["target"]))
    else None
  }

  /** getUri(): the PURL collection endpoint. */
  function Endpoint(host: string): string
  {
    host + "/api/purl"
  }

  /** The endpoint is the host followed directly by "/api/purl": the host
      reads back off its front, and different hosts give different
      endpoints. */
  lemma EndpointParts(host: string, other: string)
    ensures host <= Endpoint(host) && Endpoint(host)[|host|..] == "/api/purl"
    ensures Endpoint(host) == Endpoint(other) <==> host == other
  {
    assert Endpoint(host)[..|host|] == host;
    if Endpoint(host) == Endpoint(other) {
      assert |host| == |other|;
      assert host == Endpoint(host)[..|host|] == Endpoint(other)[..|other|] == other;
    }
  }

  /** The info entry an update or delete pass writes once it has looked up
      the id registered for the stored path. */
  function LookedUpEntry(path: string, id: int): LogEntry
  {
    LogEntry(Info, PurlLookedUp(path, id))
  }

  /** The foreach of update() and delete() over the stored URIs from
      position `from` on, in order: step(u, n) is the pass for URI u made once
      n requests have been sent, and the first pass that fails ends the loop. */
  function Passes(step: (string, nat) -> Run, uris: seq<string>, from: nat, n: nat): Run
    decreases |uris| - from
  {
    if from >= |uris| then Run([], [], Done)
    else
      var one := step(uris[from], n);
      if one.status.Stopped? then one
      else
        var rest := Passes(step, uris, from + 1, n + |one.sent|);
        Run(one.sent + rest.sent, one.log + rest.log, rest.status)
  }

  /** When every completed pass sends one request and logs two entries, a
      completed loop sent one request and logged two entries per URI. */
  lemma {:induction false} PassesCount(step: (string, nat) -> Run, uris: seq<string>, from: nat, n: nat)
    requires from <= |uris|
    requires Passes(step, uris, from, n).status.Done?
    requires forall u, m :: step(u, m).status.Done? ==> |step(u, m).sent| == 1 && |step(u, m).log| == 2
    ensures |Passes(step, uris, from, n).sent| == |uris| - from
    ensures |Passes(step, uris, from, n).log| == 2 * (|uris| - from)
    decreases |uris| - from
  {
    if from < |uris| {
      PassesCount(step, uris, from + 1, n + 1);
    }
  }

  /** Under the same condition the pass for the URI at position k of a
      completed loop is made as request m = n + (k - from), completes, and
      its request stands at position k - from of the run. */
  lemma {:induction false} PassesSentAt(step: (string, nat) -> Run, uris: seq<string>, from: nat, n: nat, k: nat, m: nat)
    requires from <= k < |uris| && m == n + (k - from)
    requires Passes(step, uris, from, n).status.Done?
    requires forall u, m :: step(u, m).status.Done? ==> |step(u, m).sent| == 1 && |step(u, m).log| == 2
    ensures var run := Passes(step, uris, from, n);
            var pass := step(uris[k], m);
            && pass.status.Done? && |pass.sent| == 1
            && k - from < |run.sent| && run.sent[k - from] == pass.sent[0]
    decreases k - from
  {
    var run := Passes(step, uris, from, n);
    var one := step(uris[from], n);
    if one.status.Done? {
      var rest := Passes(step, uris, from + 1, n + 1);
      assert |one.sent| == 1;
      assert run == Run(one.sent + rest.sent, one.log + rest.log, rest.status);
      if k == from {
        assert step(uris[k], m) == one;
      } else {
        PassesSentAt(step, uris, from + 1, n + 1, k, m);
        var i := k - (from + 1);
        assert k - from == i + 1;
        assert run.sent[i + 1] == rest.sent[i];
      }
    } else {
      assert false;
    }
  }

  /** Under the same condition the two entries that the pass for the URI at
      position k logs stand at positions 2(k - from) and 2(k - from) + 1 of
      the run's log. */
  lemma {:induction false} PassesLogAt(step: (string, nat) -> Run, uris: seq<string>, from: nat, n: nat, k: nat, m: nat)
    requires from <= k < |uris| && m == n + (k - from)
    requires Passes(step, uris, from, n).status.Done?
    requires forall u, m :: step(u, m).status.Done? ==> |step(u, m).sent| == 1 && |step(u, m).log| == 2
    ensures var run := Passes(step, uris, from, n);
            var pass := step(uris[k], m);
            && pass.status.Done? && |pass.log| == 2 && 2 * (k - from) + 1 < |run.log|
            && run.log[2 * (k - from)] == pass.log[0] && run.log[2 * (k - from) + 1] == pass.log[1]
    decreases k - from
  {
    var run := Passes(step, uris, from, n);
    var one := step(uris[from], n);
    if one.status.Done? {
      var rest := Passes(step, uris, from + 1, n + 1);
      assert |one.sent| == 1 && |one.log| == 2;
      assert run == Run(one.sent + rest.sent, one.log + rest.log, rest.status);
      if k == from {
        assert step(uris[k], m) == one;
      } else {
        PassesLogAt(step, uris, from + 1, n + 1, k, m);
        var i := k - (from + 1);
        assert 2 * (k - from) == 2 * i + 2;
        assert run.log[2 * i + 2] == rest.log[2 * i];
        assert run.log[2 * i + 3] == rest.log[2 * i + 1];
      }
    } else {
      assert false;
    }
  }


  const JsonContentType := "application/json;charset=UTF-8"

  /** The headers of every PURL request: JSON content and the API key. */
  function PurlHeaders(apikey: string): Headers
  {
    [("Content-Type", Text(JsonContentType)), ("KiwiApiKey", Text(apikey))]
  }

  /** The JSON object a mint or update request carries, members in order. */
  function PurlDocument(purlPath: string, target: string, institution: string): Assoc
  {
    [("purlPath", purlPath), ("type", "301"), ("target", target), ("institutionCode", institution)]
  }

  /** The document has exactly the members purlPath, type, target and
      institutionCode, in that order, with the given values and type 301. */
  lemma PurlDocumentFields(purlPath: string, target: string, institution: string)
    ensures var f := PurlDocument(purlPath, target, institution);
            && KeysOf(f) == ["purlPath", "type", "target", "institutionCode"]
            && Lookup(f, "purlPath") == Some(purlPath) && Lookup(f, "type") == Some("301")
            && Lookup(f, "target") == Some(target) && Lookup(f, "institutionCode") == Some(institution)
  {
    var f := PurlDocument(purlPath, target, institution);
    assert f[1..] == f[1..4] && f[1..][1..] == f[2..4] && f[2..4][1..] == f[3..4] && f[3..4][1..] == [];
    assert KeysOf(f[3..4]) == ["institutionCode"] && Lookup(f[3..4], "institutionCode") == Some(institution);
    assert KeysOf(f[2..4]) == ["target", "institutionCode"] && Lookup(f[2..4], "target") == Some(target);
    assert Lookup(f[2..4], "institutionCode") == Some(institution);
    assert Lookup(f[1..4], "institutionCode") == Some(institution);
    assert KeysOf(f[1..4]) == ["type", "target", "institutionCode"];
  }

  /** The mapping table. Its keys are written '201', '400', '401' and '404'
      in PHP, which stores them as the integer keys below. */
  const ResponseMessages: map<Key, string> := map[
    IntKey(201) := "Successful PURL request",
    IntKey(400) := "Invalid PURL",
    IntKey(401) := "Invalid API key",
    IntKey(404) := "PURL not found"]

  /** mapPurlResponseCodes(): the message for the body's `responseCode`, or
      None (PHP's FALSE) when the body is empty or not JSON, has no (or a null)
      `responseCode`, or carries a code the table does not know. */
  function MapPurlResponseCodes(r: Response): (m: Option<string>)
    ensures m.Some? ==> r.json.Some? && "responseCode" in r.json.value
    ensures m.Some? <==> Member(r.json, "responseCode") != JNull && KeyOf(Member(r.json, "responseCode")) in ResponseMessages
    ensures m.Some? ==> m.value in ResponseMessages.Values
  {
    var code := Member(r.json, "responseCode");
    if code != JNull && KeyOf(code) in ResponseMessages then Some(ResponseMessages[KeyOf(code)]) else None
  }

  lemma CodeTexts()
    ensures IntText(201) == "201" && IntText(400) == "400" && IntText(401) == "401" && IntText(404) == "404"
  {
    assert NatText(20) == NatText(2) + [DigitChar(0)];
    assert NatText(40) == NatText(4) + [DigitChar(0)];
  }

  /** The table's keys, written as strings in the source, are the integer
      keys 201, 400, 401 and 404. */
  lemma TableKeysNormalise()
    ensures KeyOf(JText("201")) == IntKey(201) && KeyOf(JText("400")) == IntKey(400)
    ensures KeyOf(JText("401")) == IntKey(401) && KeyOf(JText("404")) == IntKey(404)
  {
    CodeTexts();
    TextKeyIsIntKey("201", 201);
    TextKeyIsIntKey("400", 400);
    TextKeyIsIntKey("401", 401);
    TextKeyIsIntKey("404", 404);
  }

  /** A code n, sent as a JSON number or as its decimal text, maps to the
      table's message for n, and to None for every other n. */
  lemma ResponseCodeMeaning(r: Response, n: int)
    requires Member(r.json, "responseCode") in {JInt(n), JText(IntText(n))}
    ensures MapPurlResponseCodes(r) ==
      if n == 201 then Some("Successful PURL request")
      else if n == 400 then Some("Invalid PURL")
      else if n == 401 then Some("Invalid API key")
      else if n == 404 then Some("PURL not found")
      else None
  {
    TextKeyIsIntKey(IntText(n), n);
  }

  /** A text code is recognised only when it is exactly "201", "400", "401"
      or "404": "0201", "+401" or " 404" map to None. */
  lemma TextCodeMeaning(r: Response, s: string)
    requires Member(r.json, "responseCode") == JText(s)
    ensures MapPurlResponseCodes(r).Some? <==> s in {"201", "400", "401", "404"}
  {
    CodeTexts();
    TextKeyIsIntKey(s, 201);
    TextKeyIsIntKey(s, 400);
    TextKeyIsIntKey(s, 401);
    TextKeyIsIntKey(s, 404);
  }

  const PurlApiPrefix := "PURL API Message: "

  /** The exception purlRequest() throws in place of a RequestException. */
  function Rethrown(e: RequestException): RequestException
  {
    var suffix :=
      if e.response.Some? && MapPurlResponseCodes(e.response.value).Some?
      then PurlApiPrefix + MapPurlResponseCodes(e.response.value).value
      else "";
    RequestException(e.message + suffix, e.request, e.response, Some(e))
  }

  /** The re-thrown exception keeps the request and the response, has the
      original as its previous exception, and carries the original message
      followed, without separator, by the PURL service's explanation when the
      response maps to one; otherwise the message is unchanged. */
  lemma RethrownMessage(e: RequestException)
    ensures var w := Rethrown(e);
            && w.request == e.request && w.response == e.response && w.previous == Some(e)
            && e.message <= w.message
            && (w.message == e.message <==> e.response.None? || MapPurlResponseCodes(e.response.value).None?)
            && (e.response.Some? && MapPurlResponseCodes(e.response.value).Some? ==>
                  w.message[|e.message|..] == PurlApiPrefix + MapPurlResponseCodes(e.response.value).value)
  {
    var w := Rethrown(e);
    assert w.message[..|e.message|] == e.message;
  }

  /** purlRequest(): the response when sending succeeds; a RequestException is
      re-thrown as Rethrown(e); any other transfer exception passes unchanged. */
  function PurlRequest(o: Outcome): Result<Response, Failure>
  {
    match o
    case Received(resp) => Ok(resp)
    case RequestFailed(e) => Err(RequestError(Rethrown(e)))
    case TransferFailed(m) => Err(TransferError(m))
  }

  /** purlRequest() succeeds exactly when a response came back, and then
      returns it as it is; a RequestException is always re-thrown, as an
      exception that wraps it and keeps its request and response. */
  lemma PurlRequestOutcome(o: Outcome)
    ensures PurlRequest(o).Ok? <==> o.Received?
    ensures o.Received? ==> PurlRequest(o).value == o.response
    ensures o.RequestFailed? ==>
              && PurlRequest(o).Err? && PurlRequest(o).error.RequestError?
              && var w := PurlRequest(o).error.cause;
                 w.request == o.error.request && w.response == o.error.response && w.previous == Some(o.error)
    ensures o.TransferFailed? ==> PurlRequest(o) == Err(TransferError(o.message))
  {
  }

  /** An error response whose body carries responseCode 401 gets
      "PURL API Message: Invalid API key" glued to the end of its message. */
  lemma RethrownInvalidKey(e: RequestException)
    requires e.response.Some? && Member(e.response.value.json, "responseCode") == JInt(401)
    ensures Rethrown(e).message == e.message + PurlApiPrefix + "Invalid API key"
  {
    ResponseCodeMeaning(e.response.value, 401);
  }
}
