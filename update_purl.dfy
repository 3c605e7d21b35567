/**
  Updating the PURLs stored on an entity: for every stored URI, in order, the
  action looks the PURL up by the URI's path and sends one request — a PUT to
  the PURL's own URI when it exists, otherwise a POST that creates it — then
  logs the service's answer. The entity's field is only read.
*/
module UpdatePurl {
  import opened Values
  import opened Php
  import opened Http
  import opened PurlTrait
  import opened UpdateIdentifier
  import MintPurl

  /** The target URL of getRequestParams(): the configured target, a slash
      and the path of the entity's canonical URL without its edge slashes;
      None when the entity has no URL. */
  function EntityTarget(b: PurlBinding, urlPath: Option<string>): Option<string>
  {
    if urlPath.Some? then Some(b.target + "/" + TrimSlashes(urlPath.value)) else None
  }

  /** getRequestType(), getUri() and getRequestParams() of the update action,
      given the state purlPath/purlId and the target URL. */
  function UpdateRequest(b: PurlBinding, purlPath: string, purlId: int, target: string): Request
  {
    Request(if purlId > 0 then PUT else POST,
            if purlId > 0 then Endpoint(b.host) + "/" + IntText(purlId) else Endpoint(b.host),
            PurlHeaders(b.apikey),
            JsonFields(PurlDocument(purlPath, target, b.institution)))
  }

  /** PUT exactly when the PURL exists (purlId > 0), and exactly then the URI
      carries the id, which reads back from it as a decimal; POST to the bare
      endpoint otherwise. */
  lemma UpdateVerbAndUri(b: PurlBinding, purlPath: string, purlId: int, target: string)
    ensures var r := UpdateRequest(b, purlPath, purlId, target);
            && (r.verb == PUT <==> purlId > 0)
            && (r.verb == POST <==> purlId <= 0)
            && (r.verb == PUT <==> r.uri != Endpoint(b.host))
            && (r.verb == POST ==> r.uri == Endpoint(b.host))
            && (r.verb == PUT ==> Endpoint(b.host) + "/" <= r.uri
                                  && DecimalValue(r.uri[|Endpoint(b.host)| + 1..]) == Some(purlId))
            && r.headers == PurlHeaders(b.apikey)
  {
    var r := UpdateRequest(b, purlPath, purlId, target);
    DecimalValueOfText(IntText(purlId), purlId);
    if purlId > 0 {
      assert r.uri[..|Endpoint(b.host)| + 1] == Endpoint(b.host) + "/";
      assert r.uri[|Endpoint(b.host)| + 1..] == IntText(purlId);
    }
  }

  /** The update document carries the stored path as parsed (no domain, no
      trimming) and the same target, type and institution as a mint of the
      same entity. When the PURL does not exist yet, the update is a create:
      same verb, URI and headers as a mint. */
  lemma UpdateAgreesWithMint(b: PurlBinding, purlPath: string, purlId: int, entityPath: string)
    ensures var u := UpdateRequest(b, purlPath, purlId, EntityTarget(b, Some(entityPath)).value).body.fields;
            var m := MintPurl.MintRequest(b, entityPath).body.fields;
            && Lookup(u, "purlPath") == Some(purlPath)
            && KeysOf(u) == KeysOf(m)
            && (forall k :: k != "purlPath" ==> Lookup(u, k) == Lookup(m, k))
    ensures purlId <= 0 ==>
              var u := UpdateRequest(b, purlPath, purlId, EntityTarget(b, Some(entityPath)).value);
              var m := MintPurl.MintRequest(b, entityPath);
              u.verb == m.verb && u.uri == m.uri && u.headers == m.headers
  {
    var u := UpdateRequest(b, purlPath, purlId, EntityTarget(b, Some(entityPath)).value).body.fields;
    var m := MintPurl.MintRequest(b, entityPath).body.fields;
    var p := TrimSlashes(entityPath);
    PurlDocumentFields(purlPath, b.target + "/" + p, b.institution);
    PurlDocumentFields(b.domain + "/" + p, b.target + "/" + p, b.institution);
    forall k | k != "purlPath" ensures Lookup(u, k) == Lookup(m, k) {
      assert k in KeysOf(u) <==> k in KeysOf(m);
    }
  }

  /** handleUpdateResponse(): one info entry naming the purlPath the service
      returned; nothing else. */
  function HandleUpdateResponse(resp: Response): LogEntry
  {
    LogEntry(Info, PurlUpdated(Member(resp.json, "purlPath")))
  }

  /** The entry is an info "updated" entry; the path it names is the body's
      purlPath when the body has one, and null when the body is not JSON or
      lacks it. */
  lemma UpdateResponseLogged(resp: Response)
    ensures var e := HandleUpdateResponse(resp);
            && e.level == Info && e.event.PurlUpdated?
            && (resp.json.Some? && "purlPath" in resp.json.value ==> e.event.updatedPath == resp.json.value["purlPath"])
            && (resp.json.None? || "purlPath" !in resp.json.value ==> e.event.updatedPath == JNull)
  {
  }

  /** One pass of the loop in update(), as the n-th request the client
      sends: parse the URI's path (a URI without one makes the typed
      assignment to purlPath throw a TypeError), look the PURL up and log the
      id found, send the request, log the answer. */
  function UpdateStep(b: PurlBinding, target: Option<string>, uri: string, o: Oracles,
                      respond: (nat, Request) -> Outcome, n: nat): Run
  {
    match o.pathOf(uri)
    case None => Run([], [], Stopped(TypeError(PathTypeMessage)))
    case Some(p) =>
      var looked := LookedUpEntry(p, o.purlIdOf(p));
      if target.None? then Run([], [looked], Stopped(EntityUrlError(EntityUrlMessage)))
      else
        var req := UpdateRequest(b, p, o.purlIdOf(p), target.value);
        match PurlRequest(respond(n, req))
        case Err(f) => Run([req], [looked], Stopped(f))
        case Ok(resp) => Run([req], [looked, HandleUpdateResponse(resp)], Done)
  }

  /** The pass of update() as the step of the loop: the URI and the number
      of requests sent before it. */
  function UpdatePass(b: PurlBinding, target: Option<string>, o: Oracles,
                      respond: (nat, Request) -> Outcome): (string, nat) -> Run
  {
    (u: string, m: nat) => UpdateStep(b, target, u, o, respond, m)
  }

  /** The loop of update() over the stored URIs from position `from` on, in
      order; the first failure ends it. */
  function UpdateLoop(b: PurlBinding, target: Option<string>, uris: seq<string>, from: nat, o: Oracles,
                      respond: (nat, Request) -> Outcome, n: nat): Run
  {
    Passes(UpdatePass(b, target, o, respond), uris, from, n)
  }

  /** One completed pass followed by the rest of the loop. */
  lemma UpdateLoopNext(b: PurlBinding, target: Option<string>, uris: seq<string>, i: nat, o: Oracles,
                       respond: (nat, Request) -> Outcome, n: nat, m: nat)
    requires i < |uris|
    requires UpdateStep(b, target, uris[i], o, respond, n).status.Done?
    requires m == n + |UpdateStep(b, target, uris[i], o, respond, n).sent|
    ensures var one := UpdateStep(b, target, uris[i], o, respond, n);
            var rest := UpdateLoop(b, target, uris, i + 1, o, respond, m);
            UpdateLoop(b, target, uris, i, o, respond, n) == Run(one.sent + rest.sent, one.log + rest.log, rest.status)
  {
  }

  /** update(): nothing when the entity lacks the configured field or the
      field is empty, otherwise the loop over its URIs. */
  function UpdateRun(id: Identifier, fields: map<string, seq<string>>, urlPath: Option<string>,
                     o: Oracles, respond: (nat, Request) -> Outcome, n: nat): Run
  {
    if id.field !in fields || fields[id.field] == [] then Run([], [], Done)
    else UpdateLoop(id.binding, EntityTarget(id.binding, urlPath), fields[id.field], 0, o, respond, n)
  }

  /** One pass sends a request exactly when the URI has a path and the
      entity a URL, and then it is the request for that path and the id
      looked up for it. A URI with a path first logs the lookup; the pass
      completes exactly when the answer was logged as an "updated" entry. */
  lemma UpdateStepShape(b: PurlBinding, target: Option<string>, uri: string, o: Oracles,
                        respond: (nat, Request) -> Outcome, n: nat)
    ensures var one := UpdateStep(b, target, uri, o, respond, n);
            && |one.sent| <= 1 && |one.log| <= 2
            && (o.pathOf(uri).None? ==> one == Run([], [], Stopped(TypeError(PathTypeMessage))))
            && (o.pathOf(uri).Some? ==>
                  |one.log| >= 1 && one.log[0] == LookedUpEntry(o.pathOf(uri).value, o.purlIdOf(o.pathOf(uri).value)))
            && (one.status.Stopped? ==> |one.log| <= 1)
            && (one.status.Done? ==> |one.sent| == 1 && |one.log| == 2 && one.log[1].level == Info && one.log[1].event.PurlUpdated?)
            && (|one.sent| == 1 <==> o.pathOf(uri).Some? && target.Some?)
            && (|one.sent| == 1 ==>
                  one.sent[0] == UpdateRequest(b, o.pathOf(uri).value, o.purlIdOf(o.pathOf(uri).value), target.value))
  {
  }

  /** The requests the loop means to send when every one of them is
      answered: one per stored URI, in list order, each for that URI's path
      and the id looked up for it, up to the first URI without a path. */
  function PlannedUpdates(b: PurlBinding, target: string, uris: seq<string>, from: nat, o: Oracles): seq<Request>
    decreases |uris| - from
  {
    if from >= |uris| || o.pathOf(uris[from]).None? then []
    else
      var p := o.pathOf(uris[from]).value;
      [UpdateRequest(b, p, o.purlIdOf(p), target)] + PlannedUpdates(b, target, uris, from + 1, o)
  }

  /** The loop sends a prefix of the planned requests — nothing when the
      entity has no URL — logs at most two entries per URI, and completes
      exactly when every URI got both; then it sent every planned request. */
  lemma {:induction false} UpdateLoopRequests(b: PurlBinding, target: Option<string>, uris: seq<string>, from: nat,
                                              o: Oracles, respond: (nat, Request) -> Outcome, n: nat)
    requires from <= |uris|
    ensures var run := UpdateLoop(b, target, uris, from, o, respond, n);
            && |run.sent| <= |uris| - from && |run.log| <= 2 * (|uris| - from)
            && (target.None? ==> run.sent == [])
            && (target.Some? ==> run.sent <= PlannedUpdates(b, target.value, uris, from, o))
            && (run.status.Done? <==> |run.log| == 2 * (|uris| - from))
            && (run.status.Done? && target.Some? ==> run.sent == PlannedUpdates(b, target.value, uris, from, o))
            && (run.status.Done? && from < |uris| ==> target.Some?)
    decreases |uris| - from
  {
    if from < |uris| {
      var run := UpdateLoop(b, target, uris, from, o, respond, n);
      var one := UpdateStep(b, target, uris[from], o, respond, n);
      UpdateStepShape(b, target, uris[from], o, respond, n);
      if one.status.Done? {
        UpdateLoopNext(b, target, uris, from, o, respond, n, n + 1);
        var rest := UpdateLoop(b, target, uris, from + 1, o, respond, n + 1);
        UpdateLoopRequests(b, target, uris, from + 1, o, respond, n + 1);
        var planned := PlannedUpdates(b, target.value, uris, from + 1, o);
        assert PlannedUpdates(b, target.value, uris, from, o) == one.sent + planned;
        assert run.sent == one.sent + rest.sent && run.log == one.log + rest.log;
        PrefixAfter(one.sent, rest.sent, planned);
      } else {
        assert run == one;
      }
    }
  }

  /** The loop logs only lookups and "updated" entries, all at info level. */
  lemma {:induction false} UpdateLoopLog(b: PurlBinding, target: Option<string>, uris: seq<string>, from: nat,
                                         o: Oracles, respond: (nat, Request) -> Outcome, n: nat)
    requires from <= |uris|
    ensures var run := UpdateLoop(b, target, uris, from, o, respond, n);
            forall k :: 0 <= k < |run.log| ==>
              run.log[k].level == Info && (run.log[k].event.PurlLookedUp? || run.log[k].event.PurlUpdated?)
    decreases |uris| - from
  {
    if from < |uris| {
      var run := UpdateLoop(b, target, uris, from, o, respond, n);
      var one := UpdateStep(b, target, uris[from], o, respond, n);
      UpdateStepShape(b, target, uris[from], o, respond, n);
      if one.status.Done? {
        UpdateLoopNext(b, target, uris, from, o, respond, n, n + 1);
        var rest := UpdateLoop(b, target, uris, from + 1, o, respond, n + 1);
        UpdateLoopLog(b, target, uris, from + 1, o, respond, n + 1);
        assert run.log == one.log + rest.log;
        forall k | 2 <= k < |run.log|
          ensures run.log[k].level == Info && (run.log[k].event.PurlLookedUp? || run.log[k].event.PurlUpdated?)
        {
          assert run.log[k] == rest.log[k - 2];
        }
      } else {
        assert run == one;
      }
    }
  }

  /** A completed pass sent one request and logged the lookup of the URI's
      path, then an info "updated" entry. */
  lemma UpdateStepDone(b: PurlBinding, target: Option<string>, uri: string, o: Oracles,
                       respond: (nat, Request) -> Outcome, n: nat)
    requires UpdateStep(b, target, uri, o, respond, n).status.Done?
    ensures var one := UpdateStep(b, target, uri, o, respond, n);
            && o.pathOf(uri).Some? && |one.sent| == 1 && |one.log| == 2
            && one.log[0] == LookedUpEntry(o.pathOf(uri).value, o.purlIdOf(o.pathOf(uri).value))
            && one.log[1].level == Info && one.log[1].event.PurlUpdated?
  {
  }

  /** Every completed pass sends one request and logs two entries. */
  lemma UpdatePassShape(b: PurlBinding, target: Option<string>, o: Oracles, respond: (nat, Request) -> Outcome)
    ensures forall u, m :: UpdatePass(b, target, o, respond)(u, m).status.Done? ==>
              |UpdatePass(b, target, o, respond)(u, m).sent| == 1 && |UpdatePass(b, target, o, respond)(u, m).log| == 2
  {
    forall u, m | UpdatePass(b, target, o, respond)(u, m).status.Done?
      ensures |UpdatePass(b, target, o, respond)(u, m).sent| == 1 && |UpdatePass(b, target, o, respond)(u, m).log| == 2
    {
      UpdateStepDone(b, target, u, o, respond, m);
    }
  }

  /** A completed pass had a target URL and a path, and its one request is
      the update request for that path and the id looked up for it. */
  lemma UpdateStepSent(b: PurlBinding, target: Option<string>, uri: string, o: Oracles,
                       respond: (nat, Request) -> Outcome, n: nat)
    requires UpdateStep(b, target, uri, o, respond, n).status.Done?
    ensures var one := UpdateStep(b, target, uri, o, respond, n);
            && target.Some? && o.pathOf(uri).Some? && |one.sent| == 1
            && one.sent[0] == UpdateRequest(b, o.pathOf(uri).value, o.purlIdOf(o.pathOf(uri).value), target.value)
  {
  }

  /** In a completed loop the URI at position k had a path, entry
      2(k - from) of the log is the lookup of that path and the entry right
      after it is its info "updated" entry: each pass logs its lookup and then
      the service's answer, in list order. */
  lemma UpdateLoopLookup(b: PurlBinding, target: Option<string>, uris: seq<string>, from: nat,
                         o: Oracles, respond: (nat, Request) -> Outcome, n: nat, k: nat)
    requires from <= k < |uris|
    requires UpdateLoop(b, target, uris, from, o, respond, n).status.Done?
    ensures var run := UpdateLoop(b, target, uris, from, o, respond, n);
            && o.pathOf(uris[k]).Some? && 2 * (k - from) + 1 < |run.log|
            && run.log[2 * (k - from)] == LookedUpEntry(o.pathOf(uris[k]).value, o.purlIdOf(o.pathOf(uris[k]).value))
            && run.log[2 * (k - from) + 1].level == Info && run.log[2 * (k - from) + 1].event.PurlUpdated?
  {
    var m := n + (k - from);
    var pass := UpdateStep(b, target, uris[k], o, respond, m);
    UpdatePassShape(b, target, o, respond);
    PassesLogAt(UpdatePass(b, target, o, respond), uris, from, n, k, m);
    assert UpdatePass(b, target, o, respond)(uris[k], m) == pass;
    UpdateStepDone(b, target, uris[k], o, respond, m);
    var run := UpdateLoop(b, target, uris, from, o, respond, n);
    assert run.log[2 * (k - from)] == pass.log[0] && run.log[2 * (k - from) + 1] == pass.log[1];
  }

  /** A completed loop sent exactly one request per stored URI, in list
      order: request k - from is the update request for the path of the URI
      at position k, the id looked up for it and the entity's target URL. */
  lemma UpdateLoopSent(b: PurlBinding, target: Option<string>, uris: seq<string>, from: nat,
                       o: Oracles, respond: (nat, Request) -> Outcome, n: nat, k: nat)
    requires from <= k < |uris|
    requires UpdateLoop(b, target, uris, from, o, respond, n).status.Done?
    ensures var run := UpdateLoop(b, target, uris, from, o, respond, n);
            && target.Some? && o.pathOf(uris[k]).Some? && |run.sent| == |uris| - from
            && run.sent[k - from]
               == UpdateRequest(b, o.pathOf(uris[k]).value, o.purlIdOf(o.pathOf(uris[k]).value), target.value)
  {
    var m := n + (k - from);
    var pass := UpdateStep(b, target, uris[k], o, respond, m);
    UpdatePassShape(b, target, o, respond);
    PassesCount(UpdatePass(b, target, o, respond), uris, from, n);
    PassesSentAt(UpdatePass(b, target, o, respond), uris, from, n, k, m);
    assert UpdatePass(b, target, o, respond)(uris[k], m) == pass;
    UpdateStepSent(b, target, uris[k], o, respond, m);
    var run := UpdateLoop(b, target, uris, from, o, respond, n);
    assert run.sent[k - from] == pass.sent[0];
  }

  /** The update action: UpdateIdentifier::execute() as inherited, update()
      and the state purlPath/purlId it steps through. */
  class UpdatePurl {
    const client: Client
    const identifier: Option<Identifier>
    const oracles: Oracles
    var entity: Entity?
    var purlId: int
    var purlPath: string
    var log: seq<LogEntry>

    constructor (client: Client, identifier: Option<Identifier>, oracles: Oracles)
      ensures this.client == client && this.identifier == identifier && this.oracles == oracles
      ensures entity == null && purlId == 0 && purlPath == "" && log == []
    {
      this.client := client;
      this.identifier := identifier;
      this.oracles := oracles;
      entity := null;
      purlId := 0;
      purlPath := "";
      log := [];
    }

    /** update(): sends exactly the requests of UpdateRun, logs exactly its
        entries and ends as it does; the entity's field is not touched. */
    method Update() returns (status: Status)
      requires entity != null && identifier.Some?
      modifies this, client
      ensures entity == old(entity) && entity.fields == old(entity.fields)
      ensures var run := UpdateRun(identifier.value, entity.fields, entity.urlPath, oracles, client.respond, |old(client.sent)|);
              && client.sent == old(client.sent) + run.sent
              && log == old(log) + run.log
              && status == run.status
      ensures var f := identifier.value.field;
              f !in entity.fields || entity.fields[f] == [] ==>
                client.sent == old(client.sent) && log == old(log) && purlId == old(purlId) && purlPath == old(purlPath)
      ensures var f := identifier.value.field;
              status.Done? && f in entity.fields && entity.fields[f] != [] ==>
                var last := entity.fields[f][|entity.fields[f]| - 1];
                oracles.pathOf(last).Some? && purlPath == oracles.pathOf(last).value && purlId == oracles.purlIdOf(purlPath)
    {
      var id := identifier.value;
      var e := entity;
      if id.field !in e.fields || e.fields[id.field] == [] {
        return Done;
      }
      var uris := e.fields[id.field];
      var target := EntityTarget(id.binding, e.urlPath);
      ghost var sent0, log0 := client.sent, log;
      ghost var full := UpdateLoop(id.binding, target, uris, 0, oracles, client.respond, |client.sent|);
      assert full == UpdateRun(id, e.fields, e.urlPath, oracles, client.respond, |sent0|);
      var i := 0;
      while i < |uris|
        invariant 0 <= i <= |uris|
        invariant entity == e
        invariant i > 0 ==> oracles.pathOf(uris[i - 1]).Some? && purlPath == oracles.pathOf(uris[i - 1]).value
                            && purlId == oracles.purlIdOf(purlPath)
        invariant var rest := UpdateLoop(id.binding, target, uris, i, oracles, client.respond, |client.sent|);
                  && sent0 + full.sent == client.sent + rest.sent
                  && log0 + full.log == log + rest.log
                  && full.status == rest.status
      {
        ghost var sentBefore, logBefore := client.sent, log;
        ghost var one := UpdateStep(id.binding, target, uris[i], oracles, client.respond, |client.sent|);
        status := UpdateOne(id.binding, target, uris[i]);
        if status.Stopped? {
          assert UpdateLoop(id.binding, target, uris, i, oracles, client.respond, |sentBefore|) == one;
          return;
        }
        UpdateLoopNext(id.binding, target, uris, i, oracles, client.respond, |sentBefore|, |client.sent|);
        ghost var rest := UpdateLoop(id.binding, target, uris, i + 1, oracles, client.respond, |client.sent|);
        Regroup(sentBefore, one.sent, rest.sent);
        Regroup(logBefore, one.log, rest.log);
        i := i + 1;
      }
      status := Done;
    }

    /** One pass of the loop in update(): the URI's path becomes purlPath, the
        id looked up for it purlId, then one request goes out and its answer
        is logged. */
    method UpdateOne(b: PurlBinding, target: Option<string>, uri: string) returns (status: Status)
      modifies this, client
      ensures entity == old(entity)
      ensures var one := UpdateStep(b, target, uri, oracles, client.respond, |old(client.sent)|);
              && client.sent == old(client.sent) + one.sent
              && log == old(log) + one.log
              && status == one.status
      ensures oracles.pathOf(uri).Some? ==>
                purlPath == oracles.pathOf(uri).value && purlId == oracles.purlIdOf(purlPath)
      ensures oracles.pathOf(uri).None? ==> purlPath == old(purlPath) && purlId == old(purlId)
      ensures status.Done? ==> oracles.pathOf(uri).Some?
    {
      var path := oracles.pathOf(uri);
      if path.None? {
        return Stopped(TypeError(PathTypeMessage));
      }
      purlPath := path.value;
      purlId := oracles.purlIdOf(purlPath);
      log := log + [LookedUpEntry(purlPath, purlId)];
      if target.None? {
        return Stopped(EntityUrlError(EntityUrlMessage));
      }
      var req := UpdateRequest(b, purlPath, purlId, target.value);
      var outcome := client.Send(req);
      var result := PurlRequest(outcome);
      if result.Err? {
        return Stopped(result.error);
      }
      log := log + [HandleUpdateResponse(result.value)];
      status := Done;
    }

    /** execute(): nothing at all unless the argument is a fieldable entity;
        otherwise the entity is stored, update() runs once when an identifier
        is configured, and whatever Exception it throws becomes one log entry.
        Only a PHP Error is passed on to the caller. */
    method Execute(arg: Entity?) returns (escaped: Option<Failure>)
      modifies this, client
      ensures arg != null ==> arg.fields == old(arg.fields)
      ensures arg == null || !arg.fieldable ==>
                && entity == old(entity) && log == old(log) && client.sent == old(client.sent)
                && purlId == old(purlId) && purlPath == old(purlPath) && escaped.None?
      ensures arg != null && arg.fieldable ==>
                && entity == arg
                && var run := if identifier.Some?
                              then UpdateRun(identifier.value, arg.fields, arg.urlPath, oracles, client.respond, |old(client.sent)|)
                              else Run([], [], Done);
                   && client.sent == old(client.sent) + run.sent
                   && log == old(log) + run.log + Boundary(run.status)
                   && escaped == Escaped(run.status)
      ensures arg != null && arg.fieldable && identifier.Some? ==>
                var f := identifier.value.field;
                UpdateRun(identifier.value, arg.fields, arg.urlPath, oracles, client.respond, |old(client.sent)|).status.Done?
                && f in arg.fields && arg.fields[f] != [] ==>
                  var last := arg.fields[f][|arg.fields[f]| - 1];
                  oracles.pathOf(last).Some? && purlPath == oracles.pathOf(last).value && purlId == oracles.purlIdOf(purlPath)
    {
      if arg == null || !arg.fieldable {
        return None;
      }
      entity := arg;
      var status := Done;
      if identifier.Some? {
        status := Update();
      }
      log := log + Boundary(status);
      escaped := Escaped(status);
    }
  }
}
