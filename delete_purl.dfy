/**
  Deleting the PURLs stored on an entity: for every stored URI, in order, the
  action looks the PURL up by the URI's path and, when it exists, sends one
  DELETE for its id and logs whether the service reports it deleted; a PURL
  that does not exist is skipped with a log entry and no request.
*/
module DeletePurl {
  import opened Values
  import opened Php
  import opened Http
  import opened PurlTrait

  /** getRequestType(), getUri() and getRequestParams() of the delete action:
      a DELETE of the PURL's own URI, with the JSON headers and no body. */
  function DeleteRequest(b: PurlBinding, purlId: int): Request
  {
    Request(DELETE, Endpoint(b.host) + "/" + IntText(purlId), PurlHeaders(b.apikey), NoBody)
  }

  /** The id reads back off the request URI, which is the endpoint, a slash
      and the id in decimal. */
  lemma DeleteUriCarriesId(b: PurlBinding, purlId: int)
    ensures var r := DeleteRequest(b, purlId);
            && Endpoint(b.host) + "/" <= r.uri
            && DecimalValue(r.uri[|Endpoint(b.host)| + 1..]) == Some(purlId)
  {
    var r := DeleteRequest(b, purlId);
    DecimalValueOfText(IntText(purlId), purlId);
    assert r.uri[..|Endpoint(b.host)| + 1] == Endpoint(b.host) + "/";
    assert r.uri[|Endpoint(b.host)| + 1..] == IntText(purlId);
  }

  /** Requests for different ids go to different URIs. */
  lemma DeleteRequestsDistinct(b: PurlBinding, id1: int, id2: int)
    requires id1 != id2
    ensures DeleteRequest(b, id1).uri != DeleteRequest(b, id2).uri
  {
    DeleteUriCarriesId(b, id1);
    DeleteUriCarriesId(b, id2);
  }

  /** handleDeleteResponse(): an info entry either way; "deleted" exactly when
      the body's status compares loosely equal to 2, "failed" otherwise, both
      naming the purlPath the body carries. */
  function HandleDeleteResponse(resp: Response): LogEntry
  {
    var path := Member(resp.json, "purlPath");
    LogEntry(Info, if LooseEqualsInt(Member(resp.json, "status"), 2) then PurlDeleted(path) else PurlDeleteFailed(path))
  }

  /** The service's answers as the action reads them: status 2, as a number
      or as the text "2", means deleted; status 1, a missing status, a null
      status and a body that is not JSON all mean failed. */
  lemma DeleteResponseMeaning(resp: Response)
    ensures HandleDeleteResponse(resp).level == Info
    ensures Member(resp.json, "status") == JInt(2) ==> HandleDeleteResponse(resp).event.PurlDeleted?
    ensures Member(resp.json, "status") == JText("2") ==> HandleDeleteResponse(resp).event.PurlDeleted?
    ensures Member(resp.json, "status") == JInt(1) ==> HandleDeleteResponse(resp).event.PurlDeleteFailed?
    ensures Member(resp.json, "status") == JNull ==> HandleDeleteResponse(resp).event.PurlDeleteFailed?
    ensures resp.json.None? ==> HandleDeleteResponse(resp).event.PurlDeleteFailed?
    ensures HandleDeleteResponse(resp).event.PurlDeleted? || HandleDeleteResponse(resp).event.PurlDeleteFailed?
  {
    DecimalValueOfText("2", 2);
    assert IntText(2) == "2";
  }

  /** One pass of the loop in delete(), as the n-th request the client sends:
      parse the URI's path (a URI without one makes the typed assignment to
      purlPath throw a TypeError), look the PURL up and log the id found, and
      either send the DELETE and log the answer or log the skip. */
  function DeleteStep(b: PurlBinding, uri: string, o: Oracles, respond: (nat, Request) -> Outcome, n: nat): Run
  {
    match o.pathOf(uri)
    case None => Run([], [], Stopped(TypeError(PathTypeMessage)))
    case Some(p) =>
      var looked := LookedUpEntry(p, o.purlIdOf(p));
      if o.purlIdOf(p) > 0 then
        var req := DeleteRequest(b, o.purlIdOf(p));
        match PurlRequest(respond(n, req))
        case Err(f) => Run([req], [looked], Stopped(f))
        case Ok(resp) => Run([req], [looked, HandleDeleteResponse(resp)], Done)
      else Run([], [looked, LogEntry(Info, DeleteSkipped(p))], Done)
  }

  /** The pass of delete() as the step of the loop: the URI and the number
      of requests sent before it. */
  function DeletePass(b: PurlBinding, o: Oracles, respond: (nat, Request) -> Outcome): (string, nat) -> Run
  {
    (u: string, m: nat) => DeleteStep(b, u, o, respond, m)
  }

  /** The loop of delete() over the stored URIs from position `from` on, in
      order; the first failure ends it. */
  function DeleteLoop(b: PurlBinding, uris: seq<string>, from: nat, o: Oracles,
                      respond: (nat, Request) -> Outcome, n: nat): Run
  {
    Passes(DeletePass(b, o, respond), uris, from, n)
  }

  /** delete(): nothing when the entity lacks the configured field or the
      field is empty, otherwise the loop over its URIs. */
  function DeleteRun(id: Identifier, fields: map<string, seq<string>>, o: Oracles,
                     respond: (nat, Request) -> Outcome, n: nat): Run
  {
    if id.field !in fields || fields[id.field] == [] then Run([], [], Done)
    else DeleteLoop(id.binding, fields[id.field], 0, o, respond, n)
  }

  /** One pass sends a request exactly when the URI has a path whose PURL
      exists (id > 0), and then it is the DELETE of that id. A URI with a path
      first logs the lookup; a completed pass then logs the answer or the
      skip, and a skip sends nothing. */
  lemma DeleteStepShape(b: PurlBinding, uri: string, o: Oracles, respond: (nat, Request) -> Outcome, n: nat)
    ensures var one := DeleteStep(b, uri, o, respond, n);
            && |one.sent| <= 1 && |one.log| <= 2
            && (o.pathOf(uri).None? ==> one == Run([], [], Stopped(TypeError(PathTypeMessage))))
            && (o.pathOf(uri).Some? ==>
                  |one.log| >= 1 && one.log[0] == LookedUpEntry(o.pathOf(uri).value, o.purlIdOf(o.pathOf(uri).value)))
            && (one.status.Stopped? ==> |one.log| <= 1)
            && (one.status.Done? ==> |one.log| == 2)
            && (|one.sent| == 1 <==> o.pathOf(uri).Some? && o.purlIdOf(o.pathOf(uri).value) > 0)
            && (|one.sent| == 1 ==> one.sent[0] == DeleteRequest(b, o.purlIdOf(o.pathOf(uri).value)))
            && (o.pathOf(uri).Some? && o.purlIdOf(o.pathOf(uri).value) <= 0 ==>
                  var p := o.pathOf(uri).value;
                  one == Run([], [LookedUpEntry(p, o.purlIdOf(p)), LogEntry(Info, DeleteSkipped(p))], Done))
  {
  }

  /** The entry that ends a completed pass: the answer to the DELETE or the
      skip. */
  predicate DeleteOutcome(e: LogEntry)
  {
    e.event.PurlDeleted? || e.event.PurlDeleteFailed? || e.event.DeleteSkipped?
  }

  /** A completed pass logged the lookup of the URI's path first, then its
      outcome. */
  lemma DeleteStepDone(b: PurlBinding, uri: string, o: Oracles, respond: (nat, Request) -> Outcome, n: nat)
    requires DeleteStep(b, uri, o, respond, n).status.Done?
    ensures var one := DeleteStep(b, uri, o, respond, n);
            && o.pathOf(uri).Some? && |one.log| == 2
            && one.log[0] == LookedUpEntry(o.pathOf(uri).value, o.purlIdOf(o.pathOf(uri).value))
            && DeleteOutcome(one.log[1])
  {
  }

  /** One completed pass followed by the rest of the loop. */
  lemma DeleteLoopNext(b: PurlBinding, uris: seq<string>, i: nat, o: Oracles,
                       respond: (nat, Request) -> Outcome, n: nat, m: nat)
    requires i < |uris|
    requires DeleteStep(b, uris[i], o, respond, n).status.Done?
    requires m == n + |DeleteStep(b, uris[i], o, respond, n).sent|
    ensures var one := DeleteStep(b, uris[i], o, respond, n);
            var rest := DeleteLoop(b, uris, i + 1, o, respond, m);
            DeleteLoop(b, uris, i, o, respond, n) == Run(one.sent + rest.sent, one.log + rest.log, rest.status)
  {
  }

  /** The DELETEs the loop means to send when every one of them is answered:
      one per stored URI whose PURL exists, in list order, up to the first
      URI without a path. */
  function PlannedDeletes(b: PurlBinding, uris: seq<string>, from: nat, o: Oracles): seq<Request>
    decreases |uris| - from
  {
    if from >= |uris| || o.pathOf(uris[from]).None? then []
    else
      var id := o.purlIdOf(o.pathOf(uris[from]).value);
      (if id > 0 then [DeleteRequest(b, id)] else []) + PlannedDeletes(b, uris, from + 1, o)
  }

  /** A pass that completes sent exactly the head of the plan. */
  lemma PlannedDeletesStep(b: PurlBinding, uris: seq<string>, from: nat, o: Oracles,
                           respond: (nat, Request) -> Outcome, n: nat)
    requires from < |uris|
    requires DeleteStep(b, uris[from], o, respond, n).status.Done?
    ensures PlannedDeletes(b, uris, from, o)
              == DeleteStep(b, uris[from], o, respond, n).sent + PlannedDeletes(b, uris, from + 1, o)
  {
    DeleteStepShape(b, uris[from], o, respond, n);
  }

  /** Every planned DELETE is for an existing PURL: its URI carries an id
      greater than 0. */
  lemma {:induction false} PlannedDeletesExist(b: PurlBinding, uris: seq<string>, from: nat, o: Oracles)
    ensures forall r :: r in PlannedDeletes(b, uris, from, o) ==>
              exists id :: id > 0 && r == DeleteRequest(b, id)
    decreases |uris| - from
  {
    if from < |uris| && o.pathOf(uris[from]).Some? {
      PlannedDeletesExist(b, uris, from + 1, o);
      var id := o.purlIdOf(o.pathOf(uris[from]).value);
      var head: seq<Request> := if id > 0 then [DeleteRequest(b, id)] else [];
      forall r | r in PlannedDeletes(b, uris, from, o) ensures exists id :: id > 0 && r == DeleteRequest(b, id) {
        if r in head {
          assert id > 0 && r == DeleteRequest(b, id);
        } else {
          assert r in PlannedDeletes(b, uris, from + 1, o);
        }
      }
    }
  }

  /** The loop sends a prefix of the planned DELETEs and logs at most two
      entries per URI; it completes exactly when every URI got both its lookup
      and its outcome (deleted, failed or skipped), and then it sent all of
      them. */
  lemma {:induction false} DeleteLoopRequests(b: PurlBinding, uris: seq<string>, from: nat, o: Oracles,
                                              respond: (nat, Request) -> Outcome, n: nat)
    requires from <= |uris|
    ensures var run := DeleteLoop(b, uris, from, o, respond, n);
            && |run.sent| <= |uris| - from && |run.log| <= 2 * (|uris| - from)
            && run.sent <= PlannedDeletes(b, uris, from, o)
            && (run.status.Done? <==> |run.log| == 2 * (|uris| - from))
            && (run.status.Done? ==> run.sent == PlannedDeletes(b, uris, from, o))
    decreases |uris| - from
  {
    if from < |uris| {
      var run := DeleteLoop(b, uris, from, o, respond, n);
      var one := DeleteStep(b, uris[from], o, respond, n);
      DeleteStepShape(b, uris[from], o, respond, n);
      if one.status.Done? {
        var m := n + |one.sent|;
        DeleteLoopNext(b, uris, from, o, respond, n, m);
        DeleteLoopRequests(b, uris, from + 1, o, respond, m);
        PlannedDeletesStep(b, uris, from, o, respond, n);
        var rest := DeleteLoop(b, uris, from + 1, o, respond, m);
        PrefixAfter(one.sent, rest.sent, PlannedDeletes(b, uris, from + 1, o));
      } else {
        assert run == one;
        assert one.sent <= PlannedDeletes(b, uris, from, o);
      }
    }
  }

  /** An entry the delete loop may write. */
  predicate DeleteLogKind(e: LogEntry)
  {
    e.level == Info
    && (e.event.PurlLookedUp? || e.event.PurlDeleted? || e.event.PurlDeleteFailed? || e.event.DeleteSkipped?)
  }

  /** The delete loop writes info entries only: lookups, and deleted,
      failed or skipped outcomes. */
  lemma {:induction false} DeleteLoopLog(b: PurlBinding, uris: seq<string>, from: nat, o: Oracles,
                                         respond: (nat, Request) -> Outcome, n: nat)
    requires from <= |uris|
    ensures var run := DeleteLoop(b, uris, from, o, respond, n);
            forall k :: 0 <= k < |run.log| ==> DeleteLogKind(run.log[k])
    decreases |uris| - from
  {
    if from < |uris| {
      var run := DeleteLoop(b, uris, from, o, respond, n);
      var one := DeleteStep(b, uris[from], o, respond, n);
      DeleteStepShape(b, uris[from], o, respond, n);
      if one.status.Done? {
        var m := n + |one.sent|;
        DeleteLoopNext(b, uris, from, o, respond, n, m);
        var rest := DeleteLoop(b, uris, from + 1, o, respond, m);
        DeleteLoopLog(b, uris, from + 1, o, respond, m);
        assert run.log == one.log + rest.log;
        forall k | 0 <= k < |run.log| ensures DeleteLogKind(run.log[k]) {
          if k >= 2 {
            assert run.log[k] == rest.log[k - 2];
          }
        }
      } else {
        assert run == one;
      }
    }
  }

  /** In a completed loop the URI at position k had a path, entry 2(k - from)
      of the log is the lookup of that path and the entry after it is its
      outcome: each pass logs its lookup and then its outcome, in list
      order. */
  lemma {:induction false} DeleteLoopLookup(b: PurlBinding, uris: seq<string>, from: nat, o: Oracles,
                                            respond: (nat, Request) -> Outcome, n: nat, k: nat)
    requires from <= k < |uris|
    requires DeleteLoop(b, uris, from, o, respond, n).status.Done?
    ensures var run := DeleteLoop(b, uris, from, o, respond, n);
            && o.pathOf(uris[k]).Some? && 2 * (k - from) + 1 < |run.log|
            && run.log[2 * (k - from)] == LookedUpEntry(o.pathOf(uris[k]).value, o.purlIdOf(o.pathOf(uris[k]).value))
            && DeleteOutcome(run.log[2 * (k - from) + 1])
    decreases k - from
  {
    var run := DeleteLoop(b, uris, from, o, respond, n);
    var one := DeleteStep(b, uris[from], o, respond, n);
    if one.status.Done? {
      DeleteStepDone(b, uris[from], o, respond, n);
      var m := n + |one.sent|;
      DeleteLoopNext(b, uris, from, o, respond, n, m);
      var rest := DeleteLoop(b, uris, from + 1, o, respond, m);
      assert run.log == one.log + rest.log;
      if k > from {
        DeleteLoopLookup(b, uris, from + 1, o, respond, m, k);
        var j := 2 * (k - (from + 1));
        assert run.log[j + 2] == rest.log[j];
        assert run.log[j + 3] == rest.log[j + 1];
      }
    }
  }

  /** The delete action: delete() and the state purlPath/purlId it steps
      through. */
  class DeletePurl {
    const client: Client
    const identifier: Option<Identifier>
    const oracles: Oracles
    var entity: Entity?
    var purlId: int
    var purlPath: string
    var log: seq<LogEntry>

    constructor (client: Client, identifier: Option<Identifier>, oracles: Oracles)
      ensures this.client == client && this.identifier == identifier && this.oracles == oracles
      ensures entity == null && purlId == 0 && purlPath == "" && log == []
    {
      this.client := client;
      this.identifier := identifier;
      this.oracles := oracles;
      entity := null;
      purlId := 0;
      purlPath := "";
      log := [];
    }

    /** delete(): sends exactly the requests of DeleteRun, logs exactly its
        entries and ends as it does; the entity's field is not touched. */
    method Delete() returns (status: Status)
      requires entity != null && identifier.Some?
      modifies this, client
      ensures entity == old(entity) && entity.fields == old(entity.fields)
      ensures var run := DeleteRun(identifier.value, entity.fields, oracles, client.respond, |old(client.sent)|);
              && client.sent == old(client.sent) + run.sent
              && log == old(log) + run.log
              && status == run.status
      ensures var f := identifier.value.field;
              f !in entity.fields || entity.fields[f] == [] ==>
                client.sent == old(client.sent) && log == old(log) && purlId == old(purlId) && purlPath == old(purlPath)
      ensures var f := identifier.value.field;
              status.Done? && f in entity.fields && entity.fields[f] != [] ==>
                var last := entity.fields[f][|entity.fields[f]| - 1];
                oracles.pathOf(last).Some? && purlPath == oracles.pathOf(last).value && purlId == oracles.purlIdOf(purlPath)
    {
      var id := identifier.value;
      var e := entity;
      if id.field !in e.fields || e.fields[id.field] == [] {
        return Done;
      }
      var uris := e.fields[id.field];
      ghost var sent0, log0 := client.sent, log;
      ghost var full := DeleteLoop(id.binding, uris, 0, oracles, client.respond, |client.sent|);
      var i := 0;
      while i < |uris|
        invariant 0 <= i <= |uris|
        invariant entity == e
        invariant i > 0 ==> oracles.pathOf(uris[i - 1]).Some? && purlPath == oracles.pathOf(uris[i - 1]).value
                            && purlId == oracles.purlIdOf(purlPath)
        invariant var rest := DeleteLoop(id.binding, uris, i, oracles, client.respond, |client.sent|);
                  && sent0 + full.sent == client.sent + rest.sent
                  && log0 + full.log == log + rest.log
                  && full.status == rest.status
      {
        ghost var sentBefore, logBefore := client.sent, log;
        ghost var one := DeleteStep(id.binding, uris[i], oracles, client.respond, |client.sent|);
        status := DeleteOne(id.binding, uris[i]);
        if status.Stopped? {
          return;
        }
        DeleteLoopNext(id.binding, uris, i, oracles, client.respond, |sentBefore|, |client.sent|);
        ghost var rest := DeleteLoop(id.binding, uris, i + 1, oracles, client.respond, |client.sent|);
        Regroup(sentBefore, one.sent, rest.sent);
        Regroup(logBefore, one.log, rest.log);
        i := i + 1;
      }
      status := Done;
    }

    /** One pass of the loop in delete(): the URI's path becomes purlPath, the
        id looked up for it purlId; then either one DELETE goes out and its
        answer is logged, or the skip is logged. */
    method DeleteOne(b: PurlBinding, uri: string) returns (status: Status)
      modifies this, client
      ensures entity == old(entity)
      ensures var one := DeleteStep(b, uri, oracles, client.respond, |old(client.sent)|);
              && client.sent == old(client.sent) + one.sent
              && log == old(log) + one.log
              && status == one.status
      ensures oracles.pathOf(uri).Some? ==>
                purlPath == oracles.pathOf(uri).value && purlId == oracles.purlIdOf(purlPath)
      ensures oracles.pathOf(uri).None? ==> purlPath == old(purlPath) && purlId == old(purlId)
      ensures status.Done? ==> oracles.pathOf(uri).Some?
    {
      var path := oracles.pathOf(uri);
      if path.None? {
        return Stopped(TypeError(PathTypeMessage));
      }
      purlPath := path.value;
      purlId := oracles.purlIdOf(purlPath);
      log := log + [LookedUpEntry(purlPath, purlId)];
      if purlId > 0 {
        var req := DeleteRequest(b, purlId);
        var outcome := client.Send(req);
        var result := PurlRequest(outcome);
        if result.Err? {
          return Stopped(result.error);
        }
        log := log + [HandleDeleteResponse(result.value)];
      } else {
        log := log + [LogEntry(Info, DeleteSkipped(purlPath))];
      }
      status := Done;
    }
  }
}
