/**
  The boundary of the update action: execute() runs update() and turns what
  it throws into a single log entry, so that a failed identifier update never
  reaches the code that triggered it. Only PHP Errors (here TypeError), which
  no `catch (\Exception …)` catches, get through.
*/
module UpdateIdentifier {
  import opened Values
  import opened Http

  /** The catch ladder of execute() as PHP resolves it. Its first catch names
      UndefinedLinkTemplateException without importing it, so the name denotes
      a class of the action's own namespace that does not exist and the
      clause catches nothing: the entity-URL exception (a RuntimeException)
      falls through to the generic branch and is logged as an error. */
  function ReportAsWritten(f: Failure): (e: Option<LogEntry>)
    ensures e.None? <==> !f.IsException()
    ensures e.Some? ==> e.value.level == Error
    ensures e.Some? ==> e.value.event.UpdateFailed? && e.value.event.message == f.Message()
    ensures e.Some? ==> (e.value.event.cause == FieldNotFound <==> f.InvalidArgument?)
  {
    match f
    case TypeError(_) => None
    case InvalidArgument(m) => Some(LogEntry(Error, UpdateFailed(FieldNotFound, m)))
    case _ => Some(LogEntry(Error, UpdateFailed(OtherError, f.Message())))
  }

  /** The catch ladder as its first clause means it: the entity-URL exception
      is logged as a warning, an InvalidArgumentException as a missing field,
      every other Exception as a generic error; a PHP Error is not caught. */
  function Report(f: Failure): (e: Option<LogEntry>)
    ensures e.None? <==> !f.IsException()
    ensures e.Some? ==> e.value.event.UpdateFailed? && e.value.event.message == f.Message()
    ensures e.Some? ==> (e.value.level == Warning <==> f.EntityUrlError?)
    ensures e.Some? ==> (e.value.level == Error <==> !f.EntityUrlError?)
    ensures e.Some? ==> (e.value.event.cause == EntityUrl <==> f.EntityUrlError?)
    ensures e.Some? ==> (e.value.event.cause == FieldNotFound <==> f.InvalidArgument?)
  {
    match f
    case TypeError(_) => None
    case EntityUrlError(m) => Some(LogEntry(Warning, UpdateFailed(EntityUrl, m)))
    case InvalidArgument(m) => Some(LogEntry(Error, UpdateFailed(FieldNotFound, m)))
    case _ => Some(LogEntry(Error, UpdateFailed(OtherError, f.Message())))
  }

  /** The two ladders part on the entity-URL exception, and only there. */
  lemma EntityUrlWarningLost(f: Failure)
    ensures ReportAsWritten(f) != Report(f) <==> f.EntityUrlError?
    ensures f.EntityUrlError? ==> ReportAsWritten(f) == Some(LogEntry(Error, UpdateFailed(OtherError, f.text)))
  {
  }

  /** The log entries execute() adds once update() has ended with s: one
      entry for a caught exception, as the catch ladder is written (always an
      error), none otherwise. */
  function Boundary(s: Status): (entries: seq<LogEntry>)
    ensures |entries| <= 1
    ensures |entries| == 1 <==> s.Stopped? && s.failure.IsException()
    ensures |entries| == 1 ==> ReportAsWritten(s.failure) == Some(entries[0]) && entries[0].level == Error
  {
    if s.Stopped? && ReportAsWritten(s.failure).Some? then [ReportAsWritten(s.failure).value] else []
  }

  /** The entries execute() would add with the catch ladder it intends: the
      same count, but a warning for the entity-URL exception. */
  function BoundaryIntended(s: Status): (entries: seq<LogEntry>)
    ensures |entries| == |Boundary(s)|
    ensures |entries| == 1 ==> Report(s.failure) == Some(entries[0])
    ensures |entries| == 1 ==> (entries[0].level == Warning <==> s.failure.EntityUrlError?)
  {
    if s.Stopped? && Report(s.failure).Some? then [Report(s.failure).value] else []
  }

  /** What leaves execute() after update() ended with s: only a PHP Error. */
  function Escaped(s: Status): (f: Option<Failure>)
    ensures f.Some? <==> s.Stopped? && !s.failure.IsException()
    ensures f.Some? ==> f.value == s.failure
  {
    if s.Stopped? && !s.failure.IsException() then Some(s.failure) else None
  }
}
