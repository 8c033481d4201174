/** One audited remote call: what reaches the log, and what the caller is told when it fails. */
module AuditedMutation {
  import opened Wrappers
  import opened JsText
  import opened AuditTrail

  datatype TransportCode = Timeout | Network | Http(status: int) | InvalidJson | NotFound | Redirect

  /** The errors the code tells apart. */
  datatype Error =
    | Transport(code: TransportCode)
    | Public(ambiguous: Option<bool>)
    | PostSideEffect(op: JsString)
    | RemoteFailureAudit(op: JsString)
    | OtherError

  /** An error on its way to the caller, with the operation id attached to it, if any. */
  datatype Thrown = Thrown(error: Error, operationId: Option<JsString>)

  /** Why a log line was not written: a state error, or an error of the file system. */
  datatype AuditFault = StateFault | FileFault

  function FaultError(f: AuditFault): (e: Error) {
    if f == StateFault then Public(None) else OtherError
  }

  predicate Unresolved(code: TransportCode) {
    code == Timeout || code == Network || code == InvalidJson || code == Redirect
  }

  predicate AmbiguousMutation(e: Error) {
    (e.Transport? && Unresolved(e.code)) || e == Public(Some(true))
  }

  datatype Remote = Returned | Raised(error: Error)

  datatype Event = Logged(line: Line) | RemoteStarted

  datatype Result = Completed(op: JsString) | Failure(thrown: Thrown)

  /** The log writer of one process: each write appends its line or throws and appends nothing. */
  class AuditWriter {
    ghost var events: seq<Event>
    var log: seq<Line>

    constructor ()
      ensures events == [] && log == []
    {
      events, log := [], [];
    }

    method Write(line: Line, fault: Option<AuditFault>) returns (thrown: Option<Thrown>)
      modifies this
      ensures fault.None? ==> thrown == None && log == old(log) + [line] && events == old(events) + [Logged(line)]
      ensures fault.Some? ==>
              thrown == Some(Thrown(FaultError(fault.value), None)) && log == old(log) && events == old(events)
    {
      if fault.Some? {
        return Some(Thrown(FaultError(fault.value), None));
      }
      log := log + [line];
      events := events + [Logged(line)];
      thrown := None;
    }

    method RunAudited(op: JsString, remote: Remote, attemptFault: Option<AuditFault>, closeFault: Option<AuditFault>)
      returns (r: Result)
      modifies this
      ensures events == old(events) + Trace(op, remote, attemptFault, closeFault)
      ensures log == old(log) + Lines(op, remote, attemptFault, closeFault)
      ensures r == Outcome(op, remote, attemptFault, closeFault)
    {
      var refused := Write(Line(op, Attempted), attemptFault);
      if refused.Some? {
        return Failure(refused.value);
      }
      events := events + [RemoteStarted];
      if remote.Returned? {
        var unlogged := Write(Line(op, Succeeded), closeFault);
        return if unlogged.Some? then Failure(Thrown(PostSideEffect(op), Some(op))) else Completed(op);
      }
      if remote.error.PostSideEffect? {
        return Failure(Thrown(remote.error, Some(remote.error.op)));
      }
      var outcome := if AmbiguousMutation(remote.error) then AmbiguousOutcome else Failed;
      var unlogged := Write(Line(op, outcome), closeFault);
      r := if unlogged.Some? then Failure(Thrown(RemoteFailureAudit(op), Some(op)))
        else Failure(Thrown(remote.error, Some(op)));
    }
  }

  /******* What one call does *******/

  function ClosingLine(op: JsString, remote: Remote): (l: Option<Line>) {
    match remote
    case Returned => Some(Line(op, Succeeded))
    case Raised(PostSideEffect(_)) => None
    case Raised(e) => Some(Line(op, if AmbiguousMutation(e) then AmbiguousOutcome else Failed))
  }

  function Trace(op: JsString, remote: Remote, attemptFault: Option<AuditFault>,
                 closeFault: Option<AuditFault>): (es: seq<Event>) {
    if attemptFault.Some? then []
    else
      var closing := ClosingLine(op, remote);
      [Logged(Line(op, Attempted)), RemoteStarted] +
      if closing.Some? && closeFault.None? then [Logged(closing.value)] else []
  }

  function Lines(op: JsString, remote: Remote, attemptFault: Option<AuditFault>,
                 closeFault: Option<AuditFault>): (ls: seq<Line>) {
    if attemptFault.Some? then []
    else
      var closing := ClosingLine(op, remote);
      [Line(op, Attempted)] + if closing.Some? && closeFault.None? then [closing.value] else []
  }

  function Outcome(op: JsString, remote: Remote, attemptFault: Option<AuditFault>,
                   closeFault: Option<AuditFault>): (r: Result) {
    if attemptFault.Some? then Failure(Thrown(FaultError(attemptFault.value), None))
    else match remote
    case Returned => if closeFault.Some? then Failure(Thrown(PostSideEffect(op), Some(op))) else Completed(op)
    case Raised(PostSideEffect(other)) => Failure(Thrown(PostSideEffect(other), Some(other)))
    case Raised(e) =>
      Failure(if closeFault.Some? then Thrown(RemoteFailureAudit(op), Some(op)) else Thrown(e, Some(op)))
  }

  /******* What the caller is told *******/

  datatype Code = PublicCode | AuditPostSideEffect | AuditRemoteFailure | Nodel(code: TransportCode) | Internal

  datatype Status = SucceededAuditFailed | AmbiguousStatus | RemoteFailed | FailedStatus

  datatype ToolError =
    ToolError(code: Code, retryable: bool, ambiguous: bool, operationId: Option<JsString>, status: Option<Status>)

  /** An attached operation id counts only when it is not empty. */
  function ReadOperationId(t: Thrown): (id: Option<JsString>) {
    if t.operationId.Some? && t.operationId.value != [] then t.operationId else None
  }

  function ClassifyToolError(t: Thrown): (e: ToolError) {
    var id := ReadOperationId(t);
    match t.error
    case Public(ambiguous) => ToolError(PublicCode, false, ambiguous == Some(true), id, None)
    case PostSideEffect(op) => ToolError(AuditPostSideEffect, false, true, Some(op), Some(SucceededAuditFailed))
    case RemoteFailureAudit(op) => ToolError(AuditRemoteFailure, false, true, Some(op), None)
    case Transport(code) =>
      var retryable := code == Timeout || code == Network || (code.Http? && code.status >= 500);
      ToolError(Nodel(code), retryable, id.Some? && Unresolved(code), id, None)
    case OtherError => ToolError(Internal, false, false, id, None)
  }

  function ToolStatus(e: ToolError): (s: Status) {
    if e.status.Some? then e.status.value
    else if e.ambiguous then AmbiguousStatus
    else if e.code.Nodel? then RemoteFailed
    else FailedStatus
  }

  /******* Properties *******/

  /** The log leaves the operation open: attempted, and neither succeeded nor failed. */
  predicate LeftOpen(ls: seq<Line>, op: JsString) {
    Line(op, Attempted) in ls && !Terminal(ls, op)
  }

  /**
   The caller is told "ambiguous" exactly when the log leaves the operation open. Two cases break
   this: a remote call that itself throws the audit-failure error while its end is logged, and an
   empty operation id on an unresolved transport error.
   */
  lemma AmbiguousIffLeftOpen(op: JsString, remote: Remote, attemptFault: Option<AuditFault>,
                             closeFault: Option<AuditFault>)
    requires Outcome(op, remote, attemptFault, closeFault).Failure?
    ensures var told := ClassifyToolError(Outcome(op, remote, attemptFault, closeFault).thrown);
            var ls := Lines(op, remote, attemptFault, closeFault);
            (told.ambiguous <==> LeftOpen(ls, op)) <==>
            !(attemptFault.None? && closeFault.None? && remote.Raised? &&
              (remote.error.RemoteFailureAudit? ||
               (op == [] && remote.error.Transport? && Unresolved(remote.error.code))))
  {
    var ls := Lines(op, remote, attemptFault, closeFault);
    var closing := ClosingLine(op, remote);
    if attemptFault.None? {
      assert ls[0] == Line(op, Attempted);
      if closing.Some? && closeFault.None? {
        assert ls == [Line(op, Attempted), closing.value];
        assert ls[1] == closing.value;
      } else {
        assert ls == [Line(op, Attempted)];
      }
    }
  }

  /** The transport errors that leave open whether the node did what it was asked. */
  predicate NoAnswer(e: Error) {
    e == Transport(Timeout) || e == Transport(Network) || e == Transport(InvalidJson) || e == Transport(Redirect)
  }

  /******* Interleaved calls on one log *******/

  /** Where a call is: its attempt was refused, its remote call is under way, or it has ended. */
  datatype CallState = Refused(fault: AuditFault) | Under | Ended(remote: Remote, closeFault: Option<AuditFault>)

  datatype Journal = Journal(log: seq<Line>, calls: map<JsString, CallState>)

  /** Operation ids are fresh: a call starts once and ends once. */
  datatype Turn =
    | Start(op: JsString, fault: Option<AuditFault>)
    | Finish(op: JsString, remote: Remote, fault: Option<AuditFault>)

  predicate Enabled(j: Journal, t: Turn) {
    match t
    case Start(op, _) => op !in j.calls
    case Finish(op, _, _) => op in j.calls && j.calls[op] == Under
  }

  function Next(j: Journal, t: Turn): (r: Journal) {
    match t
    case Start(op, fault) =>
      if fault.Some? then j.(calls := j.calls[op := Refused(fault.value)])
      else Journal(j.log + [Line(op, Attempted)], j.calls[op := Under])
    case Finish(op, remote, fault) =>
      var closing := ClosingLine(op, remote);
      Journal(if closing.Some? && fault.None? then j.log + [closing.value] else j.log,
              j.calls[op := Ended(remote, fault)])
  }

  predicate Run(j: Journal, turns: seq<Turn>)
    decreases |turns|
  {
    turns == [] || (Enabled(j, turns[0]) && Run(Next(j, turns[0]), turns[1..]))
  }

  function After(j: Journal, turns: seq<Turn>): (r: Journal)
    decreases |turns|
  {
    if turns == [] then j else After(Next(j, turns[0]), turns[1..])
  }

  /** The lines of one operation, in log order. */
  function LinesOf(log: seq<Line>, op: JsString): (ls: seq<Line>)
    decreases |log|
  {
    if log == [] then []
    else
      var n := |log| - 1;
      LinesOf(log[..n], op) + if log[n].op == op then [log[n]] else []
  }

  /** What a call should have logged so far. */
  function Expected(j: Journal, op: JsString): (ls: seq<Line>) {
    if op !in j.calls then []
    else match j.calls[op]
    case Refused(fault) => Lines(op, Returned, Some(fault), None)
    case Under => [Line(op, Attempted)]
    case Ended(remote, closeFault) => Lines(op, remote, None, closeFault)
  }

  lemma LinesOfAppended(log: seq<Line>, line: Line, op: JsString)
    ensures LinesOf(log + [line], op) == LinesOf(log, op) + if line.op == op then [line] else []
  {
    assert (log + [line])[..|log|] == log;
  }

  /** What a turn appends to the log. */
  function Added(t: Turn): (ls: seq<Line>) {
    if t.fault.Some? then []
    else match t
    case Start(op, _) => [Line(op, Attempted)]
    case Finish(op, remote, _) => if ClosingLine(op, remote).Some? then [ClosingLine(op, remote).value] else []
  }

  lemma TurnAppends(j: Journal, t: Turn)
    ensures Next(j, t).log == j.log + Added(t) && |Added(t)| <= 1
    ensures forall l :: l in Added(t) ==> l.op == t.op
  {
  }

  lemma LinesOfAfterTurn(j: Journal, t: Turn, op: JsString)
    ensures LinesOf(Next(j, t).log, op) == LinesOf(j.log, op) + if t.op == op then Added(t) else []
  {
    TurnAppends(j, t);
    if Added(t) != [] {
      LinesOfAppended(j.log, Added(t)[0], op);
      assert Added(t) == [Added(t)[0]] && Added(t)[0] in Added(t);
    }
  }

  lemma ExpectedAfterTurn(j: Journal, t: Turn, op: JsString)
    requires Enabled(j, t)
    ensures Expected(Next(j, t), op) == Expected(j, op) + if t.op == op then Added(t) else []
  {
  }

  /** Other operations' turns leave an operation's lines alone; its own add exactly what they should. */
  lemma TurnLogsExpected(j: Journal, t: Turn, op: JsString)
    requires Enabled(j, t) && LinesOf(j.log, op) == Expected(j, op)
    ensures LinesOf(Next(j, t).log, op) == Expected(Next(j, t), op)
  {
    LinesOfAfterTurn(j, t, op);
    ExpectedAfterTurn(j, t, op);
  }

  lemma {:induction false} RunLogsExpected(j: Journal, turns: seq<Turn>, op: JsString)
    requires Run(j, turns) && LinesOf(j.log, op) == Expected(j, op)
    ensures LinesOf(After(j, turns).log, op) == Expected(After(j, turns), op)
    decreases |turns|
  {
    if turns != [] {
      TurnLogsExpected(j, turns[0], op);
      RunLogsExpected(Next(j, turns[0]), turns[1..], op);
    }
  }

  lemma {:induction false} LinesOfKeepsLines(log: seq<Line>, line: Line)
    ensures line in log <==> line in LinesOf(log, line.op)
    decreases |log|
  {
    if log != [] {
      var n := |log| - 1;
      LinesOfKeepsLines(log[..n], line);
      assert log == log[..n] + [log[n]];
    }
  }

  const EMPTY := Journal([], map[])

  /** In every interleaving an operation has no line, its attempt, or its attempt and then one closing line. */
  lemma OneClosingPerOperation(turns: seq<Turn>, op: JsString)
    requires Run(EMPTY, turns)
    ensures var ls := LinesOf(After(EMPTY, turns).log, op);
            |ls| <= 2 && (|ls| > 0 ==> ls[0] == Line(op, Attempted)) && (|ls| == 2 ==> ls[1].outcome != Attempted)
  {
    RunLogsExpected(EMPTY, turns, op);
  }

  /** In every interleaving an operation's remote call has started exactly if its attempt is on the log. */
  lemma RemoteStartedIffAttempted(turns: seq<Turn>, op: JsString)
    requires Run(EMPTY, turns)
    ensures var j := After(EMPTY, turns);
            op in j.calls && !j.calls[op].Refused? <==> Line(op, Attempted) in j.log
  {
    var j := After(EMPTY, turns);
    RunLogsExpected(EMPTY, turns, op);
    LinesOfKeepsLines(j.log, Line(op, Attempted));
    if op in j.calls && !j.calls[op].Refused? {
      assert Expected(j, op)[0] == Line(op, Attempted);
    }
  }

  /** The caller is told that the operation of this id succeeded but could not be logged. */
  predicate ToldUnlogged(t: Thrown, op: JsString) {
    var e := ClassifyToolError(t);
    ToolStatus(e) == SucceededAuditFailed && e.operationId == Some(op)
  }

  /**
   Whenever a call has ended, then and ever after, in every interleaving: it completed exactly if its
   success is on the whole log; and its caller was told that this operation succeeded unlogged exactly
   if the remote call returned and its line was refused, or itself threw that very error.
   */
  lemma CompletedIffLogged(turns: seq<Turn>, op: JsString)
    requires Run(EMPTY, turns) && op in After(EMPTY, turns).calls && After(EMPTY, turns).calls[op].Ended?
    ensures var j := After(EMPTY, turns);
            var c := j.calls[op];
            var r := Outcome(op, c.remote, None, c.closeFault);
            (r.Completed? <==> Line(op, Succeeded) in j.log) &&
            (r.Failure? && ToldUnlogged(r.thrown, op) <==>
             (c.remote.Returned? && c.closeFault.Some?) || c.remote == Raised(PostSideEffect(op)))
  {
    var j := After(EMPTY, turns);
    var c := j.calls[op];
    RunLogsExpected(EMPTY, turns, op);
    LinesOfKeepsLines(j.log, Line(op, Succeeded));
    var closing := ClosingLine(op, c.remote);
    if closing.Some? && c.closeFault.None? {
      assert Expected(j, op) == [Line(op, Attempted), closing.value];
      assert Expected(j, op)[1] == closing.value;
    }
  }

  /**
   Whenever a call has failed, then and ever after, in every interleaving: its caller was told
   "ambiguous" exactly if the whole log leaves the operation open, except in the two cases above.
   */
  lemma ToldAmbiguousIffLogOpen(turns: seq<Turn>, op: JsString)
    requires Run(EMPTY, turns) && op in After(EMPTY, turns).calls && After(EMPTY, turns).calls[op].Ended?
    requires var c := After(EMPTY, turns).calls[op]; Outcome(op, c.remote, None, c.closeFault).Failure?
    ensures var j := After(EMPTY, turns);
            var c := j.calls[op];
            (ClassifyToolError(Outcome(op, c.remote, None, c.closeFault).thrown).ambiguous <==>
             LeftOpen(j.log, op)) <==>
            !(c.closeFault.None? && c.remote.Raised? &&
              (c.remote.error.RemoteFailureAudit? ||
               (op == [] && c.remote.error.Transport? && Unresolved(c.remote.error.code))))
  {
    var j := After(EMPTY, turns);
    RunLogsExpected(EMPTY, turns, op);
    AmbiguousIffLeftOpen(op, j.calls[op].remote, None, j.calls[op].closeFault);
    LinesOfKeepsLines(j.log, Line(op, Attempted));
    LinesOfKeepsLines(j.log, Line(op, Succeeded));
    LinesOfKeepsLines(j.log, Line(op, Failed));
  }

  /** The lines that tell how an ended call's remote part went. */
  function EndLines(op: JsString, remote: Remote): (ls: seq<Line>) {
    match remote
    case Returned => [Line(op, Succeeded)]
    case Raised(PostSideEffect(_)) => []
    case Raised(e) => [Line(op, if NoAnswer(e) || e == Public(Some(true)) then AmbiguousOutcome else Failed)]
  }

  /**
   In every interleaving, an ended call's operation has its attempt on the log and, unless that line was refused,
   its end: success; ambiguous, if there was no answer or the error says so; otherwise failed. A transport error
   whose line was written leaves the operation open exactly if there was no answer.
   */
  lemma LogTellsEnd(turns: seq<Turn>, op: JsString)
    requires Run(EMPTY, turns) && op in After(EMPTY, turns).calls && After(EMPTY, turns).calls[op].Ended?
    ensures var j := After(EMPTY, turns);
            var c := j.calls[op];
            LinesOf(j.log, op) ==
              [Line(op, Attempted)] + (if c.closeFault.None? then EndLines(op, c.remote) else []) &&
            (c.closeFault.None? && c.remote.Raised? && c.remote.error.Transport? ==>
               (LeftOpen(j.log, op) <==> NoAnswer(c.remote.error)))
  {
    var j := After(EMPTY, turns);
    RunLogsExpected(EMPTY, turns, op);
    LinesOfKeepsLines(j.log, Line(op, Attempted));
    LinesOfKeepsLines(j.log, Line(op, Succeeded));
    LinesOfKeepsLines(j.log, Line(op, Failed));
    var ls := LinesOf(j.log, op);
    assert ls[0] == Line(op, Attempted);
    if |ls| > 1 {
      assert ls == [ls[0], ls[1]] && ls[1] in ls;
    }
  }

  /**
   What the caller of a failed call is told, from the remote call's end and whether its line was refused: whether
   to try again, whether the outcome is open, and under which operation.
   */
  lemma ToldExactly(op: JsString, remote: Remote, closeFault: Option<AuditFault>)
    requires Outcome(op, remote, None, closeFault).Failure? && op != []
    ensures var e := ClassifyToolError(Outcome(op, remote, None, closeFault).thrown);
            (e.retryable <==>
               closeFault.None? && remote.Raised? && remote.error.Transport? &&
               (remote.error.code == Timeout || remote.error.code == Network ||
                (remote.error.code.Http? && remote.error.code.status >= 500))) &&
            (remote.Raised? && remote.error.PostSideEffect? ==>
               e.operationId == Some(remote.error.op) && ToolStatus(e) == SucceededAuditFailed) &&
            (remote.Returned? ==> e.operationId == Some(op) && ToolStatus(e) == SucceededAuditFailed) &&
            (remote.Raised? && !remote.error.PostSideEffect? && closeFault.Some? ==>
               e.operationId == Some(op) && ToolStatus(e) == AmbiguousStatus) &&
            (remote.Raised? && !remote.error.PostSideEffect? && !remote.error.RemoteFailureAudit? &&
             closeFault.None? ==>
               e.operationId == Some(op) &&
               ToolStatus(e) == if NoAnswer(remote.error) || remote.error == Public(Some(true)) then AmbiguousStatus
                                else if remote.error.Transport? then RemoteFailed else FailedStatus)
  {
  }

  /** A call whose attempt was refused never reached the node: its caller is told of a plain failure, under no id. */
  lemma RefusedAttemptTold(turns: seq<Turn>, op: JsString)
    requires Run(EMPTY, turns) && op in After(EMPTY, turns).calls && After(EMPTY, turns).calls[op].Refused?
    ensures var j := After(EMPTY, turns);
            var e := ClassifyToolError(Outcome(op, Returned, Some(j.calls[op].fault), None).thrown);
            Line(op, Attempted) !in j.log && Line(op, Succeeded) !in j.log &&
            !e.retryable && !e.ambiguous && e.operationId == None && ToolStatus(e) == FailedStatus
  {
    var j := After(EMPTY, turns);
    RunLogsExpected(EMPTY, turns, op);
    LinesOfKeepsLines(j.log, Line(op, Attempted));
    LinesOfKeepsLines(j.log, Line(op, Succeeded));
  }
}
