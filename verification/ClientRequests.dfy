/**
 Requests and shutdown: any number of roundtrips with retries, the pending table that matches
 replies to them, and any number of closers, interleaved step by step. A step is what runs
 between two points at which another task can run.
 */
module ClientRequests {
  import opened Wrappers

  type Task = nat
  type ReqId = nat

  /** Request ids are 32-bit; 0 marks an unsolicited push and is never issued. */
  const ID_SPAN: nat := 0x1_0000_0000

  datatype Reply = Reply(id: ReqId, body: int)

  datatype Result = Answered(reply: Reply) | Unanswered | Closed | SendFailed | Dropped

  /** The requester's end of its one-shot channel. */
  datatype Channel = Open | Replied(reply: Reply) | HungUp

  /**
   Where a roundtrip stands: waiting to enter, entered, past the closed check, between
   datagrams, committed to a send, waiting for the reply, backing off, or finished.
   */
  datatype Phase =
    | Picked
    | Entered
    | Opened
    | Sending(attempt: nat, next: nat)
    | Committed(attempt: nat, next: nat)
    | Awaiting(attempt: nat)
    | BackingOff(attempt: nat)
    | Finished(result: Result)

  datatype Request = Request(id: ReqId, ticket: nat, datagrams: nat, attempts: nat, phase: Phase, channel: Channel) {
    /** Holds the read side of the requests lock. */
    predicate HoldsLock() {
      !phase.Picked? && !phase.Finished?
    }

    /** Past the closed check: could still send. */
    predicate CanSend() {
      HoldsLock() && !phase.Entered?
    }

    /** Has put its sender in the pending table, and not taken its leave. */
    predicate Posted() {
      CanSend() && !phase.Opened?
    }
  }

  /** A closer sets the flag, clears the pending table, joins the requests, and returns. */
  datatype Closer = Starting | Flagged | Cleared | Holding | Returned

  datatype State = State(
    closed: bool, joined: bool, writer: Option<nat>, pending: map<ReqId, Task>, requests: map<Task, Request>,
    closers: map<nat, Closer>, issued: nat, sent: seq<Task>)

  datatype Step =
    | Issue(t: Task, datagrams: nat, attempts: nat)
    | Enter(t: Task)
    | CheckOpen(t: Task)
    | Post(t: Task)
    | CheckSend(t: Task)
    | Send(t: Task)
    | FailSend(t: Task)
    | AllSent(t: Task)
    | Receive(t: Task)
    | TimeOut(t: Task)
    | Resume(t: Task)
    | Exhaust(t: Task)
    | Abandon(t: Task)
    | Deliver(reply: Reply)
    | BeginClose(c: nat)
    | SetFlag(c: nat)
    | ClearPending(c: nat)
    | Join(c: nat)
    | Return(c: nat)

  function Start(): State {
    State(false, false, None, map[], map[], map[], 1, [])
  }

  predicate In(s: State, t: Task) {
    t in s.requests
  }

  predicate Enabled(s: State, step: Step) {
    match step
    case Issue(t, _, _) => t !in s.requests
    case Enter(t) => In(s, t) && s.requests[t].phase.Picked? && s.writer.None?
    case CheckOpen(t) => In(s, t) && s.requests[t].phase.Entered?
    case Post(t) => In(s, t) && s.requests[t].phase.Opened?
    case CheckSend(t) => In(s, t) && s.requests[t].phase.Sending? &&
        s.requests[t].phase.next < s.requests[t].datagrams &&
                         s.requests[t].phase.attempt < s.requests[t].attempts
    case Send(t) => In(s, t) && s.requests[t].phase.Committed?
    case FailSend(t) => In(s, t) && s.requests[t].phase.Committed?
    case AllSent(t) => In(s, t) && s.requests[t].phase.Sending? &&
        s.requests[t].phase.next >= s.requests[t].datagrams &&
                       s.requests[t].phase.attempt < s.requests[t].attempts
    case Receive(t) => In(s, t) && (s.requests[t].phase.Awaiting? || s.requests[t].phase.BackingOff?) &&
                       !s.requests[t].channel.Open?
    case TimeOut(t) => In(s, t) && s.requests[t].phase.Awaiting? && s.requests[t].channel.Open?
    case Resume(t) => In(s, t) && s.requests[t].phase.BackingOff? && s.requests[t].channel.Open?
    case Exhaust(t) => In(s, t) && s.requests[t].phase.Sending? && s.requests[t].phase.attempt >= s.requests[t].attempts
    case Abandon(t) => In(s, t) && !s.requests[t].phase.Finished?
    case Deliver(_) => true
    case BeginClose(c) => c !in s.closers
    case SetFlag(c) => c in s.closers && s.closers[c].Starting?
    case ClearPending(c) => c in s.closers && s.closers[c].Flagged?
    case Join(c) => c in s.closers && s.closers[c].Cleared? && s.writer.None? &&
                    forall t | t in s.requests :: !s.requests[t].HoldsLock()
    case Return(c) => c in s.closers && s.closers[c].Holding?
  }

  function At(s: State, t: Task, phase: Phase): State
    requires In(s, t)
  {
    s.(requests := s.requests[t := s.requests[t].(phase := phase)])
  }

  /** The sender under an id is dropped, whosever it is. */
  function Unsent(requests: map<Task, Request>, pending: map<ReqId, Task>, id: ReqId): (r: map<Task, Request>)
    ensures r.Keys == requests.Keys
    ensures forall t | t in requests :: r[t] == requests[t].(channel := r[t].channel)
    ensures forall t | t in requests && !(id in pending && pending[id] == t) :: r[t] == requests[t]
    ensures forall t | t in requests && id in pending && pending[id] == t :: r[t].channel == HungUp
  {
    if id in pending && pending[id] in requests
    then requests[pending[id] := requests[pending[id]].(channel := HungUp)]
    else requests
  }

  /** A roundtrip ends: the pending entry under its id and its lock go with it. */
  function Ended(s: State, t: Task, result: Result): State
    requires In(s, t)
  {
    if s.requests[t].Posted() then
      var id := s.requests[t].id;
      At(s.(pending := s.pending - {id}, requests := Unsent(s.requests, s.pending, id)), t, Finished(result))
    else At(s, t, Finished(result))
  }

  /** Every sender in the table is dropped. */
  function Hung(requests: map<Task, Request>, pending: map<ReqId, Task>): (r: map<Task, Request>)
    ensures r.Keys == requests.Keys
    ensures forall t | t in requests :: r[t] == requests[t].(channel := r[t].channel)
  {
    map t | t in requests ::
      if requests[t].id in pending && pending[requests[t].id] == t then requests[t].(channel := HungUp) else requests[t]
  }

  function Outcome(channel: Channel): Result
    requires !channel.Open?
  {
    if channel.Replied? then Answered(channel.reply) else Closed
  }

  function Apply(s: State, step: Step): State
    requires Enabled(s, step)
  {
    match step
    case Issue(t, n, attempts) =>
      var id := s.issued % ID_SPAN;
      var s' := s.(issued := s.issued + 1);
      if id == 0 || id in s.pending then s'
      else s'.(requests := s.requests[t := Request(id, s.issued, n, attempts, Picked, HungUp)])
    case Enter(t) => At(s, t, Entered)
    case CheckOpen(t) => if s.closed then Ended(s, t, Closed) else At(s, t, Opened)
    case Post(t) =>
      var r := s.requests[t].(phase := Sending(0, 0), channel := Open);
      s.(requests := Unsent(s.requests, s.pending, r.id)[t := r], pending := s.pending[r.id := t])
    case CheckSend(t) =>
      var r := s.requests[t];
      if s.closed then Ended(s, t, Closed) else At(s, t, Committed(r.phase.attempt, r.phase.next))
    case Send(t) =>
      var r := s.requests[t];
      At(s, t, Sending(r.phase.attempt, r.phase.next + 1)).(sent := s.sent + [t])
    case FailSend(t) => Ended(s, t, SendFailed)
    case AllSent(t) => At(s, t, Awaiting(s.requests[t].phase.attempt))
    case Receive(t) => Ended(s, t, Outcome(s.requests[t].channel))
    case TimeOut(t) =>
      var r := s.requests[t];
      if r.phase.attempt + 1 < r.attempts then At(s, t, BackingOff(r.phase.attempt))
      else At(s, t, Sending(r.phase.attempt + 1, 0))
    case Resume(t) => At(s, t, Sending(s.requests[t].phase.attempt + 1, 0))
    case Exhaust(t) => Ended(s, t, Unanswered)
    case Abandon(t) => Ended(s, t, Dropped)
    case Deliver(reply) =>
      if reply.id in s.pending && s.pending[reply.id] in s.requests then
        var t := s.pending[reply.id];
        s.(pending := s.pending - {reply.id}, requests := s.requests[t := s.requests[t].(channel := Replied(reply))])
      else s
    case BeginClose(c) => s.(closers := s.closers[c := Starting])
    case SetFlag(c) => s.(closed := true, closers := s.closers[c := if s.closed then Cleared else Flagged])
    case ClearPending(c) =>
      s.(pending := map[], closers := s.closers[c := Cleared],
         requests := Hung(s.requests, s.pending))
    case Join(c) => s.(writer := Some(c), closers := s.closers[c := Holding])
    case Return(c) => s.(writer := None, joined := true, closers := s.closers[c := Returned])
  }

  ghost predicate ValidRun(s: State, steps: seq<Step>)
    decreases |steps|
  {
    steps == [] || (Enabled(s, steps[0]) && ValidRun(Apply(s, steps[0]), steps[1..]))
  }

  ghost function Run(s: State, steps: seq<Step>): State
    requires ValidRun(s, steps)
    decreases |steps|
  {
    if steps == [] then s else Run(Apply(s, steps[0]), steps[1..])
  }

  // ------------------------------------------------------------------- shutdown

  /**
   While a closer holds the requests lock nobody else does, and the client is closed; once one
   has returned, no request is past its closed check.
   */
  ghost predicate ShutDown(s: State) {
    && (s.joined || s.writer.Some? ==> s.closed && forall t | t in s.requests :: !s.requests[t].CanSend())
    && (s.writer.Some? ==> forall t | t in s.requests :: !s.requests[t].HoldsLock())
    && (forall c | c in s.closers && s.closers[c].Holding? :: s.writer == Some(c))
    && (forall c | c in s.closers && !s.closers[c].Starting? :: s.closed)
  }

  /** Steps up to a datagram's sending; the others wait, end, deliver or close. */
  predicate Outgoing(step: Step) {
    step.Issue? || step.Enter? || step.CheckOpen? || step.Post? || step.CheckSend? || step.Send? || step.AllSent?
  }

  /** An ending touches the pending table, one phase, and the channel of whoever's sender lies there. */
  lemma EndedKeeps(s: State, t: Task)
    requires In(s, t)
    ensures forall result :: EndKeeps(s, t, result)
  {
    hide Unsent;
    forall result ensures EndKeeps(s, t, result) {
    }
  }

  ghost predicate EndKeeps(s: State, t: Task, result: Result)
    requires In(s, t)
  {
    var r := Ended(s, t, result);
    && r == s.(pending := r.pending, requests := r.requests) && r.requests.Keys == s.requests.Keys
    && r.pending == (if s.requests[t].Posted() then s.pending - {s.requests[t].id} else s.pending)
    && (forall u | u in s.requests ::
          r.requests[u] == s.requests[u].(phase := r.requests[u].phase, channel := r.requests[u].channel) &&
          r.requests[u].phase == (if u == t then Finished(result) else s.requests[u].phase) &&
          r.requests[u].channel ==
            (if s.requests[t].Posted() && Displaced(s, t, u) then HungUp else s.requests[u].channel))
  }

  /** Taking the sender out from under the id of `t` takes that of `u`. */
  predicate Displaced(s: State, t: Task, u: Task)
    requires In(s, t)
  {
    s.requests[t].id in s.pending && s.pending[s.requests[t].id] == u
  }

  /** Steps that end a request, whatever it was doing. */
  predicate Ending(step: Step) {
    step.FailSend? || step.Receive? || step.Exhaust? || step.Abandon?
  }

  lemma EndingKeeps(s: State, step: Step)
    requires Enabled(s, step) && Ending(step)
    ensures In(s, step.t) && !s.requests[step.t].phase.Finished?
    ensures exists result :: Apply(s, step) == Ended(s, step.t, result) && EndKeeps(s, step.t, result)
  {
    hide EndKeeps, Ended;
    EndedKeeps(s, step.t);
    var result := match step
      case FailSend(_) => SendFailed
      case Receive(t) => Outcome(s.requests[t].channel)
      case Exhaust(_) => Unanswered
      case _ => Dropped;
    assert EndKeeps(s, step.t, result) && Apply(s, step) == Ended(s, step.t, result);
  }

  /** Once closed, nobody newly passes the closed check. */
  lemma NobodyPasses(s: State, step: Step, t: Task)
    requires s.closed && Enabled(s, step) && t in Apply(s, step).requests && Apply(s, step).requests[t].CanSend()
    ensures Apply(s, step).closed && t in s.requests && s.requests[t].CanSend()
  {
    hide Apply, Enabled;
    if Outgoing(step) {
      NobodyPassesOutgoing(s, step, t);
    } else if Ending(step) {
      NobodyPassesEnding(s, step, t);
    } else {
      NobodyPassesOtherwise(s, step, t);
    }
  }

  lemma NobodyPassesOutgoing(s: State, step: Step, t: Task)
    requires Outgoing(step) && s.closed && Enabled(s, step) && t in Apply(s, step).requests &&
             Apply(s, step).requests[t].CanSend()
    ensures Apply(s, step).closed && t in s.requests && s.requests[t].CanSend()
  {
    hide Unsent, Hung, Outcome;
  }

  lemma NobodyPassesEnding(s: State, step: Step, t: Task)
    requires Ending(step) && s.closed && Enabled(s, step) && t in Apply(s, step).requests &&
             Apply(s, step).requests[t].CanSend()
    ensures Apply(s, step).closed && t in s.requests && s.requests[t].CanSend()
  {
    EndingKeeps(s, step);
    hide Ended, Apply, Enabled;
  }

  lemma NobodyPassesOtherwise(s: State, step: Step, t: Task)
    requires !Outgoing(step) && !Ending(step) && s.closed && Enabled(s, step) && t in Apply(s, step).requests &&
             Apply(s, step).requests[t].CanSend()
    ensures Apply(s, step).closed && t in s.requests && s.requests[t].CanSend()
  {
    hide Ended, Hung, Outcome;
  }

  /** While a closer holds the lock nobody enters. */
  lemma NobodyEnters(s: State, step: Step, t: Task)
    requires s.writer.Some? && Enabled(s, step) && t in Apply(s, step).requests &&
             Apply(s, step).requests[t].HoldsLock()
    ensures t in s.requests && s.requests[t].HoldsLock()
  {
    hide Apply, Enabled;
    if Outgoing(step) {
      NobodyEntersOutgoing(s, step, t);
    } else if Ending(step) {
      NobodyEntersEnding(s, step, t);
    } else {
      NobodyEntersOtherwise(s, step, t);
    }
  }

  lemma NobodyEntersOutgoing(s: State, step: Step, t: Task)
    requires Outgoing(step) && s.writer.Some? && Enabled(s, step) && t in Apply(s, step).requests &&
             Apply(s, step).requests[t].HoldsLock()
    ensures t in s.requests && s.requests[t].HoldsLock()
  {
    hide Unsent, Hung, Outcome;
  }

  lemma NobodyEntersEnding(s: State, step: Step, t: Task)
    requires Ending(step) && s.writer.Some? && Enabled(s, step) && t in Apply(s, step).requests &&
             Apply(s, step).requests[t].HoldsLock()
    ensures t in s.requests && s.requests[t].HoldsLock()
  {
    EndingKeeps(s, step);
    hide Ended, Apply, Enabled;
  }

  lemma NobodyEntersOtherwise(s: State, step: Step, t: Task)
    requires !Outgoing(step) && !Ending(step) && s.writer.Some? && Enabled(s, step) && t in Apply(s, step).requests &&
             Apply(s, step).requests[t].HoldsLock()
    ensures t in s.requests && s.requests[t].HoldsLock()
  {
    hide Ended, Hung, Outcome;
  }

  /** What a step does to the flags and the closers. */
  lemma FlagStep(s: State, step: Step)
    requires Enabled(s, step)
    ensures var r := Apply(s, step);
            && (s.closed ==> r.closed) && (s.joined ==> r.joined)
            && (r.joined && !s.joined ==> step.Return?) && (r.writer != s.writer ==> step.Join? || step.Return?)
            && (r.sent != s.sent ==> step.Send?)
            && (r.closers != s.closers ==>
                step.BeginClose? || step.SetFlag? || step.ClearPending? || step.Join? || step.Return?)
  {
    hide Apply, Enabled;
    if Outgoing(step) {
      FlagStepOutgoing(s, step);
    } else if Ending(step) {
      FlagStepEnding(s, step);
    } else {
      FlagStepOtherwise(s, step);
    }
  }

  lemma FlagStepOutgoing(s: State, step: Step)
    requires Outgoing(step) && Enabled(s, step)
    ensures var r := Apply(s, step);
            && (s.closed ==> r.closed) && (s.joined ==> r.joined)
            && (r.joined && !s.joined ==> step.Return?) && (r.writer != s.writer ==> step.Join? || step.Return?)
            && (r.sent != s.sent ==> step.Send?)
            && (r.closers != s.closers ==>
                step.BeginClose? || step.SetFlag? || step.ClearPending? || step.Join? || step.Return?)
  {
    hide Unsent, Hung;
  }

  lemma FlagStepEnding(s: State, step: Step)
    requires Ending(step) && Enabled(s, step)
    ensures var r := Apply(s, step);
            && (s.closed ==> r.closed) && (s.joined ==> r.joined)
            && (r.joined && !s.joined ==> step.Return?) && (r.writer != s.writer ==> step.Join? || step.Return?)
            && (r.sent != s.sent ==> step.Send?)
            && (r.closers != s.closers ==>
                step.BeginClose? || step.SetFlag? || step.ClearPending? || step.Join? || step.Return?)
  {
    EndingKeeps(s, step);
    hide Ended, Apply, Enabled;
  }

  lemma FlagStepOtherwise(s: State, step: Step)
    requires !Outgoing(step) && !Ending(step) && Enabled(s, step)
    ensures var r := Apply(s, step);
            && (s.closed ==> r.closed) && (s.joined ==> r.joined)
            && (r.joined && !s.joined ==> step.Return?) && (r.writer != s.writer ==> step.Join? || step.Return?)
            && (r.sent != s.sent ==> step.Send?)
            && (r.closers != s.closers ==>
                step.BeginClose? || step.SetFlag? || step.ClearPending? || step.Join? || step.Return?)
  {
    hide Ended, Hung, Outcome;
  }

  lemma StepShutDown(s: State, step: Step)
    requires ShutDown(s) && Enabled(s, step)
    ensures ShutDown(Apply(s, step))
    ensures s.joined ==> Apply(s, step).joined && Apply(s, step).sent == s.sent
  {
    hide Unsent, Hung;
    var r := Apply(s, step);
    FlagStep(s, step);
    if s.closed {
      forall t | t in r.requests && r.requests[t].CanSend() ensures t in s.requests && s.requests[t].CanSend() {
        NobodyPasses(s, step, t);
      }
    }
    if s.writer.Some? {
      forall t | t in r.requests && r.requests[t].HoldsLock() ensures t in s.requests && s.requests[t].HoldsLock() {
        NobodyEnters(s, step, t);
      }
    }
    if step.Join? || step.Return? || step.SetFlag? || step.ClearPending? || step.BeginClose? {
      ClosersStep(s, step);
    } else {
      assert r.closers == s.closers && r.writer == s.writer && r.joined == s.joined;
    }
  }

  lemma ClosersStep(s: State, step: Step)
    requires ShutDown(s) && Enabled(s, step)
    requires step.Join? || step.Return? || step.SetFlag? || step.ClearPending? || step.BeginClose?
    ensures ShutDown(Apply(s, step))
  {
    hide Unsent;
  }

  /** After a joined close returns, no roundtrip sends: whatever was in flight, retrying, or first polled later. */
  lemma {:induction false} JoinedSilences(s: State, steps: seq<Step>)
    requires ShutDown(s) && ValidRun(s, steps)
    ensures ShutDown(Run(s, steps))
    ensures s.joined ==> Run(s, steps).sent == s.sent
    decreases |steps|
  {
    if steps != [] {
      StepShutDown(s, steps[0]);
      JoinedSilences(Apply(s, steps[0]), steps[1..]);
    }
  }

  /** The requests committed to a send. */
  ghost function InFlight(s: State): set<Task> {
    set t | t in s.requests && s.requests[t].phase.Committed?
  }

  /** A plain close lets through only the sends already committed to. */
  lemma {:induction false} ClosedSendsInFlight(s: State, steps: seq<Step>)
    requires ValidRun(s, steps) && s.closed
    ensures Run(s, steps).closed && |Run(s, steps).sent| - |s.sent| <= |InFlight(s)|
    decreases |steps|
  {
    if steps != [] {
      var t := Apply(s, steps[0]);
      ClosedStep(s, steps[0]);
      ClosedSendsInFlight(t, steps[1..]);
    }
  }

  /** Once closed, nobody newly commits to a send. */
  lemma NobodyCommits(s: State, step: Step, t: Task)
    requires s.closed && Enabled(s, step) && t in InFlight(Apply(s, step))
    ensures t in InFlight(s) && step != Send(t)
  {
    hide Unsent, Hung, Outcome;
  }

  lemma ClosedStep(s: State, step: Step)
    requires s.closed && Enabled(s, step)
    ensures var r := Apply(s, step);
            r.closed && |r.sent| + |InFlight(r)| <= |s.sent| + |InFlight(s)|
  {
    var r := Apply(s, step);
    var before, after := InFlight(s), InFlight(r);
    forall t | t in after ensures t in before && step != Send(t) {
      NobodyCommits(s, step, t);
    }
    hide InFlight, Unsent, Hung;
    FlagStep(s, step);
    if step.Send? {
      assert step.t in before by { InFlightIf(s, step.t); }
      Fewer(after, before - {step.t});
    } else {
      Fewer(after, before);
    }
  }

  lemma InFlightIf(s: State, t: Task)
    requires t in s.requests && s.requests[t].phase.Committed?
    ensures t in InFlight(s)
  {
  }

  lemma {:induction false} Fewer(a: set<Task>, b: set<Task>)
    requires a <= b
    ensures |a| <= |b|
    decreases b
  {
    if a != {} {
      var t :| t in a;
      Fewer(a - {t}, b - {t});
    }
  }

  // ------------------------------------------------------------ the pending table

  ghost predicate EntryMatches(requests: map<Task, Request>, id: ReqId, t: Task) {
    t in requests && requests[t].id == id && requests[t].Posted() && requests[t].channel.Open?
  }

  ghost predicate PostingMatches(pending: map<ReqId, Task>, t: Task, r: Request) {
    r.Posted() && r.channel.Open? ==> r.id in pending && pending[r.id] == t
  }

  /** The table holds exactly the posted requests still without an answer, under their own ids. */
  ghost predicate PendingMatches(s: State) {
    && (forall id | id in s.pending :: EntryMatches(s.requests, id, s.pending[id]))
    && (forall t | t in s.requests :: PostingMatches(s.pending, t, s.requests[t]))
  }

  ghost predicate ReplyMatches(r: Request) {
    && (r.channel.Replied? ==> r.channel.reply.id == r.id)
    && (r.phase.Finished? && r.phase.result.Answered? ==> r.phase.result.reply.id == r.id)
  }

  /** A request only ever holds, or ends with, a reply that echoes its own id. */
  ghost predicate RepliesMatch(s: State) {
    forall t | t in s.requests :: ReplyMatches(s.requests[t])
  }

  ghost predicate Matched(s: State) {
    PendingMatches(s) && RepliesMatch(s)
  }

  /** Everything but one request is as it was, or hung up on with its entry gone. */
  ghost predicate OthersKept(s: State, r: State, t: Task) {
    && (forall u | u in r.requests && u != t ::
          && u in s.requests
          && (r.requests[u] == s.requests[u] || r.requests[u] == s.requests[u].(channel := HungUp)))
    && (forall u | u in s.requests :: u in r.requests)
  }

  lemma RepliesKept(s: State, r: State, t: Task)
    requires RepliesMatch(s) && OthersKept(s, r, t) && (t in r.requests ==> ReplyMatches(r.requests[t]))
    ensures RepliesMatch(r)
  {
    forall u | u in r.requests ensures ReplyMatches(r.requests[u]) {
      assert u in s.requests ==> ReplyMatches(s.requests[u]);
    }
  }

  lemma NewMatched(s: State, t: Task, r: Request)
    requires Matched(s) && t !in s.requests && r.phase.Picked? && r.channel.HungUp?
    ensures Matched(s.(issued := s.issued + 1, requests := s.requests[t := r]))
  {
    assert ReplyMatches(r);
  }

  /** Moving on without posting or finishing. */
  lemma MoveMatched(s: State, t: Task, phase: Phase)
    requires Matched(s) && t in s.requests && !s.requests[t].phase.Finished? && !phase.Finished?
    requires s.requests[t].(phase := phase).Posted() == s.requests[t].Posted()
    ensures Matched(At(s, t, phase))
  {
  }

  lemma EndMatched(s: State, t: Task, result: Result)
    requires Matched(s) && t in s.requests && !s.requests[t].phase.Finished?
    requires result.Answered? ==> result.reply.id == s.requests[t].id
    ensures Matched(Ended(s, t, result))
  {
    EndedKeeps(s, t);
    assert EndKeeps(s, t, result);
    EndPending(s, t, result);
    hide Ended, PendingMatches;
    assert ReplyMatches(s.requests[t]);
    RepliesKept(s, Ended(s, t, result), t);
  }

  /** Whoever loses its entry is hung up on, whether it is the request that ends or not. */
  lemma EndPending(s: State, t: Task, result: Result)
    requires PendingMatches(s) && t in s.requests && !s.requests[t].phase.Finished?
    requires EndKeeps(s, t, result)
    ensures PendingMatches(Ended(s, t, result))
  {
    hide Ended;
    var r := Ended(s, t, result);
    forall i | i in r.pending ensures EntryMatches(r.requests, i, r.pending[i]) {
      assert EntryMatches(s.requests, i, s.pending[i]);
    }
    forall u | u in r.requests ensures PostingMatches(r.pending, u, r.requests[u]) {
      assert PostingMatches(s.pending, u, s.requests[u]);
    }
  }

  /** What posting does: the sender goes under the id, and whoever's lay there is hung up on. */
  ghost predicate PostKeeps(s: State, r: State, t: Task)
    requires In(s, t)
  {
    && r == s.(pending := s.pending[s.requests[t].id := t], requests := r.requests)
    && r.requests.Keys == s.requests.Keys
    && r.requests[t] == s.requests[t].(phase := Sending(0, 0), channel := Open)
    && forall u | u in s.requests && u != t ::
         r.requests[u] == s.requests[u].(channel := if Displaced(s, t, u) then HungUp else s.requests[u].channel)
  }

  lemma Posts(s: State, t: Task)
    requires Enabled(s, Post(t))
    ensures PostKeeps(s, Apply(s, Post(t)), t)
  {
    hide Unsent;
  }

  lemma PostMatched(s: State, r: State, t: Task)
    requires Matched(s) && In(s, t) && s.requests[t].phase.Opened? && PostKeeps(s, r, t)
    ensures Matched(r)
  {
    PostPending(s, r, t);
    hide PendingMatches;
    assert ReplyMatches(s.requests[t]);
    RepliesKept(s, r, t);
  }

  lemma PostPending(s: State, r: State, t: Task)
    requires PendingMatches(s) && In(s, t) && s.requests[t].phase.Opened? && PostKeeps(s, r, t)
    ensures PendingMatches(r)
  {
    forall i | i in r.pending ensures EntryMatches(r.requests, i, r.pending[i]) {
      if i != s.requests[t].id {
        assert EntryMatches(s.requests, i, s.pending[i]);
      }
    }
    forall u | u in r.requests ensures PostingMatches(r.pending, u, r.requests[u]) {
      assert PostingMatches(s.pending, u, s.requests[u]);
    }
  }

  lemma DeliverMatched(s: State, reply: Reply)
    requires Matched(s)
    ensures Matched(Apply(s, Deliver(reply)))
  {
    var r := Apply(s, Deliver(reply));
    if reply.id in s.pending {
      assert EntryMatches(s.requests, reply.id, s.pending[reply.id]);
    }
    forall i | i in r.pending ensures EntryMatches(r.requests, i, r.pending[i]) {
      assert EntryMatches(s.requests, i, s.pending[i]);
    }
    forall u | u in r.requests
      ensures PostingMatches(r.pending, u, r.requests[u]) && ReplyMatches(r.requests[u])
    {
      assert PostingMatches(s.pending, u, s.requests[u]) && ReplyMatches(s.requests[u]);
    }
  }

  lemma HungOne(s: State, t: Task)
    requires Matched(s) && t in s.requests
    ensures var r := Hung(s.requests, s.pending)[t];
            PostingMatches(map[], t, r) && ReplyMatches(r)
  {
    assert PostingMatches(s.pending, t, s.requests[t]) && ReplyMatches(s.requests[t]);
  }

  lemma ClearMatched(s: State, c: nat)
    requires Matched(s) && Enabled(s, ClearPending(c))
    ensures Matched(Apply(s, ClearPending(c)))
  {
    hide Hung;
    var r := Apply(s, ClearPending(c));
    forall t | t in r.requests ensures PostingMatches(r.pending, t, r.requests[t]) && ReplyMatches(r.requests[t]) {
      HungOne(s, t);
    }
  }

  /** The rest of the state plays no part. */
  lemma OthersMatched(s: State, r: State)
    requires Matched(s) && r.requests == s.requests && r.pending == s.pending
    ensures Matched(r)
  {
  }

  /** Whatever ids are issued, every step keeps the table exact and the replies with requests of their id. */
  lemma StepMatched(s: State, step: Step)
    requires Matched(s) && Enabled(s, step)
    ensures Matched(Apply(s, step))
  {
    hide Unsent, Hung, PendingMatches, RepliesMatch, Ended;
    match step {
      case Issue(t, n, attempts) =>
        var id := s.issued % ID_SPAN;
        if id == 0 || id in s.pending {
          OthersMatched(s, Apply(s, step));
        } else {
          NewMatched(s, t, Request(id, s.issued, n, attempts, Picked, HungUp));
        }
      case Enter(t) => MoveMatched(s, t, Entered);
      case CheckOpen(t) =>
        if s.closed { EndMatched(s, t, Closed); } else { MoveMatched(s, t, Opened); }
      case Post(t) =>
        Posts(s, t);
        PostMatched(s, Apply(s, step), t);
      case CheckSend(t) =>
        if s.closed { EndMatched(s, t, Closed); } else {
          MoveMatched(s, t, Committed(s.requests[t].phase.attempt, s.requests[t].phase.next));
        }
      case Send(t) =>
        MoveMatched(s, t, Sending(s.requests[t].phase.attempt, s.requests[t].phase.next + 1));
        OthersMatched(At(s, t, Sending(s.requests[t].phase.attempt, s.requests[t].phase.next + 1)), Apply(s, step));
      case FailSend(t) => EndMatched(s, t, SendFailed);
      case AllSent(t) => MoveMatched(s, t, Awaiting(s.requests[t].phase.attempt));
      case Receive(t) => ReceiveMatched(s, t);
      case TimeOut(t) =>
        var r := s.requests[t];
        if r.phase.attempt + 1 < r.attempts { MoveMatched(s, t, BackingOff(r.phase.attempt)); }
        else { MoveMatched(s, t, Sending(r.phase.attempt + 1, 0)); }
      case Resume(t) => MoveMatched(s, t, Sending(s.requests[t].phase.attempt + 1, 0));
      case Exhaust(t) => EndMatched(s, t, Unanswered);
      case Abandon(t) => EndMatched(s, t, Dropped);
      case Deliver(reply) => DeliverMatched(s, reply);
      case ClearPending(c) => ClearMatched(s, c);
      case BeginClose(_) => OthersMatched(s, Apply(s, step));
      case SetFlag(_) => OthersMatched(s, Apply(s, step));
      case Join(_) => OthersMatched(s, Apply(s, step));
      case Return(_) => OthersMatched(s, Apply(s, step));
    }
  }

  lemma ReceiveMatched(s: State, t: Task)
    requires Matched(s) && Enabled(s, Receive(t))
    ensures Matched(Apply(s, Receive(t)))
  {
    EndMatched(s, t, Outcome(s.requests[t].channel)) by {
      assert ReplyMatches(s.requests[t]);
    }
  }

  /** Over any interleaving no finished request leaves an entry, and every reply is with a request of its id. */
  lemma {:induction false} RunMatched(s: State, steps: seq<Step>)
    requires Matched(s) && ValidRun(s, steps)
    ensures Matched(Run(s, steps))
    decreases |steps|
  {
    hide Matched, Apply, Enabled;
    if steps != [] {
      StepMatched(s, steps[0]);
      RunMatched(Apply(s, steps[0]), steps[1..]);
    }
  }

  // ------------------------------------------------------- what a shared id can spoil

  /** Hung up on while it waits, or ended as closed. */
  predicate Spoilt(r: Request) {
    (r.Posted() && r.channel.HungUp?) || r.phase == Finished(Closed)
  }

  /** In an open client no request is told that it was closed. */
  ghost predicate Fair(s: State) {
    s.closed || forall t | t in s.requests :: !Spoilt(s.requests[t])
  }

  /** A request posts, or ends its posting, over the entry another one has under the same id. */
  predicate Spoils(s: State, step: Step)
    requires Enabled(s, step)
  {
    (step.Post? || (Ending(step) && s.requests[step.t].Posted())) &&
    var id := s.requests[step.t].id;
    id in s.pending && s.pending[id] != step.t
  }

  /** A step that displaces nobody's sender but its own leaves everybody else as it was. */
  lemma FairKept(s: State, r: State, t: Task)
    requires Fair(s) && !s.closed && !r.closed
    requires forall u | u in r.requests && u != t :: u in s.requests && r.requests[u] == s.requests[u]
    requires t in r.requests ==> !Spoilt(r.requests[t])
    ensures Fair(r)
  {
  }

  lemma PostFair(s: State, t: Task)
    requires !s.closed && PendingMatches(s) && Fair(s) && Enabled(s, Post(t))
    ensures Fair(Apply(s, Post(t))) <==> !Spoils(s, Post(t))
  {
    Posts(s, t);
    hide Unsent, Apply;
    var r, id := Apply(s, Post(t)), s.requests[t].id;
    if id in s.pending {
      var u := s.pending[id];
      assert EntryMatches(s.requests, id, u);
      assert u != t && Spoilt(r.requests[u]);
    } else {
      FairKept(s, r, t);
    }
  }

  lemma EndFair(s: State, t: Task, result: Result)
    requires !s.closed && PendingMatches(s) && Fair(s) && t in s.requests && result != Closed
    ensures Fair(Ended(s, t, result)) <==>
            !(s.requests[t].Posted() && s.requests[t].id in s.pending && s.pending[s.requests[t].id] != t)
  {
    EndedKeeps(s, t);
    assert EndKeeps(s, t, result);
    hide Ended;
    var r, id := Ended(s, t, result), s.requests[t].id;
    if s.requests[t].Posted() && id in s.pending && s.pending[id] != t {
      var u := s.pending[id];
      assert EntryMatches(s.requests, id, u);
      assert Spoilt(r.requests[u]);
    } else {
      FairKept(s, r, t);
    }
  }

  lemma EndingFair(s: State, step: Step)
    requires !s.closed && PendingMatches(s) && Fair(s) && Enabled(s, step) && Ending(step)
    ensures Fair(Apply(s, step)) <==> !Spoils(s, step)
  {
    hide PendingMatches, Fair, Ended;
    match step {
      case FailSend(t) => EndFair(s, t, SendFailed);
      case Receive(t) => ReceiveFair(s, t);
      case Exhaust(t) => EndFair(s, t, Unanswered);
      case Abandon(t) => EndFair(s, t, Dropped);
    }
  }

  /** A fair wait ends with an answer. */
  lemma ReceiveFair(s: State, t: Task)
    requires !s.closed && PendingMatches(s) && Fair(s) && Enabled(s, Receive(t))
    ensures Fair(Apply(s, Receive(t))) <==> !Spoils(s, Receive(t))
  {
    assert !Spoilt(s.requests[t]);
    EndFair(s, t, Outcome(s.requests[t].channel));
  }

  lemma OtherFair(s: State, step: Step)
    requires !s.closed && ShutDown(s) && Fair(s) && Enabled(s, step) && !step.Post? && !Ending(step)
    ensures Fair(Apply(s, step))
  {
    hide Unsent, Hung, Ended, Outcome;
    if step.Issue? || step.Enter? || step.CheckOpen? || step.CheckSend? || step.Send? || step.AllSent? ||
       step.TimeOut? || step.Resume? {
      MoveFair(s, step);
    } else if step.Deliver? {
      DeliverFair(s, step.reply);
    }
  }

  lemma MoveFair(s: State, step: Step)
    requires !s.closed && Fair(s) && Enabled(s, step)
    requires step.Issue? || step.Enter? || step.CheckOpen? || step.CheckSend? || step.Send? || step.AllSent? ||
             step.TimeOut? || step.Resume?
    ensures Fair(Apply(s, step))
  {
    assert step.t in s.requests ==> !Spoilt(s.requests[step.t]);
    FairKept(s, Apply(s, step), step.t);
  }

  lemma DeliverFair(s: State, reply: Reply)
    requires !s.closed && Fair(s)
    ensures Fair(Apply(s, Deliver(reply)))
  {
    if reply.id in s.pending && s.pending[reply.id] in s.requests {
      assert !Spoilt(s.requests[s.pending[reply.id]]);
      FairKept(s, Apply(s, Deliver(reply)), s.pending[reply.id]);
    }
  }

  /** In an open client a step is fair exactly when nobody posts or ends over another's entry. */
  lemma StepFairExactly(s: State, step: Step)
    requires !s.closed && ShutDown(s) && PendingMatches(s) && Fair(s) && Enabled(s, step)
    ensures Fair(Apply(s, step)) <==> !Spoils(s, step)
  {
    hide ShutDown, PendingMatches, Fair, Apply, Enabled;
    if step.Post? {
      PostFair(s, step.t);
    } else if Ending(step) {
      EndingFair(s, step);
    } else {
      OtherFair(s, step);
    }
  }

  ghost predicate AlwaysFair(s: State, steps: seq<Step>)
    requires ValidRun(s, steps)
    decreases |steps|
  {
    Fair(s) && (steps == [] || AlwaysFair(Apply(s, steps[0]), steps[1..]))
  }

  /** Until the client is closed. */
  ghost predicate NeverSpoils(s: State, steps: seq<Step>)
    requires ValidRun(s, steps)
    decreases |steps|
  {
    s.closed || steps == [] || (!Spoils(s, steps[0]) && NeverSpoils(Apply(s, steps[0]), steps[1..]))
  }

  /**
   Over any interleaving no request of an open client is hung up on or ends as closed, exactly when
   none posts or ends over an entry another has under its id.
   */
  lemma {:induction false} RunFairExactly(s: State, steps: seq<Step>)
    requires ShutDown(s) && Matched(s) && Fair(s) && ValidRun(s, steps)
    ensures AlwaysFair(s, steps) <==> NeverSpoils(s, steps)
    decreases |steps|
  {
    hide ShutDown, PendingMatches, RepliesMatch, Fair, Spoils, Apply, Enabled;
    if steps != [] {
      var r := Apply(s, steps[0]);
      StepShutDown(s, steps[0]);
      StepMatched(s, steps[0]);
      if s.closed {
        FlagStep(s, steps[0]);
        ClosedIsFair(r);
        RunFairExactly(r, steps[1..]);
      } else {
        StepFairExactly(s, steps[0]);
        if Fair(r) {
          RunFairExactly(r, steps[1..]);
        }
      }
    }
  }

  lemma ClosedIsFair(s: State)
    requires s.closed
    ensures Fair(s)
  {
  }

  // -------------------------------------------------------------------- distinct ids

  ghost predicate IdMatches(r: Request, issued: nat) {
    0 < r.id == r.ticket % ID_SPAN && r.ticket < issued
  }

  ghost predicate Apart(r: Request, q: Request) {
    !r.phase.Finished? && !q.phase.Finished? ==> r.id != q.id
  }

  /** Outstanding requests hold different ids, none of them zero. */
  ghost predicate DistinctIds(s: State) {
    && (forall t | t in s.requests :: IdMatches(s.requests[t], s.issued))
    && (forall t, u | t in s.requests && u in s.requests && t != u :: Apart(s.requests[t], s.requests[u]))
  }

  lemma TicketsApart(early: nat, late: nat)
    requires early < late < early + ID_SPAN
    ensures early % ID_SPAN != late % ID_SPAN
  {
  }

  /** No request is outstanding from a whole span of ids ago. */
  ghost predicate Young(s: State) {
    forall t | t in s.requests && !s.requests[t].phase.Finished? :: s.issued < s.requests[t].ticket + ID_SPAN
  }

  /** Spoiling takes two outstanding requests of one id. */
  lemma SpoilingShares(s: State, step: Step)
    requires PendingMatches(s) && Enabled(s, step) && Spoils(s, step)
    ensures !DistinctIds(s)
  {
    hide Apply;
    var id := s.requests[step.t].id;
    assert EntryMatches(s.requests, id, s.pending[id]);
    assert !Apart(s.requests[step.t], s.requests[s.pending[id]]);
  }

  /** Requests that keep their ids, and do not come back from finishing, stay apart. */
  lemma SameIds(s: State, r: State)
    requires DistinctIds(s) && KeepsIds(s, r)
    ensures DistinctIds(r)
  {
    forall t | t in r.requests ensures IdMatches(r.requests[t], r.issued) {
      assert IdMatches(s.requests[t], s.issued);
    }
    forall t, u | t in r.requests && u in r.requests && t != u ensures Apart(r.requests[t], r.requests[u]) {
      assert Apart(s.requests[t], s.requests[u]);
    }
  }

  lemma IssueDistinct(s: State, step: Step)
    requires DistinctIds(s) && Enabled(s, step) && step.Issue? && Young(s)
    ensures DistinctIds(Apply(s, step))
  {
    var r := Apply(s, step);
    forall u | u in s.requests && !s.requests[u].phase.Finished? ensures s.requests[u].id != s.issued % ID_SPAN {
      assert IdMatches(s.requests[u], s.issued);
      TicketsApart(s.requests[u].ticket, s.issued);
    }
    forall t | t in r.requests ensures IdMatches(r.requests[t], r.issued) {
      assert t in s.requests ==> IdMatches(s.requests[t], s.issued);
    }
    forall t, u | t in r.requests && u in r.requests && t != u ensures Apart(r.requests[t], r.requests[u]) {
      assert t in s.requests && u in s.requests ==> Apart(s.requests[t], s.requests[u]);
    }
  }

  ghost predicate KeepsIds(s: State, r: State) {
    && r.issued == s.issued && r.requests.Keys == s.requests.Keys
    && forall t | t in s.requests ::
         r.requests[t].id == s.requests[t].id && r.requests[t].ticket == s.requests[t].ticket &&
         (s.requests[t].phase.Finished? ==> r.requests[t].phase.Finished?)
  }

  lemma EndKeepsIds(s: State, t: Task)
    requires In(s, t)
    ensures forall result :: KeepsIds(s, Ended(s, t, result))
  {
    EndedKeeps(s, t);
    hide Ended;
    forall result ensures KeepsIds(s, Ended(s, t, result)) {
      assert EndKeeps(s, t, result);
    }
  }

  /** Steps other than issuing keep ids, and bring no request back. */
  lemma IdsKept(s: State, step: Step)
    requires Enabled(s, step) && !step.Issue?
    ensures KeepsIds(s, Apply(s, step))
  {
    hide Apply, Enabled, KeepsIds;
    if Outgoing(step) {
      IdsKeptOutgoing(s, step);
    } else if Ending(step) {
      EndingKeeps(s, step);
      EndKeepsIds(s, step.t);
    } else {
      IdsKeptOtherwise(s, step);
    }
  }

  lemma IdsKeptOutgoing(s: State, step: Step)
    requires Enabled(s, step) && Outgoing(step) && !step.Issue?
    ensures KeepsIds(s, Apply(s, step))
  {
    EndKeepsIds(s, step.t);
    hide Ended, Unsent;
  }

  lemma IdsKeptOtherwise(s: State, step: Step)
    requires Enabled(s, step) && !Outgoing(step) && !Ending(step)
    ensures KeepsIds(s, Apply(s, step))
  {
    hide Ended, Hung;
  }

  lemma StepDistinct(s: State, step: Step)
    requires DistinctIds(s) && Enabled(s, step) && (step.Issue? ==> Young(s))
    ensures DistinctIds(Apply(s, step))
  {
    hide DistinctIds, Apply, Enabled, Young;
    if step.Issue? {
      IssueDistinct(s, step);
    } else {
      IdsKept(s, step);
      SameIds(s, Apply(s, step));
    }
  }

  ghost predicate IssuesYoung(s: State, steps: seq<Step>)
    requires ValidRun(s, steps)
    decreases |steps|
  {
    steps == [] || ((steps[0].Issue? ==> Young(s)) && IssuesYoung(Apply(s, steps[0]), steps[1..]))
  }

  /** While ids are issued only with no request outstanding from a whole span ago, nothing is spoilt. */
  lemma {:induction false} YoungRunsAreFair(s: State, steps: seq<Step>)
    requires ShutDown(s) && Matched(s) && Fair(s) && DistinctIds(s) && ValidRun(s, steps) && IssuesYoung(s, steps)
    ensures NeverSpoils(s, steps) && AlwaysFair(s, steps)
    decreases |steps|
  {
    hide ShutDown, PendingMatches, RepliesMatch, Fair, DistinctIds, Young, Spoils, Apply, Enabled;
    RunFairExactly(s, steps);
    if steps != [] {
      var r := Apply(s, steps[0]);
      if Spoils(s, steps[0]) {
        SpoilingShares(s, steps[0]);
      }
      StepShutDown(s, steps[0]);
      StepMatched(s, steps[0]);
      StepDistinct(s, steps[0]);
      if s.closed {
        FlagStep(s, steps[0]);
        ClosedIsFair(r);
      } else {
        StepFairExactly(s, steps[0]);
      }
      YoungRunsAreFair(r, steps[1..]);
    }
  }

  // ------------------------------------------------------------ a run that shares an id

  lemma {:induction false} RunNext(s: State, steps: seq<Step>, step: Step)
    requires ValidRun(s, steps) && Enabled(Run(s, steps), step)
    ensures ValidRun(s, steps + [step]) && Run(s, steps + [step]) == Apply(Run(s, steps), step)
    decreases |steps|
  {
    hide Apply, Enabled;
    if steps == [] {
      assert ([] + [step])[1..] == [];
      assert ValidRun(Apply(s, step), []);
    } else {
      RunNext(Apply(s, steps[0]), steps[1..], step);
      assert (steps + [step])[1..] == steps[1..] + [step];
    }
  }

  /** One request held up before it posts, while `n` more are issued and given up. */
  ghost predicate HeldUp(s: State, n: nat) {
    && !s.closed && s.writer.None? && s.pending == map[] && s.closers == map[] && s.issued == n + 2
    && 0 in s.requests && s.requests[0] == Request(1, 1, 1, 1, Picked, HungUp)
    && forall t | t in s.requests :: t <= n
  }

  lemma {:induction false} HoldUp(n: nat) returns (steps: seq<Step>)
    requires n < ID_SPAN
    ensures ValidRun(Start(), steps) && HeldUp(Run(Start(), steps), n)
  {
    hide ValidRun, Run;
    if n == 0 {
      NothingRun(Start());
      steps := [] + [Issue(0, 1, 1)];
      RunNext(Start(), [], Issue(0, 1, 1));
    } else {
      steps := HoldUp(n - 1);
      var s := Run(Start(), steps);
      RunNext(Start(), steps, Issue(n, 1, 1));
      steps := steps + [Issue(n, 1, 1)];
      if (n + 1) % ID_SPAN != 0 {
        RunNext(Start(), steps, Abandon(n));
        steps := steps + [Abandon(n)];
      }
    }
  }

  lemma NothingRun(s: State)
    ensures ValidRun(s, []) && Run(s, []) == s
  {
  }

  /** Two requests in an open client, and what the pending table holds. */
  ghost predicate Both(s: State, a: Task, x: Request, b: Task, y: Request, pending: map<ReqId, Task>) {
    && !s.closed && s.writer.None? && s.closers == map[] && s.pending == pending
    && a in s.requests && b in s.requests && s.requests[a] == x && s.requests[b] == y
  }

  /** A request goes out: whoever had posted under its id is hung up on. */
  lemma GoesOut(s: State, steps: seq<Step>, a: Task, x: Request, b: Task, y: Request, pending: map<ReqId, Task>)
    returns (after: seq<Step>)
    requires ValidRun(s, steps) && Both(Run(s, steps), a, x, b, y, pending) && a != b
    requires x.phase.Picked? && x.datagrams == 1 && x.attempts == 1
    requires pending == map[] || pending == map[x.id := b]
    ensures ValidRun(s, after)
    ensures Both(Run(s, after), a, x.(phase := Awaiting(0), channel := Open), b,
                 if pending == map[] then y else y.(channel := HungUp), map[x.id := a])
  {
    hide ValidRun, Run;
    RunNext(s, steps, Enter(a));
    after := steps + [Enter(a)];
    RunNext(s, after, CheckOpen(a));
    after := after + [CheckOpen(a)];
    assert Both(Run(s, after), a, x.(phase := Opened), b, y, pending);
    RunNext(s, after, Post(a));
    after := after + [Post(a)];
    assert Both(Run(s, after), a, x.(phase := Sending(0, 0), channel := Open), b,
                if pending == map[] then y else y.(channel := HungUp), map[x.id := a]);
    RunNext(s, after, CheckSend(a));
    after := after + [CheckSend(a)];
    RunNext(s, after, Send(a));
    after := after + [Send(a)];
    RunNext(s, after, AllSent(a));
    after := after + [AllSent(a)];
  }

  /**
   Without that condition it fails: a request held up while a whole span of ids goes by shares
   its id with a later one, and both end as if the client had been closed.
   */
  lemma SharedIdFailsBoth(b: Task) returns (steps: seq<Step>)
    requires b == ID_SPAN
    ensures ValidRun(Start(), steps)
    ensures var s := Run(Start(), steps);
            && !s.closed && s.closers == map[]
            && 0 in s.requests && b in s.requests && s.requests[0].id == s.requests[b].id
            && s.requests[0].phase == s.requests[b].phase == Finished(Closed)
  {
    hide ValidRun, Run;
    steps := HoldUp(ID_SPAN - 1);
    RunNext(Start(), steps, Issue(b, 1, 1));
    steps := steps + [Issue(b, 1, 1)];
    var x, y := Request(1, 1, 1, 1, Picked, HungUp), Request(1, ID_SPAN + 1, 1, 1, Picked, HungUp);
    assert Both(Run(Start(), steps), 0, x, b, y, map[]);
    steps := GoesOut(Start(), steps, 0, x, b, y, map[]);
    steps := GoesOut(Start(), steps, b, y, 0, x.(phase := Awaiting(0), channel := Open), map[1 := 0]);
    RunNext(Start(), steps, Receive(0));
    steps := steps + [Receive(0)];
    assert Both(Run(Start(), steps), 0, x.(phase := Finished(Closed), channel := HungUp),
                b, y.(phase := Awaiting(0), channel := HungUp), map[]);
    RunNext(Start(), steps, Receive(b));
    steps := steps + [Receive(b)];
  }

  lemma StartHolds()
    ensures ShutDown(Start()) && Matched(Start()) && Fair(Start()) && DistinctIds(Start())
  {
  }
}
