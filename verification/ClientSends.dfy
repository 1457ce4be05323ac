/** How many datagrams the client's requests put on the wire: every attempt whole, and none too many. */
module ClientSends {
  import opened ClientRequests

  /** The datagrams of `rounds` whole attempts. */
  ghost function Rounds(rounds: nat, datagrams: nat): nat {
    if rounds == 0 then 0 else Rounds(rounds - 1, datagrams) + datagrams
  }

  lemma {:induction false} RoundsGrow(early: nat, late: nat, datagrams: nat)
    requires early <= late
    ensures Rounds(early, datagrams) <= Rounds(late, datagrams)
    decreases late
  {
    if early < late {
      RoundsGrow(early, late - 1, datagrams);
    }
  }

  /**
   A request that has sent `n` datagrams has sent all of its attempts so far and those of this one
   before the next; backing off, it has an attempt left; given up, it has sent every attempt whole.
   */
  ghost predicate SentMatches(r: Request, n: nat) {
    match r.phase
    case Sending(attempt, next) =>
      && n == Rounds(attempt, r.datagrams) + next
      && if attempt < r.attempts then next <= r.datagrams else attempt == r.attempts && next == 0
    case Committed(attempt, next) =>
      n == Rounds(attempt, r.datagrams) + next && attempt < r.attempts && next < r.datagrams
    case Awaiting(attempt) => n == Rounds(attempt + 1, r.datagrams) && attempt < r.attempts
    case BackingOff(attempt) => n == Rounds(attempt + 1, r.datagrams) && attempt + 1 < r.attempts
    case Finished(result) =>
      n <= Rounds(r.attempts, r.datagrams) && (result.Unanswered? ==> n == Rounds(r.attempts, r.datagrams))
    case _ => n == 0
  }

  ghost predicate Accounted(s: State) {
    && (forall t | t in s.sent :: t in s.requests)
    && forall t | t in s.requests :: SentMatches(s.requests[t], multiset(s.sent)[t])
  }

  /** No request ever sends more than its attempts. */
  lemma SentAtMost(r: Request, n: nat)
    requires SentMatches(r, n)
    ensures n <= Rounds(r.attempts, r.datagrams)
  {
    match r.phase
    case Sending(attempt, next) =>
      if attempt < r.attempts {
        RoundsGrow(attempt + 1, r.attempts, r.datagrams);
      }
    case Committed(attempt, next) => RoundsGrow(attempt + 1, r.attempts, r.datagrams);
    case Awaiting(attempt) => RoundsGrow(attempt + 1, r.attempts, r.datagrams);
    case BackingOff(attempt) => RoundsGrow(attempt + 1, r.attempts, r.datagrams);
    case _ =>
  }

  /** Nothing goes out, and every request but `t` is in the phase it was in. */
  ghost predicate OthersInPhase(s: State, r: State, t: Task) {
    && r.sent == s.sent && s.requests.Keys <= r.requests.Keys <= s.requests.Keys + {t}
    && forall u | u in s.requests ::
         r.requests[u] == s.requests[u].(phase := r.requests[u].phase, channel := r.requests[u].channel) &&
         (u != t ==> r.requests[u].phase == s.requests[u].phase)
  }

  lemma PhaseAccounted(s: State, r: State, t: Task)
    requires Accounted(s) && OthersInPhase(s, r, t)
    requires t in r.requests ==> SentMatches(r.requests[t], multiset(s.sent)[t])
    ensures Accounted(r)
  {
    hide Rounds;
    forall u | u in r.requests ensures SentMatches(r.requests[u], multiset(r.sent)[u]) {
      if u != t {
        assert SentMatches(s.requests[u], multiset(s.sent)[u]);
      }
    }
  }

  lemma MoveAccounted(s: State, t: Task, phase: Phase)
    requires Accounted(s) && t in s.requests
    requires SentMatches(s.requests[t].(phase := phase), multiset(s.sent)[t])
    ensures Accounted(At(s, t, phase))
  {
    PhaseAccounted(s, At(s, t, phase), t);
  }

  lemma EndAccounted(s: State, t: Task, result: Result)
    requires Accounted(s) && t in s.requests
    requires result.Unanswered? ==>
               s.requests[t].phase.Sending? && s.requests[t].phase.attempt >= s.requests[t].attempts
    ensures Accounted(Ended(s, t, result))
  {
    hide Ended, SentMatches;
    EndedKeeps(s, t);
    assert EndKeeps(s, t, result);
    var r := Ended(s, t, result);
    FinishedMatches(s.requests[t], r.requests[t], result, multiset(s.sent)[t]);
    PhaseAccounted(s, r, t);
  }

  lemma FinishedMatches(before: Request, after: Request, result: Result, n: nat)
    requires SentMatches(before, n)
    requires after == before.(phase := Finished(result), channel := after.channel)
    requires result.Unanswered? ==> before.phase.Sending? && before.phase.attempt >= before.attempts
    ensures SentMatches(after, n)
  {
    SentAtMost(before, n);
  }

  lemma SendAccounted(s: State, t: Task)
    requires Accounted(s) && Enabled(s, Send(t))
    ensures Accounted(Apply(s, Send(t)))
  {
    hide Rounds;
    var r := Apply(s, Send(t));
    forall u | u in r.requests ensures SentMatches(r.requests[u], multiset(r.sent)[u]) {
      assert SentMatches(s.requests[u], multiset(s.sent)[u]);
    }
  }

  /** Whatever arrives, fails or closes, each step keeps the datagrams accounted for. */
  lemma StepAccounted(s: State, step: Step)
    requires Accounted(s) && Enabled(s, step)
    ensures Accounted(Apply(s, step))
  {
    hide Unsent, Hung, Ended, Outcome, Accounted;
    match step {
      case Issue(t, n, attempts) => IssueAccounted(s, step);
      case CheckOpen(t) =>
        if s.closed { EndAccounted(s, t, Closed); } else { TurnAccounted(s, step, t); }
      case CheckSend(t) =>
        if s.closed { EndAccounted(s, t, Closed); } else { TurnAccounted(s, step, t); }
      case Post(t) =>
        Posts(s, t);
        PostAccounted(s, Apply(s, step), t);
      case Send(t) => SendAccounted(s, t);
      case FailSend(t) => EndAccounted(s, t, SendFailed);
      case Receive(t) => ReceiveAccounted(s, t);
      case Exhaust(t) => EndAccounted(s, t, Unanswered);
      case Abandon(t) => EndAccounted(s, t, Dropped);
      case Enter(t) => TurnAccounted(s, step, t);
      case AllSent(t) => TurnAccounted(s, step, t);
      case TimeOut(t) => TurnAccounted(s, step, t);
      case Resume(t) => TurnAccounted(s, step, t);
      case _ => OtherAccounted(s, step);
    }
  }

  lemma IssueAccounted(s: State, step: Step)
    requires Accounted(s) && Enabled(s, step) && step.Issue?
    ensures Accounted(Apply(s, step))
  {
    assert multiset(s.sent)[step.t] == 0;
    PhaseAccounted(s, Apply(s, step), step.t);
  }

  lemma ReceiveAccounted(s: State, t: Task)
    requires Accounted(s) && Enabled(s, Receive(t))
    ensures Accounted(Apply(s, Receive(t)))
  {
    hide Ended;
    EndAccounted(s, t, Outcome(s.requests[t].channel));
  }

  lemma PostAccounted(s: State, r: State, t: Task)
    requires Accounted(s) && In(s, t) && s.requests[t].phase.Opened? && PostKeeps(s, r, t)
    ensures Accounted(r)
  {
    assert SentMatches(s.requests[t], multiset(s.sent)[t]);
    PhaseAccounted(s, r, t);
  }

  /** A request that moves on by itself. */
  lemma TurnAccounted(s: State, step: Step, t: Task)
    requires Accounted(s) && Enabled(s, step) && In(s, t)
    requires step == Enter(t) || step == AllSent(t) || step == TimeOut(t) || step == Resume(t) ||
             (!s.closed && (step == CheckOpen(t) || step == CheckSend(t)))
    ensures Accounted(Apply(s, step))
  {
    assert SentMatches(s.requests[t], multiset(s.sent)[t]);
    MoveAccounted(s, t, Apply(s, step).requests[t].phase);
  }

  lemma OtherAccounted(s: State, step: Step)
    requires Accounted(s) && Enabled(s, step)
    requires step.Deliver? || step.BeginClose? || step.SetFlag? || step.ClearPending? || step.Join? || step.Return?
    ensures Accounted(Apply(s, step))
  {
    OtherPhases(s, step);
    var r := Apply(s, step);
    hide Apply, Enabled, SentMatches;
    forall u | u in r.requests ensures SentMatches(r.requests[u], multiset(r.sent)[u]) {
      SameMatches(s.requests[u], r.requests[u], multiset(s.sent)[u]);
    }
  }

  lemma OtherPhases(s: State, step: Step)
    requires Enabled(s, step)
    requires step.Deliver? || step.BeginClose? || step.SetFlag? || step.ClearPending? || step.Join? || step.Return?
    ensures var r := Apply(s, step);
            && r.sent == s.sent && r.requests.Keys == s.requests.Keys
            && forall u | u in s.requests :: r.requests[u] == s.requests[u].(channel := r.requests[u].channel)
  {
    hide Ended;
  }

  lemma SameMatches(before: Request, after: Request, n: nat)
    requires SentMatches(before, n) && after == before.(channel := after.channel)
    ensures SentMatches(after, n)
  {
  }

  /** So over any interleaving: one that gave up sent every datagram once in each attempt, and none sent more. */
  lemma {:induction false} RunAccounted(s: State, steps: seq<Step>)
    requires Accounted(s) && ValidRun(s, steps)
    ensures Accounted(Run(s, steps))
    decreases |steps|
  {
    hide Accounted, Apply, Enabled;
    if steps != [] {
      StepAccounted(s, steps[0]);
      RunAccounted(Apply(s, steps[0]), steps[1..]);
    }
  }

  lemma StartAccounted()
    ensures Accounted(Start())
  {
  }
}
