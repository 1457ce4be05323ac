/**
 Waiting for queued commands to complete: the completion log with its eviction queue and
 waiter table, and the interleaving of waits with COMPLETE pushes, STATUS frames, runtime
 restarts, cancellation and close. Every step is one critical section of the client.
 */
module ClientWaits {
  import opened Wrappers

  /** Finished commands the log keeps. */
  const COMPLETIONS_KEPT: nat := 1024

  type Index = nat
  type WaitId = nat

  datatype WireError = WireError(commandIndex: int, code: int)

  /**
   A finished command's outcome. `run` is the session of the runtime that finished it: no message
   carries it and no step looks at it, it only says where an answer came from.
   */
  datatype Completion = Completion(ok: bool, detail: Option<WireError>, verdict: Option<nat>, run: nat)

  // ------------------------------------------------------------- completion tables

  datatype Tables = Tables(log: map<Index, Completion>, order: seq<Index>, waiters: map<Index, seq<WaitId>>)

  ghost predicate NoRepeats<T>(s: seq<T>) {
    forall i, j | 0 <= i < j < |s| :: s[i] != s[j]
  }

  /**
   The log's keys are the eviction queue's entries, without repeats and never more than are
   kept; nothing is both logged and awaited; and no waiter list is empty.
   */
  ghost predicate Consistent(t: Tables) {
    && (forall i :: i in t.log <==> i in t.order)
    && NoRepeats(t.order)
    && |t.order| <= COMPLETIONS_KEPT
    && t.log.Keys !! t.waiters.Keys
    && forall i | i in t.waiters :: t.waiters[i] != []
  }

  function Evict(t: Tables): Tables
    decreases |t.order|
  {
    if |t.order| <= COMPLETIONS_KEPT then t
    else Evict(t.(order := t.order[1..], log := t.log - {t.order[0]}))
  }

  /** A finished command, logged, with the oldest evicted and its waiters taken out. */
  function Recorded(t: Tables, index: Index, done: Completion): Tables {
    var logged := t.(log := t.log[index := done], order := if index in t.log then t.order else t.order + [index]);
    var kept := Evict(logged);
    kept.(waiters := kept.waiters - {index})
  }

  function WaitersOf(t: Tables, index: Index): seq<WaitId> {
    if index in t.waiters then t.waiters[index] else []
  }

  function Registered(t: Tables, index: Index, w: WaitId): Tables {
    t.(waiters := t.waiters[index := WaitersOf(t, index) + [w]])
  }

  /** The list without the waits whose receivers are gone. */
  function Retained(list: seq<WaitId>, closed: set<WaitId>): (r: seq<WaitId>)
    ensures forall w :: w in r <==> w in list && w !in closed
    ensures NoRepeats(list) ==> NoRepeats(r)
  {
    if list == [] then []
    else
      var rest := Retained(list[..|list| - 1], closed);
      var w := list[|list| - 1];
      if w in closed then rest else rest + [w]
  }

  function Cleaned(t: Tables, index: Index, closed: set<WaitId>): Tables {
    var kept := Retained(WaitersOf(t, index), closed);
    t.(waiters := if kept == [] then t.waiters - {index} else t.waiters[index := kept])
  }

  lemma RecordedConsistent(t: Tables, index: Index, done: Completion)
    requires Consistent(t)
    ensures var r := Recorded(t, index, done);
            Consistent(r) && index in r.log && r.log[index] == done && r.waiters == t.waiters - {index}
    ensures var r := Recorded(t, index, done);
            forall i | i in r.log && i != index :: i in t.log && r.log[i] == t.log[i]
    ensures var r := Recorded(t, index, done);
            r.order == (if index in t.log then t.order
                        else if |t.order| < COMPLETIONS_KEPT then t.order + [index]
                        else t.order[1..] + [index])
  {
    if index !in t.log && |t.order| == COMPLETIONS_KEPT {
      var order := t.order + [index];
      var logged := t.(log := t.log[index := done], order := order);
      var once := logged.(order := order[1..], log := logged.log - {order[0]});
      assert Evict(logged) == once;
      assert order[1..] == t.order[1..] + [index];
    }
  }

  /** The completion state as the client holds it behind one lock. */
  class Completions {
    var log: map<Index, Completion>
    var order: seq<Index>
    var waiters: map<Index, seq<WaitId>>

    ghost function State(): Tables
      reads this
    {
      Tables(log, order, waiters)
    }

    constructor ()
      ensures State() == Tables(map[], [], map[]) && Consistent(State())
    {
      log, order, waiters := map[], [], map[];
    }

    /** Log a finished command, evict past the bound, and hand back whoever was waiting on it. */
    method Record(index: Index, done: Completion) returns (sent: seq<WaitId>)
      requires Consistent(State())
      modifies this
      ensures State() == Recorded(old(State()), index, done) && Consistent(State())
      ensures sent == WaitersOf(old(State()), index)
    {
      ghost var start := State();
      RecordedConsistent(start, index, done);
      if index !in log {
        order := order + [index];
      }
      log := log[index := done];
      ghost var logged := State();
      while |order| > COMPLETIONS_KEPT
        invariant Evict(State()) == Evict(logged) && waiters == old(waiters)
        decreases |order|
      {
        var oldest := order[0];
        order, log := order[1..], log - {oldest};
      }
      sent := if index in waiters then waiters[index] else [];
      waiters := waiters - {index};
    }

    /** Answer from the log, or join the waiters: one critical section, so nothing falls between. */
    method Register(index: Index, w: WaitId) returns (logged: Option<Completion>)
      requires Consistent(State())
      modifies this
      ensures Consistent(State())
      ensures if index in old(log) then logged == Some(old(log)[index]) && State() == old(State())
              else logged == None && State() == Registered(old(State()), index, w)
    {
      if index in log {
        return Some(log[index]);
      }
      var list := if index in waiters then waiters[index] else [];
      waiters := waiters[index := list + [w]];
      logged := None;
    }

    /** Drop the senders on `index` whose receivers are gone. */
    method Cleanup(index: Index, closed: set<WaitId>)
      requires Consistent(State())
      modifies this
      ensures Consistent(State())
      ensures State() == if index in old(waiters) then Cleaned(old(State()), index, closed) else old(State())
    {
      if index in waiters {
        var kept := Retained(waiters[index], closed);
        if kept == [] {
          waiters := waiters - {index};
        } else {
          waiters := waiters[index := kept];
        }
      }
    }

    /** After a restart old indices mean nothing: forget everything. */
    method Clear()
      modifies this
      ensures State() == Tables(map[], [], map[]) && Consistent(State())
    {
      log, order, waiters := map[], [], map[];
    }
  }

  // ------------------------------------------------------- waits, frames and restarts

  /** What a STATUS frame says that waits look at; `error` is the standing error's command. */
  datatype Status = Status(session: nat, seqNo: nat, completed: int, accepted: int, error: Option<int>)

  /** A waiter's one-shot channel, seen from its sender. */
  datatype Channel = Open | Sent(done: Completion) | Dropped

  /** How a wait came by its answer. */
  datatype Source = ByLog | ByChannel | Recovered

  /** `from` counts the clearings that preceded the recording of the answer. */
  datatype Outcome =
    | Completed(done: Completion, from: nat, source: Source)
    | Nothing
    | SessionChanged
    | Refused(command: int)

  /** Where a wait stands: joined, racing since it captured the session, judging a STATUS hit, in grace, out. */
  datatype Phase =
    | Joined
    | Racing(session: Option<nat>)
    | Judging(session: Option<nat>)
    | Grace
    | Leaving(outcome: Outcome)
    | Done(outcome: Outcome)
    | Cancelled

  /**
   `gen` and `seen` count the clearings and publications that preceded joining and capturing; `run`
   is the session of the runtime whose command is awaited.
   */
  datatype Wait = Wait(index: Index, phase: Phase, channel: Channel, gen: nat, seen: nat, run: nat) {
    predicate Live() {
      !phase.Done? && !phase.Cancelled?
    }
  }

  /** Where the STATUS listener stands with the frame it took in. */
  datatype Listener = Idle | Publishing(frame: Status, restarted: bool) | Clearing

  datatype State = State(
    tables: Tables, waits: map<WaitId, Wait>,
    last: Option<(nat, nat)>, gaps: nat, listener: Listener, published: Option<Status>, closed: bool,
    gen: nat, publications: nat, recorded: set<(nat, Index, Completion)>, accepted: seq<(nat, nat)>)

  datatype Step =
    | Frame(frame: Status)
    | Publish
    | Clear
    | Record(index: Index, done: Completion)
    | Register(w: WaitId, index: Index, run: nat)
    | Capture(w: WaitId)
    | Observe(w: WaitId)
    | Hit(w: WaitId)
    | Judge(w: WaitId)
    | GiveUp(w: WaitId)
    | GraceAnswer(w: WaitId)
    | Recover(w: WaitId, found: Option<Completion>)
    | Leave(w: WaitId)
    | Cancel(w: WaitId)
    | Close

  function Start(): State {
    State(Tables(map[], [], map[]), map[], None, 0, Idle, None, false, 0, 0, {}, [])
  }

  /** An error at or before the command counts once the frame shows the command accepted. */
  predicate Blocks(frame: Status, index: Index) {
    frame.error.Some? && frame.error.value <= index && frame.accepted >= index
  }

  predicate Restarted(session: Option<nat>, published: Option<Status>) {
    session.Some? && published.Some? && published.value.session != session.value
  }

  predicate EndsWait(session: Option<nat>, frame: Status, index: Index) {
    (session.Some? && frame.session != session.value) || frame.completed >= index || Blocks(frame, index)
  }

  /** A frame no newer than the last of its session is ignored. */
  predicate Stale(last: Option<(nat, nat)>, frame: Status) {
    last.Some? && last.value.0 == frame.session && frame.seqNo <= last.value.1
  }

  function Skipped(last: Option<(nat, nat)>, frame: Status): nat {
    if last.Some? && last.value.0 == frame.session && frame.seqNo > last.value.1 + 1 then frame.seqNo - last.value.1 - 1
    else 0
  }

  function ClosedReceivers(waits: map<WaitId, Wait>): set<WaitId> {
    set w | w in waits && !waits[w].Live()
  }

  predicate Enabled(s: State, step: Step) {
    match step
    case Frame(_) => s.listener.Idle? && !s.closed
    case Publish => s.listener.Publishing?
    case Clear => s.listener.Clearing?
    case Record(_, _) => true
    case Register(w, _, _) => w !in s.waits
    case Capture(w) => w in s.waits && s.waits[w].phase.Joined?
    case Observe(w) => w in s.waits && s.waits[w].phase.Racing? && !s.waits[w].channel.Open?
    case Hit(w) => w in s.waits && s.waits[w].phase.Racing? && s.published.Some? &&
                   EndsWait(s.waits[w].phase.session, s.published.value, s.waits[w].index)
    case Judge(w) => w in s.waits && s.waits[w].phase.Judging?
    case GiveUp(w) => w in s.waits && s.waits[w].phase.Racing?
    case GraceAnswer(w) => w in s.waits && s.waits[w].phase.Grace? && s.waits[w].channel.Sent?
    case Recover(w, _) => w in s.waits && s.waits[w].phase.Grace?
    case Leave(w) => w in s.waits && s.waits[w].phase.Leaving?
    case Cancel(w) => w in s.waits && s.waits[w].Live()
    case Close => true
  }

  function Moved(s: State, w: WaitId, phase: Phase): State
    requires w in s.waits
  {
    s.(waits := s.waits[w := s.waits[w].(phase := phase)])
  }

  /** The senders listed in `list` send `c`, or are dropped. */
  function Told(waits: map<WaitId, Wait>, list: set<WaitId>, c: Channel): map<WaitId, Wait> {
    map w | w in waits :: if w in list then waits[w].(channel := c) else waits[w]
  }

  function AllWaiters(t: Tables): set<WaitId> {
    set i, w | i in t.waiters && w in t.waiters[i] :: w
  }

  function AsSet(list: seq<WaitId>): set<WaitId> {
    set w | w in list
  }

  function AfterRecord(s: State, index: Index, done: Completion): State {
    s.(tables := Recorded(s.tables, index, done),
       waits := Told(s.waits, AsSet(WaitersOf(s.tables, index)), Sent(done)),
       recorded := s.recorded + {(s.gen, index, done)})
  }

  function Verdict(s: State, w: WaitId, session: Option<nat>): Phase
    requires w in s.waits
  {
    if Restarted(session, s.published) then Leaving(SessionChanged)
    else if s.published.Some? &&
        Blocks(s.published.value, s.waits[w].index) then Leaving(Refused(s.published.value.error.value))
    else Grace
  }

  function Apply(s: State, step: Step): State
    requires Enabled(s, step)
  {
    match step
    case Frame(f) =>
      if Stale(s.last, f) then s
      else s.(last := Some((f.session, f.seqNo)), gaps := s.gaps + Skipped(s.last, f),
              accepted := s.accepted + [(f.session, f.seqNo)],
              listener := Publishing(f, s.last.Some? && s.last.value.0 != f.session))
    case Publish =>
      s.(published := Some(s.listener.frame), publications := s.publications + 1,
         listener := if s.listener.restarted then Clearing else Idle)
    case Clear =>
      s.(waits := Told(s.waits, AllWaiters(s.tables), Dropped), tables := Tables(map[], [], map[]),
         gen := s.gen + 1, listener := Idle)
    case Record(index, done) => AfterRecord(s, index, done)
    case Register(w, index, run) =>
      if index in s.tables.log
      then
        var outcome := Completed(s.tables.log[index], s.gen, ByLog);
        s.(waits := s.waits[w := Wait(index, Done(outcome), Dropped, s.gen, 0, run)])
      else s.(tables := Registered(s.tables, index, w), waits := s.waits[w := Wait(index, Joined, Open, s.gen, 0, run)])
    case Capture(w) =>
      var session := if s.published.Some? then Some(s.published.value.session) else None;
      s.(waits := s.waits[w := s.waits[w].(phase := Racing(session), seen := s.publications)])
    case Observe(w) =>
      var wait := s.waits[w];
      Moved(s, w, Leaving(if wait.channel.Sent? then Completed(wait.channel.done, wait.gen, ByChannel)
                          else if Restarted(wait.phase.session, s.published) then SessionChanged
                          else Nothing))
    case Hit(w) => Moved(s, w, Judging(s.waits[w].phase.session))
    case Judge(w) => Moved(s, w, Verdict(s, w, s.waits[w].phase.session))
    case GiveUp(w) => Moved(s, w, Leaving(Nothing))
    case GraceAnswer(w) => Moved(s, w, Leaving(Completed(s.waits[w].channel.done, s.waits[w].gen, ByChannel)))
    case Recover(w, found) =>
      if found.None? then Moved(s, w, Leaving(Nothing))
      else
        var t := AfterRecord(s, s.waits[w].index, found.value);
        Moved(t, w, Leaving(Completed(found.value, s.gen, Recovered)))
    case Leave(w) =>
      var wait := s.waits[w];
      var gone := ClosedReceivers(s.waits) + {w};
      var listed := AsSet(WaitersOf(s.tables, wait.index));
      var waits := Told(s.waits, gone * listed, Dropped);
      s.(waits := waits[w := waits[w].(phase := Done(wait.phase.outcome))],
         tables := if wait.index in s.tables.waiters then Cleaned(s.tables, wait.index, gone) else s.tables)
    case Cancel(w) => Moved(s, w, Cancelled)
    case Close =>
      if s.closed then s
      else s.(closed := true, waits := Told(s.waits, AllWaiters(s.tables), Dropped),
              tables := s.tables.(waiters := map[]))
  }

  ghost predicate ValidRun(s: State, steps: seq<Step>)
    decreases |steps|
  {
    steps == [] || (Enabled(s, steps[0]) && ValidRun(Apply(s, steps[0]), steps[1..]))
  }

  ghost function Run(s: State, steps: seq<Step>): State
    requires ValidRun(s, steps)
    decreases |steps|
  {
    if steps == [] then s else Run(Apply(s, steps[0]), steps[1..])
  }

  // ------------------------------------------------------------ what every step keeps

  ghost predicate EntryMatches(waits: map<WaitId, Wait>, i: Index, w: WaitId) {
    w in waits && waits[w].index == i && waits[w].channel.Open?
  }

  ghost predicate Listed(t: Tables, w: WaitId, wait: Wait) {
    wait.channel.Open? ==> w in WaitersOf(t, wait.index)
  }

  /** The waiter table holds exactly the waits whose channel is open, each under its own index. */
  ghost predicate TableMatches(s: State) {
    && (forall i, w | i in s.tables.waiters && w in s.tables.waiters[i] :: EntryMatches(s.waits, i, w))
    && (forall i | i in s.tables.waiters :: NoRepeats(s.tables.waiters[i]))
    && (forall w | w in s.waits :: Listed(s.tables, w, s.waits[w]))
  }

  ghost predicate ChannelMatches(wait: Wait, gen: nat, closed: bool) {
    && wait.gen <= gen
    && (wait.channel.Open? ==> wait.gen == gen && !wait.phase.Done?)
    && (wait.Live() && wait.channel.Dropped? ==> gen > wait.gen || closed)
  }

  /** A channel open to a wait belongs to this run of the runtime, and no finished wait holds one. */
  ghost predicate ChannelsMatch(s: State) {
    forall w | w in s.waits :: ChannelMatches(s.waits[w], s.gen, s.closed)
  }

  /** Only a recovered answer can be of a later clear epoch than the wait joined in. */
  predicate Dated(wait: Wait, outcome: Outcome)
    requires outcome.Completed?
  {
    if outcome.source.Recovered? then outcome.from >= wait.gen else outcome.from == wait.gen
  }

  ghost predicate AnswerRecorded(wait: Wait, recorded: set<(nat, Index, Completion)>) {
    && (wait.channel.Sent? ==> (wait.gen, wait.index, wait.channel.done) in recorded)
    && (Answered(wait) ==>
          && Dated(wait, wait.phase.outcome)
          && (wait.phase.outcome.from, wait.index, wait.phase.outcome.done) in recorded)
  }

  /** Every answer given or held was recorded for that very index. */
  ghost predicate AnswersRecorded(s: State) {
    && (forall i | i in s.tables.log :: (s.gen, i, s.tables.log[i]) in s.recorded)
    && (forall w | w in s.waits :: AnswerRecorded(s.waits[w], s.recorded))
  }

  /** The published frame is the last accepted one, save between accepting and publishing. */
  ghost predicate ListenerMatches(s: State) {
    && (s.published.Some? <==> s.publications > 0)
    && match s.listener
       case Idle => if s.published.None? then s.last == None
                    else s.last == Some((s.published.value.session, s.published.value.seqNo))
       case Publishing(f, restarted) =>
         && s.last == Some((f.session, f.seqNo))
         && (restarted <==> s.published.Some? && s.published.value.session != f.session)
       case Clearing => s.published.Some? && s.last == Some((s.published.value.session, s.published.value.seqNo))
  }

  ghost predicate SessionMatches(wait: Wait, s: State) {
    wait.phase.Racing? && wait.channel.Open? ==>
      && wait.seen <= s.publications
      && (wait.phase.session.None? <==> wait.seen == 0)
      && (wait.phase.session.Some? ==>
            && s.published.Some?
            && (wait.phase.session.value != s.published.value.session <==>
                  s.listener.Clearing? && wait.seen < s.publications))
  }

  /**
   An open wait that captured a session captured the published one; only between a restart's
   publication and the clearing can an older session still be held, by the waits that
   captured before the publication.
   */
  ghost predicate SessionsMatch(s: State) {
    forall w | w in s.waits :: SessionMatches(s.waits[w], s)
  }

  ghost predicate Inv(s: State) {
    && Consistent(s.tables)
    && TableMatches(s)
    && ChannelsMatch(s)
    && AnswersRecorded(s)
    && ListenerMatches(s)
    && SessionsMatch(s)
  }

  lemma StartInv()
    ensures Inv(Start())
  {
  }

  /** A step that leaves the tables and every wait's channel and index alone keeps the table in order. */
  lemma SameChannels(s: State, r: State)
    requires Consistent(s.tables) && TableMatches(s) && r.tables == s.tables && r.waits.Keys == s.waits.Keys
    requires forall w | w in s.waits :: r.waits[w].channel == s.waits[w].channel && r.waits[w].index == s.waits[w].index
    ensures TableMatches(r)
  {
  }

  /** Moving a wait from phase to phase keeps everything but what the new phase itself claims. */
  lemma MoveKeeps(s: State, w: WaitId, phase: Phase)
    requires Inv(s) && w in s.waits && s.waits[w].Live()
    requires !phase.Racing? && !phase.Joined? && !phase.Done?
    requires phase.Leaving? && phase.outcome.Completed? ==>
               (phase.outcome.from, s.waits[w].index, phase.outcome.done) in s.recorded &&
               Dated(s.waits[w], phase.outcome)
    ensures Inv(Moved(s, w, phase))
  {
    hide TableMatches, Consistent;
    SameChannels(s, Moved(s, w, phase));
  }

  lemma RecordKeepsTable(s: State, index: Index, done: Completion)
    requires Inv(s)
    ensures TableMatches(AfterRecord(s, index, done))
  {
    hide Recorded, Evict, AnswersRecorded, SessionsMatch, ListenerMatches, ChannelsMatch;
    RecordedConsistent(s.tables, index, done);
    var r := AfterRecord(s, index, done);
    assert r.tables.waiters == s.tables.waiters - {index};
  }

  lemma RecordKeepsAnswers(s: State, index: Index, done: Completion)
    requires Inv(s)
    ensures AnswersRecorded(AfterRecord(s, index, done))
  {
    hide Recorded, Evict, SessionsMatch, ListenerMatches;
    RecordedConsistent(s.tables, index, done);
  }

  lemma RecordKeeps(s: State, index: Index, done: Completion)
    requires Inv(s)
    ensures Inv(AfterRecord(s, index, done))
  {
    hide Recorded, Evict, TableMatches, AnswersRecorded;
    RecordedConsistent(s.tables, index, done);
    RecordKeepsTable(s, index, done);
    RecordKeepsAnswers(s, index, done);
  }

  lemma RegisterKeepsTable(s: State, w: WaitId, index: Index, run: nat)
    requires Inv(s) && w !in s.waits && index !in s.tables.log
    ensures TableMatches(Apply(s, Register(w, index, run))) && Consistent(Apply(s, Register(w, index, run)).tables)
  {
    hide AnswersRecorded, SessionsMatch, ListenerMatches, ChannelsMatch;
    var r := Apply(s, Register(w, index, run));
    var list := WaitersOf(s.tables, index);
    assert w !in list;
    assert r.tables.waiters == s.tables.waiters[index := list + [w]];
    forall v | v in r.waits ensures Listed(r.tables, v, r.waits[v]) {
      if v != w {
        assert Listed(s.tables, v, s.waits[v]);
      }
    }
    forall i, v | i in r.tables.waiters && v in r.tables.waiters[i] ensures EntryMatches(r.waits, i, v) {
      if v != w {
        assert EntryMatches(s.waits, i, v);
      }
    }
  }

  lemma RegisterKeeps(s: State, w: WaitId, index: Index, run: nat)
    requires Inv(s) && w !in s.waits
    ensures Inv(Apply(s, Register(w, index, run)))
  {
    var r := Apply(s, Register(w, index, run));
    if index in s.tables.log {
      hide Consistent;
      AnsweredKeepsTable(s, r, w);
    } else {
      hide Consistent;
      RegisterKeepsTable(s, w, index, run);
    }
    NewWaitKeeps(s, r, w);
  }

  /** A new wait in order, with the rest untouched, keeps the waits in order. */
  lemma NewWaitKeeps(s: State, r: State, w: WaitId)
    requires Inv(s) && w !in s.waits && w in r.waits
    requires r == s.(tables := r.tables, waits := s.waits[w := r.waits[w]]) && r.tables.log == s.tables.log
    requires Consistent(r.tables) && TableMatches(r)
    requires ChannelMatches(r.waits[w], s.gen, s.closed) && AnswerRecorded(r.waits[w], s.recorded)
    requires !r.waits[w].phase.Racing?
    ensures Inv(r)
  {
    hide TableMatches, Consistent, ChannelMatches, AnswerRecorded;
    forall v | v in r.waits
      ensures SessionMatches(r.waits[v], r) && ChannelMatches(r.waits[v], r.gen, r.closed) &&
          AnswerRecorded(r.waits[v], r.recorded)
    {
      if v != w {
        assert SessionMatches(s.waits[v], s) && ChannelMatches(s.waits[v], s.gen, s.closed);
        assert AnswerRecorded(s.waits[v], s.recorded);
      }
    }
  }

  lemma AnsweredKeepsTable(s: State, r: State, w: WaitId)
    requires TableMatches(s) && w !in s.waits && r.tables == s.tables
    requires w in r.waits && !r.waits[w].channel.Open? && r.waits == s.waits[w := r.waits[w]]
    ensures TableMatches(r)
  {
  }

  lemma CaptureKeeps(s: State, w: WaitId)
    requires Inv(s) && Enabled(s, Capture(w))
    ensures Inv(Apply(s, Capture(w)))
  {
    var r := Apply(s, Capture(w));
    hide TableMatches, Consistent;
    SameChannels(s, r);
    forall v | v in r.waits
      ensures SessionMatches(r.waits[v], r) && ChannelMatches(r.waits[v], r.gen, r.closed) &&
          AnswerRecorded(r.waits[v], r.recorded)
    {
      assert SessionMatches(s.waits[v], s) && ChannelMatches(s.waits[v], s.gen, s.closed);
      assert AnswerRecorded(s.waits[v], s.recorded);
    }
  }

  lemma ListenerKeeps(s: State, step: Step)
    requires Inv(s) && (step.Frame? || step.Publish?) && Enabled(s, step)
    ensures Inv(Apply(s, step))
  {
    var r := Apply(s, step);
    hide TableMatches, Consistent;
    SameChannels(s, r);
    forall v | v in r.waits ensures SessionMatches(r.waits[v], r) {
      assert SessionMatches(s.waits[v], s);
    }
  }

  /** Clearing or closing drops exactly the waits whose channels were open. */
  lemma DropAllKeeps(s: State, step: Step)
    requires Inv(s) && (step.Clear? || (step.Close? && !s.closed)) && Enabled(s, step)
    ensures Inv(Apply(s, step))
  {
    var r := Apply(s, step);
    forall v | v in s.waits
      ensures !r.waits[v].channel.Open?
      ensures r.waits[v] == s.waits[v] || (s.waits[v].channel.Open? && r.waits[v] == s.waits[v].(channel := Dropped))
    {
      assert s.waits[v].channel.Open? <==> v in AllWaiters(s.tables) by {
        hide AnswersRecorded, SessionsMatch, ChannelsMatch, Consistent;
      }
    }
    DroppedKeeps(s, r);
  }

  lemma DroppedKeeps(s: State, r: State)
    requires Inv(s) && r.waits.Keys == s.waits.Keys && r.recorded == s.recorded && r.tables.waiters == map[]
    requires (r.gen == s.gen + 1 && r.tables == Tables(map[], [], map[]) && r.closed == s.closed) ||
             (r.gen == s.gen && r.closed && r.tables == s.tables.(waiters := map[]))
    requires forall v | v in s.waits :: !r.waits[v].channel.Open?
    requires forall v | v in s.waits ::
               r.waits[v] == s.waits[v] || (s.waits[v].channel.Open? && r.waits[v] == s.waits[v].(channel := Dropped))
    requires ListenerMatches(r)
    ensures Inv(r)
  {
    hide ListenerMatches;
    forall v | v in r.waits
      ensures SessionMatches(r.waits[v], r) && ChannelMatches(r.waits[v], r.gen, r.closed) &&
          AnswerRecorded(r.waits[v], r.recorded)
    {
      assert ChannelMatches(s.waits[v], s.gen, s.closed) && AnswerRecorded(s.waits[v], s.recorded);
    }
  }

  lemma LeaveKeepsTable(s: State, w: WaitId)
    requires Inv(s) && Enabled(s, Leave(w))
    ensures TableMatches(Apply(s, Leave(w))) && Consistent(Apply(s, Leave(w)).tables)
  {
    hide AnswersRecorded, SessionsMatch, ListenerMatches, ChannelsMatch;
    var r := Apply(s, Leave(w));
    var index := s.waits[w].index;
    var list := WaitersOf(s.tables, index);
    var gone := ClosedReceivers(s.waits) + {w};
    if index in s.tables.waiters {
      var kept := Retained(list, gone);
      assert WaitersOf(r.tables, index) == kept;
      forall v | v in r.waits ensures Listed(r.tables, v, r.waits[v]) {
        assert Listed(s.tables, v, s.waits[v]);
      }
      forall i, v | i in r.tables.waiters && v in r.tables.waiters[i] ensures EntryMatches(r.waits, i, v) {
        assert EntryMatches(s.waits, i, v);
      }
    }
  }

  /** What leaving does to each wait: itself out, and the receivers already gone forgotten. */
  lemma LeaveWaits(s: State, w: WaitId, v: WaitId)
    requires TableMatches(s) && Enabled(s, Leave(w)) && v in s.waits
    ensures var r := Apply(s, Leave(w));
            && r.waits.Keys == s.waits.Keys
            && (v != w ==>
                  r.waits[v] == s.waits[v] || (!s.waits[v].Live() && r.waits[v] == s.waits[v].(channel := Dropped)))
            && (v == w ==> r.waits[w] == s.waits[w].(phase := Done(s.waits[w].phase.outcome),
                                                     channel := r.waits[w].channel))
    ensures var r := Apply(s, Leave(w));
            r.waits[v].channel == s.waits[v].channel || r.waits[v].channel.Dropped?
  {
  }

  lemma LeaveKeepsChannels(s: State, w: WaitId)
    requires Inv(s) && Enabled(s, Leave(w))
    ensures ChannelsMatch(Apply(s, Leave(w)))
  {
    var r := Apply(s, Leave(w));
    forall v | v in r.waits
      ensures ChannelMatches(r.waits[v], r.gen, r.closed)
    {
      assert ChannelMatches(s.waits[v], s.gen, s.closed);
      hide Cleaned, Told, AnswersRecorded, SessionsMatch, ListenerMatches, Consistent;
      LeaveClosesChannel(s, w);
      LeaveWaits(s, w, v);
    }
  }

  lemma LeaveShape(s: State, w: WaitId)
    requires Enabled(s, Leave(w))
    ensures var r := Apply(s, Leave(w));
            && r == s.(waits := r.waits, tables := r.tables) && r.waits.Keys == s.waits.Keys
            && r.tables.log == s.tables.log
  {
  }

  lemma LeaveKeepsAnswers(s: State, w: WaitId)
    requires Inv(s) && Enabled(s, Leave(w))
    ensures AnswersRecorded(Apply(s, Leave(w))) && SessionsMatch(Apply(s, Leave(w)))
  {
    hide TableMatches, ListenerMatches, ChannelsMatch, Cleaned, Told, AnswerRecorded, SessionMatches;
    var r := Apply(s, Leave(w));
    LeaveShape(s, w);
    forall v | v in s.waits ensures AnswerRecorded(r.waits[v], r.recorded) && SessionMatches(r.waits[v], r) {
      LeaveWaits(s, w, v);
      LeftAnswer(s, r, s.waits[v], r.waits[v]);
    }
  }

  /** A wait that leaves with its outcome, or whose receiver is gone, keeps what it was answered. */
  lemma LeftAnswer(s: State, r: State, x: Wait, y: Wait)
    requires r == s.(waits := r.waits, tables := r.tables)
    requires AnswerRecorded(x, s.recorded) && SessionMatches(x, s)
    requires y == x.(phase := y.phase, channel := y.channel) && (y.channel == x.channel || y.channel.Dropped?)
    requires y.phase == x.phase || (x.phase.Leaving? && y.phase == Done(x.phase.outcome))
    ensures AnswerRecorded(y, r.recorded) && SessionMatches(y, r)
  {
  }

  lemma LeaveKeeps(s: State, w: WaitId)
    requires Inv(s) && Enabled(s, Leave(w))
    ensures Inv(Apply(s, Leave(w)))
  {
    hide TableMatches, Consistent, Cleaned, Told, ChannelsMatch, AnswersRecorded, SessionsMatch;
    LeaveKeepsTable(s, w);
    LeaveKeepsChannels(s, w);
    LeaveKeepsAnswers(s, w);
  }

  lemma LeaveClosesChannel(s: State, w: WaitId)
    requires TableMatches(s) && Enabled(s, Leave(w))
    ensures !Apply(s, Leave(w)).waits[w].channel.Open?
  {
  }

  lemma StepKeeps(s: State, step: Step)
    requires Inv(s) && Enabled(s, step)
    ensures Inv(Apply(s, step))
  {
    hide Inv, AfterRecord, Told, Consistent, TableMatches, AnswersRecorded, SessionsMatch, ListenerMatches;
    match step {
      case Frame(_) => ListenerKeeps(s, step);
      case Publish => ListenerKeeps(s, step);
      case Clear => DropAllKeeps(s, step);
      case Close =>
        if !s.closed {
          DropAllKeeps(s, step);
        }
      case Record(index, done) => RecordKeeps(s, index, done);
      case Register(w, index, run) => RegisterKeeps(s, w, index, run);
      case Capture(w) => CaptureKeeps(s, w);
      case Leave(w) => LeaveKeeps(s, w);
      case Recover(w, found) => RecoverKeeps(s, w, found);
      case Observe(w) => AnswerKeeps(s, step, w);
      case GraceAnswer(w) => AnswerKeeps(s, step, w);
      case Hit(w) => MoveKeeps(s, w, Judging(s.waits[w].phase.session));
      case Judge(w) => MoveKeeps(s, w, Verdict(s, w, s.waits[w].phase.session));
      case GiveUp(w) => MoveKeeps(s, w, Leaving(Nothing));
      case Cancel(w) => MoveKeeps(s, w, Cancelled);
    }
  }

  lemma AnswerKeeps(s: State, step: Step, w: WaitId)
    requires Inv(s) && Enabled(s, step) && (step == Observe(w) || step == GraceAnswer(w))
    ensures Inv(Apply(s, step))
  {
    MoveKeeps(s, w, Apply(s, step).waits[w].phase);
  }

  lemma RecoverKeeps(s: State, w: WaitId, found: Option<Completion>)
    requires Inv(s) && Enabled(s, Recover(w, found))
    ensures Inv(Apply(s, Recover(w, found)))
  {
    if found.None? {
      MoveKeeps(s, w, Leaving(Nothing));
    } else {
      RecordKeeps(s, s.waits[w].index, found.value);
      MoveKeeps(AfterRecord(s, s.waits[w].index, found.value), w, Leaving(Completed(found.value, s.gen, Recovered)));
    }
  }

  /** In every interleaving the tables, channels, answers and sessions agree. */
  lemma {:induction false} RunKeeps(s: State, steps: seq<Step>)
    requires Inv(s) && ValidRun(s, steps)
    ensures Inv(Run(s, steps))
    decreases |steps|
  {
    if steps != [] {
      StepKeeps(s, steps[0]);
      RunKeeps(Apply(s, steps[0]), steps[1..]);
    }
  }

  // -------------------------------------------------------------- no answer is lost

  /** Steps that put a completion of `index` on record. */
  predicate Records(s: State, step: Step, index: Index) {
    match step
    case Record(i, _) => i == index
    case Recover(w, found) => found.Some? && w in s.waits && s.waits[w].index == index
    case _ => false
  }

  function RecordedBy(step: Step): Completion
    requires step.Record? || (step.Recover? && step.found.Some?)
  {
    if step.Record? then step.done else step.found.value
  }

  /**
   An open channel stays open until its answer, a restart or close, or the wait's own end: a
   completion put on record while it is open is the one it delivers.
   */
  lemma OpenEnds(s: State, step: Step, w: WaitId)
    requires Inv(s) && Enabled(s, step) && w in s.waits && s.waits[w].Live() && s.waits[w].channel.Open?
    ensures w in Apply(s, step).waits
    ensures var wait := Apply(s, step).waits[w];
            && wait.index == s.waits[w].index && wait.gen == s.waits[w].gen && wait.run == s.waits[w].run
            && if Records(s, step, wait.index) then wait.channel == Sent(RecordedBy(step))
               else if step.Clear? || (step.Close? && !s.closed) || step == Leave(w) then wait.channel == Dropped
               else wait.channel == Open
  {
    hide Recorded, AnswersRecorded, SessionsMatch, ListenerMatches, Consistent, Cleaned;
    assert Listed(s.tables, w, s.waits[w]);
    if step.Leave? {
      LeaveWaits(s, step.w, w);
      LeaveClosesChannel(s, step.w);
      if step.w != w {
        LeaveTells(s, step.w, w);
      }
    }
  }

  lemma LeaveTells(s: State, w: WaitId, v: WaitId)
    requires TableMatches(s) && Enabled(s, Leave(w)) && v in s.waits && s.waits[v].Live() && v != w
    ensures Apply(s, Leave(w)).waits[v] == s.waits[v]
  {
  }

  /** A delivered answer stays delivered. */
  lemma SentStays(s: State, step: Step, w: WaitId)
    requires Inv(s) && Enabled(s, step) && w in s.waits && s.waits[w].channel.Sent?
    ensures w in Apply(s, step).waits
    ensures var wait := Apply(s, step).waits[w];
            wait.channel == s.waits[w].channel && wait.index == s.waits[w].index && wait.run == s.waits[w].run
  {
    hide Recorded, AnswersRecorded, SessionsMatch, ListenerMatches, Consistent, Cleaned;
    if step.Leave? {
      LeaveWaits(s, step.w, w);
      LeaveLeavesSent(s, step.w, w);
    }
  }

  lemma LeaveLeavesSent(s: State, w: WaitId, v: WaitId)
    requires TableMatches(s) && Enabled(s, Leave(w)) && v in s.waits && s.waits[v].channel.Sent?
    ensures Apply(s, Leave(w)).waits[v].channel == s.waits[v].channel
  {
  }

  /** The run neither clears nor closes, and `w` neither leaves nor is cancelled. */
  ghost predicate Undisturbed(steps: seq<Step>, w: WaitId) {
    forall k | 0 <= k < |steps| :: !steps[k].Clear? && !steps[k].Close? && steps[k] != Leave(w) && steps[k] != Cancel(w)
  }

  ghost predicate RunRecords(s: State, steps: seq<Step>, index: Index)
    requires ValidRun(s, steps)
    decreases |steps|
  {
    steps != [] && (Records(s, steps[0], index) || RunRecords(Apply(s, steps[0]), steps[1..], index))
  }

  /** The first completion of `index` a run puts on record. */
  ghost function FirstRecorded(s: State, steps: seq<Step>, index: Index): Completion
    requires ValidRun(s, steps) && RunRecords(s, steps, index)
    decreases |steps|
  {
    if Records(s, steps[0], index) then RecordedBy(steps[0]) else FirstRecorded(Apply(s, steps[0]), steps[1..], index)
  }

  /**
   No completion falls between the log check and joining: once a wait is in the table, the first
   completion of its index anywhere later in the run reaches its channel, and none means the
   channel is still open.
   */
  lemma {:induction false} NoCompleteLost(s: State, steps: seq<Step>, w: WaitId)
    requires Inv(s) && ValidRun(s, steps) && Undisturbed(steps, w)
    requires w in s.waits && s.waits[w].Live() && s.waits[w].channel.Open?
    ensures var r, index := Run(s, steps), s.waits[w].index;
            && w in r.waits && r.waits[w].index == index && r.waits[w].run == s.waits[w].run
            && r.waits[w].channel == if RunRecords(s, steps, index) then Sent(FirstRecorded(s, steps, index)) else Open
    decreases |steps|
  {
    if steps != [] {
      hide Inv;
      var t := Apply(s, steps[0]);
      StepKeeps(s, steps[0]);
      OpenEnds(s, steps[0], w);
      LiveStays(s, steps[0], w);
      if t.waits[w].channel.Open? {
        NoCompleteLost(t, steps[1..], w);
      } else {
        SentForGood(t, steps[1..], w);
      }
    }
  }

  /**
   The channel holds an answer of the runtime's run the wait is about exactly when the first
   completion of its index to be recorded is of that run: nothing else tells them apart.
   */
  lemma OwnRunExactly(s: State, steps: seq<Step>, w: WaitId)
    requires Inv(s) && ValidRun(s, steps) && Undisturbed(steps, w)
    requires w in s.waits && s.waits[w].Live() && s.waits[w].channel.Open?
    ensures w in Run(s, steps).waits
    ensures var wait := Run(s, steps).waits[w];
            wait.channel.Sent? && wait.channel.done.run == wait.run <==>
            && RunRecords(s, steps, s.waits[w].index)
            && FirstRecorded(s, steps, s.waits[w].index).run == s.waits[w].run
  {
    hide Inv, ValidRun, Run, RunRecords, FirstRecorded;
    NoCompleteLost(s, steps, w);
  }

  lemma LiveStays(s: State, step: Step, w: WaitId)
    requires Inv(s) && Enabled(s, step) && w in s.waits && s.waits[w].Live()
    requires step != Leave(w) && step != Cancel(w)
    ensures w in Apply(s, step).waits && Apply(s, step).waits[w].Live()
  {
    hide Recorded, AnswersRecorded, SessionsMatch, ListenerMatches, Consistent, Cleaned;
    if step.Leave? {
      LeaveWaits(s, step.w, w);
    }
  }

  lemma {:induction false} SentForGood(s: State, steps: seq<Step>, w: WaitId)
    requires Inv(s) && ValidRun(s, steps) && w in s.waits && s.waits[w].channel.Sent?
    ensures w in Run(s, steps).waits
    ensures var wait := Run(s, steps).waits[w];
            wait.channel == s.waits[w].channel && wait.index == s.waits[w].index && wait.run == s.waits[w].run
    decreases |steps|
  {
    if steps != [] {
      hide Inv;
      StepKeeps(s, steps[0]);
      SentStays(s, steps[0], w);
      SentForGood(Apply(s, steps[0]), steps[1..], w);
    }
  }

  // ---------------------------------------------------- what a restart tells the waits

  /**
   When a restart clears the waiters, a racing wait learns of the restart exactly if it had
   captured a session before the new one was published.
   */
  lemma ClearTells(s: State, w: WaitId)
    requires Inv(s) && s.listener.Clearing?
    requires w in s.waits && s.waits[w].phase.Racing? && s.waits[w].channel.Open?
    ensures var cleared := Apply(s, Clear);
            && Enabled(cleared, Observe(w))
            && Apply(cleared, Observe(w)).waits[w].phase ==
                 Leaving(if s.waits[w].phase.session.Some? && s.waits[w].seen < s.publications then SessionChanged
                         else Nothing)
  {
    assert Listed(s.tables, w, s.waits[w]);
  }

  /** A wait that joined before the clearing but captures after the publication takes the restart for a time-out. */
  lemma LateCaptureMissesRestart(s: State, w: WaitId)
    requires Inv(s) && s.listener.Clearing?
    requires w in s.waits && s.waits[w].phase.Joined? && s.waits[w].channel.Open?
    ensures var cleared := Apply(Apply(s, Capture(w)), Clear);
            && Enabled(cleared, Observe(w))
            && Apply(cleared, Observe(w)).waits[w].phase == Leaving(Nothing)
  {
    CaptureKeeps(s, w);
    ClearTells(Apply(s, Capture(w)), w);
  }

  lemma {:induction false} RunNext(s: State, steps: seq<Step>, step: Step)
    requires ValidRun(s, steps) && Enabled(Run(s, steps), step)
    ensures ValidRun(s, steps + [step]) && Run(s, steps + [step]) == Apply(Run(s, steps), step)
    decreases |steps|
  {
    hide Apply, Enabled;
    if steps == [] {
      assert ([] + [step])[1..] == [];
      assert ValidRun(Apply(s, step), []);
    } else {
      RunNext(Apply(s, steps[0]), steps[1..], step);
      assert (steps + [step])[1..] == steps[1..] + [step];
    }
  }

  /** Such a moment is reachable: a wait that joins while a restart's frame is being taken in. */
  lemma RestartWithJoinedWait(first: Status, second: Status, index: Index) returns (steps: seq<Step>)
    requires first.session != second.session
    ensures ValidRun(Start(), steps)
    ensures var s := Run(Start(), steps);
            s.listener.Clearing? && 0 in s.waits && s.waits[0].phase.Joined? && s.waits[0].channel.Open?
  {
    hide ValidRun, Run;
    steps := Published(first);
    RunNext(Start(), steps, Register(0, index, first.session));
    steps := steps + [Register(0, index, first.session)];
    RunNext(Start(), steps, Frame(second));
    steps := steps + [Frame(second)];
    RunNext(Start(), steps, Publish);
    steps := steps + [Publish];
  }

  /** The state after a first frame. */
  ghost function Begun(first: Status): State {
    Start().(last := Some((first.session, first.seqNo)), accepted := [(first.session, first.seqNo)],
             published := Some(first), publications := 1)
  }

  lemma Published(first: Status) returns (steps: seq<Step>)
    ensures ValidRun(Start(), steps) && Run(Start(), steps) == Begun(first)
  {
    hide ValidRun, Run;
    assert ValidRun(Start(), []) && Run(Start(), []) == Start() by { NothingRun(Start()); }
    RunNext(Start(), [], Frame(first));
    RunNext(Start(), [] + [Frame(first)], Publish);
    steps := [] + [Frame(first)] + [Publish];
  }

  lemma NothingRun(s: State)
    ensures ValidRun(s, []) && Run(s, []) == s
  {
  }

  // ------------------------------------------------- which run of the runtime answers

  /**
   A COMPLETE of the restarted runtime that arrives before its first STATUS frame answers a wait
   of the run before: a run from the start in which only the first session's frame was ever seen.
   */
  lemma EarlyCompleteAnswersOldWait(first: Status, index: Index, done: Completion) returns (steps: seq<Step>)
    requires done.run != first.session
    ensures ValidRun(Start(), steps)
    ensures var s := Run(Start(), steps);
            && 0 in s.waits && s.waits[0].run == first.session && s.gen == 0
            && s.waits[0].phase == Leaving(Completed(done, 0, ByChannel))
  {
    hide ValidRun, Run, Recorded;
    steps := Published(first);
    RunNext(Start(), steps, Register(0, index, first.session));
    steps := steps + [Register(0, index, first.session)];
    RunNext(Start(), steps, Capture(0));
    steps := steps + [Capture(0)];
    RunNext(Start(), steps, Record(index, done));
    steps := steps + [Record(index, done)];
    assert Run(Start(), steps).waits[0].channel == Sent(done);
    RunNext(Start(), steps, Observe(0));
    steps := steps + [Observe(0)];
  }

  /** A late COMPLETE of the old run, recorded after the clearing, answers a wait of the new one from the log. */
  lemma LateCompleteAnswersNewWait(first: Status, second: Status, index: Index, done: Completion)
    returns (steps: seq<Step>)
    requires first.session != second.session && done.run == first.session
    ensures ValidRun(Start(), steps)
    ensures var s := Run(Start(), steps);
            && 0 in s.waits && s.waits[0].run == second.session && s.gen == 1
            && s.waits[0].phase == Done(Completed(done, 1, ByLog))
  {
    hide ValidRun, Run;
    steps := Published(first);
    RunNext(Start(), steps, Frame(second));
    steps := steps + [Frame(second)];
    RunNext(Start(), steps, Publish);
    steps := steps + [Publish];
    RunNext(Start(), steps, Clear);
    steps := steps + [Clear];
    RunNext(Start(), steps, Record(index, done));
    RecordedConsistent(Run(Start(), steps).tables, index, done);
    steps := steps + [Record(index, done)];
    RunNext(Start(), steps, Register(0, index, second.session));
    steps := steps + [Register(0, index, second.session)];
  }

  /** In the grace period a restart goes unseen: the recovery then answers with the new run's command of that index. */
  lemma GraceCrossesRestart(first: Status, hit: Status, second: Status, index: Index, found: Completion)
    returns (steps: seq<Step>)
    requires first.session == hit.session != second.session && first.seqNo < hit.seqNo
    requires hit.completed >= index && !Blocks(hit, index) && found.run == second.session
    ensures ValidRun(Start(), steps)
    ensures var s := Run(Start(), steps);
            && 0 in s.waits && s.waits[0].run == first.session
            && s.waits[0].phase == Leaving(Completed(found, 1, Recovered))
  {
    hide ValidRun, Run, Recorded;
    steps := Published(first);
    RunNext(Start(), steps, Register(0, index, first.session));
    steps := steps + [Register(0, index, first.session)];
    RunNext(Start(), steps, Capture(0));
    steps := steps + [Capture(0)];
    RunNext(Start(), steps, Frame(hit));
    steps := steps + [Frame(hit)];
    RunNext(Start(), steps, Publish);
    steps := steps + [Publish];
    RunNext(Start(), steps, Hit(0));
    steps := steps + [Hit(0)];
    RunNext(Start(), steps, Judge(0));
    steps := steps + [Judge(0)];
    RunNext(Start(), steps, Frame(second));
    steps := steps + [Frame(second)];
    RunNext(Start(), steps, Publish);
    steps := steps + [Publish];
    RunNext(Start(), steps, Clear);
    steps := steps + [Clear];
    RunNext(Start(), steps, Recover(0, Some(found)));
    steps := steps + [Recover(0, Some(found))];
  }

  /** The last completion of `index` a run puts on record. */
  ghost function LastRecorded(s: State, steps: seq<Step>, index: Index): Completion
    requires ValidRun(s, steps) && RunRecords(s, steps, index)
    decreases |steps|
  {
    var t := Apply(s, steps[0]);
    if RunRecords(t, steps[1..], index) then LastRecorded(t, steps[1..], index) else RecordedBy(steps[0])
  }

  lemma LogStep(s: State, step: Step, index: Index)
    requires Inv(s) && Enabled(s, step) && index in Apply(s, step).tables.log
    ensures if Records(s, step, index) then Apply(s, step).tables.log[index] == RecordedBy(step)
            else index in s.tables.log && Apply(s, step).tables.log[index] == s.tables.log[index]
  {
    hide Recorded, TableMatches, ChannelsMatch, AnswersRecorded, SessionsMatch, ListenerMatches;
    if step.Record? {
      RecordedConsistent(s.tables, step.index, step.done);
    } else if step.Recover? && step.found.Some? {
      RecordedConsistent(s.tables, s.waits[step.w].index, step.found.value);
    }
  }

  /** What the log holds of a command, if anything, is the last completion of its index recorded. */
  lemma {:induction false} LogIsLatest(s: State, steps: seq<Step>, index: Index)
    requires Inv(s) && ValidRun(s, steps) && index in Run(s, steps).tables.log
    ensures if RunRecords(s, steps, index) then Run(s, steps).tables.log[index] == LastRecorded(s, steps, index)
            else index in s.tables.log && Run(s, steps).tables.log[index] == s.tables.log[index]
    decreases |steps|
  {
    if steps != [] {
      hide Inv;
      StepKeeps(s, steps[0]);
      LogIsLatest(Apply(s, steps[0]), steps[1..], index);
      if !RunRecords(Apply(s, steps[0]), steps[1..], index) {
        LogStep(s, steps[0], index);
      }
    }
  }

  /** An answer from the log is of the wait's own run exactly when the last completion recorded of its index is. */
  lemma LoggedOwnRunExactly(steps: seq<Step>, w: WaitId, index: Index, run: nat)
    requires ValidRun(Start(), steps) && w !in Run(Start(), steps).waits && index in Run(Start(), steps).tables.log
    ensures RunRecords(Start(), steps, index)
    ensures var done := LastRecorded(Start(), steps, index);
            var wait := Apply(Run(Start(), steps), Register(w, index, run)).waits[w];
            && wait.phase.Done? && wait.phase.outcome == Completed(done, Run(Start(), steps).gen, ByLog)
            && (wait.phase.outcome.done.run == wait.run <==> done.run == run)
  {
    StartInv();
    LogIsLatest(Start(), steps, index);
  }

  /** A completion is timely when it is recorded in the clear epoch of the run that finished it. */
  ghost predicate Timely(s: State, runOf: nat -> nat) {
    forall g, i, done | (g, i, done) in s.recorded :: done.run == runOf(g)
  }

  predicate Answered(wait: Wait) {
    (wait.phase.Leaving? || wait.phase.Done?) && wait.phase.outcome.Completed?
  }

  /**
   Answers by the channel or from the log were recorded in the clear epoch the wait joined in. So
   when completions arrive in time, they are of the wait's own run; and a recovered one is exactly
   when no clearing of another run came between.
   */
  lemma SameClearEpoch(s: State, w: WaitId, runOf: nat -> nat)
    requires Inv(s) && w in s.waits
    ensures s.waits[w].channel.Sent? ==> (s.waits[w].gen, s.waits[w].index, s.waits[w].channel.done) in s.recorded
    ensures Answered(s.waits[w]) ==>
              var outcome := s.waits[w].phase.outcome;
              && (outcome.from, s.waits[w].index, outcome.done) in s.recorded
              && Dated(s.waits[w], outcome)
    ensures Timely(s, runOf) && s.waits[w].run == runOf(s.waits[w].gen) ==>
              var wait := s.waits[w];
              && (wait.channel.Sent? ==> wait.channel.done.run == wait.run)
              && (Answered(wait) ==>
                    && (!wait.phase.outcome.source.Recovered? ==> wait.phase.outcome.done.run == wait.run)
                    && (wait.phase.outcome.done.run == wait.run <==>
                          runOf(wait.phase.outcome.from) == runOf(wait.gen)))
  {
    assert AnswerRecorded(s.waits[w], s.recorded);
  }

  // ---------------------------------------------------------- what STATUS tells the waits

  /** The published frame is of another session than the one the wait captured. */
  ghost predicate OtherSession(session: Option<nat>, published: Option<Status>) {
    session.Some? && published.Some? && session.value != published.value.session
  }

  /** The published frame shows the command accepted, and a standing error of it or of one before it. */
  ghost predicate ShowsFailure(published: Option<Status>, index: Index) {
    && published.Some? && published.value.error.Some?
    && published.value.error.value <= index <= published.value.accepted
  }

  /** The race ends by STATUS exactly when the published frame shows a restart, the completion or a failure. */
  lemma HitExactly(s: State, w: WaitId)
    requires w in s.waits && s.waits[w].phase.Racing?
    ensures Enabled(s, Hit(w)) <==>
            && s.published.Some?
            && var wait := s.waits[w];
               || OtherSession(wait.phase.session, s.published)
               || s.published.value.completed >= wait.index
               || ShowsFailure(s.published, wait.index)
  {
  }

  /**
   A wait comes to end as refused exactly when it is judged while the published frame is of its
   session and shows a failure, and the refusal names the standing error's command.
   */
  lemma RefusedExactly(s: State, step: Step, w: WaitId, command: int)
    requires Enabled(s, step) && w in s.waits && !s.waits[w].phase.Leaving? && s.waits[w].Live()
    ensures w in Apply(s, step).waits
    ensures Apply(s, step).waits[w].phase == Leaving(Refused(command)) <==>
            && step == Judge(w)
            && !OtherSession(s.waits[w].phase.session, s.published)
            && ShowsFailure(s.published, s.waits[w].index)
            && command == s.published.value.error.value
  {
    hide Recorded, Cleaned, Registered, Retained;
    if step.Leave? {
      assert step.w != w;
    }
  }

  /** Judged otherwise, it ends as changed session under another session's frame and goes into grace under any other. */
  lemma JudgedElse(s: State, w: WaitId)
    requires Enabled(s, Judge(w))
    ensures var wait, phase := s.waits[w], Apply(s, Judge(w)).waits[w].phase;
            && (phase == Leaving(SessionChanged) <==> OtherSession(wait.phase.session, s.published))
            && (phase == Grace <==>
                  !OtherSession(wait.phase.session, s.published) && !ShowsFailure(s.published, wait.index))
  {
  }

  /** A delivered completion is the wait's outcome, in the race and in grace; a recovered one is too. */
  lemma DeliveredIsOutcome(s: State, w: WaitId, found: Option<Completion>)
    requires w in s.waits
    ensures Enabled(s, Observe(w)) && s.waits[w].channel.Sent? ==>
              Apply(s, Observe(w)).waits[w].phase ==
                Leaving(Completed(s.waits[w].channel.done, s.waits[w].gen, ByChannel))
    ensures s.waits[w].phase.Grace? && s.waits[w].channel.Sent? ==>
              && Enabled(s, GraceAnswer(w))
              && Apply(s, GraceAnswer(w)).waits[w].phase ==
                   Leaving(Completed(s.waits[w].channel.done, s.waits[w].gen, ByChannel))
    ensures s.waits[w].phase.Grace? ==>
              && Enabled(s, Recover(w, found))
              && Apply(s, Recover(w, found)).waits[w].phase ==
                   Leaving(if found.None? then Nothing else Completed(found.value, s.gen, Recovered))
  {
    hide Recorded;
  }

  /** A frame is taken in exactly when it is newer than the last of its session, or of another session. */
  lemma FrameTaken(s: State, frame: Status)
    requires Enabled(s, Frame(frame)) && StreamMatches(s)
    ensures var r, n := Apply(s, Frame(frame)), |s.accepted|;
            if n == 0 || s.accepted[n - 1].0 != frame.session || frame.seqNo > s.accepted[n - 1].1
            then r.accepted == s.accepted + [(frame.session, frame.seqNo)] && r.listener.Publishing? &&
                 r.listener.frame == frame
            else r == s
  {
    hide Stretches, Spanned, Rising;
  }

  // -------------------------------------------------------------- stale table entries

  /** A wait that ended leaves no entry behind; only a cancelled one can. */
  lemma EntriesAreLiveOrCancelled(s: State, i: Index, w: WaitId)
    requires Inv(s) && i in s.tables.waiters && w in s.tables.waiters[i]
    ensures w in s.waits && (s.waits[w].Live() || s.waits[w].phase.Cancelled?)
  {
  }

  /** Cancelling a wait that holds an open channel leaves its entry in the table. */
  lemma CancelLeavesEntry(s: State, w: WaitId)
    requires Inv(s) && Enabled(s, Cancel(w))
    ensures var r := Apply(s, Cancel(w));
            !r.waits[w].Live() && (w in WaitersOf(r.tables, r.waits[w].index) <==> s.waits[w].channel.Open?)
  {
  }

  // ---------------------------------------------------------------- the STATUS stream

  /** One stretch of frames of a session, by its first and last sequence number. */
  datatype Stretch = Stretch(session: nat, first: nat, last: nat)

  /** The accepted frames as stretches of one session each. */
  ghost function Stretches(accepted: seq<(nat, nat)>): seq<Stretch> {
    if accepted == [] then []
    else
      var n := |accepted| - 1;
      var before, frame := Stretches(accepted[..n]), accepted[n];
      if before != [] && before[|before| - 1].session == frame.0
      then before[..|before| - 1] + [before[|before| - 1].(last := frame.1)]
      else before + [Stretch(frame.0, frame.1, frame.1)]
  }

  ghost function Spanned(stretches: seq<Stretch>): int {
    if stretches == [] then 0
    else Spanned(stretches[..|stretches| - 1]) + stretches[|stretches| - 1].last - stretches[|stretches| - 1].first + 1
  }

  /** Sequence numbers strictly increase while the session stays the same. */
  ghost predicate Rising(accepted: seq<(nat, nat)>) {
    forall k | 0 <= k < |accepted| - 1 :: accepted[k].0 == accepted[k + 1].0 ==> accepted[k].1 < accepted[k + 1].1
  }

  /** The last stretch ends at the last frame. */
  lemma {:induction false} LastStretch(accepted: seq<(nat, nat)>)
    requires accepted != []
    ensures var s, f := Stretches(accepted), accepted[|accepted| - 1];
            s != [] && s[|s| - 1].session == f.0 && s[|s| - 1].last == f.1
  {
  }

  /** Frames accepted plus frames counted lost are what the stretches span. */
  ghost predicate StreamMatches(s: State) {
    && Rising(s.accepted)
    && (s.last == if s.accepted == [] then None else Some(s.accepted[|s.accepted| - 1]))
    && |s.accepted| + s.gaps == Spanned(Stretches(s.accepted))
  }

  lemma StreamStep(s: State, step: Step)
    requires StreamMatches(s) && Enabled(s, step)
    ensures StreamMatches(Apply(s, step))
  {
    hide Recorded, Told, Registered, Cleaned, Stretches, Spanned;
    if step.Frame? && !Stale(s.last, step.frame) {
      AcceptedSpan(s.accepted, (step.frame.session, step.frame.seqNo));
    }
  }

  /** A frame lengthens its session's stretch, or begins one. */
  lemma AcceptedSpan(accepted: seq<(nat, nat)>, frame: (nat, nat))
    ensures var n := |accepted|;
            Spanned(Stretches(accepted + [frame])) == Spanned(Stretches(accepted)) +
              if n > 0 && accepted[n - 1].0 == frame.0 then frame.1 - accepted[n - 1].1 else 1
  {
    var more := accepted + [frame];
    assert more[..|accepted|] == accepted;
    var before := Stretches(accepted);
    var n := |before| - 1;
    if accepted != [] {
      LastStretch(accepted);
      if before[n].session == frame.0 {
        var grown := before[..n] + [before[n].(last := frame.1)];
        assert grown[..n] == before[..n];
      } else {
        assert (before + [Stretch(frame.0, frame.1, frame.1)])[..|before|] == before;
      }
    }
  }

  lemma StartStream()
    ensures StreamMatches(Start())
  {
  }

  /** Over any arrival order and interleaving: rising numbers, and nothing unaccounted for. */
  lemma {:induction false} RunStream(s: State, steps: seq<Step>)
    requires StreamMatches(s) && ValidRun(s, steps)
    ensures StreamMatches(Run(s, steps))
    decreases |steps|
  {
    if steps != [] {
      StreamStep(s, steps[0]);
      RunStream(Apply(s, steps[0]), steps[1..]);
    }
  }
}
