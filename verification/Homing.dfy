/**
 The homing sequence: what makes one valid, where it leaves the arm, and what is left of it for a
 tool that has no driver to run gripper work on.
 */
module Homing {
  import opened Wrappers

  datatype Strategy = Stall | Hall

  datatype Release = Release(duration: real, samplePct: real)

  /** The homing parameters of one joint. */
  datatype JointHoming = JointHoming(strategy: Strategy, speed: real, direction: nat, current: real, timeout: real,
                                     backoff: real, twoPass: bool, maxDiffTicks: nat, release: Option<Release>,
                                     postHomeSpeed: Option<real>)

  datatype GripperCommand = GripperCommand(position: nat, speed: nat, currentMa: int, activate: bool, action: bool,
                                           estop: bool, releaseDir: bool)

  datatype PreMove =
    | Idle(joint: nat, duration: real)
    | Nudge(joint: nat, speed: real, duration: real)
    | Position(joint: nat, position: real, duration: real)
    | GripperMove(command: GripperCommand, duration: real)

  datatype MoveTo = MoveTo(joint: nat, position: real, duration: real)

  datatype GripperMode = Motor | Firmware

  /** What one step homes at once. */
  datatype HomeGroup = HomeGroup(joints: seq<nat>, gripper: Option<GripperMode>)

  datatype Step = Step(preMoves: seq<PreMove>, home: Option<HomeGroup>, moveTo: seq<MoveTo>, postMoves: seq<PreMove>)

  datatype HomingConfig = HomingConfig(joints: seq<JointHoming>, sequence: seq<Step>, postMoves: seq<PreMove>,
                                       referenceCheck: seq<real>)

  datatype Tool = Tool(hasDriver: bool)

  // ------------------------------------------------------------------------------- validity

  predicate JointOk(j: JointHoming) {
    && j.speed > 0.0 && j.direction <= 1 && j.current > 0.0 && j.timeout > 0.0 && j.backoff >= 0.0
    && (j.twoPass && j.strategy == Stall ==> (j.maxDiffTicks as real) < j.speed * j.backoff)
    && (j.release.Some? ==> j.strategy == Stall && j.release.value.duration > 0.0 &&
                            0.0 <= j.release.value.samplePct <= 1.0)
    && (j.postHomeSpeed.Some? ==> j.postHomeSpeed.value > 0.0)
  }

  predicate MoveOk(m: PreMove, n: nat) {
    m.duration > 0.0 && (m.GripperMove? || m.joint < n)
  }

  predicate MovesOk(moves: seq<PreMove>, n: nat) {
    forall k | 0 <= k < |moves| :: MoveOk(moves[k], n)
  }

  predicate PlaceOk(m: MoveTo, n: nat) {
    m.joint < n && m.duration > 0.0
  }

  predicate GroupOk(g: HomeGroup, n: nat) {
    !(g.joints == [] && g.gripper == None) && forall k | 0 <= k < |g.joints| :: g.joints[k] < n
  }

  predicate Empty(s: Step) {
    s.preMoves == [] && s.home == None && s.moveTo == [] && s.postMoves == []
  }

  predicate StepOk(s: Step, n: nat) {
    && !Empty(s) && MovesOk(s.preMoves, n) && MovesOk(s.postMoves, n)
    && (s.home.Some? ==> GroupOk(s.home.value, n))
    && forall k | 0 <= k < |s.moveTo| :: PlaceOk(s.moveTo[k], n)
  }

  predicate StepsOk(sequence: seq<Step>, n: nat) {
    forall i | 0 <= i < |sequence| :: StepOk(sequence[i], n)
  }

  predicate Homes(s: Step, j: nat) {
    s.home.Some? && j in s.home.value.joints
  }

  /** Some step homes joint `j`. */
  predicate Referenced(sequence: seq<Step>, j: nat) {
    exists i :: 0 <= i < |sequence| && Homes(sequence[i], j)
  }

  predicate AllReferenced(sequence: seq<Step>, n: nat) {
    forall j | 0 <= j < n :: Referenced(sequence, j)
  }

  predicate BoundsOk(bounds: seq<real>, n: nat) {
    bounds == [] || (|bounds| == n && forall k | 0 <= k < n :: bounds[k] > 0.0)
  }

  predicate JointsOk(joints: seq<JointHoming>, n: nat) {
    |joints| == n && forall k | 0 <= k < n :: JointOk(joints[k])
  }

  predicate Valid(h: HomingConfig, n: nat) {
    && JointsOk(h.joints, n) && StepsOk(h.sequence, n) && AllReferenced(h.sequence, n)
    && MovesOk(h.postMoves, n) && BoundsOk(h.referenceCheck, n)
  }

  method ValidateMoves(moves: seq<PreMove>, n: nat) returns (ok: bool)
    ensures ok == MovesOk(moves, n)
  {
    for k := 0 to |moves|
      invariant forall i | 0 <= i < k :: MoveOk(moves[i], n)
    {
      if !moves[k].GripperMove? && moves[k].joint >= n {
        return false;
      }
      if moves[k].duration <= 0.0 {
        return false;
      }
    }
    return true;
  }

  method ValidateStep(s: Step, n: nat) returns (ok: bool)
    ensures ok == StepOk(s, n)
  {
    if Empty(s) {
      return false;
    }
    ok := ValidateMoves(s.preMoves, n);
    if !ok {
      return false;
    }
    ok := ValidateMoves(s.postMoves, n);
    if !ok {
      return false;
    }
    if s.home.Some? {
      var g := s.home.value;
      if g.joints == [] && g.gripper == None {
        return false;
      }
      for k := 0 to |g.joints|
        invariant forall i | 0 <= i < k :: g.joints[i] < n
      {
        if g.joints[k] >= n {
          return false;
        }
      }
    }
    for k := 0 to |s.moveTo|
      invariant forall i | 0 <= i < k :: PlaceOk(s.moveTo[i], n)
    {
      if !PlaceOk(s.moveTo[k], n) {
        return false;
      }
    }
    return true;
  }

  /** Whether every joint is homed by some step: an arm is referenced only when all of it is. */
  method EveryJointReferenced(sequence: seq<Step>, n: nat) returns (ok: bool)
    requires StepsOk(sequence, n)
    ensures ok == AllReferenced(sequence, n)
  {
    var referenced := seq(n, _ => false);
    for i := 0 to |sequence|
      invariant |referenced| == n
      invariant forall j | 0 <= j < n :: referenced[j] == Referenced(sequence[..i], j)
    {
      ghost var before := referenced;
      assert StepOk(sequence[i], n);
      if sequence[i].home.Some? {
        var joints := sequence[i].home.value.joints;
        for k := 0 to |joints|
          invariant |referenced| == n
          invariant forall j | 0 <= j < n :: referenced[j] == (before[j] || j in joints[..k])
        {
          referenced := referenced[joints[k] := true];
        }
        assert joints[..|joints|] == joints;
      }
      forall j | 0 <= j < n ensures referenced[j] == Referenced(sequence[..i + 1], j) {
        ReferencedGrows(sequence, i, j);
      }
    }
    assert sequence[..|sequence|] == sequence;
    for j := 0 to n
      invariant forall k | 0 <= k < j :: referenced[k]
    {
      if !referenced[j] {
        return false;
      }
    }
    return true;
  }

  lemma ReferencedGrows(sequence: seq<Step>, i: nat, j: nat)
    requires i < |sequence|
    ensures Referenced(sequence[..i + 1], j) <==> Referenced(sequence[..i], j) || Homes(sequence[i], j)
  {
    var more := sequence[..i + 1];
    if Referenced(sequence[..i], j) {
      var k :| 0 <= k < i && Homes(sequence[..i][k], j);
      assert Homes(more[k], j);
    }
    assert more[i] == sequence[i];
    if Referenced(more, j) {
      var k :| 0 <= k <= i && Homes(more[k], j);
      assert k < i ==> Homes(sequence[..i][k], j);
    }
  }

  method Validate(h: HomingConfig, n: nat) returns (ok: bool)
    ensures ok == Valid(h, n)
  {
    if |h.joints| != n {
      return false;
    }
    for i := 0 to n
      invariant forall k | 0 <= k < i :: JointOk(h.joints[k])
    {
      if !JointOk(h.joints[i]) {
        return false;
      }
    }
    for i := 0 to |h.sequence|
      invariant forall k | 0 <= k < i :: StepOk(h.sequence[k], n)
    {
      ok := ValidateStep(h.sequence[i], n);
      if !ok {
        return false;
      }
    }
    ok := EveryJointReferenced(h.sequence, n);
    if !ok {
      return false;
    }
    ok := ValidateMoves(h.postMoves, n);
    return ok && BoundsOk(h.referenceCheck, n);
  }

  // ----------------------------------------------------------------------------- ready pose

  function Places(sequence: seq<Step>): seq<MoveTo> {
    if sequence == [] then [] else Places(sequence[..|sequence| - 1]) + sequence[|sequence| - 1].moveTo
  }

  /** Where the last of the moves that name joint `j` puts it. */
  function LastPlace(places: seq<MoveTo>, j: nat): Option<real> {
    if places == [] then None
    else
      var last := places[|places| - 1];
      if last.joint == j then Some(last.position) else LastPlace(places[..|places| - 1], j)
  }

  /** The joints below `n` that nothing places, in order. */
  function Unplaced(places: seq<MoveTo>, n: nat): seq<nat> {
    if n == 0 then []
    else
      var rest := Unplaced(places, n - 1);
      if LastPlace(places, n - 1) == None then rest + [n - 1] else rest
  }

  ghost predicate IsReadyPose(sequence: seq<Step>, n: nat, r: Result<seq<real>, seq<nat>>) {
    var places := Places(sequence);
    match r
    case Ok(pose) => |pose| == n && forall j | 0 <= j < n :: LastPlace(places, j) == Some(pose[j])
    case Err(missing) => missing != [] && missing == Unplaced(places, n)
  }

  /** Move `k` of step `i` is the last that names joint `j`. */
  ghost predicate LastNames(sequence: seq<Step>, j: nat, i: nat, k: nat) {
    && i < |sequence| && k < |sequence[i].moveTo| && sequence[i].moveTo[k].joint == j
    && (forall l | k < l < |sequence[i].moveTo| :: sequence[i].moveTo[l].joint != j)
    && (forall m | i < m < |sequence| :: forall l | 0 <= l < |sequence[m].moveTo| :: sequence[m].moveTo[l].joint != j)
  }

  /** A joint ends where the last move that names it puts it. */
  lemma {:induction false} LastNamedPlaces(sequence: seq<Step>, j: nat, i: nat, k: nat)
    requires LastNames(sequence, j, i, k)
    ensures LastPlace(Places(sequence), j) == Some(sequence[i].moveTo[k].position)
    decreases |sequence|
  {
    var last := |sequence| - 1;
    var before, moves := Places(sequence[..last]), sequence[last].moveTo;
    if i == last {
      assert before + moves == (before + moves[..k + 1]) + moves[k + 1..];
      OthersKeep(before + moves[..k + 1], moves[k + 1..], j);
      assert before + moves[..k + 1] == (before + moves[..k]) + [moves[k]];
      PlacesGrow(before + moves[..k], moves[k], j);
    } else {
      assert LastNames(sequence[..last], j, i, k);
      LastNamedPlaces(sequence[..last], j, i, k);
      OthersKeep(before, moves, j);
    }
  }

  /** And one that no move names is not placed. */
  lemma {:induction false} UnnamedUnplaced(sequence: seq<Step>, j: nat)
    requires forall i | 0 <= i < |sequence| ::
               forall k | 0 <= k < |sequence[i].moveTo| :: sequence[i].moveTo[k].joint != j
    ensures LastPlace(Places(sequence), j) == None
    decreases |sequence|
  {
    if sequence != [] {
      var last := |sequence| - 1;
      UnnamedUnplaced(sequence[..last], j);
      OthersKeep(Places(sequence[..last]), sequence[last].moveTo, j);
    }
  }

  lemma {:induction false} OthersKeep(places: seq<MoveTo>, more: seq<MoveTo>, j: nat)
    requires forall k | 0 <= k < |more| :: more[k].joint != j
    ensures LastPlace(places + more, j) == LastPlace(places, j)
    decreases |more|
  {
    if more == [] {
      assert places + more == places;
    } else {
      var last := |more| - 1;
      OthersKeep(places, more[..last], j);
      assert places + more == (places + more[..last]) + [more[last]];
      PlacesGrow(places + more[..last], more[last], j);
    }
  }

  lemma PlacesGrow(places: seq<MoveTo>, m: MoveTo, j: nat)
    ensures LastPlace(places + [m], j) == if m.joint == j then Some(m.position) else LastPlace(places, j)
  {
    assert (places + [m])[..|places|] == places;
  }

  /** The pose after the last step, unless some joint is never placed. */
  method ReadyPoseRad(sequence: seq<Step>, n: nat) returns (r: Result<seq<real>, seq<nat>>)
    ensures IsReadyPose(sequence, n, r)
  {
    var last: seq<Option<real>> := seq(n, _ => None);
    for i := 0 to |sequence|
      invariant |last| == n
      invariant forall j | 0 <= j < n :: last[j] == LastPlace(Places(sequence[..i]), j)
    {
      var moves := sequence[i].moveTo;
      ghost var before := Places(sequence[..i]);
      assert before + moves[..0] == before;
      for k := 0 to |moves|
        invariant |last| == n
        invariant forall j | 0 <= j < n :: last[j] == LastPlace(before + moves[..k], j)
      {
        assert before + moves[..k + 1] == before + moves[..k] + [moves[k]];
        forall j: nat {
          PlacesGrow(before + moves[..k], moves[k], j);
        }
        if moves[k].joint < n {
          last := last[moves[k].joint := Some(moves[k].position)];
        }
      }
      assert moves[..|moves|] == moves;
      assert sequence[..i + 1][..i] == sequence[..i];
    }
    assert sequence[..|sequence|] == sequence;
    var missing: seq<nat> := [];
    for j := 0 to n
      invariant missing == Unplaced(Places(sequence), j)
      invariant missing == [] <==> forall k | 0 <= k < j :: last[k].Some?
    {
      if last[j].None? {
        missing := missing + [j];
      }
    }
    if missing != [] {
      return Err(missing);
    }
    return Ok(seq(n, j requires 0 <= j < n => last[j].value));
  }

  // ------------------------------------------------------------------ without gripper work

  function ArmMoves(moves: seq<PreMove>): seq<PreMove> {
    if moves == [] then []
    else
      var rest, last := ArmMoves(moves[..|moves| - 1]), moves[|moves| - 1];
      if last.GripperMove? then rest else rest + [last]
  }

  function ArmHome(home: Option<HomeGroup>): Option<HomeGroup> {
    if home.None? || home.value.joints == [] then None else Some(home.value.(gripper := None))
  }

  function ArmStep(s: Step): Step {
    Step(ArmMoves(s.preMoves), ArmHome(s.home), s.moveTo, ArmMoves(s.postMoves))
  }

  /** The steps with their gripper work taken out, those it leaves empty removed. */
  function ArmSteps(sequence: seq<Step>): seq<Step> {
    if sequence == [] then []
    else
      var rest, s := ArmSteps(sequence[..|sequence| - 1]), ArmStep(sequence[|sequence| - 1]);
      if Empty(s) then rest else rest + [s]
  }

  function ArmOnly(h: HomingConfig): HomingConfig {
    h.(sequence := ArmSteps(h.sequence), postMoves := ArmMoves(h.postMoves))
  }

  /** Drop the gripper commands from a list of moves. */
  method Strip(moves: seq<PreMove>) returns (kept: seq<PreMove>)
    ensures kept == ArmMoves(moves)
  {
    kept := [];
    for k := 0 to |moves|
      invariant kept == ArmMoves(moves[..k])
    {
      assert moves[..k + 1][..k] == moves[..k];
      if !moves[k].GripperMove? {
        kept := kept + [moves[k]];
      }
    }
    assert moves[..|moves|] == moves;
  }

  /** Drop the steps that have nothing left to do. */
  method DropEmpty(sequence: seq<Step>, ghost original: seq<Step>) returns (kept: seq<Step>)
    requires |sequence| == |original| && forall k | 0 <= k < |sequence| :: sequence[k] == ArmStep(original[k])
    ensures kept == ArmSteps(original)
  {
    kept := [];
    for k := 0 to |sequence|
      invariant kept == ArmSteps(original[..k])
    {
      assert original[..k + 1][..k] == original[..k];
      if !Empty(sequence[k]) {
        kept := kept + [sequence[k]];
      }
    }
    assert original[..|original|] == original;
  }

  /** The sequence as `tool` runs it: as written, or without gripper work when nothing can run it. */
  method ForTool(h: HomingConfig, tool: Option<Tool>) returns (r: HomingConfig)
    ensures r == if tool.Some? && !tool.value.hasDriver then ArmOnly(h) else h
  {
    r := h;
    if tool.None? || tool.value.hasDriver {
      return;
    }
    var sequence := h.sequence;
    for i := 0 to |sequence|
      invariant |sequence| == |h.sequence|
      invariant forall k | 0 <= k < i :: sequence[k] == ArmStep(h.sequence[k])
      invariant forall k | i <= k < |sequence| :: sequence[k] == h.sequence[k]
    {
      var s := sequence[i];
      if s.home.Some? {
        s := s.(home := Some(s.home.value.(gripper := None)));
      }
      if s.home.Some? && s.home.value.joints == [] {
        s := s.(home := None);
      }
      var pre := Strip(s.preMoves);
      var post := Strip(s.postMoves);
      sequence := sequence[i := s.(preMoves := pre, postMoves := post)];
    }
    var post := Strip(h.postMoves);
    sequence := DropEmpty(sequence, h.sequence);
    r := h.(sequence := sequence, postMoves := post);
  }

  // -------------------------------------------------------------- what stripping preserves

  /** One thing the arm or the gripper is asked to do, in the order it is asked. */
  datatype Work = Move(move: PreMove) | Home(group: HomeGroup) | Place(place: MoveTo)

  function MovesWork(moves: seq<PreMove>): seq<Work> {
    seq(|moves|, k requires 0 <= k < |moves| => Move(moves[k]))
  }

  function PlacesWork(places: seq<MoveTo>): seq<Work> {
    seq(|places|, k requires 0 <= k < |places| => Place(places[k]))
  }

  function StepWork(s: Step): seq<Work> {
    MovesWork(s.preMoves) + (if s.home.Some? then [Home(s.home.value)] else []) +
    PlacesWork(s.moveTo) + MovesWork(s.postMoves)
  }

  function StepsWork(sequence: seq<Step>): seq<Work> {
    if sequence == [] then [] else StepsWork(sequence[..|sequence| - 1]) + StepWork(sequence[|sequence| - 1])
  }

  /** Everything a sequence asks for. */
  function AllWork(h: HomingConfig): seq<Work> {
    StepsWork(h.sequence) + MovesWork(h.postMoves)
  }

  /** The arm's part of one piece of work. */
  function ArmPart(w: Work): seq<Work> {
    match w
    case Move(m) => if m.GripperMove? then [] else [w]
    case Home(g) => if g.joints == [] then [] else [Home(g.(gripper := None))]
    case Place(_) => [w]
  }

  /** The arm's part of some work, in the same order. */
  function ArmWork(work: seq<Work>): seq<Work> {
    if work == [] then [] else ArmWork(work[..|work| - 1]) + ArmPart(work[|work| - 1])
  }

  lemma {:induction false} ArmWorkAppend(a: seq<Work>, b: seq<Work>)
    ensures ArmWork(a + b) == ArmWork(a) + ArmWork(b)
    decreases |b|
  {
    if b == [] {
      assert a + b == a;
    } else {
      ArmWorkAppend(a, b[..|b| - 1]);
      assert (a + b)[..|a + b| - 1] == a + b[..|b| - 1];
    }
  }

  lemma {:induction false} MovesArmWork(moves: seq<PreMove>)
    ensures ArmWork(MovesWork(moves)) == MovesWork(ArmMoves(moves))
    decreases |moves|
  {
    if moves != [] {
      var last := |moves| - 1;
      MovesArmWork(moves[..last]);
      assert MovesWork(moves)[..last] == MovesWork(moves[..last]);
    }
  }

  lemma OnePlace(work: seq<Work>, m: MoveTo)
    ensures ArmWork(work + [Place(m)]) == ArmWork(work) + [Place(m)]
  {
    assert (work + [Place(m)])[..|work|] == work;
  }

  lemma {:induction false} PlacesArmWork(places: seq<MoveTo>)
    ensures ArmWork(PlacesWork(places)) == PlacesWork(places)
    decreases |places|
  {
    if places != [] {
      var last := |places| - 1;
      PlacesArmWork(places[..last]);
      assert PlacesWork(places) == PlacesWork(places[..last]) + [Place(places[last])];
      OnePlace(PlacesWork(places[..last]), places[last]);
    }
  }

  lemma StepArmWork(s: Step)
    ensures ArmWork(StepWork(s)) == StepWork(ArmStep(s))
  {
    var pre, places, post := MovesWork(s.preMoves), PlacesWork(s.moveTo), MovesWork(s.postMoves);
    var home := if s.home.Some? then [Home(s.home.value)] else [];
    MovesArmWork(s.preMoves);
    MovesArmWork(s.postMoves);
    PlacesArmWork(s.moveTo);
    ArmWorkAppend(pre + home + places, post);
    ArmWorkAppend(pre + home, places);
    ArmWorkAppend(pre, home);
    assert s.home.Some? ==> home[..0] == [];
  }

  lemma {:induction false} StepsArmWork(sequence: seq<Step>)
    ensures ArmWork(StepsWork(sequence)) == StepsWork(ArmSteps(sequence))
    decreases |sequence|
  {
    if sequence != [] {
      var last := |sequence| - 1;
      var before, s := ArmSteps(sequence[..last]), ArmStep(sequence[last]);
      StepsArmWork(sequence[..last]);
      StepArmWork(sequence[last]);
      ArmWorkAppend(StepsWork(sequence[..last]), StepWork(sequence[last]));
      StepsWorkAppend(before, s);
      assert Empty(s) ==> StepWork(s) == [];
    }
  }

  lemma StepsWorkAppend(sequence: seq<Step>, s: Step)
    ensures StepsWork(sequence + [s]) == StepsWork(sequence) + StepWork(s)
  {
    assert (sequence + [s])[..|sequence|] == sequence;
  }

  /** What is left is exactly the arm's part of what was asked, in the same order. */
  lemma SameArmWork(h: HomingConfig)
    ensures AllWork(ArmOnly(h)) == ArmWork(AllWork(h))
  {
    StepsArmWork(h.sequence);
    MovesArmWork(h.postMoves);
    ArmWorkAppend(StepsWork(h.sequence), MovesWork(h.postMoves));
  }

  predicate UsesGripper(w: Work) {
    (w.Move? && w.move.GripperMove?) || (w.Home? && w.group.gripper.Some?)
  }

  lemma {:induction false} ArmWorkUsesNoGripper(work: seq<Work>)
    ensures forall k | 0 <= k < |ArmWork(work)| :: !UsesGripper(ArmWork(work)[k])
    decreases |work|
  {
    if work != [] {
      ArmWorkUsesNoGripper(work[..|work| - 1]);
    }
  }

  /** No gripper command is left, in a move or in a home group. */
  lemma NoGripperLeft(h: HomingConfig)
    ensures forall k | 0 <= k < |AllWork(ArmOnly(h))| :: !UsesGripper(AllWork(ArmOnly(h))[k])
  {
    SameArmWork(h);
    ArmWorkUsesNoGripper(AllWork(h));
  }

  lemma {:induction false} SameReferences(sequence: seq<Step>, j: nat)
    ensures Referenced(ArmSteps(sequence), j) <==> Referenced(sequence, j)
    decreases |sequence|
  {
    if sequence != [] {
      var last := |sequence| - 1;
      SameReferences(sequence[..last], j);
      ReferencedGrows(sequence, last, j);
      assert sequence[..last + 1] == sequence;
      var before, s := ArmSteps(sequence[..last]), ArmStep(sequence[last]);
      assert Homes(s, j) <==> Homes(sequence[last], j);
      if !Empty(s) {
        ReferencedGrows(before + [s], |before|, j);
        assert (before + [s])[..|before|] == before && (before + [s])[..|before| + 1] == before + [s];
      }
    }
  }

  lemma {:induction false} SamePlaces(sequence: seq<Step>)
    ensures Places(ArmSteps(sequence)) == Places(sequence)
    decreases |sequence|
  {
    if sequence != [] {
      var last := |sequence| - 1;
      SamePlaces(sequence[..last]);
      var before, s := ArmSteps(sequence[..last]), ArmStep(sequence[last]);
      assert (before + [s])[..|before|] == before;
    }
  }

  /** The stripped sequence leaves the arm where the whole one does. */
  lemma SameReadyPose(h: HomingConfig, n: nat, a: Result<seq<real>, seq<nat>>, b: Result<seq<real>, seq<nat>>)
    requires IsReadyPose(h.sequence, n, a) && IsReadyPose(ArmOnly(h).sequence, n, b)
    ensures a == b
  {
    SamePlaces(h.sequence);
    NoneUnplaced(Places(h.sequence), n);
    var places := Places(h.sequence);
    assert a.Ok? || b.Ok? ==> forall j: nat | j < n :: Placed(places, j);
    match (a, b)
    case (Ok(x), Ok(y)) =>
      forall j | 0 <= j < n ensures x[j] == y[j] {
        assert LastPlace(places, j) == Some(x[j]);
      }
      assert x == y;
    case _ =>
  }

  predicate Placed(places: seq<MoveTo>, j: nat) {
    LastPlace(places, j).Some?
  }

  lemma {:induction false} NoneUnplaced(places: seq<MoveTo>, n: nat)
    ensures Unplaced(places, n) == [] <==> forall j: nat | j < n :: Placed(places, j)
  {
    if n > 0 {
      NoneUnplaced(places, n - 1);
      assert Placed(places, n - 1) <==> LastPlace(places, n - 1) != None;
    }
  }

  lemma {:induction false} MovesStayOk(moves: seq<PreMove>, n: nat)
    requires MovesOk(moves, n)
    ensures MovesOk(ArmMoves(moves), n)
    decreases |moves|
  {
    if moves != [] {
      MovesStayOk(moves[..|moves| - 1], n);
    }
  }

  lemma {:induction false} StepsStayOk(sequence: seq<Step>, n: nat)
    requires StepsOk(sequence, n)
    ensures StepsOk(ArmSteps(sequence), n)
    decreases |sequence|
  {
    if sequence != [] {
      var last := |sequence| - 1;
      StepsStayOk(sequence[..last], n);
      assert StepOk(sequence[last], n);
      MovesStayOk(sequence[last].preMoves, n);
      MovesStayOk(sequence[last].postMoves, n);
    }
  }

  /** A valid sequence stays valid without its gripper work. */
  lemma ArmOnlyStaysValid(h: HomingConfig, n: nat)
    requires Valid(h, n)
    ensures Valid(ArmOnly(h), n)
  {
    StepsStayOk(h.sequence, n);
    MovesStayOk(h.postMoves, n);
    forall j | 0 <= j < n ensures Referenced(ArmSteps(h.sequence), j) {
      SameReferences(h.sequence, j);
      assert Referenced(h.sequence, j);
    }
  }

  lemma {:induction false} ArmMovesTwice(moves: seq<PreMove>)
    ensures ArmMoves(ArmMoves(moves)) == ArmMoves(moves)
    decreases |moves|
  {
    if moves != [] {
      var last := |moves| - 1;
      ArmMovesTwice(moves[..last]);
      var before := ArmMoves(moves[..last]);
      assert (before + [moves[last]])[..|before|] == before;
    }
  }

  lemma {:induction false} ArmStepsTwice(sequence: seq<Step>)
    ensures ArmSteps(ArmSteps(sequence)) == ArmSteps(sequence)
    decreases |sequence|
  {
    if sequence != [] {
      var last := |sequence| - 1;
      ArmStepsTwice(sequence[..last]);
      ArmMovesTwice(sequence[last].preMoves);
      ArmMovesTwice(sequence[last].postMoves);
      var before, s := ArmSteps(sequence[..last]), ArmStep(sequence[last]);
      assert ArmStep(s) == s;
      assert (before + [s])[..|before|] == before;
    }
  }

  /** Stripping twice strips no more than once. */
  lemma ArmOnlyTwice(h: HomingConfig)
    ensures ArmOnly(ArmOnly(h)) == ArmOnly(h)
  {
    ArmStepsTwice(h.sequence);
    ArmMovesTwice(h.postMoves);
  }
}
