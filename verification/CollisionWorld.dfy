/**
 The collision world: the pair table derived from the robot's geometries and two keep-out
 layers, and its transactional replacement. Shapes' geometry is opaque.
 */
module CollisionWorld {
  import opened Reals
  import opened Wrappers

  datatype RobotGeom = RobotGeom(name: string, joint: nat)

  /** A frame of the model and the joint that carries it. */
  datatype Frame = Frame(index: nat, joint: nat)

  /** The robot's geometries, the self pairs left after filtering, the frames shapes may ride on. */
  datatype Robot = Robot(geoms: seq<RobotGeom>, selfPairs: seq<(nat, nat)>, frames: map<string, Frame>)

  /** A keep-out: fixed to the world when its parent frame is 0, else attached and carried by `joint`. */
  datatype WorldShape = WorldShape(name: string, parentFrame: nat, joint: nat, margin: real, allowed: seq<string>)

  datatype ClearancePair = ClearancePair(pair: nat, obstacleFirst: bool)

  /** The working world: self pairs, then world pairs from `worldFrom` on, each with its standoff. */
  datatype World = World(pairs: seq<(nat, nat)>, margins: seq<real>, worldFrom: nat, clearances: seq<ClearancePair>)

  // ------------------------------------------------------------------- self pairs

  /** Same joint, or parent and child in the tree: always in contact. */
  predicate Adjacent(geoms: seq<RobotGeom>, parents: seq<nat>, p: (nat, nat))
    requires p.0 < |geoms| && p.1 < |geoms| && geoms[p.0].joint < |parents| && geoms[p.1].joint < |parents|
  {
    var a, b := geoms[p.0].joint, geoms[p.1].joint;
    a == b || parents[a] == b || parents[b] == a
  }

  ghost predicate KnownPairs(geoms: seq<RobotGeom>, parents: seq<nat>, pairs: seq<(nat, nat)>) {
    forall k | 0 <= k < |pairs| ::
      pairs[k].0 < |geoms| && pairs[k].1 < |geoms| &&
      geoms[pairs[k].0].joint < |parents| && geoms[pairs[k].1].joint < |parents|
  }

  /** Which of the first `n` pairs survive, in order. */
  ghost function Kept(geoms: seq<RobotGeom>, parents: seq<nat>, pairs: seq<(nat, nat)>, n: nat): seq<(nat, nat)>
    requires n <= |pairs| && KnownPairs(geoms, parents, pairs)
  {
    if n == 0 then []
    else
      var rest := Kept(geoms, parents, pairs, n - 1);
      if Adjacent(geoms, parents, pairs[n - 1]) then rest else rest + [pairs[n - 1]]
  }

  method FilterAdjacentPairs(geoms: seq<RobotGeom>, parents: seq<nat>, pairs: seq<(nat, nat)>)
    returns (keep: seq<(nat, nat)>)
    requires KnownPairs(geoms, parents, pairs)
    ensures keep == Kept(geoms, parents, pairs, |pairs|)
    ensures forall p :: p in keep <==> p in pairs && !Adjacent(geoms, parents, p)
  {
    keep := [];
    for k := 0 to |pairs|
      invariant keep == Kept(geoms, parents, pairs, k)
      invariant forall p :: p in keep <==> p in pairs[..k] && !Adjacent(geoms, parents, p)
    {
      if !Adjacent(geoms, parents, pairs[k]) {
        keep := keep + [pairs[k]];
      }
    }
  }

  // ------------------------------------------------------------- which pairs exist

  predicate Allows(owner: WorldShape, partner: string) {
    owner.parentFrame != 0 && partner in owner.allowed
  }

  predicate Digits(s: string) {
    forall k | 0 <= k < |s| :: '0' <= s[k] <= '9'
  }

  function LastUnderscore(name: string): (r: Option<nat>)
    ensures r.Some? ==> r.value < |name| && name[r.value] == '_' && '_' !in name[r.value + 1..]
    ensures r.None? ==> '_' !in name
  {
    if name == [] then None
    else
      var last := |name| - 1;
      if name[last] == '_' then Some(last) else LastUnderscore(name[..last])
  }

  lemma {:induction false} LastUnderscoreIs(name: string, k: nat)
    requires k < |name| && name[k] == '_' && '_' !in name[k + 1..]
    ensures LastUnderscore(name) == Some(k)
  {
    var last := |name| - 1;
    if k < last {
      assert name[last] == name[k + 1..][last - k - 1];
      assert name[k + 1..] == name[..last][k + 1..] + [name[last]];
      LastUnderscoreIs(name[..last], k);
    }
  }

  /** A robot geometry's name on the reporting side: a link's index suffix is dropped. */
  function ReportingName(name: string): string {
    if ':' in name then name
    else
      var split := LastUnderscore(name);
      if split.Some? && split.value + 1 < |name| && Digits(name[split.value + 1..])
      then name[..split.value] else name
  }

  /** Every numbered geometry of a link is reported as the link. */
  lemma LinkGeometriesShareName(link: string, index: string)
    requires ':' !in link && index != [] && Digits(index)
    ensures ReportingName(link + "_" + index) == link
  {
    var name := link + "_" + index;
    assert name[|link| + 1..] == index && name[..|link|] == link;
    LastUnderscoreIs(name, |link|);
  }

  /** Geometry `g`'s name as contacts refer to it: robot parts first, then the layers in order. */
  function ContactName(robot: Robot, shapes: seq<WorldShape>, g: nat): string
    requires g < |robot.geoms| + |shapes|
  {
    if g < |robot.geoms| then ReportingName(robot.geoms[g].name) else shapes[g - |robot.geoms|].name
  }

  /** A keep-out that stands still in the world. */
  predicate FixedKeepOut(robot: Robot, shapes: seq<WorldShape>, g: nat) {
    |robot.geoms| <= g < |robot.geoms| + |shapes| && shapes[g - |robot.geoms|].parentFrame == 0
  }

  /** A fixed keep-out, or a part of the robot's own fixed base: what the pairing takes to stand still. */
  predicate Still(robot: Robot, shapes: seq<WorldShape>, g: nat) {
    if g < |robot.geoms| then robot.geoms[g].joint == 0 else FixedKeepOut(robot, shapes, g)
  }

  /** A shape and an earlier geometry are checked unless neither can move or a contact is allowed. */
  predicate Eligible(robot: Robot, shapes: seq<WorldShape>, p: (nat, nat)) {
    var n := |robot.geoms|;
    && n <= p.1 < n + |shapes| && p.0 < p.1
    && !(FixedKeepOut(robot, shapes, p.1) && Still(robot, shapes, p.0))
    && !Allows(shapes[p.1 - n], ContactName(robot, shapes, p.0))
    && !(p.0 >= n && Allows(shapes[p.0 - n], ContactName(robot, shapes, p.1)))
  }

  function OwnMargin(robot: Robot, shapes: seq<WorldShape>, clearance: real, g: nat): real {
    var n := |robot.geoms|;
    if n <= g < n + |shapes| && shapes[g - n].margin >= 0.0 then shapes[g - n].margin else clearance
  }

  /** The standoff of a world pair: the shape's own, or the wider berth of two shapes. */
  function PairMargin(robot: Robot, shapes: seq<WorldShape>, clearance: real, p: (nat, nat)): real {
    var m := OwnMargin(robot, shapes, clearance, p.1);
    if p.0 < |robot.geoms| then m else Max(m, OwnMargin(robot, shapes, clearance, p.0))
  }

  /** Exactly one of the two is a fixed keep-out. */
  predicate AgainstKeepOut(robot: Robot, shapes: seq<WorldShape>, p: (nat, nat)) {
    FixedKeepOut(robot, shapes, p.0) != FixedKeepOut(robot, shapes, p.1)
  }

  /** Pairs are visited shape by shape, and for each shape by the earlier geometry. */
  predicate Before(p: (nat, nat), q: (nat, nat)) {
    p.1 < q.1 || (p.1 == q.1 && p.0 < q.0)
  }

  predicate Due(robot: Robot, shapes: seq<WorldShape>, p: (nat, nat), next: (nat, nat)) {
    Eligible(robot, shapes, p) && Before(p, next)
  }

  ghost predicate Ordered(s: seq<(nat, nat)>) {
    forall k, l | 0 <= k < l < |s| :: Before(s[k], s[l])
  }

  /** `tail` holds the eligible pairs before `next`, in order. */
  ghost predicate TailUpTo(robot: Robot, shapes: seq<WorldShape>, tail: seq<(nat, nat)>, next: (nat, nat)) {
    && (forall p: (nat, nat) :: p in tail <==> Due(robot, shapes, p, next))
    && Ordered(tail)
  }

  ghost function MarginsOf(robot: Robot, shapes: seq<WorldShape>, clearance: real, tail: seq<(nat, nat)>): seq<real> {
    seq(|tail|, k requires 0 <= k < |tail| => PairMargin(robot, shapes, clearance, tail[k]))
  }

  /** The entries of `tail` against exactly one keep-out, numbered from `from`, the keep-out marked. */
  ghost function ClearancesOf(robot: Robot, shapes: seq<WorldShape>, tail: seq<(nat, nat)>, from: nat)
    : seq<ClearancePair>
  {
    if tail == [] then []
    else
      var last := |tail| - 1;
      var rest := ClearancesOf(robot, shapes, tail[..last], from);
      if AgainstKeepOut(robot, shapes, tail[last])
      then rest + [ClearancePair(from + last, FixedKeepOut(robot, shapes, tail[last].0))] else rest
  }

  /** The world of all layers: self pairs first, then every eligible world pair in order. */
  ghost predicate IsWorld(robot: Robot, shapes: seq<WorldShape>, clearance: real, w: World) {
    && w.worldFrom == |robot.selfPairs| <= |w.pairs|
    && w.pairs[..w.worldFrom] == robot.selfPairs
    && TailUpTo(robot, shapes, w.pairs[w.worldFrom..], (0, |robot.geoms| + |shapes|))
    && w.margins == seq(w.worldFrom, _ => clearance) + MarginsOf(robot, shapes, clearance, w.pairs[w.worldFrom..])
    && w.clearances == ClearancesOf(robot, shapes, w.pairs[w.worldFrom..], w.worldFrom)
  }

  /** A contact names itself or nothing in the world. */
  predicate BadContact(robot: Robot, shapes: seq<WorldShape>, g: nat, partner: string)
    requires |robot.geoms| <= g < |robot.geoms| + |shapes|
  {
    partner == ContactName(robot, shapes, g) ||
    forall i | 0 <= i < |robot.geoms| + |shapes| :: ContactName(robot, shapes, i) != partner
  }

  predicate ShapeContactsKnown(robot: Robot, shapes: seq<WorldShape>, k: nat)
    requires k < |shapes|
  {
    forall a | 0 <= a < |shapes[k].allowed| :: !BadContact(robot, shapes, |robot.geoms| + k, shapes[k].allowed[a])
  }

  predicate ContactsKnown(robot: Robot, shapes: seq<WorldShape>) {
    forall k | 0 <= k < |shapes| :: ShapeContactsKnown(robot, shapes, k)
  }

  // ---------------------------------------------------------- building it pair by pair

  lemma NothingDue(robot: Robot, shapes: seq<WorldShape>)
    ensures TailUpTo(robot, shapes, [], (0, |robot.geoms|))
  {
  }

  /** Row by row: the next geometry's row starts where this one's ends. */
  lemma NextRow(robot: Robot, shapes: seq<WorldShape>, tail: seq<(nat, nat)>, g: nat)
    requires TailUpTo(robot, shapes, tail, (g, g))
    ensures TailUpTo(robot, shapes, tail, (0, g + 1))
  {
    forall p: (nat, nat)
      ensures Due(robot, shapes, p, (g, g)) <==> Due(robot, shapes, p, (0, g + 1))
    {
    }
  }

  lemma SkipPair(robot: Robot, shapes: seq<WorldShape>, tail: seq<(nat, nat)>, i: nat, g: nat)
    requires TailUpTo(robot, shapes, tail, (i, g)) && !Eligible(robot, shapes, (i, g))
    ensures TailUpTo(robot, shapes, tail, (i + 1, g))
  {
    forall p: (nat, nat)
      ensures Due(robot, shapes, p, (i, g)) <==> Due(robot, shapes, p, (i + 1, g))
    {
      if p.0 == i && p.1 == g {
        assert p == (i, g);
      }
    }
  }

  lemma AddPair(robot: Robot, shapes: seq<WorldShape>, tail: seq<(nat, nat)>, i: nat, g: nat)
    requires TailUpTo(robot, shapes, tail, (i, g)) && Eligible(robot, shapes, (i, g))
    ensures TailUpTo(robot, shapes, tail + [(i, g)], (i + 1, g))
  {
    hide Eligible;
    var more := tail + [(i, g)];
    forall p: (nat, nat)
      ensures p in more <==> Due(robot, shapes, p, (i + 1, g))
    {
      assert p in more <==> p in tail || p == (i, g);
      if p.0 == i && p.1 == g {
        assert p == (i, g);
      }
      assert p in tail <==> Due(robot, shapes, p, (i, g));
    }
    forall k, l | 0 <= k < l < |more|
      ensures Before(more[k], more[l])
    {
      assert tail[k] in tail;
      assert Due(robot, shapes, tail[k], (i, g));
    }
  }

  lemma OneMoreClearance(robot: Robot, shapes: seq<WorldShape>, tail: seq<(nat, nat)>, from: nat, p: (nat, nat))
    ensures ClearancesOf(robot, shapes, tail + [p], from) ==
            ClearancesOf(robot, shapes, tail, from) +
            if AgainstKeepOut(robot, shapes, p)
            then [ClearancePair(from + |tail|, FixedKeepOut(robot, shapes, p.0))] else []
  {
    assert (tail + [p])[..|tail|] == tail;
  }

  lemma OneMoreMargin(robot: Robot, shapes: seq<WorldShape>, clearance: real, tail: seq<(nat, nat)>, p: (nat, nat))
    ensures MarginsOf(robot, shapes, clearance, tail + [p]) ==
            MarginsOf(robot, shapes, clearance, tail) + [PairMargin(robot, shapes, clearance, p)]
  {
  }

  // ------------------------------------------------------------- what the world says

  /** Each eligible world pair appears exactly once, and no other pair follows the self pairs. */
  lemma EligibleExactlyOnce(robot: Robot, shapes: seq<WorldShape>, clearance: real, w: World, p: (nat, nat))
    requires IsWorld(robot, shapes, clearance, w)
    requires forall q | q in robot.selfPairs :: q.1 < |robot.geoms|
    ensures Eligible(robot, shapes, p) <==> p in w.pairs[w.worldFrom..]
    ensures Eligible(robot, shapes, p) ==> multiset(w.pairs)[p] == 1
  {
    var tail := w.pairs[w.worldFrom..];
    var end: (nat, nat) := (0, |robot.geoms| + |shapes|);
    assert p in tail <==> Due(robot, shapes, p, end);
    if Eligible(robot, shapes, p) {
      assert p in tail;
      assert w.pairs == robot.selfPairs + tail;
      assert p !in robot.selfPairs;
      OrderedCountsOnce(tail, p);
      assert multiset(w.pairs) == multiset(robot.selfPairs) + multiset(tail);
    }
  }

  lemma {:induction false} OrderedCountsOnce(s: seq<(nat, nat)>, p: (nat, nat))
    requires Ordered(s) && p in s
    ensures multiset(s)[p] == 1
  {
    var last := |s| - 1;
    assert s == s[..last] + [s[last]];
    if p in s[..last] {
      OrderedCountsOnce(s[..last], p);
      assert p != s[last] by {
        var k :| 0 <= k < last && s[k] == p;
        assert Before(s[k], s[last]);
      }
    }
  }

  /** The clearance list is exactly the world pairs with one fixed keep-out, the keep-out marked. */
  lemma ClearancesExact(robot: Robot, shapes: seq<WorldShape>, clearance: real, w: World, c: ClearancePair)
    requires IsWorld(robot, shapes, clearance, w)
    ensures c in w.clearances <==>
            && w.worldFrom <= c.pair < |w.pairs|
            && AgainstKeepOut(robot, shapes, w.pairs[c.pair])
            && c.obstacleFirst == FixedKeepOut(robot, shapes, w.pairs[c.pair].0)
  {
    InClearances(robot, shapes, w.pairs[w.worldFrom..], w.worldFrom, c);
  }

  lemma {:induction false} InClearances(robot: Robot, shapes: seq<WorldShape>, tail: seq<(nat, nat)>,
                                        from: nat, c: ClearancePair)
    ensures c in ClearancesOf(robot, shapes, tail, from) <==>
            && from <= c.pair < from + |tail|
            && AgainstKeepOut(robot, shapes, tail[c.pair - from])
            && c.obstacleFirst == FixedKeepOut(robot, shapes, tail[c.pair - from].0)
  {
    if tail != [] {
      InClearances(robot, shapes, tail[..|tail| - 1], from, c);
    }
  }

  /** The joint that carries geometry `g`; 0 carries what is fixed to the world. */
  function CarriedBy(robot: Robot, shapes: seq<WorldShape>, g: nat): nat
    requires g < |robot.geoms| + |shapes|
  {
    if g < |robot.geoms| then robot.geoms[g].joint else shapes[g - |robot.geoms|].joint
  }

  predicate Attached(robot: Robot, shapes: seq<WorldShape>, g: nat)
    requires g < |robot.geoms| + |shapes|
  {
    g >= |robot.geoms| && shapes[g - |robot.geoms|].parentFrame != 0
  }

  predicate AllowedContact(robot: Robot, shapes: seq<WorldShape>, i: nat, g: nat)
    requires i < |robot.geoms| + |shapes| && g < |robot.geoms| + |shapes|
  {
    i >= |robot.geoms| && Allows(shapes[i - |robot.geoms|], ContactName(robot, shapes, g))
  }

  /** The world frame is carried by no joint. */
  predicate FixedAtWorld(shapes: seq<WorldShape>) {
    forall k | 0 <= k < |shapes| && shapes[k].parentFrame == 0 :: shapes[k].joint == 0
  }

  /**
   Which shape is checked against which earlier geometry: with nothing attached, exactly when the
   two ride on different joints, so that they can move relative to each other; with an attached
   shape whatever joints they ride on, its own link included, unless the contact is allowed.
   */
  lemma EligibleExactly(robot: Robot, shapes: seq<WorldShape>, p: (nat, nat))
    requires |robot.geoms| <= p.1 < |robot.geoms| + |shapes| && p.0 < p.1 && FixedAtWorld(shapes)
    ensures Eligible(robot, shapes, p) <==>
            if Attached(robot, shapes, p.0) || Attached(robot, shapes, p.1)
            then !AllowedContact(robot, shapes, p.0, p.1) && !AllowedContact(robot, shapes, p.1, p.0)
            else CarriedBy(robot, shapes, p.0) != CarriedBy(robot, shapes, p.1)
  {
  }

  /** World pairs on one joint involve an attached shape; every world pair has its own standoff. */
  lemma RigidPairsAttached(robot: Robot, shapes: seq<WorldShape>, clearance: real, w: World, k: nat)
    requires IsWorld(robot, shapes, clearance, w) && w.worldFrom <= k < |w.pairs| && FixedAtWorld(shapes)
    ensures w.pairs[k].0 < w.pairs[k].1 < |robot.geoms| + |shapes|
    ensures CarriedBy(robot, shapes, w.pairs[k].0) == CarriedBy(robot, shapes, w.pairs[k].1) ==>
              Attached(robot, shapes, w.pairs[k].0) || Attached(robot, shapes, w.pairs[k].1)
    ensures w.margins[k] == PairMargin(robot, shapes, clearance, w.pairs[k])
  {
    var tail := w.pairs[w.worldFrom..];
    assert tail[k - w.worldFrom] in tail;
    assert Due(robot, shapes, tail[k - w.worldFrom], (0, |robot.geoms| + |shapes|));
    EligibleExactly(robot, shapes, w.pairs[k]);
  }

  /** A shape attached to the fixed base never moves, and is paired with a fixed keep-out all the same. */
  lemma AttachedToBaseIsPaired(robot: Robot, fixed: WorldShape, attached: WorldShape)
    requires fixed.parentFrame == 0 == fixed.joint && attached.parentFrame != 0 && attached.joint == 0
    requires fixed.name !in attached.allowed
    ensures var n, shapes := |robot.geoms|, [fixed, attached];
            && CarriedBy(robot, shapes, n) == CarriedBy(robot, shapes, n + 1) == 0
            && Eligible(robot, shapes, (n, n + 1))
  {
    EligibleExactly(robot, [fixed, attached], (|robot.geoms|, |robot.geoms| + 1));
  }

  lemma {:induction false} OrderedSame(s: seq<(nat, nat)>, t: seq<(nat, nat)>)
    requires Ordered(s) && Ordered(t) && forall p: (nat, nat) :: p in s <==> p in t
    ensures s == t
  {
    assert s != [] ==> s[0] in s;
    assert t != [] ==> t[0] in t;
    if s != [] && t != [] {
      var m, n := |s| - 1, |t| - 1;
      LastInBoth(s, t);
      OrderedSame(s[..m], t[..n]) by {
        forall p: (nat, nat) ensures p in s[..m] <==> p in t[..n] {
          NotLast(s, p);
          NotLast(t, p);
        }
      }
      assert s == s[..m] + [s[m]] && t == t[..n] + [t[n]];
    }
  }

  lemma NotLast(s: seq<(nat, nat)>, p: (nat, nat))
    requires Ordered(s) && s != []
    ensures p in s[..|s| - 1] <==> p in s && p != s[|s| - 1]
  {
    var m := |s| - 1;
    if p in s[..m] {
      var k :| 0 <= k < m && s[k] == p;
      assert Before(s[k], s[m]);
    }
  }

  lemma LastInBoth(s: seq<(nat, nat)>, t: seq<(nat, nat)>)
    requires Ordered(s) && Ordered(t) && s != [] && t != [] && forall p: (nat, nat) :: p in s <==> p in t
    ensures s[|s| - 1] == t[|t| - 1]
  {
    var p, q := s[|s| - 1], t[|t| - 1];
    assert p in t && q in s;
    var i :| 0 <= i < |t| && t[i] == p;
    var j :| 0 <= j < |s| && s[j] == q;
    assert i < |t| - 1 ==> Before(p, q);
    assert j < |s| - 1 ==> Before(q, p);
  }

  /** The layers alone decide the world: rebuilding for the same shapes gives the same table. */
  lemma WorldDetermined(robot: Robot, shapes: seq<WorldShape>, clearance: real, a: World, b: World)
    requires IsWorld(robot, shapes, clearance, a) && IsWorld(robot, shapes, clearance, b)
    ensures a == b
  {
    var s, t := a.pairs[a.worldFrom..], b.pairs[b.worldFrom..];
    forall p: (nat, nat) ensures p in s <==> p in t {
      assert p in s <==> Due(robot, shapes, p, (0, |robot.geoms| + |shapes|));
    }
    OrderedSame(s, t);
    assert a.pairs == robot.selfPairs + s && b.pairs == robot.selfPairs + t;
  }

  // ------------------------------------------------------------------- the handle

  /** What a caller says about a shape besides its geometry and margin. */
  datatype Placement = Placement(name: string, parentFrame: Option<string>, allowed: seq<string>)

  /** One shape descriptor; `wellFormed` says whether its kind, parameters, pose and margin are. */
  datatype ShapeDesc = ShapeDesc(wellFormed: bool, margin: real, placement: Option<Placement>)

  datatype Status = Accepted | InvalidArg | Exception

  function Decimal(n: nat): string {
    var digit := ['0' + (n % 10) as char];
    if n < 10 then digit else Decimal(n / 10) + digit
  }

  predicate ExactName(partner: string) {
    && 0 < |partner| <= 128
    && '*' !in partner && '?' !in partner && '[' !in partner && ']' !in partner
  }

  predicate Distinct(names: seq<string>) {
    forall k, l | 0 <= k < l < |names| :: names[k] != names[l]
  }

  predicate ContactsWellFormed(names: seq<string>) {
    Distinct(names) && forall k | 0 <= k < |names| :: ExactName(names[k])
  }

  predicate PlacementOk(robot: Robot, layer: nat, p: Placement) {
    && |p.name| <= 256
    && |p.allowed| <= 32
    && match p.parentFrame {
         case None => p.allowed == []
         case Some(frame) => layer == 1 && frame in robot.frames && robot.frames[frame].index != 0
       }
    && ContactsWellFormed(p.allowed)
  }

  predicate DescOk(robot: Robot, layer: nat, d: ShapeDesc) {
    d.wellFormed && (d.placement.Some? ==> PlacementOk(robot, layer, d.placement.value))
  }

  predicate DescsOk(robot: Robot, layer: nat, descs: seq<ShapeDesc>) {
    forall k | 0 <= k < |descs| :: DescOk(robot, layer, descs[k])
  }

  /** The first bad descriptor is one whose geometry cannot be built. */
  predicate Malformed(robot: Robot, layer: nat, descs: seq<ShapeDesc>, k: nat) {
    k < |descs| && !descs[k].wellFormed && DescsOk(robot, layer, descs[..k])
  }

  /** The shape a well-formed descriptor stands for; an unplaced one is named after its slot. */
  function Placed(robot: Robot, layer: nat, index: nat, d: ShapeDesc): WorldShape
    requires DescOk(robot, layer, d)
  {
    match d.placement
    case None =>
      WorldShape((if layer == 0 then "installation/" else "program/") + Decimal(index), 0, 0, d.margin, [])
    case Some(p) =>
      var frame := if p.parentFrame.Some? then robot.frames[p.parentFrame.value] else Frame(0, 0);
      WorldShape(p.name, frame.index, frame.joint, d.margin, p.allowed)
  }

  ghost predicate BuiltFrom(robot: Robot, layer: nat, descs: seq<ShapeDesc>, built: seq<WorldShape>) {
    |built| <= |descs| && forall k | 0 <= k < |built| ::
      DescOk(robot, layer, descs[k]) && built[k] == Placed(robot, layer, k, descs[k])
  }

  lemma FixedParts(a: seq<WorldShape>, b: seq<WorldShape>)
    ensures FixedAtWorld(a + b) <==> FixedAtWorld(a) && FixedAtWorld(b)
  {
    if FixedAtWorld(a + b) {
      forall k | 0 <= k < |b| && b[k].parentFrame == 0 ensures b[k].joint == 0 {
        assert b[k] == (a + b)[|a| + k];
      }
      forall k | 0 <= k < |a| && a[k].parentFrame == 0 ensures a[k].joint == 0 {
        assert a[k] == (a + b)[k];
      }
    }
  }

  class Handle {
    const robot: Robot
    const clearance: real
    var layers: seq<seq<WorldShape>>
    var world: World

    ghost predicate Valid()
      reads this
    {
      && |layers| == 2 && FixedAtWorld(Shapes())
      && ContactsKnown(robot, Shapes()) && IsWorld(robot, Shapes(), clearance, world)
    }

    /** The layers in geometry order. */
    function Shapes(): seq<WorldShape>
      requires |layers| == 2
      reads this
    {
      layers[0] + layers[1]
    }

    constructor (robot: Robot, clearance: real)
      ensures Valid() && this.robot == robot && this.clearance == clearance && layers == [[], []]
    {
      this.robot := robot;
      this.clearance := clearance;
      layers := [[], []];
      new;
      var _ := RebuildWorld();
    }

    method ContactNamed(shapes: seq<WorldShape>, g: nat, partner: string) returns (bad: bool)
      requires |robot.geoms| <= g < |robot.geoms| + |shapes|
      ensures bad == BadContact(robot, shapes, g, partner)
    {
      bad := partner == ContactName(robot, shapes, g);
      if !bad {
        var i := 0;
        while i < |robot.geoms| + |shapes| && ContactName(robot, shapes, i) != partner
          invariant i <= |robot.geoms| + |shapes|
          invariant forall k | 0 <= k < i :: ContactName(robot, shapes, k) != partner
        {
          i := i + 1;
        }
        bad := i == |robot.geoms| + |shapes|;
      }
    }

    method ContactsOf(shapes: seq<WorldShape>, k: nat) returns (known: bool)
      requires k < |shapes|
      ensures known == ShapeContactsKnown(robot, shapes, k)
    {
      for a := 0 to |shapes[k].allowed|
        invariant forall b | 0 <= b < a :: !BadContact(robot, shapes, |robot.geoms| + k, shapes[k].allowed[b])
      {
        var bad := ContactNamed(shapes, |robot.geoms| + k, shapes[k].allowed[a]);
        if bad {
          return false;
        }
      }
      return true;
    }

    /** Rebuild the pair table from the layers, or leave it as it was when a contact is unknown. */
    method RebuildWorld() returns (ok: bool)
      requires |layers| == 2
      modifies this`world
      ensures ok == ContactsKnown(robot, Shapes())
      ensures if ok then IsWorld(robot, Shapes(), clearance, world) else world == old(world)
    {
      var shapes, n := Shapes(), |robot.geoms|;
      var from := |robot.selfPairs|;
      var pairs, margins, clearances := robot.selfPairs, seq(from, _ => clearance), [];
      ghost var tail: seq<(nat, nat)> := [];
      NothingDue(robot, shapes);
      for g := n to n + |shapes|
        invariant TailUpTo(robot, shapes, tail, (0, g))
        invariant pairs == robot.selfPairs + tail
        invariant margins == seq(from, _ => clearance) + MarginsOf(robot, shapes, clearance, tail)
        invariant clearances == ClearancesOf(robot, shapes, tail, from)
        invariant forall k | 0 <= k < g - n :: ShapeContactsKnown(robot, shapes, k)
        invariant world == old(world)
      {
        var known := ContactsOf(shapes, g - n);
        if !known {
          return false;
        }
        for i := 0 to g
          invariant TailUpTo(robot, shapes, tail, (i, g))
          invariant pairs == robot.selfPairs + tail
          invariant margins == seq(from, _ => clearance) + MarginsOf(robot, shapes, clearance, tail)
          invariant clearances == ClearancesOf(robot, shapes, tail, from)
          invariant world == old(world)
        {
          var pair, margin, entry := PairUp(shapes, i, g, |pairs|);
          if pair {
            AddPair(robot, shapes, tail, i, g);
            OneMoreClearance(robot, shapes, tail, from, (i, g));
            OneMoreMargin(robot, shapes, clearance, tail, (i, g));
            tail := tail + [(i, g)];
            pairs := pairs + [(i, g)];
            margins := margins + [margin];
            clearances := clearances + entry;
          } else {
            SkipPair(robot, shapes, tail, i, g);
          }
        }
        NextRow(robot, shapes, tail, g);
      }
      world := World(pairs, margins, from, clearances);
      assert pairs[from..] == tail;
      return true;
    }

    /** Whether geometry `i` is checked against shape `g`, at what standoff, and its clearance entry. */
    method PairUp(shapes: seq<WorldShape>, i: nat, g: nat, at: nat)
      returns (pair: bool, margin: real, entry: seq<ClearancePair>)
      requires |robot.geoms| <= g < |robot.geoms| + |shapes| && i < g
      ensures pair == Eligible(robot, shapes, (i, g))
      ensures margin == PairMargin(robot, shapes, clearance, (i, g))
      ensures pair ==> entry == if AgainstKeepOut(robot, shapes, (i, g))
                                then [ClearancePair(at, FixedKeepOut(robot, shapes, i))] else []
    {
      var n := |robot.geoms|;
      var w := shapes[g - n];
      var name, otherName := ContactName(robot, shapes, g), ContactName(robot, shapes, i);
      margin := if w.margin >= 0.0 then w.margin else clearance;
      entry := [];
      if i < n {
        pair := !(w.parentFrame == 0 && robot.geoms[i].joint == 0) && !Allows(w, otherName);
        if w.parentFrame == 0 {
          entry := [ClearancePair(at, false)];
        }
      } else {
        var other := shapes[i - n];
        pair := !(w.parentFrame == 0 && other.parentFrame == 0) && !Allows(w, otherName) && !Allows(other, name);
        margin := Max(margin, if other.margin >= 0.0 then other.margin else clearance);
        if w.parentFrame == 0 || other.parentFrame == 0 {
          entry := [ClearancePair(at, other.parentFrame == 0)];
        }
      }
    }

    /** Replace one layer, all or nothing: accepted exactly when every descriptor and contact is good. */
    method SetLayer(layer: int, descs: seq<ShapeDesc>) returns (status: Status)
      requires Valid()
      modifies this
      ensures Valid()
      ensures status == Accepted <==>
              && 0 <= layer < 2 && DescsOk(robot, layer, descs)
              && ContactsKnown(robot, Relayered(robot, old(layers), layer, descs))
      ensures status == Accepted ==>
              && |layers[layer]| == |descs| && BuiltFrom(robot, layer, descs, layers[layer])
              && layers[1 - layer] == old(layers[1 - layer])
      ensures status == InvalidArg <==> !(0 <= layer < 2) || exists k :: Malformed(robot, layer, descs, k)
      ensures status != Accepted ==> layers == old(layers) && world == old(world)
    {
      if layer < 0 || layer >= 2 {
        return InvalidArg;
      }
      var built: seq<WorldShape> := [];
      for i := 0 to |descs|
        invariant |built| == i && BuiltFrom(robot, layer, descs, built) && FixedAtWorld(built)
      {
        if !descs[i].wellFormed {
          assert Malformed(robot, layer, descs, i);
          return InvalidArg;
        }
        if !DescOk(robot, layer, descs[i]) {
          return Exception;
        }
        built := built + [Placed(robot, layer, i, descs[i])];
      }
      var previous := layers;
      layers := layers[layer := built];
      assert Shapes() == Relayered(robot, previous, layer, descs);
      FixedParts(previous[0], previous[1]);
      FixedParts(layers[0], layers[1]);
      var ok := RebuildWorld();
      if !ok {
        layers := previous;
        return Exception;
      }
      return Accepted;
    }
  }

  /** All shapes once `layer` is replaced. */
  ghost function Relayered(robot: Robot, layers: seq<seq<WorldShape>>, layer: nat, descs: seq<ShapeDesc>)
    : seq<WorldShape>
    requires |layers| == 2 && layer < 2 && DescsOk(robot, layer, descs)
  {
    var built := seq(|descs|, k requires 0 <= k < |descs| => Placed(robot, layer, k, descs[k]));
    if layer == 0 then built + layers[1] else layers[0] + built
  }
}
