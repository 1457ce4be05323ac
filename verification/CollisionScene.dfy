/**
 The runtime's side of the collision world: it keeps the applied shapes, a name table and an
 epoch in step with the handle, and answers which part is nearest to each keep-out.
 */
module CollisionScene {
  import opened CollisionWorld
  import opened Wrappers

  /** A keep-out as the protocol carries it; only a colliding one enters the world. */
  datatype Shape = Shape(name: string, collision: bool, wellFormed: bool, margin: real,
                         attachment: Option<seq<string>>)

  const INSTALLATION: nat := 0
  const PROGRAM: nat := 1

  /** The handle writes a name and its terminator into a buffer of this many bytes. */
  const NAME_BUFFER: nat := 256

  function Colliding(shapes: seq<Shape>): (c: seq<Shape>)
    ensures AllCollide(c)
  {
    if shapes == [] then []
    else
      var last := |shapes| - 1;
      Colliding(shapes[..last]) + if shapes[last].collision then [shapes[last]] else []
  }

  predicate AllCollide(shapes: seq<Shape>) {
    forall k | 0 <= k < |shapes| :: shapes[k].collision
  }

  lemma {:induction false} CollidingFixpoint(shapes: seq<Shape>)
    requires AllCollide(shapes)
    ensures Colliding(shapes) == shapes
  {
    if shapes != [] {
      var last := |shapes| - 1;
      CollidingFixpoint(shapes[..last]);
      assert shapes == shapes[..last] + [shapes[last]];
    }
  }

  function Desc(layer: nat, s: Shape): ShapeDesc {
    var name := (if layer == INSTALLATION then "install:" else "shape:") + s.name;
    match s.attachment
    case None => ShapeDesc(s.wellFormed, s.margin, Some(Placement(name, None, [])))
    case Some(contacts) => ShapeDesc(s.wellFormed, s.margin, Some(Placement(name, Some("gripper"), contacts)))
  }

  function Descs(layer: nat, shapes: seq<Shape>): seq<ShapeDesc> {
    seq(|shapes|, k requires 0 <= k < |shapes| => Desc(layer, shapes[k]))
  }

  /** A C string ends at its first NUL, so no name or contact may hold one. */
  predicate NulFree(s: Shape) {
    '\0' !in s.name && (s.attachment.Some? ==> forall c | c in s.attachment.value :: '\0' !in c)
  }

  predicate AllNulFree(shapes: seq<Shape>) {
    forall k | 0 <= k < |shapes| :: NulFree(shapes[k])
  }

  /** What the handle asks before it replaces a layer. */
  ghost predicate Acceptable(robot: Robot, layers: seq<seq<WorldShape>>, layer: nat, shapes: seq<Shape>)
    requires |layers| == 2 && layer < 2
  {
    && AllNulFree(shapes)
    && DescsOk(robot, layer, Descs(layer, shapes))
    && ContactsKnown(robot, Relayered(robot, layers, layer, Descs(layer, shapes)))
  }

  /** The layers once one is replaced. */
  ghost function AfterLayer(robot: Robot, layers: seq<seq<WorldShape>>, layer: nat, shapes: seq<Shape>)
    : (after: seq<seq<WorldShape>>)
    requires |layers| == 2 && layer < 2 && DescsOk(robot, layer, Descs(layer, shapes))
    ensures |after| == 2 && after[0] + after[1] == Relayered(robot, layers, layer, Descs(layer, shapes))
  {
    var descs := Descs(layer, shapes);
    layers[layer := seq(|descs|, k requires 0 <= k < |descs| => Placed(robot, layer, k, descs[k]))]
  }

  /** A replacement that succeeds: the handle accepts it, and every name in the new world can be read back. */
  ghost predicate Taken(robot: Robot, layers: seq<seq<WorldShape>>, layer: nat, shapes: seq<Shape>)
    requires |layers| == 2 && layer < 2
  {
    && Acceptable(robot, layers, layer, shapes)
    && AllReadable(Relayered(robot, layers, layer, Descs(layer, shapes)))
  }

  predicate Readable(name: string) {
    |name| + 1 <= NAME_BUFFER
  }

  predicate RobotReadable(robot: Robot) {
    forall g | 0 <= g < |robot.geoms| :: Readable(robot.geoms[g].name)
  }

  predicate AllReadable(shapes: seq<WorldShape>) {
    forall k | 0 <= k < |shapes| :: Readable(shapes[k].name)
  }

  /** The world's shapes are the applied ones, in the same order. */
  ghost predicate Mirrors(robot: Robot, layer: nat, applied: seq<Shape>, world: seq<WorldShape>) {
    && AllCollide(applied) && AllNulFree(applied)
    && |world| == |applied|
    && BuiltFrom(robot, layer, Descs(layer, applied), world)
  }

  function GeomName(robot: Robot, shapes: seq<WorldShape>, g: nat): string
    requires g < |robot.geoms| + |shapes|
  {
    if g < |robot.geoms| then robot.geoms[g].name else shapes[g - |robot.geoms|].name
  }

  /** Shapes are listed under the names they were applied with, parts under their own. */
  ghost predicate NamesMatch(robot: Robot, applied: seq<Shape>, names: seq<string>) {
    && |names| == |robot.geoms| + |applied|
    && (forall g | 0 <= g < |robot.geoms| :: names[g] == robot.geoms[g].name)
    && (forall k | 0 <= k < |applied| :: names[|robot.geoms| + k] == applied[k].name)
  }

  /** How many shapes come before the first whose name cannot be read back. */
  function FirstUnreadable(shapes: seq<WorldShape>): (n: nat)
    ensures n <= |shapes| && (forall k | 0 <= k < n :: Readable(shapes[k].name))
    ensures n < |shapes| ==> !Readable(shapes[n].name)
  {
    if shapes == [] || !Readable(shapes[0].name) then 0
    else
      assert forall k | 0 < k < |shapes| :: shapes[k] == shapes[1..][k - 1];
      1 + FirstUnreadable(shapes[1..])
  }

  ghost predicate ReportingMatch(robot: Robot, shapes: seq<WorldShape>, names: seq<string>, n: nat) {
    |names| == n <= |robot.geoms| + |shapes| && forall g | 0 <= g < n :: names[g] == ContactName(robot, shapes, g)
  }

  // -------------------------------------------------------------------- clearances

  /** One raw answer: a part, the keep-out it is measured against, and their distance. */
  datatype Clearance = Clearance(part: nat, obstacle: nat, distance: real)

  /** A clearance as it is told: by reporting names. */
  datatype Reported = Reported(part: string, obstacle: string, distance: real)

  /** A buffer too small is an error; an index past the name table stops the program. */
  datatype Answer = Told(nearest: map<nat, Reported>) | Refused | OutOfBounds

  /** World pair `k` measures a part against the fixed keep-out `o`. */
  predicate Measures(robot: Robot, shapes: seq<WorldShape>, w: World, k: nat, o: nat) {
    && w.worldFrom <= k < |w.pairs|
    && AgainstKeepOut(robot, shapes, w.pairs[k])
    && FixedKeepOut(robot, shapes, o)
    && (o == w.pairs[k].0 || o == w.pairs[k].1)
  }

  function EntryOf(w: World, c: ClearancePair, distances: seq<real>): Clearance
    requires c.pair < |w.pairs| == |distances|
  {
    var p := w.pairs[c.pair];
    Clearance(if c.obstacleFirst then p.1 else p.0, if c.obstacleFirst then p.0 else p.1, distances[c.pair])
  }

  /** `e` is the smallest distance to its keep-out among the entries, the first of equals. */
  ghost predicate NearestAmong(raw: seq<Clearance>, o: nat, e: Clearance) {
    exists k: nat :: NearestAt(raw, o, k) && e == raw[k]
  }

  ghost predicate NearestAt(raw: seq<Clearance>, o: nat, k: nat) {
    && k < |raw| && raw[k].obstacle == o
    && (forall j | 0 <= j < |raw| && raw[j].obstacle == o :: raw[k].distance <= raw[j].distance)
    && (forall j | 0 <= j < k && raw[j].obstacle == o :: raw[k].distance < raw[j].distance)
  }

  ghost predicate Answered(raw: seq<Clearance>, o: nat) {
    exists k :: 0 <= k < |raw| && raw[k].obstacle == o
  }

  lemma NearestIsLeast(raw: seq<Clearance>, o: nat, e: Clearance, j: nat)
    requires NearestAmong(raw, o, e) && j < |raw| && raw[j].obstacle == o
    ensures e.distance <= raw[j].distance
  {
    var k: nat :| NearestAt(raw, o, k) && e == raw[k];
  }

  lemma NearestGrows(raw: seq<Clearance>, o: nat, e: Clearance, next: Clearance)
    requires NearestAmong(raw, o, e) && (next.obstacle == o ==> e.distance <= next.distance)
    ensures NearestAmong(raw + [next], o, e)
  {
    var k: nat :| NearestAt(raw, o, k) && e == raw[k];
    assert NearestAt(raw + [next], o, k);
  }

  lemma NearestTaken(raw: seq<Clearance>, next: Clearance)
    requires forall j | 0 <= j < |raw| && raw[j].obstacle == next.obstacle :: next.distance < raw[j].distance
    ensures NearestAmong(raw + [next], next.obstacle, next)
  {
    assert NearestAt(raw + [next], next.obstacle, |raw|);
  }

  lemma AnsweredGrows(raw: seq<Clearance>, next: Clearance, o: nat)
    ensures Answered(raw + [next], o) <==> Answered(raw, o) || o == next.obstacle
  {
    if Answered(raw, o) {
      var k :| 0 <= k < |raw| && raw[k].obstacle == o;
      assert (raw + [next])[k].obstacle == o;
    }
    assert (raw + [next])[|raw|].obstacle == next.obstacle;
  }

  /** A keep-out's nearest entry once `next` arrives: `next` itself when nothing so far is as near. */
  lemma NearestAfter(raw: seq<Clearance>, so: Option<Clearance>, next: Clearance)
    requires match so { case None => !Answered(raw, next.obstacle)
                        case Some(e) => NearestAmong(raw, next.obstacle, e) }
    ensures so.Some? && so.value.distance <= next.distance ==> NearestAmong(raw + [next], next.obstacle, so.value)
    ensures so.None? || next.distance < so.value.distance ==> NearestAmong(raw + [next], next.obstacle, next)
  {
    match so
    case None => NearestTaken(raw, next);
    case Some(e) =>
      if e.distance <= next.distance {
        NearestGrows(raw, next.obstacle, e, next);
      } else {
        forall j | 0 <= j < |raw| && raw[j].obstacle == next.obstacle ensures next.distance < raw[j].distance {
          NearestIsLeast(raw, next.obstacle, e, j);
        }
        NearestTaken(raw, next);
      }
  }

  /** The nearest entry of every keep-out that has one, the first of equals. */
  method Nearest(raw: seq<Clearance>) returns (nearest: map<nat, Clearance>)
    ensures forall o :: o in nearest <==> Answered(raw, o)
    ensures forall o | o in nearest :: NearestAmong(raw, o, nearest[o])
  {
    hide NearestAmong, Answered;
    nearest := map[];
    NoneAnswered();
    for i := 0 to |raw|
      invariant forall o: nat :: o in nearest <==> Answered(raw[..i], o)
      invariant forall o | o in nearest :: NearestAmong(raw[..i], o, nearest[o])
    {
      var pair, before := raw[i], nearest;
      assert raw[..i + 1] == raw[..i] + [pair];
      NearestAfter(raw[..i], if pair.obstacle in before then Some(before[pair.obstacle]) else None, pair);
      if pair.obstacle !in nearest || pair.distance < nearest[pair.obstacle].distance {
        nearest := nearest[pair.obstacle := pair];
      }
      forall o | o in before && o != pair.obstacle ensures NearestAmong(raw[..i + 1], o, before[o]) {
        NearestGrows(raw[..i], o, before[o], pair);
      }
      forall o: nat ensures Answered(raw[..i + 1], o) <==> Answered(raw[..i], o) || o == pair.obstacle {
        AnsweredGrows(raw[..i], pair, o);
      }
    }
    assert raw[..|raw|] == raw;
  }

  lemma NoneAnswered()
    ensures forall o: nat :: !Answered([], o)
  {
  }

  /** The clearance list never outgrows the pair table, which sizes the answer buffer. */
  lemma {:induction false} ClearancesFit(robot: Robot, shapes: seq<WorldShape>, tail: seq<(nat, nat)>, from: nat)
    ensures |ClearancesOf(robot, shapes, tail, from)| <= |tail|
  {
    if tail != [] {
      ClearancesFit(robot, shapes, tail[..|tail| - 1], from);
    }
  }

  ghost predicate RawUpTo(robot: Robot, shapes: seq<WorldShape>, w: World, distances: seq<real>,
                          raw: seq<Clearance>, n: nat)
    requires |distances| == |w.pairs|
  {
    |raw| == n <= |w.clearances| && forall k | 0 <= k < n ::
      w.clearances[k].pair < |w.pairs| && raw[k] == EntryOf(w, w.clearances[k], distances)
  }

  /** The entry of keep-out `o` measures a part checked against it, and none checked is nearer. */
  ghost predicate NearestOf(robot: Robot, shapes: seq<WorldShape>, w: World, distances: seq<real>, o: nat, e: Clearance)
    requires |distances| == |w.pairs|
  {
    && e.obstacle == o
    && (exists k: nat :: Measures(robot, shapes, w, k, o) && e.distance == distances[k] &&
                         {w.pairs[k].0, w.pairs[k].1} == {o, e.part})
    && (forall k: nat | Measures(robot, shapes, w, k, o) :: e.distance <= distances[k])
  }

  ghost predicate AnswersKeepOuts(robot: Robot, shapes: seq<WorldShape>, w: World, distances: seq<real>,
                                  nearest: map<nat, Clearance>)
    requires |distances| == |w.pairs|
  {
    && (forall o: nat :: o in nearest <==> exists k: nat :: Measures(robot, shapes, w, k, o))
    && (forall o | o in nearest :: NearestOf(robot, shapes, w, distances, o, nearest[o]))
  }

  /** Every entry stands for one measured pair ... */
  lemma EntryMeasures(robot: Robot, shapes: seq<WorldShape>, clearance: real, w: World, distances: seq<real>,
                      raw: seq<Clearance>, i: nat)
    requires IsWorld(robot, shapes, clearance, w) && |distances| == |w.pairs|
    requires RawUpTo(robot, shapes, w, distances, raw, |w.clearances|) && i < |raw|
    ensures var k := w.clearances[i].pair;
            && Measures(robot, shapes, w, k, raw[i].obstacle) && raw[i].distance == distances[k]
            && {w.pairs[k].0, w.pairs[k].1} == {raw[i].obstacle, raw[i].part}
  {
    hide IsWorld, FixedKeepOut;
    ClearancesExact(robot, shapes, clearance, w, w.clearances[i]);
  }

  /** ... and every measured pair has its entry. */
  lemma MeasuredHasEntry(robot: Robot, shapes: seq<WorldShape>, clearance: real, w: World, distances: seq<real>,
                         raw: seq<Clearance>, k: nat, o: nat) returns (i: nat)
    requires IsWorld(robot, shapes, clearance, w) && |distances| == |w.pairs|
    requires RawUpTo(robot, shapes, w, distances, raw, |w.clearances|) && Measures(robot, shapes, w, k, o)
    ensures i < |raw| && raw[i].obstacle == o && raw[i].distance == distances[k]
  {
    hide IsWorld, FixedKeepOut;
    var c := ClearancePair(k, FixedKeepOut(robot, shapes, w.pairs[k].0));
    ClearancesExact(robot, shapes, clearance, w, c);
    i :| 0 <= i < |w.clearances| && w.clearances[i] == c;
  }

  lemma AnsweredAreMeasured(robot: Robot, shapes: seq<WorldShape>, clearance: real, w: World, distances: seq<real>,
                            raw: seq<Clearance>, o: nat)
    requires IsWorld(robot, shapes, clearance, w) && |distances| == |w.pairs|
    requires RawUpTo(robot, shapes, w, distances, raw, |w.clearances|)
    ensures Answered(raw, o) <==> exists k: nat :: Measures(robot, shapes, w, k, o)
  {
    hide IsWorld, Measures;
    if Answered(raw, o) {
      var i :| 0 <= i < |raw| && raw[i].obstacle == o;
      EntryMeasures(robot, shapes, clearance, w, distances, raw, i);
      var k := w.clearances[i].pair;
      assert Measures(robot, shapes, w, k, o);
    }
    if exists k: nat :: Measures(robot, shapes, w, k, o) {
      var k: nat :| Measures(robot, shapes, w, k, o);
      var i := MeasuredHasEntry(robot, shapes, clearance, w, distances, raw, k, o);
      assert Answered(raw, o);
    }
  }

  lemma NearestEntryIsNearest(robot: Robot, shapes: seq<WorldShape>, clearance: real, w: World, distances: seq<real>,
                              raw: seq<Clearance>, o: nat, e: Clearance)
    requires IsWorld(robot, shapes, clearance, w) && |distances| == |w.pairs|
    requires RawUpTo(robot, shapes, w, distances, raw, |w.clearances|) && NearestAmong(raw, o, e)
    ensures NearestOf(robot, shapes, w, distances, o, e)
  {
    hide IsWorld, AgainstKeepOut, FixedKeepOut, RawUpTo;
    var i: nat :| NearestAt(raw, o, i) && e == raw[i];
    EntryMeasures(robot, shapes, clearance, w, distances, raw, i);
    forall k: nat | Measures(robot, shapes, w, k, o) ensures e.distance <= distances[k] {
      var j := MeasuredHasEntry(robot, shapes, clearance, w, distances, raw, k, o);
    }
  }

  lemma ClearancesFitWorld(robot: Robot, shapes: seq<WorldShape>, clearance: real, w: World)
    requires IsWorld(robot, shapes, clearance, w)
    ensures |w.clearances| <= |w.pairs|
  {
    ClearancesFit(robot, shapes, w.pairs[w.worldFrom..], w.worldFrom);
  }

  // ------------------------------------------------------------------------ layers

  /** A program shape whose prefixed name is 256 bytes is accepted, but its name cannot be read back. */
  lemma LongestNameUnreadable(robot: Robot, layers: seq<seq<WorldShape>>, s: Shape)
    requires |layers| == 2 && layers[0] == []
    requires s.collision && s.wellFormed && s.attachment == None && |s.name| == 250 && '\0' !in s.name
    ensures Acceptable(robot, layers, PROGRAM, [s])
    ensures !AllReadable(Relayered(robot, layers, PROGRAM, Descs(PROGRAM, [s])))
  {
    var shapes := Relayered(robot, layers, PROGRAM, Descs(PROGRAM, [s]));
    assert shapes == [Placed(robot, PROGRAM, 0, Desc(PROGRAM, s))];
    assert !Readable(shapes[0].name);
  }

  /** Names of up to 249 bytes after the prefix, in both layers, are all that keeps a replacement whole. */
  lemma ShortNamesReadable(robot: Robot, layer: nat, applied: seq<Shape>, world: seq<WorldShape>)
    requires Mirrors(robot, layer, applied, world)
    ensures AllReadable(world) <==>
            forall k | 0 <= k < |applied| :: |applied[k].name| <= if layer == INSTALLATION then 247 else 249
  {
    forall k | 0 <= k < |applied|
      ensures Readable(world[k].name) <==> |applied[k].name| <= if layer == INSTALLATION then 247 else 249
    {
      var d := Descs(layer, applied)[k];
      assert DescOk(robot, layer, d) && world[k] == Placed(robot, layer, k, d);
    }
  }

  lemma RelayeredIsBuilt(robot: Robot, before: seq<seq<WorldShape>>, after: seq<seq<WorldShape>>,
                         layer: nat, descs: seq<ShapeDesc>)
    requires |before| == |after| == 2 && layer < 2 && DescsOk(robot, layer, descs)
    requires |after[layer]| == |descs| && BuiltFrom(robot, layer, descs, after[layer])
    requires after[1 - layer] == before[1 - layer]
    ensures after[0] + after[1] == Relayered(robot, before, layer, descs)
  {
    var built := seq(|descs|, k requires 0 <= k < |descs| => Placed(robot, layer, k, descs[k]));
    assert after[layer] == built;
  }

  /** Installation shapes are never attached, so they allow no contact. */
  lemma InstalledAreFixed(robot: Robot, applied: seq<Shape>, world: seq<WorldShape>, k: nat)
    requires Mirrors(robot, INSTALLATION, applied, world) && k < |world|
    ensures world[k].parentFrame == 0 && world[k].allowed == []
  {
    var d := Descs(INSTALLATION, applied)[k];
    assert DescOk(robot, INSTALLATION, d) && world[k] == Placed(robot, INSTALLATION, k, d);
  }

  /** A layer that is in force in one world is acceptable to another with the same robot and base. */
  lemma InForceAcceptable(robot: Robot, layers: seq<seq<WorldShape>>, layer: nat, applied: seq<Shape>,
                          world: seq<WorldShape>)
    requires |layers| == 2 && layer < 2 && Mirrors(robot, layer, applied, world)
    requires ContactsKnown(robot, if layer == 0 then world + layers[1] else layers[0] + world)
    ensures Acceptable(robot, layers, layer, applied)
  {
    var descs := Descs(layer, applied);
    assert forall k | 0 <= k < |descs| :: DescOk(robot, layer, descs[k]);
    RelayeredIsBuilt(robot, layers, layers[layer := world], layer, descs);
  }

  lemma InstallationAcceptable(robot: Robot, layers: seq<seq<WorldShape>>, applied: seq<Shape>, world: seq<WorldShape>)
    requires |layers| == 2 && layers[1] == [] && Mirrors(robot, INSTALLATION, applied, world)
    ensures Acceptable(robot, layers, INSTALLATION, applied)
  {
    var shapes := world + layers[1];
    forall k | 0 <= k < |shapes| ensures ShapeContactsKnown(robot, shapes, k) {
      InstalledAreFixed(robot, applied, world, k);
    }
    InForceAcceptable(robot, layers, INSTALLATION, applied, world);
  }

  /** The shapes applied decide the world's shapes. */
  lemma SameShapes(robot: Robot, layer: nat, applied: seq<Shape>, a: seq<WorldShape>, b: seq<WorldShape>)
    requires Mirrors(robot, layer, applied, a) && (Mirrors(robot, layer, applied, b) || (applied == [] && b == []))
    ensures a == b
  {
  }

  lemma MirrorsCollide(robot: Robot, layer: nat, applied: seq<Shape>, world: seq<WorldShape>)
    requires Mirrors(robot, layer, applied, world)
    ensures Colliding(applied) == applied
  {
    CollidingFixpoint(applied);
  }

  lemma PrefixReadable(a: seq<WorldShape>, b: seq<WorldShape>)
    requires AllReadable(a + b)
    ensures AllReadable(a)
  {
    forall k | 0 <= k < |a| ensures Readable(a[k].name) {
      assert a[k] == (a + b)[k];
    }
  }

  lemma OneMoreName(robot: Robot, applied: seq<Shape>, names: seq<string>, s: Shape)
    requires NamesMatch(robot, applied, names)
    ensures NamesMatch(robot, applied + [s], names + [s.name])
  {
  }

  lemma NamesCount(robot: Robot, applied: seq<Shape>, names: seq<string>)
    requires NamesMatch(robot, applied, names)
    ensures |names| == |robot.geoms| + |applied|
  {
  }

  lemma MirrorsCount(robot: Robot, layer: nat, applied: seq<Shape>, world: seq<WorldShape>)
    requires Mirrors(robot, layer, applied, world)
    ensures |world| == |applied|
  {
  }

  /** Both elements of a world pair are geometries of the world. */
  lemma PairInRange(robot: Robot, shapes: seq<WorldShape>, clearance: real, w: World, k: nat)
    requires IsWorld(robot, shapes, clearance, w) && w.worldFrom <= k < |w.pairs|
    ensures w.pairs[k].0 < |robot.geoms| + |shapes| && w.pairs[k].1 < |robot.geoms| + |shapes|
  {
    var tail := w.pairs[w.worldFrom..];
    assert tail[k - w.worldFrom] in tail;
    assert Due(robot, shapes, tail[k - w.worldFrom], (0, |robot.geoms| + |shapes|));
  }

  lemma NearestInRange(robot: Robot, shapes: seq<WorldShape>, clearance: real, w: World, distances: seq<real>,
                       o: nat, e: Clearance)
    requires IsWorld(robot, shapes, clearance, w) && |distances| == |w.pairs|
    requires NearestOf(robot, shapes, w, distances, o, e)
    ensures o < |robot.geoms| + |shapes| && e.part < |robot.geoms| + |shapes|
  {
    hide IsWorld;
    var k: nat :| Measures(robot, shapes, w, k, o) && e.distance == distances[k] &&
                  {w.pairs[k].0, w.pairs[k].1} == {o, e.part};
    PairInRange(robot, shapes, clearance, w, k);
    assert o in {w.pairs[k].0, w.pairs[k].1} && e.part in {w.pairs[k].0, w.pairs[k].1};
  }

  /** What is listed is listed as contacts name it, and with readable names everything is. */
  lemma ListedExactly(robot: Robot, shapes: seq<WorldShape>, names: seq<string>)
    requires ReportingMatch(robot, shapes, names, |robot.geoms| + FirstUnreadable(shapes))
    ensures |names| <= |robot.geoms| + |shapes|
    ensures forall g | 0 <= g < |names| :: names[g] == ContactName(robot, shapes, g)
    ensures AllReadable(shapes) <==> |names| == |robot.geoms| + |shapes|
  {
  }

  /** A scene of the same robot takes over both layers of one in step. */
  lemma FreshTakesBoth(robot: Robot, theirs: seq<seq<WorldShape>>, installation: seq<Shape>, program: seq<Shape>)
    requires |theirs| == 2
    requires Mirrors(robot, INSTALLATION, installation, theirs[0]) && Mirrors(robot, PROGRAM, program, theirs[1])
    requires ContactsKnown(robot, theirs[0] + theirs[1]) && AllReadable(theirs[0] + theirs[1])
    ensures Taken(robot, [[], []], INSTALLATION, installation)
    ensures Taken(robot, AfterLayer(robot, [[], []], INSTALLATION, installation), PROGRAM, program)
  {
    hide ContactsKnown, AllReadable;
    InstallationAcceptable(robot, [[], []], installation, theirs[0]);
    RelayeredIsBuilt(robot, [[], []], [theirs[0], []], INSTALLATION, Descs(INSTALLATION, installation));
    assert theirs[0] + [] == theirs[0];
    PrefixReadable(theirs[0], theirs[1]);
    var after := AfterLayer(robot, [[], []], INSTALLATION, installation);
    assert after[0] == theirs[0] && after[1] == [];
    InForceAcceptable(robot, after, PROGRAM, program, theirs[1]);
    RelayeredIsBuilt(robot, after, after[1 := theirs[1]], PROGRAM, Descs(PROGRAM, program));
  }

  /** A shape that allows a contact nothing in the world is named for is refused. */
  lemma UnknownContactRefused(robot: Robot, layers: seq<seq<WorldShape>>, layer: nat, shapes: seq<Shape>, k: nat,
                              contact: string)
    requires |layers| == 2 && layer < 2 && DescsOk(robot, layer, Descs(layer, shapes))
    requires k < |shapes| && shapes[k].attachment.Some? && contact in shapes[k].attachment.value
    requires var world := Relayered(robot, layers, layer, Descs(layer, shapes));
             forall g | 0 <= g < |robot.geoms| + |world| :: ContactName(robot, world, g) != contact
    ensures !Acceptable(robot, layers, layer, shapes)
  {
    var world := Relayered(robot, layers, layer, Descs(layer, shapes));
    var q := if layer == 0 then k else |layers[0]| + k;
    assert world[q] == Placed(robot, layer, k, Descs(layer, shapes)[k]);
    var a :| 0 <= a < |world[q].allowed| && world[q].allowed[a] == contact;
    assert BadContact(robot, world, |robot.geoms| + q, world[q].allowed[a]);
    assert !ShapeContactsKnown(robot, world, q);
  }

  function ToolRobot(tool: bool): Robot {
    Robot([RobotGeom("arm_0", 1)] + (if tool then [RobotGeom("tool_0", 2)] else []), [], map["gripper" := Frame(3, 2)])
  }

  const FLOOR := Shape("floor", true, true, -1.0, None)
  const HELD := Shape("held", true, true, -1.0, Some(["tool"]))

  /**
   Adoption can stop half way: layers in force on a robot with a tool, taken over by the same robot
   without it. The floor is taken, the shape that may touch the tool is refused.
   */
  lemma AdoptionStopsHalfWay()
    ensures var robot := ToolRobot(true);
            && Taken(robot, [[], []], INSTALLATION, [FLOOR])
            && Taken(robot, AfterLayer(robot, [[], []], INSTALLATION, [FLOOR]), PROGRAM, [HELD])
    ensures var robot := ToolRobot(false);
            && Taken(robot, [[], []], INSTALLATION, [FLOOR])
            && !Acceptable(robot, AfterLayer(robot, [[], []], INSTALLATION, [FLOOR]), PROGRAM, [HELD])
  {
    HeldIsWellFormed(true);
    HeldIsWellFormed(false);
    HeldTaken();
    HeldRefused();
  }

  lemma HeldIsWellFormed(tool: bool)
    ensures var robot := ToolRobot(tool);
            && Taken(robot, [[], []], INSTALLATION, [FLOOR])
            && AfterLayer(robot, [[], []], INSTALLATION, [FLOOR]) ==
                 [[WorldShape("install:floor", 0, 0, -1.0, [])], []]
            && DescsOk(robot, PROGRAM, Descs(PROGRAM, [HELD]))
  {
    var robot := ToolRobot(tool);
    assert "install:" + "floor" == "install:floor";
    assert Placed(robot, INSTALLATION, 0, Desc(INSTALLATION, FLOOR)) == WorldShape("install:floor", 0, 0, -1.0, []);
    var shapes := Relayered(robot, [[], []], INSTALLATION, Descs(INSTALLATION, [FLOOR]));
    assert shapes == [WorldShape("install:floor", 0, 0, -1.0, [])];
    var after := AfterLayer(robot, [[], []], INSTALLATION, [FLOOR]);
    assert after[0] == [WorldShape("install:floor", 0, 0, -1.0, [])] && after[1] == [];
  }

  lemma HeldWorld(tool: bool)
    ensures DescsOk(ToolRobot(tool), PROGRAM, Descs(PROGRAM, [HELD]))
    ensures Relayered(ToolRobot(tool), [[WorldShape("install:floor", 0, 0, -1.0, [])], []], PROGRAM,
                      Descs(PROGRAM, [HELD])) ==
            [WorldShape("install:floor", 0, 0, -1.0, []), WorldShape("shape:held", 3, 2, -1.0, ["tool"])]
  {
    assert "shape:" + "held" == "shape:held";
    assert Placed(ToolRobot(tool), PROGRAM, 0, Desc(PROGRAM, HELD)) ==
           WorldShape("shape:held", 3, 2, -1.0, ["tool"]);
  }

  lemma ToolReported()
    ensures ReportingName("tool_0") == "tool" && ReportingName("arm_0") == "arm"
  {
    LinkGeometriesShareName("tool", "0");
    assert "tool" + "_" + "0" == "tool_0";
    LinkGeometriesShareName("arm", "0");
    assert "arm" + "_" + "0" == "arm_0";
  }

  /** The held shape's one contact is the tool, which is not the shape itself. */
  lemma HeldContacts(robot: Robot, shapes: seq<WorldShape>)
    requires |robot.geoms| == 2 && robot.geoms[1].name == "tool_0"
    requires |shapes| == 2 && shapes[0].allowed == [] && shapes[1].allowed == ["tool"] && shapes[1].name == "shape:held"
    ensures ContactsKnown(robot, shapes)
  {
    ToolReported();
    hide ReportingName;
    assert ContactName(robot, shapes, 1) == "tool" && ContactName(robot, shapes, 3) == "shape:held";
    assert |"tool"| != |"shape:held"|;
    assert !BadContact(robot, shapes, 3, shapes[1].allowed[0]);
    assert ShapeContactsKnown(robot, shapes, 0) && ShapeContactsKnown(robot, shapes, 1);
  }

  lemma HeldTaken()
    ensures DescsOk(ToolRobot(true), PROGRAM, Descs(PROGRAM, [HELD]))
    ensures Taken(ToolRobot(true), [[WorldShape("install:floor", 0, 0, -1.0, [])], []], PROGRAM, [HELD])
  {
    HeldWorld(true);
    HeldContacts(ToolRobot(true), [WorldShape("install:floor", 0, 0, -1.0, []),
                                   WorldShape("shape:held", 3, 2, -1.0, ["tool"])]);
    hide ContactsKnown, DescsOk, Relayered;
  }

  lemma HeldRefused()
    ensures !Acceptable(ToolRobot(false), [[WorldShape("install:floor", 0, 0, -1.0, [])], []], PROGRAM, [HELD])
  {
    var robot := ToolRobot(false);
    HeldWorld(false);
    var layers := [[WorldShape("install:floor", 0, 0, -1.0, [])], []];
    ToolReported();
    hide ReportingName;
    assert "arm"[0] != "tool"[0] && "install:floor"[0] != "tool"[0] && "shape:held"[0] != "tool"[0];
    UnknownContactRefused(robot, layers, PROGRAM, [HELD], 0, "tool");
  }

  class Scene {
    const handle: Handle
    var layers: seq<seq<Shape>>
    var names: seq<string>
    var reportingNames: seq<string>
    var capacity: nat
    var epoch: nat

    /** The shapes kept are those in force. */
    ghost predicate Mirrored()
      reads this, handle
    {
      && handle.Valid() && |layers| == 2 && RobotReadable(handle.robot)
      && Mirrors(handle.robot, INSTALLATION, layers[0], handle.layers[0])
      && Mirrors(handle.robot, PROGRAM, layers[1], handle.layers[1])
    }

    /** Every shape is listed under its name; reporting names stop at the first that cannot be read back. */
    ghost predicate Valid()
      reads this, handle
    {
      && Mirrored() && NamesMatch(handle.robot, layers[0] + layers[1], names)
      && ReportingMatch(handle.robot, handle.Shapes(), reportingNames,
                        |handle.robot.geoms| + FirstUnreadable(handle.Shapes()))
    }

    /** All names are readable and the answer buffer fits the world in force. */
    ghost predicate InStep()
      requires Valid()
      reads this, handle
    {
      AllReadable(handle.Shapes()) && capacity == |handle.world.pairs|
    }

    constructor (robot: Robot, clearance: real)
      requires RobotReadable(robot)
      ensures Valid() && InStep() && fresh(handle) && handle.robot == robot
      ensures layers == [[], []] && epoch == 0
    {
      handle := new Handle(robot, clearance);
      layers, names, reportingNames, capacity, epoch := [[], []], [], [], 0, 0;
      new;
      var _ := RebuildNames();
    }

    /** List every geometry under the name it was applied with. */
    method ListNames()
      requires Mirrored()
      modifies this`names
      ensures Mirrored() && NamesMatch(handle.robot, layers[0] + layers[1], names)
    {
      hide ContactsKnown, IsWorld, Mirrors, RobotReadable;
      var robot := handle.robot;
      names := [];
      for g := 0 to |robot.geoms|
        invariant Mirrored() && |names| == g
        invariant forall k | 0 <= k < g :: names[k] == robot.geoms[k].name
      {
        names := names + [robot.geoms[g].name];
      }
      ghost var done: seq<Shape> := [];
      for slot := 0 to 2
        invariant Mirrored() && NamesMatch(robot, done, names)
        invariant done == if slot == 0 then [] else if slot == 1 then layers[0] else layers[0] + layers[1]
      {
        var layer := layers[slot];
        for k := 0 to |layer|
          invariant Mirrored() && NamesMatch(robot, done + layer[..k], names)
        {
          OneMoreName(robot, done + layer[..k], names, layer[k]);
          assert done + layer[..k + 1] == done + layer[..k] + [layer[k]];
          names := names + [layer[k].name];
        }
        assert layer[..|layer|] == layer;
        done := done + layer;
      }
    }

    /** List every geometry as contacts report it, up to the first name the buffer cannot hold. */
    method ListReportingNames() returns (ok: bool)
      requires Mirrored()
      modifies this`reportingNames
      ensures Mirrored() && ok == AllReadable(handle.Shapes())
      ensures ReportingMatch(handle.robot, handle.Shapes(), reportingNames,
                             |handle.robot.geoms| + FirstUnreadable(handle.Shapes()))
    {
      hide ContactsKnown, IsWorld, Mirrors, FirstUnreadable;
      var robot, shapes := handle.robot, handle.Shapes();
      var n := |robot.geoms|;
      reportingNames := [];
      for g := 0 to n + |shapes|
        invariant Mirrored() && ReportingMatch(robot, shapes, reportingNames, g)
        invariant forall k | 0 <= k < g - n :: Readable(shapes[k].name)
      {
        var name := GeomName(robot, shapes, g);
        if !Readable(name) {
          return false;
        }
        reportingNames := reportingNames + [if g < n then ReportingName(name) else name];
      }
      return true;
    }

    /** Refresh the name tables and the answer buffer. */
    method RebuildNames() returns (ok: bool)
      requires Mirrored()
      modifies this`names, this`reportingNames, this`capacity
      ensures Valid() && ok == AllReadable(handle.Shapes())
      ensures ok ==> InStep()
      ensures !ok ==> capacity == old(capacity)
    {
      hide ContactsKnown, IsWorld, Mirrors, NamesMatch, ReportingMatch, RobotReadable;
      ListNames();
      NamesCount(handle.robot, layers[0] + layers[1], names);
      MirrorsCount(handle.robot, INSTALLATION, layers[0], handle.layers[0]);
      MirrorsCount(handle.robot, PROGRAM, layers[1], handle.layers[1]);
      assert |names| == |handle.robot.geoms| + |handle.Shapes()|;
      ok := ListReportingNames();
      if ok {
        capacity := |handle.world.pairs|;
      }
    }

    /** Hand the handle a layer, unless a name holds a NUL. */
    method Accept(layer: nat, applied: seq<Shape>) returns (accepted: bool)
      requires handle.Valid() && layer < 2 && AllCollide(applied)
      modifies handle
      ensures handle.Valid()
      ensures accepted == Acceptable(handle.robot, old(handle.layers), layer, applied)
      ensures accepted ==>
                && handle.layers == AfterLayer(handle.robot, old(handle.layers), layer, applied)
                && Mirrors(handle.robot, layer, applied, handle.layers[layer])
                && handle.layers[1 - layer] == old(handle.layers)[1 - layer]
      ensures !accepted ==> handle.layers == old(handle.layers) && handle.world == old(handle.world)
    {
      hide ContactsKnown, IsWorld;
      for k := 0 to |applied|
        invariant forall j | 0 <= j < k :: NulFree(applied[j])
      {
        if !NulFree(applied[k]) {
          return false;
        }
      }
      var status := handle.SetLayer(layer, Descs(layer, applied));
      if status != Accepted {
        return false;
      }
      ghost var after := AfterLayer(handle.robot, old(handle.layers), layer, applied);
      assert handle.layers[layer] == after[layer] && handle.layers[1 - layer] == after[1 - layer];
      assert handle.layers == after;
      return true;
    }

    /** Keep a layer the handle has taken, refresh the names, and move the epoch on if all can be read back. */
    method Follow(layer: nat, applied: seq<Shape>) returns (r: Option<nat>)
      requires handle.Valid() && |layers| == 2 && RobotReadable(handle.robot) && layer < 2
      requires Mirrors(handle.robot, layer, applied, handle.layers[layer])
      requires Mirrors(handle.robot, 1 - layer, layers[1 - layer], handle.layers[1 - layer])
      modifies this
      ensures Valid() && layers == old(layers)[layer := applied]
      ensures r.Some? <==> AllReadable(handle.Shapes())
      ensures r.Some? ==> InStep() && epoch == old(epoch) + 1 && r == Some(epoch)
      ensures r.None? ==> epoch == old(epoch) && capacity == old(capacity)
    {
      hide NamesMatch, ReportingMatch, FirstUnreadable, RobotReadable, Mirrors;
      layers := layers[layer := applied];
      var ok := RebuildNames();
      if !ok {
        return None;
      }
      epoch := epoch + 1;
      return Some(epoch);
    }

    /**
     Replace one layer by its colliding shapes and move the epoch on. A rejected layer changes
     nothing; an accepted one whose names do not all fit the buffer is in force, yet reported as
     an error and not counted in the epoch, and the answer buffer keeps its old size.
     */
    method SetLayer(layer: nat, shapes: seq<Shape>) returns (r: Option<nat>)
      requires Valid() && layer < 2
      modifies this, handle
      ensures Valid()
      ensures r.Some? <==> Taken(handle.robot, old(handle.layers), layer, Colliding(shapes))
      ensures var accepted := Acceptable(handle.robot, old(handle.layers), layer, Colliding(shapes));
              && (accepted ==> layers == old(layers)[layer := Colliding(shapes)])
              && (accepted ==> handle.layers == AfterLayer(handle.robot, old(handle.layers), layer, Colliding(shapes)))
              && (!accepted ==> layers == old(layers) && names == old(names) && reportingNames == old(reportingNames))
              && (!accepted ==> handle.layers == old(handle.layers) && handle.world == old(handle.world))
      ensures r.Some? ==> InStep() && epoch == old(epoch) + 1 && r == Some(epoch)
      ensures r.None? ==> epoch == old(epoch) && capacity == old(capacity)
    {
      hide NamesMatch, ReportingMatch, FirstUnreadable, RobotReadable, Acceptable, AfterLayer, Mirrors;
      var applied := Colliding(shapes);
      var accepted := Accept(layer, applied);
      if !accepted {
        return None;
      }
      r := Follow(layer, applied);
    }

    /**
     The nearest part to each keep-out, `distances` being what geometry answers for each pair, told
     by reporting names. A keep-out is answered exactly when some part is checked against it, with
     the least distance over all the parts checked. A scene in step always answers; one that is
     not refuses when its buffer is too small, and else goes out of bounds exactly when the name
     of a keep-out or of its nearest part was not listed.
     */
    method Clearances(distances: seq<real>) returns (r: Answer, ghost nearest: map<nat, Clearance>)
      requires Valid() && |distances| == |handle.world.pairs|
      ensures r.Refused? <==> capacity < |handle.world.clearances|
      ensures !r.Refused? ==> AnswersKeepOuts(handle.robot, handle.Shapes(), handle.world, distances, nearest)
      ensures r.OutOfBounds? <==>
              && capacity >= |handle.world.clearances|
              && exists o :: o in nearest && !(Listed(o) && Listed(nearest[o].part))
      ensures r.Told? ==>
              && r.nearest.Keys == nearest.Keys
              && forall o | o in nearest ::
                   && o < |handle.robot.geoms| + |handle.Shapes()|
                   && nearest[o].part < |handle.robot.geoms| + |handle.Shapes()|
                   && r.nearest[o] == Reported(ContactName(handle.robot, handle.Shapes(), nearest[o].part),
                                               ContactName(handle.robot, handle.Shapes(), o), nearest[o].distance)
      ensures InStep() ==> r.Told?
    {
      hide Mirrors, NamesMatch, IsWorld, ContactsKnown, NearestOf, Answered, NearestAmong, Measures, RawUpTo,
        RobotReadable, FixedAtWorld, ReportingMatch, FirstUnreadable, AllReadable;
      var robot, shapes, w := handle.robot, handle.Shapes(), handle.world;
      ListedExactly(robot, shapes, reportingNames);
      ClearancesFitWorld(robot, shapes, handle.clearance, w);
      if capacity < |w.clearances| {
        return Refused, map[];
      }
      var raw := Measured(distances);
      var found := Nearest(raw);
      nearest := found;
      forall o: nat ensures Answered(raw, o) <==> exists k: nat :: Measures(robot, shapes, w, k, o) {
        AnsweredAreMeasured(robot, shapes, handle.clearance, w, distances, raw, o);
      }
      forall o | o in found
        ensures NearestOf(robot, shapes, w, distances, o, found[o])
        ensures o < |robot.geoms| + |shapes| && found[o].part < |robot.geoms| + |shapes|
      {
        NearestEntryIsNearest(robot, shapes, handle.clearance, w, distances, raw, o, found[o]);
        NearestInRange(robot, shapes, handle.clearance, w, distances, o, found[o]);
      }
      r := Tell(found);
    }

    /** The entries by name, if all of them are listed. */
    method Tell(found: map<nat, Clearance>) returns (r: Answer)
      ensures r.OutOfBounds? <==> exists o :: o in found && !(Listed(o) && Listed(found[o].part))
      ensures r.Told? <==> !r.OutOfBounds?
      ensures r.Told? ==> r.nearest.Keys == found.Keys && forall o | o in found ::
                Listed(o) && Listed(found[o].part) &&
                r.nearest[o] == Reported(reportingNames[found[o].part], reportingNames[o], found[o].distance)
    {
      if exists o :: o in found && !(Listed(o) && Listed(found[o].part)) {
        return OutOfBounds;
      }
      r := Told(map o | o in found :: Reported(reportingNames[found[o].part], reportingNames[o], found[o].distance));
    }

    predicate Listed(g: nat)
      reads this
    {
      g < |reportingNames|
    }

    /** The raw answers, one for each pair of the clearance list. */
    method Measured(distances: seq<real>) returns (raw: seq<Clearance>)
      requires Valid() && |distances| == |handle.world.pairs|
      ensures RawUpTo(handle.robot, handle.Shapes(), handle.world, distances, raw, |handle.world.clearances|)
    {
      hide Mirrors, NamesMatch, ReportingMatch, FirstUnreadable, RobotReadable, ContactsKnown, IsWorld;
      var robot, shapes, w := handle.robot, handle.Shapes(), handle.world;
      raw := [];
      for k := 0 to |w.clearances|
        invariant RawUpTo(robot, shapes, w, distances, raw, k)
      {
        ClearancesExact(robot, shapes, handle.clearance, w, w.clearances[k]);
        raw := raw + [EntryOf(w, w.clearances[k], distances)];
      }
    }

    /** A new scene of the same robot can take over both layers of one that is in step. */
    lemma FreshAdopts(from: Scene)
      requires Valid() && from.Valid() && layers == [[], []] && handle.robot == from.handle.robot && from.InStep()
      ensures Taken(handle.robot, handle.layers, INSTALLATION, from.layers[0])
      ensures Taken(handle.robot, AfterLayer(handle.robot, handle.layers, INSTALLATION, from.layers[0]), PROGRAM,
                    from.layers[1])
    {
      hide Mirrors, Taken, AfterLayer, ContactsKnown, NamesMatch, ReportingMatch, IsWorld, AllReadable,
        FirstUnreadable, RobotReadable;
      SameShapes(handle.robot, INSTALLATION, [], handle.layers[0], []);
      SameShapes(handle.robot, PROGRAM, [], handle.layers[1], []);
      assert handle.layers == [[], []];
      FreshTakesBoth(handle.robot, from.handle.layers, from.layers[0], from.layers[1]);
    }

    /**
     Take over another scene's keep-outs and epoch, installation first: on success exactly when
     both replacements succeed in turn. It is not all or nothing, and what each failure leaves is
     stated.
     */
    method AdoptLayers(from: Scene) returns (ok: bool)
      requires Valid() && from.Valid() && from != this && from.handle != handle
      modifies this, handle
      ensures Valid()
      ensures var robot, mine, theirs := handle.robot, old(handle.layers), from.layers;
              && (ok <==> && Taken(robot, mine, INSTALLATION, theirs[0])
                          && Taken(robot, AfterLayer(robot, mine, INSTALLATION, theirs[0]), PROGRAM, theirs[1]))
              && (ok ==> InStep() && layers == theirs && epoch == from.epoch)
              && (!Acceptable(robot, mine, INSTALLATION, theirs[0]) ==>
                    layers == old(layers) && handle.layers == mine && epoch == old(epoch))
              && (Acceptable(robot, mine, INSTALLATION, theirs[0]) && !Taken(robot, mine, INSTALLATION, theirs[0]) ==>
                    layers == old(layers)[0 := theirs[0]] && epoch == old(epoch))
              && (Taken(robot, mine, INSTALLATION, theirs[0]) && !ok ==>
                    && epoch == old(epoch) + 1
                    && layers ==
                         if Acceptable(robot, AfterLayer(robot, mine, INSTALLATION, theirs[0]), PROGRAM, theirs[1])
                         then theirs else old(layers)[0 := theirs[0]])
    {
      hide Acceptable, Mirrors, Colliding, DescsOk, ContactsKnown, NamesMatch, ReportingMatch, IsWorld, AllReadable,
        FirstUnreadable, RobotReadable, AfterLayer;
      MirrorsCollide(from.handle.robot, INSTALLATION, from.layers[0], from.handle.layers[0]);
      MirrorsCollide(from.handle.robot, PROGRAM, from.layers[1], from.handle.layers[1]);
      var first := SetLayer(INSTALLATION, from.layers[0]);
      if first.None? {
        return false;
      }
      var second := SetLayer(PROGRAM, from.layers[1]);
      if second.None? {
        return false;
      }
      epoch := from.epoch;
      return true;
    }
  }

  /** Loading a robot: refused exactly when one of its geometries has a name that cannot be read back. */
  method Load(robot: Robot, clearance: real) returns (r: Option<Scene>)
    ensures r.Some? <==> RobotReadable(robot)
    ensures r.Some? ==> fresh(r.value) && r.value.Valid() && r.value.InStep() && r.value.handle.robot == robot
  {
    for g := 0 to |robot.geoms|
      invariant forall k | 0 <= k < g :: Readable(robot.geoms[k].name)
    {
      if !Readable(robot.geoms[g].name) {
        return None;
      }
    }
    var scene := new Scene(robot, clearance);
    return Some(scene);
  }

  // ---------------------------------------------------------- a name out of bounds

  /** A base part and an arm part two joints away, checked against each other. */
  function TwoParts(): Robot {
    Robot([RobotGeom("base_0", 0), RobotGeom("arm_0", 2)], [(0, 1)], map[])
  }

  /** A fixed shape whose name fills the handle's buffer once it is placed. */
  function LongNamed(): Shape {
    Shape(seq(250, _ => 'x'), true, true, -1.0, None)
  }

  /** Beside one fixed keep-out the arm part is the only one checked against it. */
  lemma OneKeepOut(w: WorldShape, tail: seq<(nat, nat)>)
    requires w.parentFrame == 0 && w.allowed == [] && TailUpTo(TwoParts(), [w], tail, (0, 3))
    ensures tail == [(1, 2)] && |ClearancesOf(TwoParts(), [w], tail, 1)| == 1
  {
    var p: (nat, nat) := (1, 2);
    forall q: (nat, nat) ensures q in tail <==> q in [p] {
      assert q in tail <==> Due(TwoParts(), [w], q, (0, 3));
    }
    OrderedSame(tail, [p]);
    OneMoreClearance(TwoParts(), [w], [], 1, p);
    assert [] + [p] == [p];
  }

  /** With no keep-out there is the self pair alone. */
  lemma NoKeepOut(tail: seq<(nat, nat)>)
    requires TailUpTo(TwoParts(), [], tail, (0, 2))
    ensures tail == []
  {
    forall q: (nat, nat) ensures q !in tail {
      assert q in tail <==> Due(TwoParts(), [], q, (0, 2));
    }
    OrderedSame(tail, []);
  }

  /** The keep-out is answered, in one entry. */
  lemma KeepOutAnswered(w: WorldShape, clearance: real, world: World, distances: seq<real>,
                        nearest: map<nat, Clearance>)
    requires w.parentFrame == 0 && w.allowed == [] && IsWorld(TwoParts(), [w], clearance, world)
    requires |distances| == |world.pairs|
    ensures |world.clearances| == 1
    ensures AnswersKeepOuts(TwoParts(), [w], world, distances, nearest) ==> 2 in nearest
  {
    OneKeepOut(w, world.pairs[world.worldFrom..]);
    assert world.pairs[1] == (1, 2);
    assert Measures(TwoParts(), [w], world, 1, 2);
  }

  lemma LongNameTaken()
    ensures Acceptable(TwoParts(), [[], []], PROGRAM, [LongNamed()])
    ensures var after := AfterLayer(TwoParts(), [[], []], PROGRAM, [LongNamed()]);
            && |after[0] + after[1]| == 1 && (after[0] + after[1])[0].parentFrame == 0
            && (after[0] + after[1])[0].allowed == [] && FirstUnreadable(after[0] + after[1]) == 0
  {
    LongestNameUnreadable(TwoParts(), [[], []], LongNamed());
    var shapes := Relayered(TwoParts(), [[], []], PROGRAM, Descs(PROGRAM, [LongNamed()]));
    assert shapes == [Placed(TwoParts(), PROGRAM, 0, Desc(PROGRAM, LongNamed()))];
  }

  /**
   Clearances asked for after a layer whose name cannot be read back: the buffer still holds the
   answer, the name table ends before it.
   */
  method StaleClearances(clearance: real, distance: real) returns (scene: Scene, r: Answer)
    ensures scene.Valid() && scene.handle.robot == TwoParts() && scene.layers == [[], [LongNamed()]]
    ensures r == OutOfBounds
  {
    hide IsWorld, AnswersKeepOuts, Acceptable, AfterLayer, ContactsKnown, LongNamed;
    LongNameTaken();
    assert Colliding([LongNamed()]) == [LongNamed()] by {
      LongNameCollides();
    }
    scene := new Scene(TwoParts(), clearance);
    StartsAlone(scene);
    var _ := scene.SetLayer(PROGRAM, [LongNamed()]);
    var distances := seq(|scene.handle.world.pairs|, _ => distance);
    ghost var nearest;
    r, nearest := scene.Clearances(distances);
    ghost var shapes := scene.handle.Shapes();
    assert shapes == [shapes[0]];
    KeepOutAnswered(shapes[0], scene.handle.clearance, scene.handle.world, distances, nearest);
    assert !scene.Listed(2);
  }

  lemma LongNameCollides()
    ensures Colliding([LongNamed()]) == [LongNamed()]
  {
    CollidingFixpoint([LongNamed()]);
  }

  lemma StartsAlone(scene: Scene)
    requires scene.Valid() && scene.handle.robot == TwoParts() && scene.layers == [[], []] && scene.InStep()
    ensures scene.handle.layers == [[], []] && scene.capacity == 1
  {
    assert scene.handle.layers[0] == [] && scene.handle.layers[1] == [];
    assert scene.handle.Shapes() == [];
    NoKeepOut(scene.handle.world.pairs[scene.handle.world.worldFrom..]);
  }
}
