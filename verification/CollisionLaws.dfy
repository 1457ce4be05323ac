/**
 What the collision world's rules come to, told from the shapes and names themselves: the standoff
 of each pair, the contacts that take a pair out, the names contacts are known by.
 */
module CollisionLaws {
  import opened CollisionScene
  import opened CollisionWorld
  import opened Reals
  import opened Wrappers

  // ------------------------------------------------------------------------- standoffs

  /** A shape asks for its own margin when that is not negative, else for the world's clearance. */
  ghost function Asked(shape: WorldShape, clearance: real): real {
    if shape.margin >= 0.0 then shape.margin else clearance
  }

  /**
   Every world pair keeps at least the standoff each shape of it asks for, and exactly what one of
   them asks for; every self pair keeps the world's clearance.
   */
  lemma StandoffsAsked(robot: Robot, shapes: seq<WorldShape>, clearance: real, w: World, k: nat)
    requires IsWorld(robot, shapes, clearance, w) && k < |w.pairs|
    ensures |w.margins| == |w.pairs|
    ensures k < w.worldFrom ==> w.margins[k] == clearance
    ensures k >= w.worldFrom ==>
              var i, g, n := w.pairs[k].0, w.pairs[k].1, |robot.geoms|;
              && n <= g < n + |shapes| && i < n + |shapes|
              && w.margins[k] >= Asked(shapes[g - n], clearance)
              && (i >= n ==> w.margins[k] >= Asked(shapes[i - n], clearance))
              && (w.margins[k] == Asked(shapes[g - n], clearance) ||
                  (i >= n && w.margins[k] == Asked(shapes[i - n], clearance)))
  {
    if k >= w.worldFrom {
      var tail := w.pairs[w.worldFrom..];
      assert tail[k - w.worldFrom] in tail;
      assert Due(robot, shapes, w.pairs[k], (0, |robot.geoms| + |shapes|));
      assert w.margins[k] == PairMargin(robot, shapes, clearance, w.pairs[k]);
    }
  }

  // ------------------------------------------------------------------------ self pairs

  /** Of the robot's own pairs those stay whose geometries ride on different joints, neither the other's parent. */
  lemma {:induction false} SelfPairsKept(geoms: seq<RobotGeom>, parents: seq<nat>, pairs: seq<(nat, nat)>, n: nat,
                                         p: (nat, nat))
    requires n <= |pairs| && KnownPairs(geoms, parents, pairs)
    ensures p in Kept(geoms, parents, pairs, n) <==>
            && p in pairs[..n]
            && var a, b := geoms[p.0].joint, geoms[p.1].joint; a != b && parents[a] != b && parents[b] != a
  {
    if n > 0 {
      SelfPairsKept(geoms, parents, pairs, n - 1, p);
      assert pairs[..n] == pairs[..n - 1] + [pairs[n - 1]];
    }
  }

  // ---------------------------------------------------------------- names and contacts

  /** A name is reported as it is unless it numbers a geometry of a link, which is reported as the link. */
  lemma ReportedUnchanged(name: string)
    requires ReportingName(name) != name
    ensures ':' !in name
    ensures var link := ReportingName(name);
            |link| + 1 < |name| && name == link + "_" + name[|link| + 1..] && Digits(name[|link| + 1..])
  {
    var split := LastUnderscore(name).value;
    assert name == name[..split] + [name[split]] + name[split + 1..];
  }

  /** An attached shape is checked against a numbered geometry of a link unless it allows the link. */
  lemma LinkContact(robot: Robot, shapes: seq<WorldShape>, i: nat, k: nat, link: string, index: string)
    requires i < |robot.geoms| && k < |shapes| && shapes[k].parentFrame != 0
    requires robot.geoms[i].name == link + "_" + index && ':' !in link && index != [] && Digits(index)
    ensures Eligible(robot, shapes, (i, |robot.geoms| + k)) <==> link !in shapes[k].allowed
  {
    LinkGeometriesShareName(link, index);
  }

  /** Two shapes are checked unless both stand still or an attached one of them allows the other by name. */
  lemma ShapeContact(robot: Robot, shapes: seq<WorldShape>, j: nat, k: nat)
    requires j < k < |shapes|
    ensures Eligible(robot, shapes, (|robot.geoms| + j, |robot.geoms| + k)) <==>
            var a, b := shapes[j], shapes[k];
            && (a.parentFrame != 0 || b.parentFrame != 0)
            && (a.parentFrame != 0 ==> b.name !in a.allowed)
            && (b.parentFrame != 0 ==> a.name !in b.allowed)
  {
  }

  /** The contacts are known when every name a shape allows is some other shape's or a reported robot part's. */
  lemma ContactsKnownExactly(robot: Robot, shapes: seq<WorldShape>)
    ensures ContactsKnown(robot, shapes) <==>
            forall k, partner | 0 <= k < |shapes| && partner in shapes[k].allowed ::
              && partner != shapes[k].name
              && ((exists j :: 0 <= j < |shapes| && shapes[j].name == partner) ||
                  exists i :: 0 <= i < |robot.geoms| && ReportingName(robot.geoms[i].name) == partner)
  {
    hide ReportingName;
    var n := |robot.geoms|;
    forall k, partner | 0 <= k < |shapes| && partner in shapes[k].allowed
      ensures BadContact(robot, shapes, n + k, partner) <==>
              || partner == shapes[k].name
              || !((exists j :: 0 <= j < |shapes| && shapes[j].name == partner) ||
                   exists i :: 0 <= i < n && ReportingName(robot.geoms[i].name) == partner)
    {
      NamedExactly(robot, shapes, partner);
    }
    forall k | 0 <= k < |shapes|
      ensures ShapeContactsKnown(robot, shapes, k) <==>
              forall partner | partner in shapes[k].allowed :: !BadContact(robot, shapes, n + k, partner)
    {
      var names := shapes[k].allowed;
      forall a | 0 <= a < |names| ensures names[a] in names {
      }
    }
  }

  lemma NamedExactly(robot: Robot, shapes: seq<WorldShape>, partner: string)
    ensures (exists g :: 0 <= g < |robot.geoms| + |shapes| && ContactName(robot, shapes, g) == partner) <==>
            ((exists j :: 0 <= j < |shapes| && shapes[j].name == partner) ||
             exists i :: 0 <= i < |robot.geoms| && ReportingName(robot.geoms[i].name) == partner)
  {
    hide ReportingName;
    var n := |robot.geoms|;
    if j :| 0 <= j < |shapes| && shapes[j].name == partner {
      assert ContactName(robot, shapes, n + j) == partner;
    }
    if i :| 0 <= i < n && ReportingName(robot.geoms[i].name) == partner {
      assert ContactName(robot, shapes, i) == partner;
    }
    if g :| 0 <= g < n + |shapes| && ContactName(robot, shapes, g) == partner {
      assert g >= n ==> shapes[g - n].name == partner;
    }
  }

  // -------------------------------------------------------------------- accepted shapes

  /**
   What a layer that is accepted holds: each shape with the margin asked, placed as asked or fixed and
   named after its slot; only attached shapes allow contacts, each exact, non-empty and given once;
   and nothing of the installation is attached.
   */
  lemma AcceptedShapes(robot: Robot, layer: nat, descs: seq<ShapeDesc>, k: nat)
    requires DescsOk(robot, layer, descs) && k < |descs|
    ensures var d, w := descs[k], Placed(robot, layer, k, descs[k]);
            && d.wellFormed && w.margin == d.margin
            && (d.placement.None? ==> w.name == (if layer == 0 then "installation/" else "program/") + Decimal(k))
            && (d.placement.Some? ==> w.name == d.placement.value.name && w.allowed == d.placement.value.allowed)
            && (w.parentFrame == 0 ==> w.joint == 0 && w.allowed == [])
            && (w.parentFrame == 0 <==> d.placement.None? || d.placement.value.parentFrame.None?)
            && (w.parentFrame != 0 ==>
                  && layer == 1 && d.placement.value.parentFrame.value in robot.frames
                  && Frame(w.parentFrame, w.joint) == robot.frames[d.placement.value.parentFrame.value])
            && |w.allowed| <= 32
            && (forall a, b | 0 <= a < b < |w.allowed| :: w.allowed[a] != w.allowed[b])
            && (forall a | 0 <= a < |w.allowed| ::
                  0 < |w.allowed[a]| <= 128 && forall c | c in w.allowed[a] :: c !in "*?[]")
  {
    assert DescOk(robot, layer, descs[k]);
  }

  /** Only the shapes that collide are handed on, each as often as it is given. */
  lemma {:induction false} OnlyColliding(shapes: seq<Shape>, s: Shape)
    ensures multiset(Colliding(shapes))[s] == if s.collision then multiset(shapes)[s] else 0
  {
    if shapes != [] {
      var last := |shapes| - 1;
      OnlyColliding(shapes[..last], s);
      assert shapes == shapes[..last] + [shapes[last]];
    }
  }

  /** An applied keep-out enters the world under its layer's prefix, at its margin, on the gripper if attached. */
  lemma AppliedShapes(robot: Robot, layer: nat, shapes: seq<Shape>, k: nat)
    requires DescsOk(robot, layer, Descs(layer, shapes)) && k < |shapes|
    ensures var s := shapes[k];
            var d := Descs(layer, shapes)[k];
            var w := Placed(robot, layer, k, d);
            && DescOk(robot, layer, d) && s.wellFormed
            && w.name == (if layer == 0 then "install:" else "shape:") + s.name && w.margin == s.margin
            && (s.attachment.None? ==> w.parentFrame == 0 == w.joint && w.allowed == [])
            && (s.attachment.Some? ==>
                  && layer == 1 && w.allowed == s.attachment.value && "gripper" in robot.frames
                  && Frame(w.parentFrame, w.joint) == robot.frames["gripper"] && w.parentFrame != 0)
  {
    assert DescOk(robot, layer, Descs(layer, shapes)[k]);
  }

  /** The number its decimal spells. */
  function Number(s: string): nat
    requires Digits(s)
  {
    if s == [] then 0 else 10 * Number(s[..|s| - 1]) + (s[|s| - 1] - '0') as nat
  }

  /** A slot's decimal spells the slot, so unplaced shapes of different slots have different names. */
  lemma {:induction false} DecimalSpells(n: nat)
    ensures Decimal(n) != [] && Digits(Decimal(n)) && Number(Decimal(n)) == n
  {
    if n >= 10 {
      DecimalSpells(n / 10);
      assert Decimal(n)[..|Decimal(n)| - 1] == Decimal(n / 10);
    }
  }
}
