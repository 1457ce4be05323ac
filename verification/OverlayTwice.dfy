/**
 When merging an overlay twice equals merging it once, over every document it can be laid over:
 the exact condition on the overlay.
 */
module OverlayTwice {
  import opened Overlay
  import opened Wrappers

  // ------------------------------------------------------------- inside array entries

  /** A path into an array's entry. */
  predicate Inside(here: string) {
    '[' in here
  }

  const INSIDE := "["

  lemma InsidePaths(here: string, key: string, k: nat)
    ensures Inside(here) ==> !PerJoint(here) && Inside(Join(here, key))
    ensures Inside(Entry(here, k)) && !PerJoint(Entry(here, k))
  {
    assert '[' !in "homing.joints";
    assert Inside(here) ==> here != "";
    assert Entry(here, k)[|here|] == '[';
    if Inside(here) {
      var i :| 0 <= i < |here| && here[i] == '[';
      assert Join(here, key)[i] == '[';
    }
  }

  /** Inside an entry no array is a per-joint one, so the path makes no difference. */
  lemma {:induction false} SameValue(b: Value, o: Value, h: string, g: string)
    requires Inside(h) && Inside(g)
    ensures MergeValue(b, o, h) == MergeValue(b, o, g)
    decreases o, 3
  {
    InsidePaths(h, "", 0);
    InsidePaths(g, "", 0);
    if b.Table? && o.Table? {
      SameMerge(b.entries, o, h, g);
    } else if b.Array? && o.Array? && MergesEntries(b.items, o.items, h) {
      SameEntries(b.items, o, |o.items|, Named(b.items), h, g);
    }
  }

  lemma {:induction false} SameMerge(base: Doc, o: Value, h: string, g: string)
    requires o.Table? && Inside(h) && Inside(g)
    ensures Merge(base, o, h) == Merge(base, o, g)
    decreases o, 2
  {
    forall key | key in o.entries ensures MergeKey(base, o, h, key) == MergeKey(base, o, g, key) {
      InsidePaths(h, key, 0);
      InsidePaths(g, key, 0);
      if key in base {
        SameValue(base[key], o.entries[key], Join(h, key), Join(g, key));
      }
    }
    if Merge(base, o, h).Ok? {
      assert forall key | key in o.entries :: MergeKey(base, o, g, key).Ok?;
      assert Merge(base, o, h).value == Merge(base, o, g).value;
    } else {
      var key :| key in o.entries && MergeKey(base, o, h, key).Err?;
      assert MergeKey(base, o, g, key).Err?;
    }
  }

  lemma {:induction false} SameEntries(b: seq<Value>, o: Value, n: nat, byName: bool, h: string, g: string)
    requires o.Array? && n <= |o.items| && forall i | 0 <= i < |o.items| :: o.items[i].Table?
    ensures MergeEntries(b, o.items, n, byName, h) == MergeEntries(b, o.items, n, byName, g)
    decreases o, 1, n
  {
    if n > 0 {
      SameEntries(b, o, n - 1, byName, h, g);
      var r := MergeEntries(b, o.items, n - 1, byName, h);
      if r.Ok? {
        SameEntry(r.value, o.items[n - 1], n - 1, byName, h, g);
      }
    }
  }

  lemma SameEntry(c: seq<Value>, entry: Value, i: nat, byName: bool, h: string, g: string)
    requires entry.Table?
    ensures MergeEntry(c, entry, i, byName, h) == MergeEntry(c, entry, i, byName, g)
    decreases entry, 4
  {
    var into := Target(c, entry, i, byName);
    if into.Some? && c[into.value].Table? {
      InsidePaths(h, "", into.value);
      InsidePaths(g, "", into.value);
      SameMerge(c[into.value].entries, entry, Entry(h, into.value), Entry(g, into.value));
    }
  }

  // -------------------------------------------------------- laying values over values

  /** One value laid over another inside an array's entry. */
  function Lay(b: Value, o: Value): Result<Value, MergeError> {
    MergeValue(b, o, INSIDE)
  }

  /** Outside the per-joint path arrays are laid the same way everywhere. */
  lemma ArraysLay(b: Value, o: Value, here: string)
    requires o.Array? && !PerJoint(here)
    ensures MergeValue(b, o, here) == Lay(b, o)
  {
    InsidePaths(INSIDE, "", 0);
    assert Inside(INSIDE);
    if b.Array? && MergesEntries(b.items, o.items, here) {
      SameEntries(b.items, o, |o.items|, Named(b.items), here, INSIDE);
    }
  }

  function LayOn(x: Option<Value>, o: Value): Result<Value, MergeError> {
    if x.None? then Ok(o) else Lay(x.value, o)
  }

  /** Values laid one after another over what may be there. */
  function Fold(x: Option<Value>, l: seq<Value>): Result<Option<Value>, MergeError> {
    if l == [] then Ok(x)
    else
      var r := Fold(x, l[..|l| - 1]);
      if r.Err? then r
      else
        var s := LayOn(r.value, l[|l| - 1]);
        if s.Ok? then Ok(Some(s.value)) else Err(s.error)
  }

  lemma FoldNext(x: Option<Value>, l: seq<Value>, o: Value)
    ensures Fold(x, l + [o]) ==
            var r := Fold(x, l);
            if r.Err? then r
            else var s := LayOn(r.value, o); if s.Ok? then Ok(Some(s.value)) else Err(s.error)
  {
    assert (l + [o])[..|l|] == l;
  }

  /** After `first` is laid over anything it can be laid over, laying `again` changes nothing. */
  ghost predicate Unmoved(first: seq<Value>, again: seq<Value>) {
    forall x: Option<Value> :: UnmovedAt(x, first, again)
  }

  ghost predicate UnmovedAt(x: Option<Value>, first: seq<Value>, again: seq<Value>) {
    Fold(x, first).Ok? ==> Fold(Fold(x, first).value, again) == Fold(x, first)
  }

  /** It can be laid over something. */
  ghost predicate Alive(l: seq<Value>) {
    exists x: Option<Value> :: Fold(x, l).Ok?
  }

  // ---------------------------------------------------------------------------- tables

  predicate AllTables(l: seq<Value>) {
    forall i | 0 <= i < |l| :: l[i].Table?
  }

  function Field(m: Doc, key: string): Option<Value> {
    if key in m then Some(m[key]) else None
  }

  /** What the tables give for one key, in order. */
  function Sub(l: seq<Value>, key: string): seq<Value>
    requires AllTables(l)
  {
    if l == [] then []
    else
      var rest, t := Sub(l[..|l| - 1], key), l[|l| - 1];
      if key in t.entries then rest + [t.entries[key]] else rest
  }

  /** One table over another, key by key. */
  lemma LayTables(m: Doc, t: Value)
    requires t.Table?
    ensures Lay(Table(m), t).Ok? <==> forall key | key in t.entries :: LayOn(Field(m, key), t.entries[key]).Ok?
    ensures Lay(Table(m), t).Ok? ==>
              && Lay(Table(m), t).value.Table?
              && forall key :: Field(Lay(Table(m), t).value.entries, key) ==
                   if key in t.entries then Some(LayOn(Field(m, key), t.entries[key]).value) else Field(m, key)
  {
    forall key | key in t.entries ensures MergeKey(m, t, INSIDE, key) == LayOn(Field(m, key), t.entries[key]) {
      InsidePaths(INSIDE, key, 0);
      assert Inside(INSIDE);
      if key in m {
        SameValue(m[key], t.entries[key], Join(INSIDE, key), INSIDE);
      }
    }
    var r := Merge(m, t, INSIDE);
    if r.Ok? {
      assert forall key | key in t.entries :: MergeKey(m, t, INSIDE, key).Ok?;
      forall key
        ensures Field(r.value, key) ==
                if key in t.entries then Some(LayOn(Field(m, key), t.entries[key]).value) else Field(m, key)
      {
        if key in t.entries {
          assert r.value[key] == MergeKey(m, t, INSIDE, key).value;
        }
      }
    } else {
      var key :| key in t.entries && MergeKey(m, t, INSIDE, key).Err?;
      assert LayOn(Field(m, key), t.entries[key]).Err?;
    }
  }

  ghost predicate FieldFolds(m: Doc, l: seq<Value>, key: string)
    requires AllTables(l)
  {
    Fold(Field(m, key), Sub(l, key)).Ok?
  }

  /** Tables fold key by key. */
  lemma {:induction false} FoldTables(m: Doc, l: seq<Value>)
    requires AllTables(l)
    ensures var r := Fold(Some(Table(m)), l);
            && (r.Ok? <==> forall key :: FieldFolds(m, l, key))
            && (r.Ok? ==> r.value.Some? && r.value.value.Table?)
    ensures var r := Fold(Some(Table(m)), l);
            r.Ok? ==> forall key :: Fold(Field(m, key), Sub(l, key)) == Ok(Field(r.value.value.entries, key))
    decreases |l|
  {
    hide Lay;
    if l == [] {
      assert forall key :: FieldFolds(m, l, key);
    } else {
      var init, t := l[..|l| - 1], l[|l| - 1];
      FoldTables(m, init);
      var r := Fold(Some(Table(m)), init);
      forall key ensures FieldFolds(m, l, key) ==> FieldFolds(m, init, key) {
        if key in t.entries {
          FoldNext(Field(m, key), Sub(init, key), t.entries[key]);
        }
      }
      if r.Ok? {
        var n := r.value.value.entries;
        LayTables(n, t);
        forall key
          ensures FieldFolds(m, l, key) <==> (key in t.entries ==> LayOn(Field(n, key), t.entries[key]).Ok?)
          ensures FieldFolds(m, l, key) ==>
                    (Fold(Field(m, key), Sub(l, key)) ==
                     Ok(if key in t.entries then Some(LayOn(Field(n, key), t.entries[key]).value) else Field(n, key)))
        {
          assert Fold(Field(m, key), Sub(init, key)) == Ok(Field(n, key));
          if key in t.entries {
            FoldNext(Field(m, key), Sub(init, key), t.entries[key]);
          }
        }
      }
    }
  }

  lemma SameFields(m: Doc, n: Doc)
    requires forall key :: Field(m, key) == Field(n, key)
    ensures m == n
  {
    forall key ensures key in m <==> key in n {
      assert Field(m, key) == Field(n, key);
    }
    forall key | key in m ensures m[key] == n[key] {
      assert Field(m, key) == Field(n, key);
    }
  }

  /** Over nothing, or over what is no table, tables fold as over an empty one. */
  lemma {:induction false} TablesAnywhere(x: Option<Value>, l: seq<Value>)
    requires AllTables(l) && l != [] && (x.Some? ==> !x.value.Table?)
    ensures Fold(x, l) == Fold(Some(Table(map[])), l)
    decreases |l|
  {
    var init, t := l[..|l| - 1], l[|l| - 1];
    if init == [] {
      LayTables(map[], t);
      var r := Lay(Table(map[]), t);
      SameFields(r.value.entries, t.entries);
    } else {
      TablesAnywhere(x, init);
    }
  }

  // ---------------------------------------------------------------------- named arrays

  predicate NamedAs(v: Value, name: string) {
    v.Table? && NameOf(v) == Some(Text(name))
  }

  predicate AllNamed(e: seq<Value>) {
    forall i | 0 <= i < |e| :: HasName(e[i])
  }

  /** The first entry of a name. */
  function Ent(b: seq<Value>, name: string): Option<Value> {
    var k := Position(b, Some(Text(name)));
    if k.Some? then Some(b[k.value]) else None
  }

  /** The entries of one name, in order. */
  function Grp(e: seq<Value>, name: string): (g: seq<Value>)
    ensures forall i | 0 <= i < |g| :: NamedAs(g[i], name)
  {
    if e == [] then []
    else
      var rest, v := Grp(e[..|e| - 1], name), e[|e| - 1];
      if NamedAs(v, name) then rest + [v] else rest
  }

  /** Named entries merged one after another. */
  function EntFold(b: seq<Value>, e: seq<Value>): Result<seq<Value>, MergeError>
    requires AllNamed(e)
  {
    MergeEntries(b, e, |e|, true, INSIDE)
  }

  predicate IsFirst(b: seq<Value>, q: nat) {
    q < |b| && forall p | 0 <= p < q :: NameOf(b[p]) != NameOf(b[q])
  }

  /** Merging by name changes only first entries of a name and appends only new names. */
  ghost predicate Grown(b: seq<Value>, c: seq<Value>) {
    && |b| <= |c|
    && (forall q | 0 <= q < |b| :: NameOf(c[q]) == NameOf(b[q]))
    && (forall q | 0 <= q < |b| && !IsFirst(b, q) :: c[q] == b[q])
    && (forall q | |b| <= q < |c| :: IsFirst(c, q))
  }

  lemma GrownTwice(a: seq<Value>, b: seq<Value>, c: seq<Value>)
    requires Grown(a, b) && Grown(b, c)
    ensures Grown(a, c)
  {
    forall q | 0 <= q < |a| && !IsFirst(a, q) ensures c[q] == a[q] {
      var p :| 0 <= p < q && NameOf(a[p]) == NameOf(a[q]);
      assert NameOf(b[p]) == NameOf(b[q]);
      assert !IsFirst(b, q);
    }
    forall q | |a| <= q < |c| ensures IsFirst(c, q) {
      if q < |b| {
        assert IsFirst(b, q);
        forall p | 0 <= p < q ensures NameOf(c[p]) != NameOf(c[q]) {
          assert NameOf(c[p]) == NameOf(b[p]) && NameOf(c[q]) == NameOf(b[q]);
        }
      }
    }
  }

  lemma EntIs(b: seq<Value>, q: nat, name: string)
    requires IsFirst(b, q) && NameOf(b[q]) == Some(Text(name))
    ensures Ent(b, name) == Some(b[q])
  {
    PositionIs(b, q);
  }

  /** An array that only grew, and in which every name reads as before, is the same. */
  lemma GrownSame(b: seq<Value>, c: seq<Value>)
    requires AllNamed(b) && AllNamed(c) && Grown(b, c) && forall name :: Ent(c, name) == Ent(b, name)
    ensures c == b
  {
    if |c| > |b| {
      var q := |b|;
      var name := c[q].entries[NAME].text;
      assert IsFirst(c, q) && NameOf(c[q]) == Some(Text(name));
      forall p | 0 <= p < |b| ensures NameOf(b[p]) != Some(Text(name)) {
        assert NameOf(c[p]) == NameOf(b[p]);
      }
      EntIs(c, q, name);
    }
    forall q | 0 <= q < |b| ensures c[q] == b[q] {
      if IsFirst(b, q) {
        var name := b[q].entries[NAME].text;
        EntIs(b, q, name);
        forall p | 0 <= p < q ensures NameOf(c[p]) != NameOf(c[q]) {
          assert NameOf(c[p]) == NameOf(b[p]) && NameOf(c[q]) == NameOf(b[q]);
        }
        EntIs(c, q, name);
      }
    }
  }

  /** One named entry merged: the entry of its name is laid over, every other name reads as before. */
  lemma EntryStep(c: seq<Value>, e: Value, i: nat, name: string)
    requires AllNamed(c) && NamedAs(e, name)
    ensures var r := MergeEntry(c, e, i, true, INSIDE);
            && (r.Ok? <==> LayOn(Ent(c, name), e).Ok?)
            && (r.Ok? ==> AllNamed(r.value) && r.value != [] && Grown(c, r.value))
            && (r.Ok? ==> Ent(r.value, name) == Some(LayOn(Ent(c, name), e).value))
    ensures var r := MergeEntry(c, e, i, true, INSIDE);
            r.Ok? ==> forall other | other != name :: Ent(r.value, other) == Ent(c, other)
  {
    hide Merge;
    var r, k := MergeEntry(c, e, i, true, INSIDE), Position(c, Some(Text(name)));
    if k.Some? {
      InsidePaths(INSIDE, "", k.value);
      assert Inside(INSIDE);
      SameMerge(c[k.value].entries, e, Entry(INSIDE, k.value), INSIDE);
      assert Lay(c[k.value], e).Ok? <==> Merge(c[k.value].entries, e, INSIDE).Ok?;
    }
    if r.Ok? {
      EntryEffect(c, e, i, true, INSIDE);
      var at := if k.Some? then k.value else |c|;
      assert IsFirst(r.value, at) by {
        forall p | 0 <= p < at ensures NameOf(r.value[p]) != NameOf(r.value[at]) {
          assert NameOf(r.value[p]) == NameOf(c[p]);
        }
      }
      EntIs(r.value, at, name);
      forall other | other != name ensures Ent(r.value, other) == Ent(c, other) {
        OtherStays(c, r.value, at, other);
      }
    }
  }

  lemma OtherStays(c: seq<Value>, r: seq<Value>, at: nat, other: string)
    requires |c| <= |r| <= |c| + 1 && at < |r| && (|r| > |c| ==> at == |c|)
    requires forall q | 0 <= q < |c| :: NameOf(r[q]) == NameOf(c[q]) && (q != at ==> r[q] == c[q])
    requires NameOf(r[at]) != Some(Text(other))
    ensures Ent(r, other) == Ent(c, other)
  {
    var k := Position(c, Some(Text(other)));
    if k.Some? {
      assert NameOf(r[k.value]) == Some(Text(other));
      PositionIs(r, k.value) by {
        forall p | 0 <= p < k.value ensures NameOf(r[p]) != NameOf(r[k.value]) {
          assert NameOf(r[p]) == NameOf(c[p]);
        }
      }
    } else {
      forall q | 0 <= q < |r| ensures NameOf(r[q]) != Some(Text(other)) {
        if q < |c| {
          assert NameOf(r[q]) == NameOf(c[q]);
        }
      }
    }
  }

  ghost predicate NameFolds(b: seq<Value>, e: seq<Value>, name: string) {
    Fold(Ent(b, name), Grp(e, name)).Ok?
  }

  lemma {:induction false} EntriesPrefix(b: seq<Value>, d: seq<Value>, e: seq<Value>, n: nat, byName: bool,
      here: string)
    requires n <= |d| && (forall i | 0 <= i < |d| :: d[i].Table?) && (forall i | 0 <= i < |e| :: e[i].Table?)
    ensures MergeEntries(b, d + e, n, byName, here) == MergeEntries(b, d, n, byName, here)
    decreases n
  {
    if n > 0 {
      EntriesPrefix(b, d, e, n - 1, byName, here);
    }
  }

  lemma EntFoldNext(b: seq<Value>, e: seq<Value>, v: Value)
    requires AllNamed(e) && HasName(v)
    ensures AllNamed(e + [v])
    ensures EntFold(b, e + [v]) == if EntFold(b, e).Err? then EntFold(b, e)
                                   else MergeEntry(EntFold(b, e).value, v, |e|, true, INSIDE)
  {
    EntriesPrefix(b, e, [v], |e|, true, INSIDE);
  }

  /** Named entries fold name by name. */
  lemma {:induction false} FoldEntries(b: seq<Value>, e: seq<Value>)
    requires AllNamed(b) && AllNamed(e)
    ensures var r := EntFold(b, e);
            && (r.Ok? <==> forall name :: NameFolds(b, e, name))
            && (r.Ok? ==> AllNamed(r.value) && Grown(b, r.value) && (b != [] || e != [] ==> r.value != []))
    ensures var r := EntFold(b, e);
            r.Ok? ==> forall name :: Fold(Ent(b, name), Grp(e, name)) == Ok(Ent(r.value, name))
    decreases |e|
  {
    hide LayOn, Ent;
    if e == [] {
      assert forall name :: NameFolds(b, e, name);
    } else {
      var init, v := e[..|e| - 1], e[|e| - 1];
      assert e == init + [v];
      FoldEntries(b, init);
      EntFoldNext(b, init, v);
      var own := v.entries[NAME].text;
      var r := EntFold(b, init);
      forall name ensures NameFolds(b, e, name) ==> NameFolds(b, init, name) {
        if name == own {
          FoldNext(Ent(b, name), Grp(init, name), v);
        }
      }
      if r.Ok? {
        var c := r.value;
        EntryStep(c, v, |init|, own);
        forall name
          ensures NameFolds(b, e, name) <==> (name == own ==> LayOn(Ent(c, own), v).Ok?)
          ensures NameFolds(b, e, name) ==>
                    (Fold(Ent(b, name), Grp(e, name)) ==
                     Ok(if name == own then Some(LayOn(Ent(c, own), v).value) else Ent(c, name)))
        {
          assert Fold(Ent(b, name), Grp(init, name)) == Ok(Ent(c, name));
          if name == own {
            FoldNext(Ent(b, name), Grp(init, name), v);
          }
        }
        if MergeEntry(c, v, |init|, true, INSIDE).Ok? {
          GrownTwice(b, c, EntFold(b, e).value);
        }
      }
    }
  }

  // --------------------------------------------------------------- arrays over arrays

  predicate NamedOne(v: Value) {
    v.Array? && NamedArray(v.items)
  }

  predicate AllNamedArrays(l: seq<Value>) {
    forall i | 0 <= i < |l| :: NamedOne(l[i])
  }

  /** The entries of the arrays, in order. */
  function Flat(l: seq<Value>): (e: seq<Value>)
    requires AllNamedArrays(l)
    ensures AllNamed(e)
  {
    if l == [] then [] else Flat(l[..|l| - 1]) + l[|l| - 1].items
  }

  lemma {:induction false} EntFoldAppend(b: seq<Value>, d: seq<Value>, e: seq<Value>, n: nat)
    requires AllNamed(d) && AllNamed(e) && n <= |e|
    ensures var r := EntFold(b, d);
            MergeEntries(b, d + e, |d| + n, true, INSIDE) ==
            if r.Err? then r else MergeEntries(r.value, e, n, true, INSIDE)
    decreases n
  {
    if n == 0 {
      EntriesPrefix(b, d, e, |d|, true, INSIDE);
    } else {
      EntFoldAppend(b, d, e, n - 1);
      assert (d + e)[|d| + n - 1] == e[n - 1];
      var r := EntFold(b, d);
      if r.Ok? {
        var c := MergeEntries(r.value, e, n - 1, true, INSIDE);
        if c.Ok? {
          ByNameAnyIndex(c.value, e[n - 1], |d| + n - 1, n - 1);
        }
      }
    }
  }

  lemma ByNameAnyIndex(c: seq<Value>, v: Value, i: nat, j: nat)
    requires v.Table?
    ensures MergeEntry(c, v, i, true, INSIDE) == MergeEntry(c, v, j, true, INSIDE)
  {
  }

  /** Named arrays over a named one: all their entries merged into it. */
  lemma {:induction false} FoldNamed(b: seq<Value>, l: seq<Value>)
    requires NamedArray(b) && AllNamedArrays(l)
    ensures var r := EntFold(b, Flat(l));
            && Fold(Some(Array(b)), l) == (if r.Ok? then Ok(Some(Array(r.value))) else Err(r.error))
            && (r.Ok? ==> NamedArray(r.value))
    decreases |l|
  {
    if l != [] {
      var init, v := l[..|l| - 1], l[|l| - 1];
      FoldNamed(b, init);
      FoldEntries(b, Flat(init));
      EntFoldAppend(b, Flat(init), v.items, |v.items|);
      var r := EntFold(b, Flat(init));
      if r.Ok? {
        FoldEntries(r.value, v.items);
      }
    }
  }

  /** Over nothing, or over what is no named array, named arrays fold as over nothing. */
  lemma {:induction false} NamedAnywhere(x: Option<Value>, l: seq<Value>)
    requires AllNamedArrays(l) && l != [] && (x.Some? ==> !NamedOne(x.value))
    ensures Fold(x, l) == Fold(None, l)
    decreases |l|
  {
    var init, v := l[..|l| - 1], l[|l| - 1];
    if init == [] {
      InsidePaths(INSIDE, "", 0);
      assert Inside(INSIDE);
      assert LayOn(x, v) == Ok(v);
    } else {
      NamedAnywhere(x, init);
    }
  }

  // ------------------------------------------------------------- what leaves no choice

  /** Neither a table nor a named array: it replaces what it is laid over. */
  predicate Whole(v: Value) {
    !v.Table? && !NamedOne(v)
  }

  predicate SameKind(v: Value, w: Value) {
    (v.Table? && w.Table?) || (NamedOne(v) && NamedOne(w))
  }

  /** What laying the values must end in, when that does not depend on what they are laid over. */
  function Settled(l: seq<Value>): Option<Result<Value, MergeError>> {
    if l == [] then None
    else
      var init, v := l[..|l| - 1], l[|l| - 1];
      if Whole(v) then Some(Ok(v))
      else if init == [] then None
      else if !SameKind(init[|init| - 1], v) then Some(Ok(v))
      else
        match Settled(init)
        case None => None
        case Some(Ok(w)) => Some(Lay(w, v))
        case Some(Err(e)) => Some(Err(e))
  }

  /** What a value leaves has its kind, and is the value itself when it replaces whole. */
  lemma LayKind(x: Option<Value>, v: Value)
    requires LayOn(x, v).Ok?
    ensures var c := LayOn(x, v).value;
            && (c.Table? <==> v.Table?) && (NamedOne(c) <==> NamedOne(v))
            && (Whole(v) ==> c == v)
            && (x.None? || !SameKind(x.value, v) ==> c == v)
  {
    InsidePaths(INSIDE, "", 0);
    assert Inside(INSIDE);
    if x.Some? && NamedOne(x.value) && NamedOne(v) {
      FoldEntries(x.value.items, v.items);
    }
  }

  lemma {:induction false} SettledIs(x: Option<Value>, l: seq<Value>)
    requires l != [] && Fold(x, l).Ok?
    ensures Fold(x, l).value.Some?
    ensures var c, v := Fold(x, l).value.value, l[|l| - 1];
            && (c.Table? <==> v.Table?) && (NamedOne(c) <==> NamedOne(v))
            && (Settled(l).Some? ==> Settled(l).value == Ok(c))
    decreases |l|
  {
    var init, v := l[..|l| - 1], l[|l| - 1];
    var r := Fold(x, init);
    LayKind(r.value, v);
    if init != [] {
      SettledIs(x, init);
    }
  }

  lemma {:induction false} Unsettled(l: seq<Value>)
    requires l != []
    ensures Settled(l).None? <==> AllTables(l) || AllNamedArrays(l)
    decreases |l|
  {
    var init, v := l[..|l| - 1], l[|l| - 1];
    if init != [] {
      Unsettled(init);
      assert forall i | 0 <= i < |init| :: init[i] == l[i];
      assert l[|init| - 1] == init[|init| - 1];
    }
  }

  // ---------------------------------------------------- documents to lay things over

  ghost function Chosen(l: seq<Value>): (x: Option<Value>)
    requires Alive(l)
    ensures Fold(x, l).Ok?
  {
    var x: Option<Value> :| Fold(x, l).Ok?;
    x
  }

  function KeysOf(l: seq<Value>): set<string>
    requires AllTables(l)
  {
    if l == [] then {} else KeysOf(l[..|l| - 1]) + l[|l| - 1].entries.Keys
  }

  lemma {:induction false} SubEmpty(l: seq<Value>, key: string)
    requires AllTables(l) && key !in KeysOf(l)
    ensures Sub(l, key) == []
    decreases |l|
  {
    if l != [] {
      SubEmpty(l[..|l| - 1], key);
    }
  }

  ghost predicate KeyAlive(l: seq<Value>, key: string)
    requires AllTables(l)
  {
    Alive(Sub(l, key))
  }

  ghost predicate NameAlive(e: seq<Value>, name: string) {
    Alive(Grp(e, name))
  }

  ghost predicate NamesFit(e: seq<Value>) {
    forall name :: NameAlive(e, name)
  }

  ghost function Picked(l: seq<Value>, key: string, own: string, x: Option<Value>): Option<Value>
    requires AllTables(l)
  {
    if key == own then x else if Alive(Sub(l, key)) then Chosen(Sub(l, key)) else None
  }

  /** A table over which the tables can be laid, with `x` at one key. */
  lemma TableFor(l: seq<Value>, own: string, x: Option<Value>) returns (m: Doc)
    requires AllTables(l) && (forall key :: KeyAlive(l, key)) && Fold(x, Sub(l, own)).Ok?
    ensures Fold(Some(Table(m)), l).Ok? && Field(m, own) == x
  {
    m := map key | key in KeysOf(l) + {own} && Picked(l, key, own, x).Some? :: Picked(l, key, own, x).value;
    forall key ensures FieldFolds(m, l, key) {
      assert KeyAlive(l, key);
      if key in KeysOf(l) + {own} {
        assert Field(m, key) == Picked(l, key, own, x);
      } else {
        SubEmpty(l, key);
      }
    }
    FoldTables(m, l);
  }

  /** What tables are laid over may as well be a table. */
  lemma TableInstead(x: Option<Value>, l: seq<Value>) returns (m: Doc)
    requires AllTables(l) && l != []
    ensures Fold(Some(Table(m)), l) == Fold(x, l)
  {
    if x.Some? && x.value.Table? {
      m := x.value.entries;
    } else {
      m := map[];
      TablesAnywhere(x, l);
    }
  }

  /** Tables can be laid over something exactly when their values can, key by key. */
  lemma AliveTables(l: seq<Value>)
    requires AllTables(l) && l != []
    ensures Alive(l) <==> forall key :: KeyAlive(l, key)
  {
    if Alive(l) {
      var m := TableInstead(Chosen(l), l);
      FoldTables(m, l);
      forall key ensures KeyAlive(l, key) {
        assert FieldFolds(m, l, key);
      }
    }
    if forall key :: KeyAlive(l, key) {
      assert KeyAlive(l, "");
      var m := TableFor(l, "", Chosen(Sub(l, "")));
      assert Fold(Some(Table(m)), l).Ok?;
    }
  }

  lemma LongestIn(s: set<string>) returns (n: nat)
    ensures forall k | k in s :: |k| < n
  {
    n := 0;
    var rest := s;
    while rest != {}
      invariant rest <= s && forall k | k in s - rest :: |k| < n
      decreases rest
    {
      var k :| k in rest;
      if |k| >= n {
        n := |k| + 1;
      }
      rest := rest - {k};
    }
  }

  lemma Fresh(s: set<string>) returns (k: string)
    ensures k !in s
  {
    var n := LongestIn(s);
    k := seq(n, _ => 'x');
  }

  function NameList(e: seq<Value>): (ns: seq<string>)
    requires AllNamed(e)
    ensures forall i, j | 0 <= i < j < |ns| :: ns[i] != ns[j]
  {
    if e == [] then []
    else
      var rest, n := NameList(e[..|e| - 1]), e[|e| - 1].entries[NAME].text;
      if n in rest then rest else rest + [n]
  }

  lemma {:induction false} GrpEmpty(e: seq<Value>, name: string)
    requires AllNamed(e)
    ensures name in NameList(e) <==> Grp(e, name) != []
    decreases |e|
  {
    if e != [] {
      GrpEmpty(e[..|e| - 1], name);
    }
  }

  /** The same thing as an entry of that name. */
  ghost function EntryFrom(x: Option<Value>, name: string): (t: Value)
    ensures NamedAs(t, name)
  {
    Table((if x.Some? && x.value.Table? then x.value.entries else map[])[NAME := Text(name)])
  }

  lemma {:induction false} SameTexts(x: Option<Value>, y: Option<Value>, l: seq<Value>, name: string)
    requires l != [] && forall i | 0 <= i < |l| :: l[i] == Text(name)
    ensures Fold(x, l) == Fold(y, l) == Ok(Some(Text(name)))
    decreases |l|
  {
    if |l| > 1 {
      SameTexts(x, y, l[..|l| - 1], name);
    }
  }

  lemma {:induction false} NamesInGroup(g: seq<Value>, name: string)
    requires AllTables(g) && forall i | 0 <= i < |g| :: NamedAs(g[i], name)
    ensures |Sub(g, NAME)| == |g| && forall i | 0 <= i < |g| :: Sub(g, NAME)[i] == Text(name)
    decreases |g|
  {
    if g != [] {
      var init := g[..|g| - 1];
      assert forall i | 0 <= i < |init| :: NamedAs(init[i], name);
      NamesInGroup(init, name);
    }
  }

  /** Entries of one name fold over anything as over an entry of that name. */
  lemma EntryInstead(x: Option<Value>, g: seq<Value>, name: string)
    requires g != [] && (forall i | 0 <= i < |g| :: NamedAs(g[i], name)) && Fold(x, g).Ok?
    ensures Fold(Some(EntryFrom(x, name)), g) == Fold(x, g)
  {
    assert AllTables(g);
    var m := TableInstead(x, g);
    var t := (if x.Some? && x.value.Table? then x.value.entries else map[]);
    if !(x.Some? && x.value.Table?) {
      TablesAnywhere(x, g);
    }
    var n := t[NAME := Text(name)];
    FoldTables(t, g);
    FoldTables(n, g);
    NamesInGroup(g, name);
    forall key ensures Fold(Field(n, key), Sub(g, key)) == Fold(Field(t, key), Sub(g, key)) {
      if key == NAME {
        SameTexts(Field(n, key), Field(t, key), Sub(g, key), name);
      } else {
        assert Field(n, key) == Field(t, key);
      }
    }
    forall key ensures FieldFolds(n, g, key) {
      assert FieldFolds(t, g, key);
    }
    SameFields(Fold(Some(Table(n)), g).value.value.entries, Fold(Some(Table(t)), g).value.value.entries);
  }

  ghost function PickedEntry(e: seq<Value>, name: string, own: string, t: Value): (v: Value)
    requires NamedAs(t, own)
    ensures NamedAs(v, name)
  {
    if name == own then t
    else EntryFrom(if Alive(Grp(e, name)) then Chosen(Grp(e, name)) else None, name)
  }

  ghost function PickedEntries(e: seq<Value>, ns: seq<string>, own: string, t: Value): (b: seq<Value>)
    requires NamedAs(t, own)
    ensures |b| == |ns| && forall i | 0 <= i < |ns| :: b[i] == PickedEntry(e, ns[i], own, t)
  {
    seq(|ns|, i requires 0 <= i < |ns| => PickedEntry(e, ns[i], own, t))
  }

  /** A named array over which the entries can be merged, with `t` for one name and for no other name anything new. */
  lemma ArrayFor(e: seq<Value>, own: string, t: Value) returns (b: seq<Value>)
    requires AllNamed(e) && NamesFit(e)
    requires NamedAs(t, own) && Fold(Some(t), Grp(e, own)).Ok?
    ensures NamedArray(b) && EntFold(b, e).Ok? && Ent(b, own) == Some(t)
    ensures forall name | name != own && name !in NameList(e) :: Ent(b, name) == None
  {
    var ns := NameList(e) + if own in NameList(e) then [] else [own];
    b := PickedEntries(e, ns, own, t);
    forall name
      ensures NameFolds(b, e, name)
      ensures Ent(b, name) == if name in ns then Some(PickedEntry(e, name, own, t)) else None
    {
      assert NameAlive(e, name);
      EntPicked(e, ns, own, t, name);
      GrpEmpty(e, name);
      if name in ns && name != own {
        EntryInstead(Chosen(Grp(e, name)), Grp(e, name), name);
      }
    }
    assert own in ns;
    assert NamedAs(b[0], ns[0]);
    forall i | 0 <= i < |b| ensures HasName(b[i]) {
      assert NamedAs(b[i], ns[i]);
    }
    FoldEntries(b, e);
  }

  lemma EntPicked(e: seq<Value>, ns: seq<string>, own: string, t: Value, name: string)
    requires NamedAs(t, own) && forall i, j | 0 <= i < j < |ns| :: ns[i] != ns[j]
    ensures Ent(PickedEntries(e, ns, own, t), name) ==
            if name in ns then Some(PickedEntry(e, name, own, t)) else None
  {
    var b := PickedEntries(e, ns, own, t);
    forall i | 0 <= i < |b| ensures NameOf(b[i]) == Some(Text(ns[i])) {
      assert NamedAs(b[i], ns[i]);
    }
    if name in ns {
      var k :| 0 <= k < |ns| && ns[k] == name;
      EntIs(b, k, name);
    }
  }

  // ------------------------------------------------------------- the exact condition

  /** How deep a value goes. */
  ghost predicate AtMost(v: Value, h: nat)
    decreases v
  {
    match v
    case Table(entries) => h > 0 && forall key | key in entries :: AtMost(entries[key], h - 1)
    case Array(items) => h > 0 && forall i | 0 <= i < |items| :: AtMost(items[i], h - 1)
    case _ => true
  }

  ghost predicate AllAtMost(l: seq<Value>, h: nat) {
    forall i | 0 <= i < |l| :: AtMost(l[i], h)
  }

  lemma {:induction false} SubAtMost(l: seq<Value>, key: string, h: nat)
    requires AllTables(l) && AllAtMost(l, h) && h > 0
    ensures AllAtMost(Sub(l, key), h - 1)
    decreases |l|
  {
    if l != [] {
      SubAtMost(l[..|l| - 1], key, h);
      assert AtMost(l[|l| - 1], h);
    }
  }

  lemma {:induction false} FlatAtMost(l: seq<Value>, h: nat)
    requires AllNamedArrays(l) && AllAtMost(l, h) && h > 0
    ensures AllAtMost(Flat(l), h - 1)
    decreases |l|
  {
    if l != [] {
      FlatAtMost(l[..|l| - 1], h);
      assert AtMost(l[|l| - 1], h);
    }
  }

  lemma {:induction false} GrpAtMost(e: seq<Value>, name: string, h: nat)
    requires AllAtMost(e, h)
    ensures AllAtMost(Grp(e, name), h)
    decreases |e|
  {
    if e != [] {
      GrpAtMost(e[..|e| - 1], name, h);
    }
  }

  lemma HeightPositive(l: seq<Value>, h: nat)
    requires l != [] && (AllTables(l) || AllNamedArrays(l)) && AllAtMost(l, h)
    ensures h > 0
  {
    assert AtMost(l[0], h);
  }

  // ------------------------------------------ what can be laid over something at all

  /** Named arrays: over a named one when every name's entries can, or over nothing. */
  lemma AliveNamed(l: seq<Value>)
    requires AllNamedArrays(l) && l != []
    ensures Alive(l) <==> Fold(None, l).Ok? || NamesFit(Flat(l))
  {
    if Alive(l) && Fold(None, l).Err? {
      var x := Chosen(l);
      if !(x.Some? && NamedOne(x.value)) {
        NamedAnywhere(x, l);
      }
      NamesAlive(x.value.items, l);
    }
    if NamesFit(Flat(l)) {
      FlatNonEmpty(l);
      var own := NameList(Flat(l))[0];
      var t := SomeEntry(Flat(l), own);
      var b := ArrayFor(Flat(l), own, t);
      FoldNamed(b, l);
      assert Fold(Some(Array(b)), l).Ok?;
    }
    if Fold(None, l).Ok? {
      AliveBy(None, l);
    }
  }

  lemma AliveBy(x: Option<Value>, l: seq<Value>)
    requires Fold(x, l).Ok?
    ensures Alive(l)
  {
  }

  lemma NamesAlive(b: seq<Value>, l: seq<Value>)
    requires AllNamedArrays(l) && NamedArray(b) && Fold(Some(Array(b)), l).Ok?
    ensures NamesFit(Flat(l))
  {
    FoldNamed(b, l);
    FoldEntries(b, Flat(l));
    forall name ensures NameAlive(Flat(l), name) {
      assert NameFolds(b, Flat(l), name);
    }
  }

  /** The last can be laid over what the others leave, when that does not depend on the rest. */
  predicate LastFits(init: seq<Value>, v: Value)
    requires init != []
  {
    if !SameKind(init[|init| - 1], v) then !(NamedOne(init[|init| - 1]) && v.Array? && IsTables(v.items))
    else Settled(init).Some? ==> Settled(init).value.Ok? && Lay(Settled(init).value.value, v).Ok?
  }

  /** What leaves no choice: all before the last can, and the last can be laid over what they leave. */
  lemma AliveSettled(l: seq<Value>)
    requires l != [] && Settled(l).Some?
    ensures var init := l[..|l| - 1];
            Alive(l) <==> init == [] || (Alive(init) && LastFits(init, l[|l| - 1]))
  {
    hide Lay;
    var init, v := l[..|l| - 1], l[|l| - 1];
    if init == [] {
      assert Fold(None, l).Ok?;
    } else {
      forall x: Option<Value> | Fold(x, init).Ok? ensures Fold(x, l).Ok? <==> LastFits(init, v) {
        SettledIs(x, init);
        if !SameKind(init[|init| - 1], v) {
          LayAccepted(Fold(x, init).value.value, v);
        }
      }
      if Alive(init) {
        assert Fold(Chosen(init), l).Ok? ==> Alive(l);
      }
      if Alive(l) {
        assert Fold(Chosen(l), init).Ok?;
      }
    }
  }

  /** A value of another kind is refused only by a named array, and only if it is an array of tables. */
  lemma LayAccepted(c: Value, v: Value)
    requires !SameKind(c, v)
    ensures Lay(c, v).Ok? <==> !(NamedOne(c) && v.Array? && IsTables(v.items))
  {
    InsidePaths(INSIDE, "", 0);
    assert Inside(INSIDE);
  }

  /** Whether the list can be laid over anything, read off the list. */
  ghost predicate Fits(h: nat, l: seq<Value>)
    requires AllAtMost(l, h)
    decreases h, 1, |l|
  {
    if l == [] then true
    else if Settled(l).Some? then
      var init := l[..|l| - 1];
      init == [] || (Fits(h, init) && LastFits(init, l[|l| - 1]))
    else if AllTables(l) then FitsByKey(h, l)
    else AllNamedArrays(l) && (Fold(None, l).Ok? || FitsByName(h, l))
  }

  ghost predicate FitsByKey(h: nat, l: seq<Value>)
    requires AllAtMost(l, h) && AllTables(l) && l != []
    decreases h, 0, |l|
  {
    HeightPositive(l, h);
    forall key :: SubAtMost(l, key, h); Fits(h - 1, Sub(l, key))
  }

  ghost predicate FitsByName(h: nat, l: seq<Value>)
    requires AllAtMost(l, h) && AllNamedArrays(l) && l != []
    decreases h, 0, |l|
  {
    HeightPositive(l, h);
    FlatAtMost(l, h);
    forall name :: GrpAtMost(Flat(l), name, h - 1); Fits(h - 1, Grp(Flat(l), name))
  }

  lemma {:induction false} FitsExactly(h: nat, l: seq<Value>)
    requires AllAtMost(l, h)
    ensures Fits(h, l) <==> Alive(l)
    decreases h, |l|
  {
    if l == [] {
      assert Fold(None, l).Ok?;
    } else if Settled(l).Some? {
      FitsExactly(h, l[..|l| - 1]);
      AliveSettled(l);
    } else {
      Unsettled(l);
      HeightPositive(l, h);
      if AllTables(l) {
        AliveTables(l);
        forall key ensures AllAtMost(Sub(l, key), h - 1) && (Fits(h - 1, Sub(l, key)) <==> KeyAlive(l, key)) {
          SubAtMost(l, key, h);
          FitsExactly(h - 1, Sub(l, key));
        }
      } else {
        assert l[0].Array?;
        AliveNamed(l);
        NamesFitExactly(h, l);
      }
    }
  }

  lemma NamesFitExactly(h: nat, l: seq<Value>)
    requires AllAtMost(l, h) && AllNamedArrays(l) && l != []
    ensures FitsByName(h, l) <==> NamesFit(Flat(l))
    decreases h, 0
  {
    HeightPositive(l, h);
    FlatAtMost(l, h);
    forall name
      ensures AllAtMost(Grp(Flat(l), name), h - 1)
      ensures Fits(h - 1, Grp(Flat(l), name)) <==> NameAlive(Flat(l), name)
    {
      GrpAtMost(Flat(l), name, h - 1);
      FitsExactly(h - 1, Grp(Flat(l), name));
    }
  }

  // ------------------------------------------------------ what stays put, read off

  predicate StillUnder(v: Value, again: seq<Value>) {
    Fold(Some(v), again) == Ok(Some(v))
  }

  /**
   What can be read off the two lists: laying `first` leaves no choice, and what it leaves stays put
   under `again`; or both are tables, and it holds key by key; or both are named arrays, and it
   holds name by name as well as for `first` laid where nothing was.
   */
  ghost predicate Quiet(h: nat, first: seq<Value>, again: seq<Value>)
    requires AllAtMost(first, h) && AllAtMost(again, h)
    decreases h, 1
  {
    again == [] ||
    (first != [] &&
     if Settled(first).Some? then
       Fits(h, first) ==> Settled(first).value.Ok? && StillUnder(Settled(first).value.value, again)
     else if AllTables(first) then Fits(h, first) ==> AllTables(again) && QuietKeys(h, first, again)
     else AllNamedArrays(first) && UnmovedAt(None, first, again) &&
          (FitsByName(h, first) ==> AllNamedArrays(again) && QuietNames(h, first, again)))
  }

  ghost predicate QuietKeys(h: nat, first: seq<Value>, again: seq<Value>)
    requires AllTables(first) && AllTables(again) && first != [] && AllAtMost(first, h) && AllAtMost(again, h)
    decreases h, 0
  {
    HeightPositive(first, h);
    forall key ::
      SubAtMost(first, key, h); SubAtMost(again, key, h); Quiet(h - 1, Sub(first, key), Sub(again, key))
  }

  ghost predicate QuietNames(h: nat, first: seq<Value>, again: seq<Value>)
    requires AllNamedArrays(first) && AllNamedArrays(again) && first != []
    requires AllAtMost(first, h) && AllAtMost(again, h)
    decreases h, 0
  {
    HeightPositive(first, h);
    FlatAtMost(first, h); FlatAtMost(again, h);
    forall name ::
      GrpAtMost(Flat(first), name, h - 1); GrpAtMost(Flat(again), name, h - 1);
      Quiet(h - 1, Grp(Flat(first), name), Grp(Flat(again), name))
  }

  /** Nothing laid at first, and something again, is a change. */
  lemma NothingFirst(again: seq<Value>)
    requires Unmoved([], again)
    ensures again == []
  {
    assert UnmovedAt(None, [], again);
    if again != [] {
      SettledIs(None, again);
    }
  }

  lemma SettledExactly(first: seq<Value>, again: seq<Value>)
    requires first != [] && Settled(first).Some?
    ensures Unmoved(first, again) <==>
            (Alive(first) ==>
               && Settled(first).value.Ok?
               && Fold(Some(Settled(first).value.value), again) == Ok(Some(Settled(first).value.value)))
  {
    forall x: Option<Value> | Fold(x, first).Ok?
      ensures Settled(first).value.Ok? && Fold(x, first) == Ok(Some(Settled(first).value.value))
    {
      SettledIs(x, first);
    }
    if Unmoved(first, again) && Alive(first) {
      assert UnmovedAt(Chosen(first), first, again);
    }
  }

  /** Two different values cannot both stay put under what leaves no choice or leaves another kind. */
  lemma TwoStay(y: Value, z: Value, again: seq<Value>)
    requires y != z && again != [] && (y.Table? <==> z.Table?) && (NamedOne(y) <==> NamedOne(z)) && !Whole(y)
    requires Fold(Some(y), again) == Ok(Some(y)) && Fold(Some(z), again) == Ok(Some(z))
    ensures if y.Table? then AllTables(again) else AllNamedArrays(again)
  {
    SettledIs(Some(y), again);
    SettledIs(Some(z), again);
    Unsettled(again);
  }

  // ------------------------------------------------------------------- key by key

  lemma KeysSuffice(first: seq<Value>, again: seq<Value>)
    requires AllTables(first) && AllTables(again) && first != []
    requires forall key :: Unmoved(Sub(first, key), Sub(again, key))
    ensures Unmoved(first, again)
  {
    forall x: Option<Value> | Fold(x, first).Ok? ensures UnmovedAt(x, first, again) {
      var m := TableInstead(x, first);
      FoldTables(m, first);
      var n := Fold(x, first).value.value.entries;
      FoldTables(n, again);
      forall key ensures Fold(Field(n, key), Sub(again, key)) == Ok(Field(n, key)) {
        assert Unmoved(Sub(first, key), Sub(again, key));
        assert UnmovedAt(Field(m, key), Sub(first, key), Sub(again, key));
      }
      assert forall key :: FieldFolds(n, again, key);
      SameFields(Fold(Some(Table(n)), again).value.value.entries, n);
    }
  }

  lemma KeysNeeded(first: seq<Value>, again: seq<Value>, key: string)
    requires AllTables(first) && AllTables(again) && first != [] && Alive(first) && Unmoved(first, again)
    ensures Unmoved(Sub(first, key), Sub(again, key))
  {
    AliveTables(first);
    forall x: Option<Value> | Fold(x, Sub(first, key)).Ok?
      ensures UnmovedAt(x, Sub(first, key), Sub(again, key))
    {
      var m := TableFor(first, key, x);
      assert UnmovedAt(Some(Table(m)), first, again);
      FoldTables(m, first);
      var n := Fold(Some(Table(m)), first).value.value.entries;
      FoldTables(n, again);
      assert Fold(Field(m, key), Sub(first, key)) == Ok(Field(n, key));
      assert Fold(Field(n, key), Sub(again, key)) == Ok(Field(n, key));
    }
  }

  /** Tables leave whatever else was there, so only tables can stay put over them. */
  lemma TablesNeeded(first: seq<Value>, again: seq<Value>)
    requires AllTables(first) && first != [] && again != [] && Alive(first) && Unmoved(first, again)
    ensures AllTables(again)
  {
    AliveTables(first);
    assert KeyAlive(first, "");
    var m := TableFor(first, "", Chosen(Sub(first, "")));
    FoldTables(m, first);
    var n := Fold(Some(Table(m)), first).value.value.entries;
    var key := Fresh(KeysOf(first) + m.Keys + n.Keys);
    SubEmpty(first, key);
    assert Field(m, key) == None;
    var m2 := m[key := Scalar(0)];
    forall k ensures FieldFolds(m2, first, k) {
      assert FieldFolds(m, first, k);
      if k != key {
        assert Field(m2, k) == Field(m, k);
      }
    }
    FoldTables(m2, first);
    var n2 := Fold(Some(Table(m2)), first).value.value.entries;
    assert Fold(Field(m2, key), Sub(first, key)) == Ok(Field(n2, key));
    assert Field(n2, key) == Some(Scalar(0)) && Field(n, key) == None;
    assert UnmovedAt(Some(Table(m)), first, again) && UnmovedAt(Some(Table(m2)), first, again);
    TwoStay(Table(n), Table(n2), again);
  }

  // ----------------------------------------------------------------- name by name

  lemma NamesSuffice(first: seq<Value>, again: seq<Value>)
    requires AllNamedArrays(first) && first != [] && again != [] && UnmovedAt(None, first, again)
    requires NamesFit(Flat(first)) ==>
               AllNamedArrays(again) && forall name :: Unmoved(Grp(Flat(first), name), Grp(Flat(again), name))
    ensures Unmoved(first, again)
  {
    forall x: Option<Value> | Fold(x, first).Ok? ensures UnmovedAt(x, first, again) {
      if x.Some? && NamedOne(x.value) {
        NamesSufficeOver(x.value.items, first, again);
      } else {
        NamedAnywhere(x, first);
      }
    }
  }

  lemma NamesSufficeOver(b: seq<Value>, first: seq<Value>, again: seq<Value>)
    requires AllNamedArrays(first) && NamedArray(b) && Fold(Some(Array(b)), first).Ok?
    requires NamesFit(Flat(first)) ==>
               AllNamedArrays(again) && forall name :: Unmoved(Grp(Flat(first), name), Grp(Flat(again), name))
    ensures UnmovedAt(Some(Array(b)), first, again)
  {
    FoldNamed(b, first);
    FoldEntries(b, Flat(first));
    forall name ensures NameAlive(Flat(first), name) {
      assert NameFolds(b, Flat(first), name);
    }
    var c := EntFold(b, Flat(first)).value;
    FoldNamed(c, again);
    FoldEntries(c, Flat(again));
    forall name ensures Fold(Ent(c, name), Grp(Flat(again), name)) == Ok(Ent(c, name)) {
      assert Unmoved(Grp(Flat(first), name), Grp(Flat(again), name));
      assert UnmovedAt(Ent(b, name), Grp(Flat(first), name), Grp(Flat(again), name));
    }
    assert forall name :: NameFolds(c, Flat(again), name);
    GrownSame(c, EntFold(c, Flat(again)).value);
  }

  lemma {:induction false} FlatNonEmpty(l: seq<Value>)
    requires AllNamedArrays(l) && l != []
    ensures Flat(l) != []
  {
  }

  /** A named array over which the arrays can be laid, with `t` as the entry of one name. */
  lemma NamesNeededAt(first: seq<Value>, again: seq<Value>, own: string, t: Value)
    returns (b: seq<Value>, c: seq<Value>)
    requires AllNamedArrays(first) && first != [] && NamesFit(Flat(first))
    requires Unmoved(first, again) && NamedAs(t, own) && Fold(Some(t), Grp(Flat(first), own)).Ok?
    ensures NamedArray(b) && NamedArray(c) && Ent(b, own) == Some(t)
    ensures forall name | name != own && name !in NameList(Flat(first)) :: Ent(b, name) == None
    ensures forall name :: Fold(Ent(b, name), Grp(Flat(first), name)) == Ok(Ent(c, name))
    ensures Fold(Some(Array(c)), again) == Ok(Some(Array(c)))
  {
    b := ArrayFor(Flat(first), own, t);
    FoldNamed(b, first);
    FoldEntries(b, Flat(first));
    c := EntFold(b, Flat(first)).value;
    assert UnmovedAt(Some(Array(b)), first, again);
  }

  lemma StayByName(c: seq<Value>, again: seq<Value>, name: string)
    requires NamedArray(c) && AllNamedArrays(again) && Fold(Some(Array(c)), again) == Ok(Some(Array(c)))
    ensures Fold(Ent(c, name), Grp(Flat(again), name)) == Ok(Ent(c, name))
  {
    FoldNamed(c, again);
    FoldEntries(c, Flat(again));
  }

  lemma NamesNeeded(first: seq<Value>, again: seq<Value>, name: string)
    requires AllNamedArrays(first) && AllNamedArrays(again) && first != []
    requires NamesFit(Flat(first)) && Unmoved(first, again)
    ensures Unmoved(Grp(Flat(first), name), Grp(Flat(again), name))
  {
    var f, g := Grp(Flat(first), name), Grp(Flat(again), name);
    if f != [] {
      forall x: Option<Value> | Fold(x, f).Ok? ensures UnmovedAt(x, f, g) {
        EntryInstead(x, f, name);
        var b, c := NamesNeededAt(first, again, name, EntryFrom(x, name));
        StayByName(c, again, name);
      }
    } else {
      GrpEmpty(Flat(first), name);
      FlatNonEmpty(first);
      var own := NameList(Flat(first))[0];
      var t := SomeEntry(Flat(first), own);
      var b, c := NamesNeededAt(first, again, own, t);
      StayByName(c, again, name);
      if g != [] {
        SettledIs(None, g);
      }
    }
  }

  lemma SomeEntry(e: seq<Value>, own: string) returns (t: Value)
    requires AllNamed(e) && own in NameList(e) && NamesFit(e)
    ensures NamedAs(t, own) && Fold(Some(t), Grp(e, own)).Ok?
  {
    GrpEmpty(e, own);
    assert NameAlive(e, own);
    EntryInstead(Chosen(Grp(e, own)), Grp(e, own), own);
    t := EntryFrom(Chosen(Grp(e, own)), own);
  }

  /** Named arrays leave whatever other entries were there, so only named arrays can stay put over them. */
  lemma ArraysNeeded(first: seq<Value>, again: seq<Value>)
    requires AllNamedArrays(first) && first != [] && again != []
    requires NamesFit(Flat(first)) && Unmoved(first, again)
    ensures AllNamedArrays(again)
  {
    FlatNonEmpty(first);
    var ns := NameList(Flat(first));
    var own := ns[0];
    var t := SomeEntry(Flat(first), own);
    var b, c := NamesNeededAt(first, again, own, t);
    var other := Fresh(set n | n in ns);
    GrpEmpty(Flat(first), other);
    var b2, c2 := NamesNeededAt(first, again, other, EntryFrom(None, other));
    assert Fold(Ent(b, other), []) == Ok(Ent(c, other)) && Fold(Ent(b2, other), []) == Ok(Ent(c2, other));
    assert Ent(c, other) != Ent(c2, other);
    TwoStay(Array(c), Array(c2), again);
  }

  // ---------------------------------------------------------------- both directions

  /** The condition that can be read off the two lists is the one about every document. */
  lemma {:induction false} QuietExactly(h: nat, first: seq<Value>, again: seq<Value>)
    requires AllAtMost(first, h) && AllAtMost(again, h)
    ensures Quiet(h, first, again) <==> Unmoved(first, again)
    decreases h
  {
    if again == [] {
    } else if first == [] {
      if Unmoved(first, again) {
        NothingFirst(again);
      }
    } else {
      Unsettled(first);
      FitsExactly(h, first);
      if Settled(first).Some? {
        SettledExactly(first, again);
      } else {
        HeightPositive(first, h);
        if AllTables(first) {
          QuietTables(h, first, again);
        } else {
          QuietArrays(h, first, again);
        }
      }
    }
  }

  lemma QuietTables(h: nat, first: seq<Value>, again: seq<Value>)
    requires AllAtMost(first, h) && AllAtMost(again, h) && h > 0
    requires AllTables(first) && first != [] && again != [] && Settled(first).None?
    ensures Quiet(h, first, again) <==> Unmoved(first, again)
    decreases h, 0
  {
    FitsExactly(h, first);
    hide Unmoved, Alive, UnmovedAt, Fits;
    if !Alive(first) {
      NeverAlive(first, again);
    } else {
      if Unmoved(first, again) {
        TablesNeeded(first, again);
      }
      if AllTables(again) {
        forall key
          ensures AllAtMost(Sub(first, key), h - 1) && AllAtMost(Sub(again, key), h - 1)
          ensures Quiet(h - 1, Sub(first, key), Sub(again, key)) <==> Unmoved(Sub(first, key), Sub(again, key))
          ensures Unmoved(first, again) ==> Unmoved(Sub(first, key), Sub(again, key))
        {
          SubAtMost(first, key, h);
          SubAtMost(again, key, h);
          QuietExactly(h - 1, Sub(first, key), Sub(again, key));
          if Unmoved(first, again) {
            KeysNeeded(first, again, key);
          }
        }
        if QuietKeys(h, first, again) {
          KeysSuffice(first, again);
        }
      }
    }
  }

  lemma NeverAlive(first: seq<Value>, again: seq<Value>)
    requires !Alive(first)
    ensures Unmoved(first, again)
  {
  }

  lemma QuietArrays(h: nat, first: seq<Value>, again: seq<Value>)
    requires AllAtMost(first, h) && AllAtMost(again, h) && h > 0
    requires AllNamedArrays(first) && first != [] && again != [] && Settled(first).None?
    ensures Quiet(h, first, again) <==> Unmoved(first, again)
    decreases h, 0
  {
    if Unmoved(first, again) {
      assert UnmovedAt(None, first, again);
    }
    NamesFitExactly(h, first);
    hide Unmoved, Alive, UnmovedAt, NamesFit, FitsByName;
    assert !AllTables(first) by {
      assert first[0].Array?;
    }
    if NamesFit(Flat(first)) {
      if Unmoved(first, again) {
        ArraysNeeded(first, again);
      }
      if AllNamedArrays(again) {
        FlatAtMost(first, h);
        FlatAtMost(again, h);
        forall name
          ensures AllAtMost(Grp(Flat(first), name), h - 1) && AllAtMost(Grp(Flat(again), name), h - 1)
          ensures Quiet(h - 1, Grp(Flat(first), name), Grp(Flat(again), name)) <==>
                  Unmoved(Grp(Flat(first), name), Grp(Flat(again), name))
          ensures Unmoved(first, again) ==> Unmoved(Grp(Flat(first), name), Grp(Flat(again), name))
        {
          GrpAtMost(Flat(first), name, h - 1);
          GrpAtMost(Flat(again), name, h - 1);
          QuietExactly(h - 1, Grp(Flat(first), name), Grp(Flat(again), name));
          if Unmoved(first, again) {
            NamesNeeded(first, again, name);
          }
        }
        if QuietNames(h, first, again) && UnmovedAt(None, first, again) {
          NamesSuffice(first, again);
        }
      }
    } else if UnmovedAt(None, first, again) {
      NamesSuffice(first, again);
    }
  }

  // -------------------------------------------------------------- without a height

  lemma {:induction false} Higher(v: Value, h: nat, g: nat)
    requires AtMost(v, h) && h <= g
    ensures AtMost(v, g)
    decreases v
  {
    match v
    case Table(entries) =>
      forall key | key in entries ensures AtMost(entries[key], g - 1) {
        Higher(entries[key], h - 1, g - 1);
      }
    case Array(items) =>
      forall i | 0 <= i < |items| ensures AtMost(items[i], g - 1) {
        Higher(items[i], h - 1, g - 1);
      }
    case _ =>
  }

  lemma {:induction false} Height(v: Value) returns (h: nat)
    ensures AtMost(v, h)
    decreases v, 1
  {
    h := 0;
    match v
    case Table(entries) =>
      var g := HeightOfKeys(v, entries.Keys);
      h := g + 1;
    case Array(items) =>
      var g := HeightOfItems(v, |items|);
      h := g + 1;
    case _ =>
  }

  lemma {:induction false} HeightOfKeys(v: Value, keys: set<string>) returns (h: nat)
    requires v.Table? && keys <= v.entries.Keys
    ensures forall key | key in keys :: AtMost(v.entries[key], h)
    decreases v, 0, keys
  {
    h := 0;
    if keys != {} {
      var key :| key in keys;
      var g := HeightOfKeys(v, keys - {key});
      var own := Height(v.entries[key]);
      h := if g < own then own else g;
      forall k | k in keys ensures AtMost(v.entries[k], h) {
        Higher(v.entries[k], if k == key then own else g, h);
      }
    }
  }

  lemma {:induction false} HeightOfItems(v: Value, n: nat) returns (h: nat)
    requires v.Array? && n <= |v.items|
    ensures forall i | 0 <= i < n :: AtMost(v.items[i], h)
    decreases v, 0, n
  {
    h := 0;
    if n > 0 {
      var g := HeightOfItems(v, n - 1);
      var own := Height(v.items[n - 1]);
      h := if g < own then own else g;
      forall i | 0 <= i < n ensures AtMost(v.items[i], h) {
        Higher(v.items[i], if i == n - 1 then own else g, h);
      }
    }
  }

  lemma {:induction false} HeightOfAll(l: seq<Value>) returns (h: nat)
    ensures AllAtMost(l, h)
  {
    h := HeightOfItems(Array(l), |l|);
  }

  /** `Quiet` at any height that fits. */
  ghost predicate AtRest(first: seq<Value>, again: seq<Value>) {
    exists h: nat :: AllAtMost(first, h) && AllAtMost(again, h) && Quiet(h, first, again)
  }

  lemma AtRestExactly(first: seq<Value>, again: seq<Value>)
    ensures AtRest(first, again) <==> Unmoved(first, again)
  {
    var h := HeightOfAll(first + again);
    forall i | 0 <= i < |first| ensures AtMost(first[i], h) {
      assert first[i] == (first + again)[i];
    }
    forall i | 0 <= i < |again| ensures AtMost(again[i], h) {
      assert again[i] == (first + again)[|first| + i];
    }
    QuietExactly(h, first, again);
    if AtRest(first, again) {
      var g: nat :| AllAtMost(first, g) && AllAtMost(again, g) && Quiet(g, first, again);
      QuietExactly(g, first, again);
    }
  }

  // -------------------------------------------------------------- entries by position

  /** An overlay entry over what stands in its place. */
  function LayAt(b: seq<Value>, o: seq<Value>, i: nat): Result<Value, MergeError>
    requires i < |o|
  {
    LayOn(if i < |b| then Some(b[i]) else None, o[i])
  }

  /** Merging by position lays each entry over the one in its place and keeps the rest. */
  lemma {:induction false} ByPosition(b: seq<Value>, o: Value, n: nat, here: string)
    requires o.Array? && n <= |o.items| && AllTables(b) && AllTables(o.items)
    ensures var r := MergeEntries(b, o.items, n, false, here);
            r.Ok? <==> forall i | 0 <= i < n :: LayAt(b, o.items, i).Ok?
    ensures var r := MergeEntries(b, o.items, n, false, here);
            r.Ok? ==>
              && |r.value| == (if n <= |b| then |b| else n) && AllTables(r.value)
              && (forall i | 0 <= i < n :: r.value[i] == LayAt(b, o.items, i).value)
              && (forall i | n <= i < |b| :: r.value[i] == b[i])
    decreases n
  {
    hide Merge;
    if n > 0 {
      ByPosition(b, o, n - 1, here);
      var r, k := MergeEntries(b, o.items, n - 1, false, here), n - 1;
      if r.Ok? && k < |b| {
        InsidePaths(INSIDE, "", k);
        InsidePaths(here, "", k);
        assert Inside(INSIDE);
        SameMerge(b[k].entries, o.items[k], Entry(here, k), INSIDE);
      }
      assert r.Ok? ==> (MergeEntry(r.value, o.items[k], k, false, here).Ok? <==> LayAt(b, o.items, k).Ok?);
    }
  }

  /** Over a named array the path makes no difference. */
  lemma NamedLay(b: seq<Value>, o: Value, here: string)
    requires NamedArray(b) && o.Array?
    ensures MergeValue(Array(b), o, here) == Lay(Array(b), o)
  {
    if IsTables(o.items) {
      SameEntries(b, o, |o.items|, true, here, INSIDE);
    }
  }

  ghost predicate Twice(b: Value, o: Value, here: string) {
    var r := MergeValue(b, o, here);
    r.Ok? ==> MergeValue(r.value, o, here) == r
  }

  /** What an array merged by position must meet. */
  ghost predicate StableByPosition(items: seq<Value>)
    requires IsTables(items)
  {
    && (forall i | 0 <= i < |items| :: AtRest([items[i]], [items[i]]))
    && if Named(items) then
         && AtRest([Array(items)], [Array(items)])
         && (forall f | 0 <= f < |items| && IsFirst(items, f) ::
               AtRest([items[f]], Grp(items, items[f].entries[NAME].text)))
       else NeverNames(items)
  }

  /** The overlay cannot turn an array that is not named into a named one: it names no entry, or spoils a name. */
  predicate NeverNames(items: seq<Value>)
    requires AllTables(items)
  {
    || (forall i | 0 <= i < |items| :: NAME !in items[i].entries)
    || (exists i | 0 <= i < |items| :: NAME in items[i].entries && !items[i].entries[NAME].Text?)
  }

  lemma FoldOne(x: Option<Value>, v: Value)
    ensures Fold(x, [v]) == var r := LayOn(x, v); if r.Ok? then Ok(Some(r.value)) else Err(r.error)
  {
    assert [v] == [] + [v];
    FoldNext(x, [], v);
  }

  /** The name a table has after another is laid over it. */
  lemma NameAfter(x: Option<Value>, v: Value)
    requires (x.Some? ==> x.value.Table?) && v.Table? && LayOn(x, v).Ok?
    ensures var c := LayOn(x, v).value;
            && c.Table?
            && (NAME !in v.entries ==> NameOf(c) == if x.Some? then NameOf(x.value) else None)
            && (NAME in v.entries ==> (HasName(c) <==> HasName(v)) && (HasName(v) ==> NameOf(c) == NameOf(v)))
  {
    if x.Some? {
      var m := x.value.entries;
      LayTables(m, v);
      var c := LayOn(x, v).value;
      assert NameOf(c) == Field(c.entries, NAME) && NameOf(x.value) == Field(m, NAME);
      if NAME in v.entries {
        LayText(Field(m, NAME), v.entries[NAME]);
      }
    }
  }

  lemma LayText(x: Option<Value>, v: Value)
    requires LayOn(x, v).Ok?
    ensures LayOn(x, v).value.Text? <==> v.Text?
    ensures v.Text? ==> LayOn(x, v).value == v
  {
  }

  /** Merged by position, an array is named when it was, or when the overlay can name entries. */
  lemma NotNamedAfter(b: seq<Value>, o: seq<Value>, c: seq<Value>)
    requires IsTables(b) && IsTables(o) && !Named(b) && NeverNames(o)
    requires |c| == (if |o| <= |b| then |b| else |o|)
    requires forall i | 0 <= i < |o| :: LayAt(b, o, i).Ok? && c[i] == LayAt(b, o, i).value
    requires forall i | |o| <= i < |b| :: c[i] == b[i]
    ensures !Named(c)
  {
    if forall i | 0 <= i < |o| :: NAME !in o[i].entries {
      var q :| 0 <= q < |b| && !HasName(b[q]);
      if q < |o| {
        assert LayAt(b, o, q).Ok?;
        NameAfter(Some(b[q]), o[q]);
      }
      assert !HasName(c[q]);
    } else {
      var i :| 0 <= i < |o| && NAME in o[i].entries && !o[i].entries[NAME].Text?;
      assert LayAt(b, o, i).Ok?;
      NameAfter(if i < |b| then Some(b[i]) else None, o[i]);
      assert !HasName(c[i]);
    }
  }

  /** Each entry at rest: merging by position twice is merging once. */
  lemma PositionTwice(b: seq<Value>, o: Value, here: string)
    requires o.Array? && AllTables(b) && AllTables(o.items)
    requires forall i | 0 <= i < |o.items| :: AtRest([o.items[i]], [o.items[i]])
    ensures var r := MergeEntries(b, o.items, |o.items|, false, here);
            r.Ok? ==> MergeEntries(r.value, o.items, |o.items|, false, here) == r
  {
    hide LayOn, AtRest, Unmoved;
    ByPosition(b, o, |o.items|, here);
    var r := MergeEntries(b, o.items, |o.items|, false, here);
    if r.Ok? {
      var c := r.value;
      forall i | 0 <= i < |o.items| ensures LayAt(c, o.items, i) == Ok(c[i]) {
        AtRestExactly([o.items[i]], [o.items[i]]);
        assert LayAt(b, o.items, i).Ok?;
        RestsAt(if i < |b| then Some(b[i]) else None, o.items[i], [o.items[i]]);
        FoldOne(Some(c[i]), o.items[i]);
      }
      ByPosition(c, o, |o.items|, here);
      assert MergeEntries(c, o.items, |o.items|, false, here).value == c;
    }
  }

  lemma RestsAt(x: Option<Value>, v: Value, again: seq<Value>)
    requires Unmoved([v], again) && LayOn(x, v).Ok?
    ensures Fold(Some(LayOn(x, v).value), again) == Ok(Some(LayOn(x, v).value))
  {
    FoldOne(x, v);
    assert UnmovedAt(x, [v], again);
  }

  /** By position once, by name again: each name's entries over the first of that name. */
  lemma NamedAgain(b: seq<Value>, o: Value, here: string)
    requires o.Array? && AllTables(b) && NamedArray(o.items) && StableByPosition(o.items)
    requires MergeEntries(b, o.items, |o.items|, false, here).Ok?
    requires Named(MergeEntries(b, o.items, |o.items|, false, here).value)
    ensures var c := MergeEntries(b, o.items, |o.items|, false, here).value;
            MergeValue(Array(c), o, here) == Ok(Array(c))
  {
    hide LayOn, AtRest, Unmoved, MergeEntries, Ent;
    var items := o.items;
    ByPosition(b, o, |items|, here);
    var c := MergeEntries(b, items, |items|, false, here).value;
    NamesAsLaid(b, items, c);
    forall name ensures Fold(Ent(c, name), Grp(items, name)) == Ok(Ent(c, name)) {
      GrpEmpty(items, name);
      if Grp(items, name) != [] {
        var f := FirstOf(items, name);
        FirstStands(items, c, f, name);
        AtRestExactly([items[f]], Grp(items, name));
        RestsAt(if f < |b| then Some(b[f]) else None, items[f], Grp(items, name));
      }
    }
    StaysNamed(c, o);
    NamedLay(c, o, here);
  }

  /** A named array in which every name's entries change nothing stays as it is. */
  lemma StaysNamed(c: seq<Value>, o: Value)
    requires NamedArray(c) && NamedOne(o)
    requires forall name :: Fold(Ent(c, name), Grp(o.items, name)) == Ok(Ent(c, name))
    ensures Lay(Array(c), o) == Ok(Array(c))
  {
    FoldEntries(c, o.items);
    assert forall name :: NameFolds(c, o.items, name);
    GrownSame(c, EntFold(c, o.items).value);
  }

  lemma NamesAsLaid(b: seq<Value>, o: seq<Value>, c: seq<Value>)
    requires AllTables(b) && NamedArray(o) && |o| <= |c|
    requires forall i | 0 <= i < |o| :: LayAt(b, o, i).Ok? && c[i] == LayAt(b, o, i).value
    ensures forall i | 0 <= i < |o| :: NameOf(c[i]) == NameOf(o[i])
    ensures forall i | 0 <= i < |o| :: HasName(c[i])
  {
    forall i | 0 <= i < |o| ensures NameOf(c[i]) == NameOf(o[i]) && HasName(c[i]) {
      assert LayAt(b, o, i).Ok?;
      NameAfter(if i < |b| then Some(b[i]) else None, o[i]);
    }
  }

  lemma {:induction false} FirstOf(e: seq<Value>, name: string) returns (f: nat)
    requires AllNamed(e) && Grp(e, name) != []
    ensures IsFirst(e, f) && NameOf(e[f]) == Some(Text(name)) && e[f].entries[NAME].text == name
  {
    if Position(e, Some(Text(name))).None? {
      GrpNone(e, name);
    }
    f := Position(e, Some(Text(name))).value;
  }

  lemma {:induction false} GrpNone(e: seq<Value>, name: string)
    requires forall i | 0 <= i < |e| :: NameOf(e[i]) != Some(Text(name))
    ensures Grp(e, name) == []
    decreases |e|
  {
    if e != [] {
      GrpNone(e[..|e| - 1], name);
    }
  }

  lemma FirstStands(o: seq<Value>, c: seq<Value>, f: nat, name: string)
    requires IsFirst(o, f) && NameOf(o[f]) == Some(Text(name)) && |o| <= |c|
    requires forall i | 0 <= i < |o| :: NameOf(c[i]) == NameOf(o[i])
    ensures Ent(c, name) == Some(c[f])
  {
    EntIs(c, f, name);
  }

  /** The condition suffices, whatever the overlay array is laid over. */
  lemma PositionSuffices(b: Value, o: Value, here: string)
    requires o.Array? && IsTables(o.items) && PerJoint(here) && StableByPosition(o.items)
    ensures Twice(b, o, here)
  {
    hide AtRest, Unmoved, UnmovedAt, LayOn, MergeEntries, LayAt;
    var r := MergeValue(b, o, here);
    if r.Ok? {
      if !(b.Array? && IsTables(b.items)) {
        SelfTwice(o, here);
      } else if Named(b.items) {
        AtRestExactly([o], [o]);
        NamedTwice(b, o, here);
      } else {
        ByPosition(b.items, o, |o.items|, here);
        PositionTwice(b.items, o, here);
        var c := r.value.items;
        if Named(o.items) {
          if Named(c) {
            NamedAgain(b.items, o, here);
          }
        } else {
          NotNamedAfter(b.items, o.items, c);
        }
      }
    }
  }

  lemma SelfTwice(o: Value, here: string)
    requires o.Array? && IsTables(o.items) && PerJoint(here) && StableByPosition(o.items)
    ensures MergeValue(o, o, here) == Ok(o)
  {
    hide AtRest, Unmoved, MergeEntries;
    if Named(o.items) {
      AtRestExactly([o], [o]);
      RestsAt(None, o, [o]);
      FoldOne(Some(o), o);
      NamedLay(o.items, o, here);
    } else {
      forall i | 0 <= i < |o.items| ensures LayAt(o.items, o.items, i) == Ok(o.items[i]) {
        var v := o.items[i];
        AtRestExactly([v], [v]);
        RestsAt(None, v, [v]);
        FoldOne(Some(v), v);
      }
      ByPosition(o.items, o, |o.items|, here);
      assert MergeEntries(o.items, o.items, |o.items|, false, here).value == o.items;
    }
  }

  lemma NamedTwice(b: Value, o: Value, here: string)
    requires b.Array? && NamedArray(b.items) && o.Array? && Named(o.items) && Unmoved([o], [o])
    requires MergeValue(b, o, here).Ok?
    ensures Twice(b, o, here)
  {
    hide Unmoved;
    NamedLay(b.items, o, here);
    RestsAt(Some(b), o, [o]);
    if IsTables(o.items) {
      LayKind(Some(b), o);
      var c := Lay(b, o).value;
      FoldOne(Some(c), o);
      NamedLay(c.items, o, here);
    }
  }

  // ------------------------------------------------- nothing weaker is enough, by position

  ghost predicate AlwaysTwice(o: Value, here: string) {
    forall b: Value :: Twice(b, o, here)
  }

  /** Empty tables, but for one. */
  function Padded(n: nat, i: nat, t: Value): (b: seq<Value>)
    ensures |b| == n && forall k | 0 <= k < n :: b[k] == if k == i then t else Table(map[])
  {
    seq(n, k requires 0 <= k < n => if k == i then t else Table(map[]))
  }

  /** Anything can be laid over empty tables, so a padded array takes the overlay when its one table does. */
  lemma PaddedTakes(n: nat, i: nat, t: Value, o: Value, here: string)
    requires o.Array? && AllTables(o.items) && i < |o.items| <= n && t.Table? && LayOn(Some(t), o.items[i]).Ok?
    ensures MergeEntries(Padded(n, i, t), o.items, |o.items|, false, here).Ok?
  {
    var b := Padded(n, i, t);
    forall k | 0 <= k < |o.items| ensures LayAt(b, o.items, k).Ok? {
      if k != i {
        LayTables(map[], o.items[k]);
      }
    }
    ByPosition(b, o, |o.items|, here);
  }

  lemma EntryNeeded(o: Value, here: string, i: nat)
    requires o.Array? && IsTables(o.items) && PerJoint(here) && AlwaysTwice(o, here) && i < |o.items|
    ensures AtRest([o.items[i]], [o.items[i]])
  {
    hide AtRest;
    var v := o.items[i];
    forall x: Option<Value> | Fold(x, [v]).Ok? ensures UnmovedAt(x, [v], [v]) {
      var m := TableInstead(x, [v]);
      FoldOne(Some(Table(m)), v);
      EntryNeededAt(o, here, i, m);
      FoldOne(x, v);
      FoldOne(Some(Fold(x, [v]).value.value), v);
    }
    AtRestExactly([v], [v]);
  }

  /** An unnamed table after the overlay's last entry keeps the merged array unnamed. */
  lemma EntryNeededAt(o: Value, here: string, i: nat, m: Doc)
    requires o.Array? && IsTables(o.items) && PerJoint(here) && AlwaysTwice(o, here) && i < |o.items|
    requires Lay(Table(m), o.items[i]).Ok?
    ensures var c := Lay(Table(m), o.items[i]).value; Lay(c, o.items[i]) == Ok(c)
  {
    hide Lay, MergeEntries;
    var n := |o.items| + 1;
    var b := Padded(n, i, Table(m));
    PaddedTakes(n, i, Table(m), o, here);
    ByPosition(b, o, |o.items|, here);
    var c := MergeEntries(b, o.items, |o.items|, false, here).value;
    assert !HasName(b[|o.items|]) && !HasName(c[|o.items|]);
    assert Twice(Array(b), o, here);
    ByPosition(c, o, |o.items|, here);
    assert LayAt(c, o.items, i).Ok? && LayAt(b, o.items, i).Ok?;
  }

  lemma NamedNeeded(o: Value, here: string)
    requires o.Array? && NamedArray(o.items) && AlwaysTwice(o, here)
    ensures AtRest([o], [o])
  {
    hide AtRest, Lay;
    assert Twice(Scalar(0), o, here);
    NamedLay(o.items, o, here);
    forall x: Option<Value> | Fold(x, [o]).Ok? ensures UnmovedAt(x, [o], [o]) {
      FoldOne(x, o);
      if x.Some? && NamedOne(x.value) {
        assert Twice(x.value, o, here);
        NamedLay(x.value.items, o, here);
        LayKind(x, o);
        NamedLay(Lay(x.value, o).value.items, o, here);
      } else {
        NamedAnywhere(x, [o]);
        FoldOne(None, o);
      }
      FoldOne(Fold(x, [o]).value, o);
    }
    AtRestExactly([o], [o]);
  }

  /** A table read without its name takes a named entry alike. */
  lemma NameAside(m: Doc, v: Value)
    requires HasName(v) && Lay(Table(m), v).Ok?
    ensures Lay(Table(m - {NAME}), v) == Lay(Table(m), v)
  {
    hide Lay;
    var n := m - {NAME};
    LayTables(m, v);
    LayTables(n, v);
    forall key | key in v.entries
      ensures LayOn(Field(n, key), v.entries[key]) == LayOn(Field(m, key), v.entries[key])
    {
      if key == NAME {
        TextLays(Field(n, key), v.entries[key]);
        TextLays(Field(m, key), v.entries[key]);
      }
    }
    SameFields(Lay(Table(n), v).value.entries, Lay(Table(m), v).value.entries);
  }

  lemma TextLays(x: Option<Value>, v: Value)
    requires v.Text?
    ensures LayOn(x, v) == Ok(v)
  {
  }

  lemma GroupNeeded(o: Value, here: string, f: nat)
    requires o.Array? && NamedArray(o.items) && PerJoint(here) && AlwaysTwice(o, here) && IsFirst(o.items, f)
    ensures AtRest([o.items[f]], Grp(o.items, o.items[f].entries[NAME].text))
  {
    hide AtRest, Lay;
    var v := o.items[f];
    var again := Grp(o.items, v.entries[NAME].text);
    forall x: Option<Value> | Fold(x, [v]).Ok? ensures UnmovedAt(x, [v], again) {
      var m := TableInstead(x, [v]);
      FoldOne(Some(Table(m)), v);
      FoldOne(x, v);
      NameAside(m, v);
      GroupNeededAt(o, here, f, m - {NAME});
    }
    AtRestExactly([v], again);
  }

  /** Unnamed tables that all receive names. */
  lemma GroupNeededAt(o: Value, here: string, f: nat, m: Doc)
    requires o.Array? && NamedArray(o.items) && PerJoint(here) && AlwaysTwice(o, here) && IsFirst(o.items, f)
    requires NAME !in m && Lay(Table(m), o.items[f]).Ok?
    ensures var c := Lay(Table(m), o.items[f]).value;
            Fold(Some(c), Grp(o.items, o.items[f].entries[NAME].text)) == Ok(Some(c))
  {
    hide Lay, MergeEntries;
    var n, name := |o.items|, o.items[f].entries[NAME].text;
    var b := Padded(n, f, Table(m));
    PaddedTakes(n, f, Table(m), o, here);
    ByPosition(b, o, n, here);
    var c := MergeEntries(b, o.items, n, false, here).value;
    assert !HasName(b[f]);
    NamesAsLaid(b, o.items, c);
    assert Twice(Array(b), o, here);
    NamedLay(c, o, here);
    FirstStands(o.items, c, f, name);
    assert LayAt(b, o.items, f) == Lay(Table(m), o.items[f]);
    NamesStay(c, o, name);
  }

  lemma NamesStay(c: seq<Value>, o: Value, name: string)
    requires NamedArray(c) && NamedOne(o) && Lay(Array(c), o) == Ok(Array(c))
    ensures Fold(Ent(c, name), Grp(o.items, name)) == Ok(Ent(c, name))
  {
    FoldEntries(c, o.items);
  }

  /** Where the overlay names some entries and others not at all, a document can supply the missing names. */
  function Complement(o: seq<Value>): (b: seq<Value>)
    requires AllTables(o)
    ensures |b| == |o|
    ensures forall k | 0 <= k < |o| ::
              b[k] == if NAME in o[k].entries then Table(map[]) else Table(map[NAME := Text("")])
  {
    seq(|o|, k requires 0 <= k < |o| => if NAME in o[k].entries then Table(map[]) else Table(map[NAME := Text("")]))
  }

  lemma NeverNamesNeeded(o: Value, here: string)
    requires o.Array? && IsTables(o.items) && !Named(o.items) && !NeverNames(o.items) && PerJoint(here)
    ensures !AlwaysTwice(o, here)
  {
    hide LayOn, MergeEntries;
    var n, b := |o.items|, Complement(o.items);
    forall k | 0 <= k < n ensures LayAt(b, o.items, k).Ok? && HasName(LayAt(b, o.items, k).value) {
      LayTables(b[k].entries, o.items[k]);
      ComplementLays(b[k], o.items[k]);
    }
    ByPosition(b, o, n, here);
    var q :| 0 <= q < n && NAME in o.items[q].entries;
    assert !HasName(b[q]);
    assert !Twice(Array(b), o, here);
  }

  lemma ComplementLays(b: Value, v: Value)
    requires v.Table? && (NAME in v.entries ==> v.entries[NAME].Text?)
    requires b == if NAME in v.entries then Table(map[]) else Table(map[NAME := Text("")])
    ensures LayOn(Some(b), v).Ok? && HasName(LayOn(Some(b), v).value)
  {
    LayTables(b.entries, v);
    forall key | key in v.entries ensures LayOn(Field(b.entries, key), v.entries[key]).Ok? {
      assert Field(b.entries, key) == None;
    }
    NameAfter(Some(b), v);
  }

  lemma PositionExactly(o: Value, here: string)
    requires o.Array? && IsTables(o.items) && PerJoint(here)
    ensures StableByPosition(o.items) <==> AlwaysTwice(o, here)
  {
    hide Twice, AtRest;
    if StableByPosition(o.items) {
      forall b: Value ensures Twice(b, o, here) {
        PositionSuffices(b, o, here);
      }
    }
    if AlwaysTwice(o, here) {
      forall i | 0 <= i < |o.items| ensures AtRest([o.items[i]], [o.items[i]]) {
        EntryNeeded(o, here, i);
      }
      if Named(o.items) {
        NamedNeeded(o, here);
        forall f | 0 <= f < |o.items| && IsFirst(o.items, f)
          ensures AtRest([o.items[f]], Grp(o.items, o.items[f].entries[NAME].text))
        {
          GroupNeeded(o, here, f);
        }
      } else if !NeverNames(o.items) {
        NeverNamesNeeded(o, here);
      }
    }
  }

  // ---------------------------------------------------------------- the whole overlay

  /**
   Read off the overlay: each array of tables, wherever keys lead to it, changes nothing the second
   time it is laid; per-joint arrays, merged by position, have conditions of their own.
   */
  ghost predicate Stable(o: Value, here: string)
    decreases o
  {
    match o
    case Table(entries) => forall key | key in entries :: Stable(entries[key], Join(here, key))
    case Array(items) =>
      IsTables(items) ==> if PerJoint(here) then StableByPosition(items) else AtRest([o], [o])
    case _ => true
  }

  lemma ArraysExactly(o: Value, here: string)
    requires o.Array? && IsTables(o.items) && !PerJoint(here)
    ensures AtRest([o], [o]) <==> AlwaysTwice(o, here)
  {
    hide AtRest, Lay;
    AtRestExactly([o], [o]);
    forall b: Value ensures MergeValue(b, o, here) == Lay(b, o) {
      ArraysLay(b, o, here);
    }
    if AtRest([o], [o]) {
      forall b: Value ensures Twice(b, o, here) {
        FoldOne(Some(b), o);
        assert UnmovedAt(Some(b), [o], [o]);
        if Lay(b, o).Ok? {
          FoldOne(Some(Lay(b, o).value), o);
        }
      }
    }
    if AlwaysTwice(o, here) {
      assert Twice(Scalar(0), o, here);
      ReplacesScalar(o);
      forall x: Option<Value> | Fold(x, [o]).Ok? ensures UnmovedAt(x, [o], [o]) {
        FoldOne(x, o);
        FoldOne(Fold(x, [o]).value, o);
        assert x.Some? ==> Twice(x.value, o, here);
      }
    }
  }

  lemma ReplacesScalar(o: Value)
    ensures Lay(Scalar(0), o) == Ok(o)
  {
  }

  /** One key of a table over a document that holds only it. */
  lemma SingleKey(o: Value, here: string, key: string, v: Value)
    requires o.Table? && key in o.entries && MergeValue(v, o.entries[key], Join(here, key)).Ok?
    ensures var r := MergeValue(Table(map[key := v]), o, here);
            r.Ok? && r.value.Table? && key in r.value.entries
            && r.value.entries[key] == MergeValue(v, o.entries[key], Join(here, key)).value
  {
    var m := map[key := v];
    assert forall k | k in o.entries :: MergeKey(m, o, here, k).Ok?;
    assert Merge(m, o, here).Ok?;
  }

  lemma KeyOfTwice(m: Doc, o: Value, here: string, key: string)
    requires o.Table? && key in o.entries && key in m && Merge(m, o, here) == Ok(m)
    ensures MergeValue(m[key], o.entries[key], Join(here, key)) == Ok(m[key])
  {
    assert MergeKey(m, o, here, key).Ok?;
  }

  lemma MergeOverEmpty(o: Value, here: string)
    requires o.Table?
    ensures Merge(map[], o, here) == Ok(o.entries)
  {
    assert forall key | key in o.entries :: MergeKey(map[], o, here, key) == Ok(o.entries[key]);
    assert Merge(map[], o, here).value == o.entries;
  }

  lemma TableTwice(b: Value, o: Value, here: string)
    requires o.Table? && forall key | key in o.entries :: AlwaysTwice(o.entries[key], Join(here, key))
    ensures Twice(b, o, here)
  {
    var m := if b.Table? then b.entries else map[];
    var r := Merge(m, o, here);
    MergeOverEmpty(o, here);
    assert o == Table(o.entries);
    if r.Ok? {
      forall key | key in o.entries ensures MergeKey(r.value, o, here, key) == Ok(r.value[key]) {
        var value, at := o.entries[key], Join(here, key);
        assert MergeKey(m, o, here, key).Ok? && AlwaysTwice(value, at);
        assert Twice(if key in m then m[key] else Scalar(0), value, at);
      }
      assert Merge(r.value, o, here).value == r.value;
    }
  }

  /** Merging twice equals merging once over every document exactly when the overlay is stable. */
  lemma {:induction false} StableExactly(o: Value, here: string)
    ensures Stable(o, here) <==> AlwaysTwice(o, here)
    decreases o
  {
    hide AtRest, StableByPosition, MergeValue;
    match o
    case Table(entries) =>
      forall key | key in entries
        ensures Stable(entries[key], Join(here, key)) <==> AlwaysTwice(entries[key], Join(here, key))
      {
        StableExactly(entries[key], Join(here, key));
      }
      TableExactly(o, here);
    case Array(items) =>
      if !IsTables(items) {
        ReplacedTwice(o, here);
      } else if PerJoint(here) {
        PositionExactly(o, here);
      } else {
        ArraysExactly(o, here);
      }
    case _ => ReplacedTwice(o, here);
  }

  lemma TableExactly(o: Value, here: string)
    requires o.Table?
    ensures AlwaysTwice(o, here) <==> forall key | key in o.entries :: AlwaysTwice(o.entries[key], Join(here, key))
  {
    if forall key | key in o.entries :: AlwaysTwice(o.entries[key], Join(here, key)) {
      forall b: Value ensures Twice(b, o, here) {
        TableTwice(b, o, here);
      }
    }
    if AlwaysTwice(o, here) {
      forall key | key in o.entries ensures AlwaysTwice(o.entries[key], Join(here, key)) {
        forall v: Value ensures Twice(v, o.entries[key], Join(here, key)) {
          if MergeValue(v, o.entries[key], Join(here, key)).Ok? {
            SingleKey(o, here, key, v);
            assert Twice(Table(map[key := v]), o, here);
            KeyOfTwice(MergeValue(Table(map[key := v]), o, here).value.entries, o, here, key);
          }
        }
      }
    }
  }

  lemma ReplacedTwice(o: Value, here: string)
    requires !o.Table? && (o.Array? ==> !IsTables(o.items))
    ensures AlwaysTwice(o, here)
  {
    forall b: Value ensures Twice(b, o, here) {
    }
  }

  ghost predicate MergedTwice(base: Doc, overlay: Value)
    requires overlay.Table?
  {
    var r := Merge(base, overlay, "");
    r.Ok? ==> Merge(r.value, overlay, "") == r
  }

  /** The overlays that may be merged a second time, over whatever document the first merge was. */
  lemma MergeTwiceExactly(overlay: Value)
    requires overlay.Table?
    ensures Stable(overlay, "") <==> forall base: Doc :: MergedTwice(base, overlay)
  {
    hide Stable;
    StableExactly(overlay, "");
    if AlwaysTwice(overlay, "") {
      forall base: Doc ensures MergedTwice(base, overlay) {
        assert Twice(Table(base), overlay, "");
      }
    }
    if forall base: Doc :: MergedTwice(base, overlay) {
      forall b: Value ensures Twice(b, overlay, "") {
        assert MergedTwice(if b.Table? then b.entries else map[], overlay);
        if !b.Table? {
          MergeOverEmpty(overlay, "");
        }
      }
    }
  }

  /** Overlays with no repeated name and no per-joint name are among them. */
  lemma WellFormedIsStable(overlay: Value)
    requires overlay.Table? && WellFormed(overlay, "")
    ensures Stable(overlay, "")
  {
    hide Stable, WellFormed;
    forall b: Value ensures Twice(b, overlay, "") {
      MergeValueIdempotent(b, overlay, "");
    }
    StableExactly(overlay, "");
  }

  /** They are not all: the same entry given twice under one name does no harm. */
  lemma RepeatedAlikeIsStable(x: Value, key: string)
    requires HasName(x) && WellFormed(x, INSIDE) && !PerJoint(key)
    ensures var overlay := Table(map[key := Array([x, x])]);
            Stable(overlay, "") && !WellFormed(overlay, "")
  {
    hide WellFormed, AtRest, Unmoved;
    var o := Array([x, x]);
    assert Join("", key) == key;
    RepeatedAlike(x);
    AtRestExactly([o], [o]);
    RepeatedNotWellFormed(x, key, Table(map[key := o]));
  }

  lemma RepeatedNotWellFormed(x: Value, key: string, overlay: Value)
    requires HasName(x) && overlay == Table(map[key := Array([x, x])])
    ensures !WellFormed(overlay, "")
  {
    assert NameOf([x, x][0]) == NameOf([x, x][1]);
    assert !WellFormed(overlay.entries[key], Join("", key));
  }

  lemma RepeatedAlike(x: Value)
    requires HasName(x) && WellFormed(x, INSIDE)
    ensures Unmoved([Array([x, x])], [Array([x, x])])
  {
    hide WellFormed, Unmoved, Ent;
    var o, name := Array([x, x]), x.entries[NAME].text;
    assert [o][..0] == [] && [x, x][..1] == [x] && [x][..0] == [];
    assert Flat([o]) == [x, x] && Grp([x], name) == [x] && Grp([x, x], name) == [x, x];
    forall other
      ensures Unmoved(Grp([x, x], other), Grp([x, x], other))
      ensures Fold(Ent([x, x], other), Grp([x, x], other)) == Ok(Ent([x, x], other))
    {
      if other == name {
        AgainAlike(x);
        EntIs([x, x], 0, name);
        SelfMergeValue(x, INSIDE);
        FoldAlike(Some(x), x);
      } else {
        GrpNone([x, x], other);
        NothingTwice();
      }
    }
    StaysNamed([x, x], o);
    FoldOne(None, o);
    FoldOne(Some(o), o);
    NamesSuffice([o], [o]);
  }

  lemma NothingTwice()
    ensures Unmoved([], [])
  {
    assert forall y: Option<Value> :: UnmovedAt(y, [], []);
  }

  lemma FoldAlike(y: Option<Value>, x: Value)
    requires WellFormed(x, INSIDE)
    ensures Fold(y, [x, x]) == Fold(y, [x])
  {
    hide WellFormed;
    FoldOne(y, x);
    assert [x, x] == [x] + [x];
    FoldNext(y, [x], x);
    if y.None? {
      SelfMergeValue(x, INSIDE);
    } else {
      MergeValueIdempotent(y.value, x, INSIDE);
    }
  }

  lemma AgainAlike(x: Value)
    requires WellFormed(x, INSIDE)
    ensures Unmoved([x, x], [x, x])
  {
    hide WellFormed;
    forall y: Option<Value> | Fold(y, [x, x]).Ok? ensures UnmovedAt(y, [x, x], [x, x]) {
      FoldAlike(y, x);
      FoldOne(y, x);
      var c := LayOn(y, x).value;
      FoldAlike(Some(c), x);
      FoldOne(Some(c), x);
      if y.None? {
        SelfMergeValue(x, INSIDE);
      } else {
        MergeValueIdempotent(y.value, x, INSIDE);
      }
    }
  }

  // ------------------------------------------------------------- documents by their keys

  /** The path of the value that keys lead to from the root. */
  function PathOf(keys: seq<string>): string {
    if keys == [] then "" else Join(PathOf(keys[..|keys| - 1]), keys[|keys| - 1])
  }

  /** The keys that lead to the per-joint array: spelt in two or in one, empty keys before them aside. */
  predicate ToJoints(keys: seq<string>) {
    || keys == ["homing", "joints"]
    || keys == ["homing.joints"]
    || (keys != [] && keys[0] == "" && ToJoints(keys[1..]))
  }

  lemma {:induction false} EmptyKeysAside(keys: seq<string>)
    requires keys != [] && keys[0] == ""
    ensures PathOf(keys) == PathOf(keys[1..])
    decreases |keys|
  {
    if |keys| > 1 {
      var init := keys[..|keys| - 1];
      EmptyKeysAside(init);
      assert init[1..] == keys[1..][..|keys| - 2];
    } else {
      assert PathOf([]) == "" && keys[..0] == [];
    }
  }

  /** No shorter spelling and no longer one is the per-joint path. */
  lemma {:induction false} JointPaths(keys: seq<string>)
    ensures PerJoint(PathOf(keys)) <==> ToJoints(keys)
    decreases |keys|
  {
    if keys != [] {
      if keys[0] == "" {
        EmptyKeysAside(keys);
        JointPaths(keys[1..]);
      } else {
        SpeltOut(keys);
      }
    }
  }

  /** How a path spells its keys. */
  lemma SpeltOut(keys: seq<string>)
    requires keys != [] && keys[0] != ""
    ensures PerJoint(PathOf(keys)) <==> keys == ["homing", "joints"] || keys == ["homing.joints"]
  {
    var n, target := |keys|, "homing.joints";
    assert target == "homing" + "." + "joints";
    if n == 1 {
      assert keys[..0] == [] && keys == [keys[0]];
    } else if n == 2 {
      assert keys[..1] == [keys[0]] && keys[..1][..0] == [] && keys == [keys[0], keys[1]];
      var path := keys[0] + "." + keys[1];
      assert PathOf([]) == "" && PathOf(keys[..1]) == keys[0];
      assert PathOf(keys) == path;
      if path == target {
        assert path[|keys[0]|] == '.';
        assert forall i | 0 <= i < |target| :: target[i] == '.' <==> i == 6;
        assert path[..6] == keys[0] && path[7..] == keys[1] && target[..6] == "homing" && target[7..] == "joints";
      }
    } else {
      var a, b := TwoDots(keys);
      assert forall i | 0 <= i < |target| :: target[i] == '.' <==> i == 6;
    }
  }

  lemma {:induction false} LongPath(keys: seq<string>)
    requires keys != [] && keys[0] != ""
    ensures PathOf(keys) != ""
    decreases |keys|
  {
    if |keys| > 1 {
      LongPath(keys[..|keys| - 1]);
    } else {
      assert keys[..0] == [];
    }
  }

  lemma TwoDots(keys: seq<string>) returns (a: nat, b: nat)
    requires |keys| > 2 && keys[0] != ""
    ensures a < b < |PathOf(keys)| && PathOf(keys)[a] == '.' == PathOf(keys)[b]
  {
    var n := |keys|;
    var two, one := keys[..n - 1], keys[..n - 2];
    assert two[..n - 2] == one;
    LongPath(one);
    LongPath(two);
    a, b := |PathOf(one)|, |PathOf(two)|;
    assert PathOf(two)[a] == '.';
  }

  /** The value keys lead to, through tables alone. */
  function Under(v: Value, keys: seq<string>): Option<Value>
    decreases |keys|
  {
    if keys == [] then Some(v)
    else
      var up := Under(v, keys[..|keys| - 1]);
      if up.Some? && up.value.Table? then Field(up.value.entries, keys[|keys| - 1]) else None
  }

  /** Where keys lead to a value on both sides, what they lead to afterwards is the one merged over the other. */
  lemma {:induction false} MergedUnder(base: Doc, overlay: Value, keys: seq<string>)
    requires overlay.Table? && Merge(base, overlay, "").Ok?
    requires Under(Table(base), keys).Some? && Under(overlay, keys).Some?
    ensures var b, o := Under(Table(base), keys).value, Under(overlay, keys).value;
            var r := MergeValue(b, o, PathOf(keys));
            r.Ok? && Under(Table(Merge(base, overlay, "").value), keys) == Some(r.value)
    decreases |keys|
  {
    if keys != [] {
      var init, key := keys[..|keys| - 1], keys[|keys| - 1];
      MergedUnder(base, overlay, init);
      var b, o := Under(Table(base), init).value, Under(overlay, init).value;
      assert MergeKey(b.entries, o, PathOf(init), key).Ok?;
    }
  }

  /**
   Merging a whole document over another: an array of tables that is not named, under the keys of
   the per-joint array, ends with each entry the overlay's laid over the shipped one in its place
   and the later shipped ones kept; under any other keys it is replaced whole.
   */
  lemma UnnamedArrays(base: Doc, overlay: Value, keys: seq<string>, b: seq<Value>, o: seq<Value>)
    requires overlay.Table? && Merge(base, overlay, "").Ok?
    requires Under(Table(base), keys) == Some(Array(b)) && Under(overlay, keys) == Some(Array(o))
    requires IsTables(b) && IsTables(o) && !Named(b)
    ensures var r := Under(Table(Merge(base, overlay, "").value), keys);
            if ToJoints(keys) then
              && r.Some? && r.value.Array? && |r.value.items| == (if |o| <= |b| then |b| else |o|)
              && (forall k | 0 <= k < |o| :: Ok(r.value.items[k]) == LayAt(b, o, k))
              && (forall k | |o| <= k < |b| :: r.value.items[k] == b[k])
            else r == Some(Array(o))
  {
    MergedUnder(base, overlay, keys);
    JointPaths(keys);
    if ToJoints(keys) {
      ByPosition(b, Array(o), |o|, PathOf(keys));
    }
  }

  /**
   A named array, under whatever keys: the overlay's entries must be named too, and then the entry of
   each name is the shipped one with the overlay's of that name laid over it in order, the shipped
   names keeping their places.
   */
  lemma NamedArrays(base: Doc, overlay: Value, keys: seq<string>, b: seq<Value>, o: seq<Value>)
    requires overlay.Table? && Merge(base, overlay, "").Ok?
    requires Under(Table(base), keys) == Some(Array(b)) && Under(overlay, keys) == Some(Array(o))
    requires IsTables(b) && IsTables(o) && Named(b)
    ensures Named(o)
    ensures var r := Under(Table(Merge(base, overlay, "").value), keys);
            && r.Some? && r.value.Array? && Grown(b, r.value.items)
            && forall name :: Fold(Ent(b, name), Grp(o, name)) == Ok(Ent(r.value.items, name))
  {
    MergedUnder(base, overlay, keys);
    NamedLay(b, Array(o), PathOf(keys));
    FoldEntries(b, o);
  }

  /** Unless both sides are tables, or both arrays of tables with entries, the overlay's value replaces the other. */
  lemma OthersReplaced(base: Doc, overlay: Value, keys: seq<string>)
    requires overlay.Table? && Merge(base, overlay, "").Ok?
    requires Under(Table(base), keys).Some? && Under(overlay, keys).Some?
    requires var b, o := Under(Table(base), keys).value, Under(overlay, keys).value;
             && !(b.Table? && o.Table?)
             && (b.Array? && o.Array? ==>
                   || b.items == [] || o.items == []
                   || (exists i :: 0 <= i < |b.items| && !b.items[i].Table?)
                   || (exists i :: 0 <= i < |o.items| && !o.items[i].Table?))
    ensures Under(Table(Merge(base, overlay, "").value), keys) == Under(overlay, keys)
  {
    MergedUnder(base, overlay, keys);
  }

  /** Inside an entry of an array such an array is replaced whole. */
  lemma UnnamedInside(b: seq<Value>, o: seq<Value>)
    requires IsTables(b) && !Named(b)
    ensures Lay(Array(b), Array(o)) == Ok(Array(o))
  {
    InsidePaths(INSIDE, "", 0);
    assert Inside(INSIDE);
  }
}
