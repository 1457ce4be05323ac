/**
 Layering one installation's overlay over a shipped configuration document: tables merge key
 by key, arrays of named tables entry by entry, per-joint arrays by position, and any other
 value replaces the shipped one whole.
 */
module Overlay {
  import opened Wrappers

  /** A parsed document; numbers, dates and booleans are scalars. */
  datatype Value = Table(entries: Doc) | Array(items: seq<Value>) | Text(text: string) | Scalar(id: int)

  type Doc = map<string, Value>

  datatype MergeError = MissingName

  const NAME := "name"

  /** Where an array holds its entries joint by joint: they are matched by place, not by name. */
  predicate PerJoint(path: string) {
    path == "homing.joints"
  }

  function Join(at: string, key: string): string {
    if at == "" then key else at + "." + key
  }

  function Digits(k: nat): string {
    if k < 10 then [(k as char) + '0'] else Digits(k / 10) + [((k % 10) as char) + '0']
  }

  /** The path of entry `k` of the array at `here`. */
  function Entry(here: string, k: nat): string {
    here + "[" + Digits(k) + "]"
  }

  predicate IsTables(items: seq<Value>) {
    items != [] && forall i | 0 <= i < |items| :: items[i].Table?
  }

  predicate HasName(v: Value) {
    v.Table? && NAME in v.entries && v.entries[NAME].Text?
  }

  predicate Named(items: seq<Value>) {
    forall i | 0 <= i < |items| :: HasName(items[i])
  }

  function NameOf(v: Value): Option<Value> {
    if v.Table? && NAME in v.entries then Some(v.entries[NAME]) else None
  }

  /** The first entry carrying the same name, if any. */
  function Position(items: seq<Value>, name: Option<Value>): (r: Option<nat>)
    ensures r.Some? ==> r.value < |items| && NameOf(items[r.value]) == name &&
                        forall j | 0 <= j < r.value :: NameOf(items[j]) != name
    ensures r.None? ==> forall j | 0 <= j < |items| :: NameOf(items[j]) != name
  {
    if items == [] then None
    else if NameOf(items[0]) == name then Some(0)
    else
      var rest := Position(items[1..], name);
      if rest.None? then None else
        assert NameOf(items[1..][rest.value]) == name;
        Some(rest.value + 1)
  }

  /** Where an overlay entry goes: over the entry it names, or over the one in its place. */
  function Target(items: seq<Value>, entry: Value, i: nat, byName: bool): (r: Option<nat>)
    ensures r.Some? ==> r.value < |items|
  {
    if byName then Position(items, NameOf(entry)) else if i < |items| then Some(i) else None
  }

  /** Both arrays hold tables, and the shipped one is merged into rather than replaced. */
  predicate MergesEntries(b: seq<Value>, o: seq<Value>, here: string) {
    IsTables(b) && IsTables(o) && (Named(b) || PerJoint(here))
  }

  // ------------------------------------------------------------------ the merge

  /** `overlay` merged over `base`. */
  function Merge(base: Doc, overlay: Value, at: string): Result<Doc, MergeError>
    requires overlay.Table?
    decreases overlay, 1
  {
    if forall key | key in overlay.entries :: MergeKey(base, overlay, at, key).Ok?
    then Ok(map key | key in base.Keys + overlay.entries.Keys ::
              if key in overlay.entries then MergeKey(base, overlay, at, key).value else base[key])
    else Err(MissingName)
  }

  function MergeKey(base: Doc, overlay: Value, at: string, key: string): Result<Value, MergeError>
    requires overlay.Table? && key in overlay.entries
    decreases overlay, 0
  {
    var value, here := overlay.entries[key], Join(at, key);
    if key in base then MergeValue(base[key], value, here) else Ok(value)
  }

  function MergeValue(b: Value, o: Value, here: string): Result<Value, MergeError>
    decreases o, 2
  {
    if b.Table? && o.Table? then
      var r := Merge(b.entries, o, here);
      if r.Ok? then Ok(Table(r.value)) else Err(r.error)
    else if b.Array? && o.Array? && MergesEntries(b.items, o.items, here) then
      if Named(b.items) && !Named(o.items) then Err(MissingName)
      else
        var r := MergeEntries(b.items, o.items, |o.items|, Named(b.items), here);
        if r.Ok? then Ok(Array(r.value)) else Err(r.error)
    else Ok(o)
  }

  /** The first `n` overlay entries merged over the shipped array. */
  function MergeEntries(b: seq<Value>, o: seq<Value>, n: nat, byName: bool, here: string): Result<seq<Value>,
      MergeError>
    requires n <= |o| && forall i | 0 <= i < |o| :: o[i].Table?
    decreases o, n
  {
    if n == 0 then Ok(b)
    else
      var r := MergeEntries(b, o, n - 1, byName, here);
      if r.Err? then r else MergeEntry(r.value, o[n - 1], n - 1, byName, here)
  }

  function MergeEntry(b: seq<Value>, entry: Value, i: nat, byName: bool, here: string): Result<seq<Value>, MergeError>
    requires entry.Table?
    decreases entry, 2
  {
    var into := Target(b, entry, i, byName);
    if into.Some? && b[into.value].Table? then
      var r := Merge(b[into.value].entries, entry, Entry(here, into.value));
      if r.Ok? then Ok(b[into.value := Table(r.value)]) else Err(r.error)
    else Ok(b + [entry])
  }

  // -------------------------------------------------------------------- idempotence

  ghost predicate DistinctNames(items: seq<Value>) {
    forall i, j | 0 <= i < j < |items| :: NameOf(items[i]) != NameOf(items[j])
  }

  /** Named arrays name each entry once, per-joint entries carry no name, wherever they land. */
  ghost predicate WellFormed(o: Value, here: string)
    decreases o
  {
    match o
    case Table(entries) => forall key | key in entries :: WellFormed(entries[key], Join(here, key))
    case Array(items) =>
      IsTables(items) ==>
        && (Named(items) ==> DistinctNames(items))
        && (PerJoint(here) ==> forall i | 0 <= i < |items| :: NAME !in items[i].entries)
        && forall i, k: nat | 0 <= i < |items| :: WellFormed(items[i], Entry(here, k))
    case _ => true
  }

  /** The first of several equal-named entries is found, and nothing before it is named so. */
  lemma PositionIs(items: seq<Value>, k: nat)
    requires k < |items| && forall j | 0 <= j < k :: NameOf(items[j]) != NameOf(items[k])
    ensures Position(items, NameOf(items[k])) == Some(k)
  {
    var r := Position(items, NameOf(items[k]));
    assert r.Some?;
  }

  /** Merging a document over itself changes nothing. */
  lemma {:induction false} SelfMerge(o: Value, at: string)
    requires o.Table? && WellFormed(o, at)
    ensures Merge(o.entries, o, at) == Ok(o.entries)
    decreases o, 1
  {
    forall key | key in o.entries ensures MergeKey(o.entries, o, at, key) == Ok(o.entries[key]) {
      SelfMergeValue(o.entries[key], Join(at, key));
    }
    assert Merge(o.entries, o, at).value == o.entries;
  }

  lemma {:induction false} SelfMergeValue(v: Value, here: string)
    requires WellFormed(v, here)
    ensures MergeValue(v, v, here) == Ok(v)
    decreases v, 2
  {
    if v.Table? {
      SelfMerge(v, here);
    } else if v.Array? && MergesEntries(v.items, v.items, here) {
      SelfMergeEntries(v, |v.items|, here);
    }
  }

  lemma {:induction false} SelfMergeEntries(v: Value, n: nat, here: string)
    requires v.Array? && n <= |v.items| && IsTables(v.items) && WellFormed(v, here)
    ensures MergeEntries(v.items, v.items, n, Named(v.items), here) == Ok(v.items)
    decreases v, 1, n
  {
    if n > 0 {
      SelfMergeEntries(v, n - 1, here);
      var k, entry := n - 1, v.items[n - 1];
      if Named(v.items) {
        PositionIs(v.items, k);
      }
      assert WellFormed(entry, Entry(here, k));
      SelfMerge(entry, Entry(here, k));
      assert v.items[k := Table(entry.entries)] == v.items;
    }
  }

  /** An entry already in place: merging it again changes nothing. */
  ghost predicate Absorbed(c: seq<Value>, entry: Value, i: nat, byName: bool, here: string)
    requires entry.Table?
  {
    MergeEntry(c, entry, i, byName, here) == Ok(c)
  }

  /** Where an entry lands. */
  function Landing(c: seq<Value>, entry: Value, i: nat, byName: bool): nat {
    var into := Target(c, entry, i, byName);
    if into.Some? then into.value else |c|
  }

  /** A merged table keeps the name it had when the overlay's agrees or says nothing. */
  lemma MergeKeepsName(base: Value, entry: Value, at: string)
    requires base.Table? && entry.Table? && Merge(base.entries, entry, at).Ok?
    requires NAME !in entry.entries || (HasName(entry) && NameOf(base) == NameOf(entry))
    ensures NameOf(Table(Merge(base.entries, entry, at).value)) == NameOf(base)
  {
    if NAME in entry.entries {
      assert MergeKey(base.entries, entry, at, NAME) == Ok(entry.entries[NAME]);
    }
  }

  /** What the merge of one entry does to the array: one place written, every name kept. */
  lemma EntryEffect(c: seq<Value>, entry: Value, i: nat, byName: bool, here: string)
    requires entry.Table? && (forall q | 0 <= q < |c| :: c[q].Table?)
    requires if byName then HasName(entry) else NAME !in entry.entries && i <= |c|
    requires MergeEntry(c, entry, i, byName, here).Ok?
    ensures var r, k := MergeEntry(c, entry, i, byName, here).value, Landing(c, entry, i, byName);
            && |r| == (if k < |c| then |c| else |c| + 1) && k < |r|
            && (forall q | 0 <= q < |r| :: r[q].Table?)
            && (forall q | 0 <= q < |c| && q != k :: r[q] == c[q])
            && (forall q | 0 <= q < |c| :: NameOf(r[q]) == NameOf(c[q]))
            && (byName ==> NameOf(r[k]) == NameOf(entry))
            && (k == |c| ==> r[k] == entry)
            && (!byName ==> k == i)
  {
    var k := Landing(c, entry, i, byName);
    if k < |c| {
      MergeKeepsName(c[k], entry, Entry(here, k));
    }
  }

  /** Once merged, an entry is absorbed. */
  lemma {:induction false} MergedIsAbsorbed(c: seq<Value>, entry: Value, i: nat, byName: bool, here: string)
    requires entry.Table? && (forall q | 0 <= q < |c| :: c[q].Table?)
    requires if byName then HasName(entry) else NAME !in entry.entries && i <= |c|
    requires (forall k: nat :: WellFormed(entry, Entry(here, k)))
    requires MergeEntry(c, entry, i, byName, here).Ok?
    ensures Absorbed(MergeEntry(c, entry, i, byName, here).value, entry, i, byName, here)
    decreases entry, 3
  {
    var r, k := MergeEntry(c, entry, i, byName, here).value, Landing(c, entry, i, byName);
    EntryEffect(c, entry, i, byName, here);
    if byName {
      PositionIs(r, k) by {
        forall j | 0 <= j < k ensures NameOf(r[j]) != NameOf(r[k]) {
          assert NameOf(r[j]) == NameOf(c[j]);
        }
      }
    }
    assert Target(r, entry, i, byName) == Some(k);
    if k < |c| {
      MergeIdempotent(c[k].entries, entry, Entry(here, k));
    } else {
      SelfMerge(entry, Entry(here, k));
    }
    assert r[k := Table(r[k].entries)] == r;
  }

  /** Merging another entry, of another name or place, leaves an absorbed one absorbed. */
  lemma AbsorbedStays(c: seq<Value>, entry: Value, i: nat, other: Value, j: nat, byName: bool, here: string)
    requires entry.Table? && other.Table? && (forall q | 0 <= q < |c| :: c[q].Table?)
    requires if byName then HasName(other) && HasName(entry) && NameOf(entry) != NameOf(other)
             else NAME !in other.entries && i < j <= |c|
    requires Absorbed(c, entry, i, byName, here) && MergeEntry(c, other, j, byName, here).Ok?
    ensures Absorbed(MergeEntry(c, other, j, byName, here).value, entry, i, byName, here)
  {
    var r, k, l := MergeEntry(c, other, j, byName, here).value, Landing(c, entry, i, byName), Landing(c, other, j,
        byName);
    EntryEffect(c, other, j, byName, here);
    assert k < |c| && k != l && r[k] == c[k];
    if byName {
      PositionIs(r, k) by {
        forall q | 0 <= q < k ensures NameOf(r[q]) != NameOf(r[k]) {
          assert NameOf(r[q]) == NameOf(c[q]);
        }
      }
    }
    assert Target(r, entry, i, byName) == Some(k);
    var m := Merge(c[k].entries, entry, Entry(here, k));
    assert c[k := Table(m.value)] == c;
    assert c[k := Table(m.value)][k] == c[k];
    assert r[k := Table(m.value)] == r;
  }

  lemma WellFormedEntry(o: Value, here: string, i: nat)
    requires o.Array? && IsTables(o.items) && WellFormed(o, here) && i < |o.items|
    ensures forall k: nat :: WellFormed(o.items[i], Entry(here, k))
    ensures PerJoint(here) ==> NAME !in o.items[i].entries
  {
  }

  lemma NamesApart(o: Value, here: string, j: nat, i: nat)
    requires o.Array? && IsTables(o.items) && WellFormed(o, here) && j < i < |o.items|
    ensures Named(o.items) ==> NameOf(o.items[j]) != NameOf(o.items[i])
  {
  }

  /** After the first `n` entries each of them is absorbed, and every name is kept. */
  lemma {:induction false} EntriesAbsorbed(b: seq<Value>, o: Value, n: nat, byName: bool, here: string)
    requires o.Array? && n <= |o.items| && IsTables(b) && IsTables(o.items) && WellFormed(o, here)
    requires if byName then Named(o.items) else PerJoint(here)
    requires MergeEntries(b, o.items, n, byName, here).Ok?
    ensures var c := MergeEntries(b, o.items, n, byName, here).value;
            && IsTables(c) && |b| <= |c| && (byName || n <= |c|)
            && (forall q | 0 <= q < |b| :: NameOf(c[q]) == NameOf(b[q]))
            && (byName && Named(b) ==> Named(c))
            && (forall j | 0 <= j < n :: Absorbed(c, o.items[j], j, byName, here))
    decreases o, 4, n
  {
    hide Absorbed, MergeEntry, Landing, WellFormed;
    if n > 0 {
      EntriesAbsorbed(b, o, n - 1, byName, here);
      WellFormedEntry(o, here, n - 1);
      var c, entry, i := MergeEntries(b, o.items, n - 1, byName, here).value, o.items[n - 1], n - 1;
      EntryEffect(c, entry, i, byName, here);
      MergedIsAbsorbed(c, entry, i, byName, here);
      forall j | 0 <= j < n - 1
        ensures Absorbed(MergeEntry(c, entry, i, byName, here).value, o.items[j], j, byName, here)
      {
        NamesApart(o, here, j, i);
        AbsorbedStays(c, o.items[j], j, entry, i, byName, here);
      }
    }
  }

  lemma {:induction false} AbsorbedEntries(c: seq<Value>, o: seq<Value>, n: nat, byName: bool, here: string)
    requires n <= |o| && (forall i | 0 <= i < |o| :: o[i].Table?)
    requires forall j | 0 <= j < n :: Absorbed(c, o[j], j, byName, here)
    ensures MergeEntries(c, o, n, byName, here) == Ok(c)
    decreases n
  {
    if n > 0 {
      AbsorbedEntries(c, o, n - 1, byName, here);
      assert Absorbed(c, o[n - 1], n - 1, byName, here);
    }
  }

  /** Merging the same overlay a second time changes nothing. */
  lemma {:induction false} MergeIdempotent(base: Doc, overlay: Value, at: string)
    requires overlay.Table? && WellFormed(overlay, at)
    ensures var r := Merge(base, overlay, at);
            r.Ok? ==> Merge(r.value, overlay, at) == r
    decreases overlay, 2
  {
    var r := Merge(base, overlay, at);
    if r.Ok? {
      forall key | key in overlay.entries ensures MergeKey(r.value, overlay, at, key) == Ok(r.value[key]) {
        var v, here := overlay.entries[key], Join(at, key);
        assert MergeKey(base, overlay, at, key).Ok?;
        if key in base {
          MergeValueIdempotent(base[key], v, here);
        } else {
          SelfMergeValue(v, here);
        }
      }
      assert Merge(r.value, overlay, at).value == r.value;
    }
  }

  lemma {:induction false} MergeValueIdempotent(b: Value, o: Value, here: string)
    requires WellFormed(o, here)
    ensures var r := MergeValue(b, o, here);
            r.Ok? ==> MergeValue(r.value, o, here) == r
    decreases o, 5
  {
    var r := MergeValue(b, o, here);
    if r.Ok? {
      if b.Table? && o.Table? {
        MergeIdempotent(b.entries, o, here);
      } else if b.Array? && o.Array? && MergesEntries(b.items, o.items, here) {
        var byName := Named(b.items);
        EntriesAbsorbed(b.items, o, |o.items|, byName, here);
        var c := r.value.items;
        AbsorbedEntries(c, o.items, |o.items|, byName, here);
        if !byName {
          var q :| 0 <= q < |b.items| && !HasName(b.items[q]);
          assert !HasName(c[q]);
        }
      } else {
        SelfMergeValue(o, here);
      }
    }
  }

  // --------------------------------------------------- what an overlay leaves alone

  /** Overlay entry `j` is not meant for the shipped entry at `q`. */
  predicate Elsewhere(entry: Value, j: nat, shipped: Value, q: nat, byName: bool) {
    if byName then NameOf(entry) != NameOf(shipped) else j != q
  }

  /** Entries no overlay entry names, or that no overlay entry stands against, are untouched and in place. */
  lemma {:induction false} EntriesLeftAlone(b: seq<Value>, o: Value, n: nat, byName: bool, here: string, q: nat)
    requires o.Array? && n <= |o.items| && IsTables(b) && IsTables(o.items) && WellFormed(o, here)
    requires if byName then Named(o.items) else PerJoint(here)
    requires MergeEntries(b, o.items, n, byName, here).Ok? && q < |b|
    requires forall j | 0 <= j < n :: Elsewhere(o.items[j], j, b[q], q, byName)
    ensures var c := MergeEntries(b, o.items, n, byName, here).value;
            |b| <= |c| && c[q] == b[q]
    decreases n
  {
    hide Absorbed, MergeEntry, WellFormed;
    if n > 0 {
      assert Elsewhere(o.items[n - 1], n - 1, b[q], q, byName);
      EntriesLeftAlone(b, o, n - 1, byName, here, q);
      EntriesAbsorbed(b, o, n - 1, byName, here);
      WellFormedEntry(o, here, n - 1);
      EntryEffect(MergeEntries(b, o.items, n - 1, byName, here).value, o.items[n - 1], n - 1, byName, here);
    }
  }

  lemma {:induction false} NoNewName(b: seq<Value>, o: Value, n: nat, byName: bool, here: string, name: Option<Value>)
    requires o.Array? && n <= |o.items| && IsTables(b) && IsTables(o.items) && WellFormed(o, here)
    requires if byName then Named(o.items) else PerJoint(here)
    requires MergeEntries(b, o.items, n, byName, here).Ok?
    requires (forall q | 0 <= q < |b| :: NameOf(b[q]) != name) && forall j | 0 <= j < n :: NameOf(o.items[j]) != name
    ensures var c := MergeEntries(b, o.items, n, byName, here).value;
            forall q | 0 <= q < |c| :: NameOf(c[q]) != name
    decreases n
  {
    hide Absorbed, MergeEntry, WellFormed;
    if n > 0 {
      NoNewName(b, o, n - 1, byName, here, name);
      EntriesAbsorbed(b, o, n - 1, byName, here);
      WellFormedEntry(o, here, n - 1);
      EntryEffect(MergeEntries(b, o.items, n - 1, byName, here).value, o.items[n - 1], n - 1, byName, here);
    }
  }

  /** Merging by position lengthens the array to the overlay's. */
  lemma {:induction false} PositionsCount(b: seq<Value>, o: Value, n: nat, here: string)
    requires o.Array? && n <= |o.items| && IsTables(b) && IsTables(o.items) && WellFormed(o, here) && PerJoint(here)
    requires MergeEntries(b, o.items, n, false, here).Ok?
    ensures |MergeEntries(b, o.items, n, false, here).value| == if n <= |b| then |b| else n
    decreases n
  {
    hide Absorbed, MergeEntry, WellFormed;
    if n > 0 {
      PositionsCount(b, o, n - 1, here);
      EntriesAbsorbed(b, o, n - 1, false, here);
      WellFormedEntry(o, here, n - 1);
      EntryEffect(MergeEntries(b, o.items, n - 1, false, here).value, o.items[n - 1], n - 1, false, here);
    }
  }

  /** An entry keeps its place while others are merged. */
  lemma TargetStays(c: seq<Value>, entry: Value, i: nat, other: Value, j: nat, byName: bool, here: string)
    requires entry.Table? && other.Table? && (forall q | 0 <= q < |c| :: c[q].Table?)
    requires if byName then HasName(other) && NameOf(entry) != NameOf(other) else NAME !in other.entries && i < j <= |c|
    requires Target(c, entry, i, byName).Some? && MergeEntry(c, other, j, byName, here).Ok?
    ensures var r, k := MergeEntry(c, other, j, byName, here).value, Target(c, entry, i, byName).value;
            Target(r, entry, i, byName) == Some(k) && k < |r| && r[k] == c[k]
  {
    var r, k := MergeEntry(c, other, j, byName, here).value, Target(c, entry, i, byName).value;
    EntryEffect(c, other, j, byName, here);
    if byName {
      PositionIs(r, k) by {
        forall q | 0 <= q < k ensures NameOf(r[q]) != NameOf(r[k]) {
          assert NameOf(r[q]) == NameOf(c[q]);
        }
      }
    }
  }

  /** Where overlay entry `j` has come to lie: over the shipped entry it names, or new. */
  ghost predicate Landed(b: seq<Value>, c: seq<Value>, entry: Value, j: nat, byName: bool, here: string)
    requires entry.Table? && forall q | 0 <= q < |b| :: b[q].Table?
  {
    var into, at := Target(b, entry, j, byName), Target(c, entry, j, byName);
    && at.Some?
    && match into
       case Some(q) =>
         var r := Merge(b[q].entries, entry, Entry(here, q));
         at == into && r.Ok? && c[q] == Table(r.value)
       case None => c[at.value] == entry
  }

  /** After the first `n` entries each of them has landed. */
  lemma {:induction false} EntriesLand(b: seq<Value>, o: Value, n: nat, byName: bool, here: string, j: nat)
    requires o.Array? && j < n <= |o.items| && IsTables(b) && IsTables(o.items) && WellFormed(o, here)
    requires if byName then Named(o.items) else PerJoint(here)
    requires MergeEntries(b, o.items, n, byName, here).Ok?
    ensures Landed(b, MergeEntries(b, o.items, n, byName, here).value, o.items[j], j, byName, here)
    decreases n
  {
    hide Absorbed, WellFormed;
    var c, last := MergeEntries(b, o.items, n - 1, byName, here).value, o.items[n - 1];
    EntriesAbsorbed(b, o, n - 1, byName, here);
    WellFormedEntry(o, here, n - 1);
    if j < n - 1 {
      hide MergeEntry;
      EntriesLand(b, o, n - 1, byName, here, j);
      NamesApart(o, here, j, n - 1);
      TargetStays(c, o.items[j], j, last, n - 1, byName, here);
    } else {
      LandsLast(b, o, n, byName, here);
    }
  }

  lemma LandsLast(b: seq<Value>, o: Value, n: nat, byName: bool, here: string)
    requires o.Array? && 0 < n <= |o.items| && IsTables(b) && IsTables(o.items) && WellFormed(o, here)
    requires if byName then Named(o.items) else PerJoint(here)
    requires MergeEntries(b, o.items, n, byName, here).Ok?
    ensures Landed(b, MergeEntries(b, o.items, n, byName, here).value, o.items[n - 1], n - 1, byName, here)
  {
    hide Absorbed, WellFormed, MergeEntry, Landed, Merge, Position;
    var c, entry, i := MergeEntries(b, o.items, n - 1, byName, here).value, o.items[n - 1], n - 1;
    EntriesAbsorbed(b, o, i, byName, here);
    WellFormedEntry(o, here, i);
    EntryEffect(c, entry, i, byName, here);
    var into := Target(b, entry, i, byName);
    if into.Some? {
      var q := into.value;
      forall j | 0 <= j < i ensures Elsewhere(o.items[j], j, b[q], q, byName) {
        NamesApart(o, here, j, i);
      }
      EntriesLeftAlone(b, o, i, byName, here, q);
    } else if byName {
      forall j | 0 <= j < i ensures NameOf(o.items[j]) != NameOf(entry) {
        NamesApart(o, here, j, i);
      }
      NoNewName(b, o, i, byName, here, NameOf(entry));
    } else {
      PositionsCount(b, o, i, here);
    }
    SameTarget(b, c, entry, i, byName);
    LandsNow(b, c, entry, i, byName, here);
  }

  /** Shipped entries keep name and place and no later one has its name: an entry goes where it would have gone. */
  lemma SameTarget(b: seq<Value>, c: seq<Value>, entry: Value, i: nat, byName: bool)
    requires |b| <= |c| && forall q | 0 <= q < |b| :: NameOf(c[q]) == NameOf(b[q])
    requires Target(b, entry, i, byName).None? ==>
               if byName then forall q | 0 <= q < |c| :: NameOf(c[q]) != NameOf(entry) else |c| <= i
    ensures Target(c, entry, i, byName) == Target(b, entry, i, byName)
  {
    var into := Target(b, entry, i, byName);
    if byName && into.Some? {
      PositionIs(c, into.value) by {
        forall p | 0 <= p < into.value ensures NameOf(c[p]) != NameOf(c[into.value]) {
          assert NameOf(c[p]) == NameOf(b[p]);
        }
      }
    }
  }

  lemma LandsNow(b: seq<Value>, c: seq<Value>, entry: Value, i: nat, byName: bool, here: string)
    requires entry.Table? && (forall q | 0 <= q < |b| :: b[q].Table?) && (forall q | 0 <= q < |c| :: c[q].Table?)
    requires if byName then HasName(entry) else NAME !in entry.entries && i <= |c|
    requires var into := Target(b, entry, i, byName);
             Target(c, entry, i, byName) == into && (into.Some? ==> into.value < |c| && c[into.value] == b[into.value])
    requires MergeEntry(c, entry, i, byName, here).Ok?
    ensures Landed(b, MergeEntry(c, entry, i, byName, here).value, entry, i, byName, here)
  {
    var r, k := MergeEntry(c, entry, i, byName, here).value, Landing(c, entry, i, byName);
    EntryEffect(c, entry, i, byName, here);
    if byName {
      PositionIs(r, k) by {
        forall p | 0 <= p < k ensures NameOf(r[p]) != NameOf(r[k]) {
          assert NameOf(r[p]) == NameOf(c[p]);
        }
      }
    }
  }

  // -------------------------------------------------------------------- paths

  /** One step into a document: a key of a table, a named array's entry by its name, any other's by position. */
  datatype PathStep = Key(key: string) | ByName(name: string) | At(index: nat)

  predicate NamedArray(items: seq<Value>) {
    IsTables(items) && Named(items)
  }

  /** Which entry of an array a step means. */
  function EntryAt(items: seq<Value>, step: PathStep): (r: Option<nat>)
    ensures r.Some? ==> r.value < |items|
  {
    match step
    case Key(_) => None
    case ByName(name) => if NamedArray(items) then Position(items, Some(Text(name))) else None
    case At(i) => if !NamedArray(items) && i < |items| then Some(i) else None
  }

  function Get(v: Value, path: seq<PathStep>): Option<Value>
    decreases path
  {
    if path == [] then Some(v)
    else
      match v
      case Table(entries) =>
        if path[0].Key? && path[0].key in entries then Get(entries[path[0].key], path[1..]) else None
      case Array(items) =>
        var k := EntryAt(items, path[0]);
        if k.Some? then Get(items[k.value], path[1..]) else None
      case _ => None
  }

  /** Overlay entry `j` is the one a step means. */
  predicate Means(o: seq<Value>, j: nat, step: PathStep, byName: bool) {
    j < |o| && if byName then step.ByName? && NameOf(o[j]) == Some(Text(step.name)) else step.At? && j == step.index
  }

  /**
   The overlay names this path of the document it is laid over, or something on the way to it that
   it replaces whole.
   */
  predicate Names(b: Value, o: Value, here: string, path: seq<PathStep>)
    decreases path
  {
    if path == [] then true
    else if b.Table? && o.Table? then
      && path[0].Key? && path[0].key in o.entries
      && (path[0].key in b.entries ==>
            Names(b.entries[path[0].key], o.entries[path[0].key], Join(here, path[0].key), path[1..]))
    else if b.Array? && o.Array? && MergesEntries(b.items, o.items, here) then
      exists j :: 0 <= j < |o.items| && Means(o.items, j, path[0], Named(b.items)) &&
        var k := EntryAt(b.items, path[0]);
        k.Some? ==> Names(b.items[k.value], o.items[j], Entry(here, k.value), path[1..])
    else true
  }

  /** The merged array is addressed as the shipped one was. */
  lemma SameAddressing(b: seq<Value>, o: Value, here: string)
    requires o.Array? && MergesEntries(b, o.items, here) && WellFormed(o, here) && (Named(b) ==> Named(o.items))
    requires MergeEntries(b, o.items, |o.items|, Named(b), here).Ok?
    ensures var c := MergeEntries(b, o.items, |o.items|, Named(b), here).value;
            IsTables(c) && (Named(c) <==> Named(b))
  {
    hide WellFormed, MergeEntries, Absorbed;
    EntriesAbsorbed(b, o, |o.items|, Named(b), here);
    var c := MergeEntries(b, o.items, |o.items|, Named(b), here).value;
    if !Named(b) {
      var q :| 0 <= q < |b| && !HasName(b[q]);
      assert NameOf(c[q]) == NameOf(b[q]);
      assert !HasName(c[q]);
    }
  }

  /** Every path the overlay does not name reads as it did, through tables and into the entries of arrays. */
  lemma {:induction false} MergeLeavesUnnamed(b: Value, o: Value, here: string, path: seq<PathStep>)
    requires WellFormed(o, here) && MergeValue(b, o, here).Ok? && !Names(b, o, here, path)
    ensures Get(MergeValue(b, o, here).value, path) == Get(b, path)
    decreases path
  {
    if b.Table? && o.Table? {
      if path[0].Key? && path[0].key in o.entries {
        var key := path[0].key;
        assert MergeKey(b.entries, o, here, key).Ok?;
        MergeLeavesUnnamed(b.entries[key], o.entries[key], Join(here, key), path[1..]);
      }
    } else {
      EntriesLeaveUnnamed(b.items, o, here, path);
    }
  }

  lemma EntriesLeaveUnnamed(b: seq<Value>, o: Value, here: string, path: seq<PathStep>)
    requires o.Array? && MergesEntries(b, o.items, here) && WellFormed(o, here)
    requires MergeValue(Array(b), o, here).Ok? && path != [] && !Names(Array(b), o, here, path)
    ensures Get(MergeValue(Array(b), o, here).value, path) == Get(Array(b), path)
    decreases path, 1
  {
    hide Absorbed, WellFormed, MergeEntries, MergeEntry, Merge, Target, IsTables, Named, Means, EntryAt, Position;
    var k := EntryAt(b, path[0]);
    if k.Some? {
      EntryLeavesUnnamed(b, o, here, path, k.value);
    } else {
      StaysAbsent(b, o, here, path);
    }
  }

  /** A path into a shipped entry. */
  lemma EntryLeavesUnnamed(b: seq<Value>, o: Value, here: string, path: seq<PathStep>, k: nat)
    requires o.Array? && MergesEntries(b, o.items, here) && WellFormed(o, here)
    requires MergeValue(Array(b), o, here).Ok? && path != [] && !Names(Array(b), o, here, path)
    requires EntryAt(b, path[0]) == Some(k)
    ensures var c := MergeEntries(b, o.items, |o.items|, Named(b), here).value;
            EntryAt(c, path[0]) == Some(k) && Get(c[k], path[1..]) == Get(b[k], path[1..])
    decreases path, 0
  {
    hide Absorbed, WellFormed, MergeEntries, MergeEntry, Merge, Position, Get;
    var byName, step := Named(b), path[0];
    var c := MergeEntries(b, o.items, |o.items|, byName, here).value;
    EntriesAbsorbed(b, o, |o.items|, byName, here);
    SameAddressing(b, o, here);
    EntryStays(b, c, step, k);
    if exists j :: 0 <= j < |o.items| && Means(o.items, j, step, byName) {
      var j :| 0 <= j < |o.items| && Means(o.items, j, step, byName);
      assert !Names(b[k], o.items[j], Entry(here, k), path[1..]);
      EntriesLand(b, o, |o.items|, byName, here, j);
      WellFormedEntry(o, here, j);
      assert Target(b, o.items[j], j, byName) == Some(k);
      assert MergeValue(b[k], o.items[j], Entry(here, k)) == Ok(c[k]);
      MergeLeavesUnnamed(b[k], o.items[j], Entry(here, k), path[1..]);
    } else {
      forall j | 0 <= j < |o.items| ensures Elsewhere(o.items[j], j, b[k], k, byName) {
        assert !Means(o.items, j, step, byName);
      }
      EntriesLeftAlone(b, o, |o.items|, byName, here, k);
    }
  }

  /** A path to no shipped entry, nor to one the overlay brings. */
  lemma StaysAbsent(b: seq<Value>, o: Value, here: string, path: seq<PathStep>)
    requires o.Array? && MergesEntries(b, o.items, here) && WellFormed(o, here)
    requires MergeValue(Array(b), o, here).Ok? && path != [] && !Names(Array(b), o, here, path)
    requires EntryAt(b, path[0]) == None
    ensures EntryAt(MergeEntries(b, o.items, |o.items|, Named(b), here).value, path[0]) == None
  {
    hide Absorbed, WellFormed, MergeEntries, MergeEntry, Merge, Get;
    var byName, step := Named(b), path[0];
    EntriesAbsorbed(b, o, |o.items|, byName, here);
    SameAddressing(b, o, here);
    assert forall j | 0 <= j < |o.items| :: !Means(o.items, j, step, byName);
    if byName && step.ByName? {
      NoNewName(b, o, |o.items|, byName, here, Some(Text(step.name)));
    } else if !byName {
      PositionsCount(b, o, |o.items|, here);
      assert step.At? && step.index < |o.items| ==> Means(o.items, step.index, step, byName);
    }
  }

  /** An array whose entries keep their names and places is addressed alike. */
  lemma EntryStays(b: seq<Value>, c: seq<Value>, step: PathStep, k: nat)
    requires IsTables(b) && IsTables(c) && (Named(c) <==> Named(b)) && |b| <= |c|
    requires forall q | 0 <= q < |b| :: NameOf(c[q]) == NameOf(b[q])
    requires EntryAt(b, step) == Some(k)
    ensures EntryAt(c, step) == Some(k)
  {
    if step.ByName? {
      PositionIs(c, k);
    }
  }

  /** Every plain value the overlay gives is in force, through tables and in the entries of arrays. */
  lemma {:induction false} MergeSetsNamed(b: Value, o: Value, here: string, path: seq<PathStep>, v: Value)
    requires WellFormed(o, here) && MergeValue(b, o, here).Ok? && Get(o, path) == Some(v) && (v.Text? || v.Scalar?)
    ensures Get(MergeValue(b, o, here).value, path) == Some(v)
    decreases path
  {
    if b.Table? && o.Table? {
      var key := path[0].key;
      assert MergeKey(b.entries, o, here, key).Ok?;
      if key in b.entries {
        MergeSetsNamed(b.entries[key], o.entries[key], Join(here, key), path[1..], v);
      }
    } else if b.Array? && o.Array? && MergesEntries(b.items, o.items, here) {
      EntriesSetNamed(b.items, o, here, path, v);
    }
  }

  lemma EntriesSetNamed(b: seq<Value>, o: Value, here: string, path: seq<PathStep>, v: Value)
    requires o.Array? && MergesEntries(b, o.items, here) && WellFormed(o, here)
    requires MergeValue(Array(b), o, here).Ok? && Get(o, path) == Some(v) && (v.Text? || v.Scalar?)
    ensures Get(MergeValue(Array(b), o, here).value, path) == Some(v)
    decreases path, 0
  {
    var byName, step := Named(b), path[0];
    var c := MergeEntries(b, o.items, |o.items|, byName, here).value;
    EntriesAbsorbed(b, o, |o.items|, byName, here);
    SameAddressing(b, o, here);
    var j := EntryAt(o.items, step).value;
    WellFormedEntry(o, here, j);
    if !byName {
      assert !HasName(o.items[j]);
    }
    EntriesLand(b, o, |o.items|, byName, here, j);
    var into, at := Target(b, o.items[j], j, byName), Target(c, o.items[j], j, byName).value;
    assert EntryAt(c, step) == Some(at);
    if into.Some? {
      assert MergeValue(b[at], o.items[j], Entry(here, at)) == Ok(c[at]);
      MergeSetsNamed(b[at], o.items[j], Entry(here, at), path[1..], v);
    }
  }

  // ---------------------------------------------- without the conditions it can fail

  /** An array whose overlay names an entry twice is replaced whole at first, and merged into itself after. */
  lemma RepeatedNameNotIdempotent(x: Value, y: Value)
    requires x == Table(map[NAME := Text("a")]) && y == Table(map[NAME := Text("a"), "x" := Scalar(1)])
    ensures var overlay := Table(map["s" := Array([x, y])]);
            var once := Merge(map[], overlay, "");
            once.Ok? && Merge(once.value, overlay, "").Ok? && Merge(once.value, overlay, "") != once
  {
    var overlay := Table(map["s" := Array([x, y])]);
    assert MergeKey(map[], overlay, "", "s") == Ok(Array([x, y]));
    var once := Merge(map[], overlay, "").value;
    assert once["s"] == Array([x, y]);
    assert Position([x, y], NameOf(x)) == Some(0);
    assert MergeEntries([x, y], [x, y], 0, true, "s") == Ok([x, y]);
    SelfMergePlain(x, Entry("s", 0));
    assert [x, y][0 := x] == [x, y];
    assert MergeEntries([x, y], [x, y], 1, true, "s") == Ok([x, y]);
    assert MergeKey(x.entries, y, Entry("s", 0), NAME) == Ok(Text("a"));
    assert MergeKey(x.entries, y, Entry("s", 0), "x") == Ok(Scalar(1));
    assert Merge(x.entries, y, Entry("s", 0)).value == y.entries;
    assert Position([x, y], NameOf(y)) == Some(0);
    assert [x, y][0 := y] == [y, y];
    assert MergeEntry([x, y], y, 1, true, "s") == Ok([y, y]);
    assert MergeEntries([x, y], [x, y], 2, true, "s") == Ok([y, y]);
    assert MergeKey(once, overlay, "", "s") == Ok(Array([y, y]));
    assert Merge(once, overlay, "").value["s"] == Array([y, y]);
    assert [y, y][0] != [x, y][0];
  }

  lemma SelfMergePlain(x: Value, at: string)
    requires x == Table(map[NAME := Text("a")])
    ensures Merge(x.entries, x, at) == Ok(x.entries)
  {
    assert WellFormed(x, at);
    SelfMerge(x, at);
  }

  /** A name given to a per-joint entry can turn the array into a named one, which the overlay then no longer fits. */
  lemma NamedJointNotIdempotent(x: Value, y: Value, blank: Value)
    requires x == Table(map[NAME := Text("a")]) && y == Table(map[NAME := Text("b")]) && blank == Table(map[])
    ensures var here, overlay := "homing.joints", Array([blank, y]);
            && MergeValue(Array([x, blank]), overlay, here) == Ok(Array([x, y]))
            && MergeValue(Array([x, y]), overlay, here) == Err(MissingName)
  {
    var here, b, o := "homing.joints", [x, blank], [blank, y];
    assert !HasName(b[1]) && !HasName(o[0]) && HasName(x) && HasName(y);
    assert MergeEntries(b, o, 0, false, here) == Ok(b);
    assert Merge(x.entries, blank, Entry(here, 0)).value == x.entries;
    assert b[0 := x] == b;
    assert MergeEntry(b, blank, 0, false, here) == Ok(b);
    assert MergeEntries(b, o, 1, false, here) == Ok(b);
    assert MergeKey(blank.entries, y, Entry(here, 1), NAME) == Ok(Text("b"));
    assert Merge(blank.entries, y, Entry(here, 1)).value == y.entries;
    assert b[1 := y] == [x, y];
    assert MergeEntry(b, y, 1, false, here) == Ok([x, y]);
    assert MergeEntries(b, o, 2, false, here) == Ok([x, y]);
  }

  // ------------------------------------------------------------- the merge in place

  /** Merge a table key by key, in any order. */
  method MergeInto(base: Doc, overlay: Value, at: string) returns (r: Result<Doc, MergeError>)
    requires overlay.Table?
    ensures r == Merge(base, overlay, at)
    decreases overlay, 1
  {
    var pending, out := overlay.entries.Keys, base;
    while pending != {}
      invariant pending <= overlay.entries.Keys
      invariant out.Keys == base.Keys + (overlay.entries.Keys - pending)
      invariant forall key | key in overlay.entries.Keys - pending ::
                  MergeKey(base, overlay, at, key).Ok? && out[key] == MergeKey(base, overlay, at, key).value
      invariant forall key | key in base && (key !in overlay.entries || key in pending) :: out[key] == base[key]
      decreases pending
    {
      var key :| key in pending;
      var value, here := overlay.entries[key], Join(at, key);
      assert key in base ==> MergeKey(base, overlay, at, key) == MergeValue(out[key], value, here);
      if key in out && out[key].Table? && value.Table? {
        var merged := MergeInto(out[key].entries, value, here);
        if merged.Err? {
          assert MergeValue(out[key], value, here).Err? && MergeKey(base, overlay, at, key).Err?;
          assert Merge(base, overlay, at) == Err(MissingName);
          assert merged.error.MissingName?;
          return Err(merged.error);
        }
        out := out[key := Table(merged.value)];
      } else if key in out && out[key].Array? && value.Array? && MergesEntries(out[key].items, value.items, here) {
        var byName := Named(out[key].items);
        if byName && !Named(value.items) {
          assert MergeValue(out[key], value, here).Err? && MergeKey(base, overlay, at, key).Err?;
          assert Merge(base, overlay, at) == Err(MissingName);
          return Err(MissingName);
        }
        var merged := MergeArrays(out[key].items, value, byName, here);
        if merged.Err? {
          assert MergeValue(out[key], value, here).Err? && MergeKey(base, overlay, at, key).Err?;
          assert Merge(base, overlay, at) == Err(MissingName);
          assert merged.error.MissingName?;
          return Err(merged.error);
        }
        out := out[key := Array(merged.value)];
      } else {
        out := out[key := value];
      }
      pending := pending - {key};
    }
    r := Ok(out);
    assert Merge(base, overlay, at).Ok? && Merge(base, overlay, at).value == out;
  }

  /** Merge an array's entries one after another, appending those that are new. */
  method MergeArrays(b: seq<Value>, o: Value, byName: bool, here: string) returns (r: Result<seq<Value>, MergeError>)
    requires o.Array? && forall i | 0 <= i < |o.items| :: o.items[i].Table?
    ensures r == MergeEntries(b, o.items, |o.items|, byName, here)
    decreases o, 0
  {
    var out := b;
    for i := 0 to |o.items|
      invariant MergeEntries(b, o.items, i, byName, here) == Ok(out)
    {
      var entry := o.items[i];
      var into := Target(out, entry, i, byName);
      if into.Some? && out[into.value].Table? {
        var merged := MergeInto(out[into.value].entries, entry, Entry(here, into.value));
        if merged.Err? {
          ErrorStays(b, o.items, i + 1, |o.items|, byName, here);
          return Err(merged.error);
        }
        out := out[into.value := Table(merged.value)];
      } else {
        out := out + [entry];
      }
    }
    r := Ok(out);
  }

  lemma {:induction false} ErrorStays(b: seq<Value>, o: seq<Value>, n: nat, m: nat, byName: bool, here: string)
    requires n <= m <= |o| && (forall i | 0 <= i < |o| :: o[i].Table?)
    requires MergeEntries(b, o, n, byName, here).Err?
    ensures MergeEntries(b, o, m, byName, here) == MergeEntries(b, o, n, byName, here)
    decreases m
  {
    if n < m {
      ErrorStays(b, o, n, m - 1, byName, here);
    }
  }
}
