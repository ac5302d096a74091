/** The places cache of `enrich_places_api/cache_json.py`: an ordered store
    of provider results with an index from each result's `reference` to its
    position, a set of coordinates already sent to the provider, and a
    proximity scan. */
module GeoCache {

  import opened Model

  // ---------------------------------------------------------------------
  // Specification of the store
  // ---------------------------------------------------------------------

  /** The references held by a list of places. */
  function Refs(s: seq<Place>): set<string>
  {
    set p | p in s :: p.reference
  }

  /** The index `load_cache` builds: every reference maps to the last
      position that holds it. */
  function Index(s: seq<Place>): map<string, nat>
  {
    if s == [] then map[] else Index(s[..|s| - 1])[s[|s| - 1].reference := |s| - 1]
  }

  /** The index maps every stored reference, and only those, to the last
      position holding it. */
  lemma {:induction false} IndexSpec(s: seq<Place>)
    ensures forall i :: 0 <= i < |s| ==> s[i].reference in Index(s) && i <= Index(s)[s[i].reference]
    ensures forall r :: r in Index(s) ==> Index(s)[r] < |s| && s[Index(s)[r]].reference == r
    decreases |s|
  {
    if s != [] {
      var init := s[..|s| - 1];
      IndexSpec(init);
      assert forall i :: 0 <= i < |s| - 1 ==> init[i] == s[i];
    }
  }

  lemma IndexAt(s: seq<Place>, i: nat)
    requires i < |s|
    ensures s[i].reference in Index(s) && i <= Index(s)[s[i].reference] < |s|
  {
    IndexSpec(s);
  }

  lemma IndexLookup(s: seq<Place>, r: string)
    requires r in Index(s)
    ensures Index(s)[r] < |s| && s[Index(s)[r]].reference == r
  {
    IndexSpec(s);
  }

  /** No reference occurs twice. */
  predicate Unique(s: seq<Place>)
  {
    forall i, j :: 0 <= i < j < |s| ==> s[i].reference != s[j].reference
  }

  /** Writing one result: overwrite the entry holding its reference, or
      append it. */
  function UpsertOne(s: seq<Place>, x: Place): seq<Place>
  {
    IndexSpec(s);
    var m := Index(s);
    if x.reference in m then s[m[x.reference] := x] else s + [x]
  }

  /** Writing a batch of results, in order. */
  function UpsertAll(s: seq<Place>, b: seq<Place>): seq<Place>
    decreases |b|
  {
    if b == [] then s else UpsertAll(UpsertOne(s, b[0]), b[1..])
  }

  /** Every entry with its `cachedAt` set to `t`. */
  function Stamp(s: seq<Place>, t: string): (r: seq<Place>)
    ensures |r| == |s|
    ensures forall i :: 0 <= i < |s| ==> r[i] == s[i].(cachedAt := t)
  {
    seq(|s|, i requires 0 <= i < |s| => s[i].(cachedAt := t))
  }

  /** Stamping distributes over concatenation. */
  lemma StampConcat(a: seq<Place>, b: seq<Place>, t: string)
    ensures Stamp(a + b, t) == Stamp(a, t) + Stamp(b, t)
  {
  }

  /** The last element of `b` with reference `r`. */
  function Last(b: seq<Place>, r: string): (p: Place)
    requires r in Refs(b)
    ensures p in b && p.reference == r
  {
    assert b[0] in b;
    if r in Refs(b[1..]) then Last(b[1..], r) else b[0]
  }

  /** The references of `b` that are not in `known`, in order of first
      occurrence, each once. */
  function Appended(known: set<string>, b: seq<Place>): (a: seq<string>)
    ensures forall k :: 0 <= k < |a| ==> a[k] in Refs(b) && a[k] !in known
    ensures forall k, l :: 0 <= k < l < |a| ==> a[k] != a[l]
    ensures forall r :: r in Refs(b) && r !in known ==> r in a
    decreases |b|
  {
    if b == [] then []
    else
      assert forall p :: p in b[1..] ==> p in b;
      assert forall p :: p in b ==> p == b[0] || p in b[1..];
      if b[0].reference in known then Appended(known, b[1..])
      else [b[0].reference] + Appended(known + {b[0].reference}, b[1..])
  }

  /** The old positions after a batch: the position that indexes a reference
      of the batch holds the batch's last result for it; the rest stays. */
  function Overwritten(s: seq<Place>, b: seq<Place>): (r: seq<Place>)
    ensures |r| == |s| && forall i :: 0 <= i < |s| ==> r[i] == OverwrittenAt(s, b, i)
  {
    seq(|s|, i requires 0 <= i < |s| => OverwrittenAt(s, b, i))
  }

  /** Old position `i` after a batch. */
  function OverwrittenAt(s: seq<Place>, b: seq<Place>, i: nat): Place
    requires i < |s|
  {
    IndexSpec(s);
    var r := s[i].reference;
    if r in Refs(b) && Index(s)[r] == i then Last(b, r) else s[i]
  }

  /** The new positions after a batch: one entry per new reference, in order
      of first occurrence, holding the batch's last result for it. */
  function Added(s: seq<Place>, b: seq<Place>): (r: seq<Place>)
  {
    Lasts(b, Appended(Refs(s), b))
  }

  /** The batch's last result for each reference of `a`, in the order of `a`. */
  function Lasts(b: seq<Place>, a: seq<string>): (r: seq<Place>)
    requires forall k :: 0 <= k < |a| ==> a[k] in Refs(b)
    ensures |r| == |a|
    ensures forall k :: 0 <= k < |a| ==> r[k] == Last(b, a[k])
  {
    if a == [] then [] else [Last(b, a[0])] + Lasts(b, a[1..])
  }

  // ---------------------------------------------------------------------
  // Lemmas about the index and the store
  // ---------------------------------------------------------------------

  /** The index depends only on the references, position by position. */
  lemma IndexSameRefs(s: seq<Place>, t: seq<Place>)
    requires |s| == |t| && forall i :: 0 <= i < |s| ==> s[i].reference == t[i].reference
    ensures Index(s) == Index(t)
  {
    IndexSpec(s);
    IndexSpec(t);
    var m, n := Index(s), Index(t);
    forall r | r in m ensures r in n && m[r] == n[r] {
      assert t[m[r]].reference == r;
      assert s[n[r]].reference == r;
    }
    forall r | r in n ensures r in m {
      assert s[n[r]].reference == r;
    }
  }

  lemma IndexAppend(s: seq<Place>, x: Place)
    ensures Index(s + [x]) == Index(s)[x.reference := |s|]
  {
    assert (s + [x])[..|s|] == s;
  }

  lemma RefsIndex(s: seq<Place>)
    ensures Refs(s) == Index(s).Keys
  {
    IndexSpec(s);
    forall r | r in Index(s) ensures r in Refs(s) {
      assert s[Index(s)[r]] in s;
    }
  }

  /** A unique list is indexed by each entry's own position. */
  lemma {:induction false} IndexUnique(s: seq<Place>)
    requires Unique(s)
    ensures forall i :: 0 <= i < |s| ==> s[i].reference in Index(s) && Index(s)[s[i].reference] == i
  {
    IndexSpec(s);
    forall i | 0 <= i < |s| ensures Index(s)[s[i].reference] == i {
      var j := Index(s)[s[i].reference];
      assert s[j].reference == s[i].reference;
    }
  }

  /** Writing in two batches is writing their concatenation. */
  lemma {:induction false} UpsertAllConcat(s: seq<Place>, a: seq<Place>, b: seq<Place>)
    ensures UpsertAll(UpsertAll(s, a), b) == UpsertAll(s, a + b)
    decreases |a|
  {
    if a == [] {
      assert a + b == b;
    } else {
      UpsertAllConcat(UpsertOne(s, a[0]), a[1..], b);
      TailAppend(a, b);
    }
  }

  lemma UpsertAllOne(s: seq<Place>, x: Place)
    ensures UpsertAll(s, [x]) == UpsertOne(s, x)
  {
    assert [x][1..] == [];
  }

  lemma RefsTail(b: seq<Place>)
    requires b != []
    ensures Refs(b) == {b[0].reference} + Refs(b[1..])
  {
    assert forall p :: p in b[1..] ==> p in b;
    assert forall p :: p in b ==> p == b[0] || p in b[1..];
  }

  lemma LastTail(b: seq<Place>, r: string)
    requires b != [] && r in Refs(b[1..])
    ensures r in Refs(b) && Last(b, r) == Last(b[1..], r)
  {
    RefsTail(b);
  }

  /** A batch whose first result overwrites: the rest of the batch sees the
      same old positions. */
  lemma ShapeReplaceOverwritten(s: seq<Place>, b: seq<Place>)
    requires b != [] && b[0].reference in Index(s)
    ensures Overwritten(UpsertOne(s, b[0]), b[1..]) == Overwritten(s, b)
  {
    var x := b[0];
    var p := Index(s)[x.reference];
    IndexLookup(s, x.reference);
    assert UpsertOne(s, x) == s[p := x];
    var O, O' := Overwritten(s, b), Overwritten(s[p := x], b[1..]);
    forall i | 0 <= i < |s| ensures O'[i] == O[i] {
      ReplaceOverwrittenAt(s, b, p, i);
    }
  }

  /** An overwriting first result leaves every old position as the whole
      batch does. */
  lemma ReplaceOverwrittenAt(s: seq<Place>, b: seq<Place>, p: nat, i: nat)
    requires b != [] && p < |s| && i < |s|
    requires b[0].reference in Index(s) && Index(s)[b[0].reference] == p && s[p].reference == b[0].reference
    ensures OverwrittenAt(s[p := b[0]], b[1..], i) == OverwrittenAt(s, b, i)
  {
    var x, b', s' := b[0], b[1..], s[p := b[0]];
    var r := s[i].reference;
    assert forall j :: 0 <= j < |s| ==> s'[j].reference == s[j].reference;
    IndexSameRefs(s, s');
    IndexAt(s, i);
    RefsTail(b);
    if r in Refs(b') {
      LastTail(b, r);
    }
  }

  lemma ShapeReplaceAdded(s: seq<Place>, b: seq<Place>)
    requires b != [] && b[0].reference in Index(s)
    ensures Added(UpsertOne(s, b[0]), b[1..]) == Added(s, b)
  {
    var x, b' := b[0], b[1..];
    IndexSpec(s);
    RefsIndex(s);
    var p := Index(s)[x.reference];
    var s' := s[p := x];
    assert UpsertOne(s, x) == s';
    IndexSameRefs(s, s');
    RefsIndex(s');
    var a := Appended(Refs(s), b);
    assert a == Appended(Refs(s'), b');
    forall k | 0 <= k < |a| ensures Last(b', a[k]) == Last(b, a[k]) {
      LastTail(b, a[k]);
    }
  }

  /** A batch whose first result is new: it lands at the end of the old
      positions. */
  lemma ShapeAppendOverwritten(s: seq<Place>, b: seq<Place>)
    requires b != [] && b[0].reference !in Index(s)
    ensures b[0].reference in Refs(b)
    ensures Overwritten(UpsertOne(s, b[0]), b[1..]) == Overwritten(s, b) + [Last(b, b[0].reference)]
  {
    var x := b[0];
    RefsTail(b);
    assert UpsertOne(s, x) == s + [x];
    var O, O' := Overwritten(s, b), Overwritten(s + [x], b[1..]);
    forall i | 0 <= i < |s| ensures O'[i] == O[i] {
      AppendOverwrittenOld(s, b, i);
    }
    AppendOverwrittenNew(s, b);
    SnocExt(O', O, Last(b, x.reference));
  }

  /** A new first result leaves the old positions as the whole batch does. */
  lemma AppendOverwrittenOld(s: seq<Place>, b: seq<Place>, i: nat)
    requires b != [] && b[0].reference !in Index(s) && i < |s|
    ensures OverwrittenAt(s + [b[0]], b[1..], i) == OverwrittenAt(s, b, i)
  {
    var x, b' := b[0], b[1..];
    var r := s[i].reference;
    IndexAt(s, i);
    IndexAppend(s, x);
    assert (s + [x])[i] == s[i];
    assert Index(s + [x])[r] == Index(s)[r];
    RefsTail(b);
    if r in Refs(b') {
      LastTail(b, r);
    }
  }

  /** A new first result's position holds the batch's last result for it. */
  lemma AppendOverwrittenNew(s: seq<Place>, b: seq<Place>)
    requires b != [] && b[0].reference !in Index(s)
    ensures b[0].reference in Refs(b)
    ensures OverwrittenAt(s + [b[0]], b[1..], |s|) == Last(b, b[0].reference)
  {
    var x, b' := b[0], b[1..];
    RefsTail(b);
    IndexAppend(s, x);
    assert (s + [x])[|s|] == x;
    if x.reference in Refs(b') {
      LastTail(b, x.reference);
    }
  }

  lemma RefsAppend(s: seq<Place>, x: Place)
    ensures Refs(s + [x]) == Refs(s) + {x.reference}
  {
    assert forall p :: p in s + [x] <==> p in s || p == x;
  }

  lemma ShapeAppendAdded(s: seq<Place>, b: seq<Place>)
    requires b != [] && b[0].reference !in Index(s)
    ensures b[0].reference in Refs(b)
    ensures Added(s, b) == [Last(b, b[0].reference)] + Added(UpsertOne(s, b[0]), b[1..])
  {
    var x, b' := b[0], b[1..];
    RefsTail(b);
    RefsIndex(s);
    var s' := s + [x];
    assert UpsertOne(s, x) == s';
    RefsAppend(s, x);
    var a, a' := Appended(Refs(s), b), Appended(Refs(s'), b');
    assert a == [x.reference] + a';
    assert a[1..] == a';
    assert Added(s, b) == [Last(b, x.reference)] + Lasts(b, a');
    LastsTail(b, a');
    assert Added(s', b') == Lasts(b', a');
  }

  lemma {:induction false} LastsTail(b: seq<Place>, a: seq<string>)
    requires b != [] && forall k :: 0 <= k < |a| ==> a[k] in Refs(b[1..])
    ensures forall k :: 0 <= k < |a| ==> a[k] in Refs(b)
    ensures Lasts(b, a) == Lasts(b[1..], a)
    decreases |a|
  {
    RefsTail(b);
    if a != [] {
      LastTail(b, a[0]);
      LastsTail(b, a[1..]);
    }
  }

  /** One step of the closed form, for a first result that overwrites. */
  lemma ShapeReplaceStep(s: seq<Place>, b: seq<Place>)
    requires b != [] && b[0].reference in Index(s)
    requires UpsertAll(UpsertOne(s, b[0]), b[1..]) == Overwritten(UpsertOne(s, b[0]), b[1..]) + Added(UpsertOne(s, b[0]), b[1..])
    ensures UpsertAll(s, b) == Overwritten(s, b) + Added(s, b)
  {
    ShapeReplaceOverwritten(s, b);
    ShapeReplaceAdded(s, b);
  }

  /** One step of the closed form, for a first result that is new. */
  lemma ShapeAppendStep(s: seq<Place>, b: seq<Place>)
    requires b != [] && b[0].reference !in Index(s)
    requires UpsertAll(UpsertOne(s, b[0]), b[1..]) == Overwritten(UpsertOne(s, b[0]), b[1..]) + Added(UpsertOne(s, b[0]), b[1..])
    ensures UpsertAll(s, b) == Overwritten(s, b) + Added(s, b)
  {
    var s', b' := UpsertOne(s, b[0]), b[1..];
    ShapeAppendOverwritten(s, b);
    ShapeAppendAdded(s, b);
    ConsStep(UpsertAll(s, b), Overwritten(s, b), Added(s, b), Overwritten(s', b'), Added(s', b'), Last(b, b[0].reference));
  }

  lemma ConsStep(u: seq<Place>, o: seq<Place>, a: seq<Place>, o': seq<Place>, a': seq<Place>, l: Place)
    requires u == o' + a' && o' == o + [l] && a == [l] + a'
    ensures u == o + a
  {
  }

  /** The closed form of a batch write: the old positions are overwritten in
      place, and the new references are appended at the end in order of
      first occurrence. */
  lemma {:induction false} UpsertAllShape(s: seq<Place>, b: seq<Place>)
    ensures UpsertAll(s, b) == Overwritten(s, b) + Added(s, b)
    decreases |b|
  {
    if b == [] {
      assert Overwritten(s, b) == s;
      assert Added(s, b) == [];
    } else {
      UpsertAllShape(UpsertOne(s, b[0]), b[1..]);
      if b[0].reference in Index(s) {
        ShapeReplaceStep(s, b);
      } else {
        ShapeAppendStep(s, b);
      }
    }
  }

  /** Writing a batch never introduces a duplicate reference. */
  lemma {:induction false} UpsertAllUnique(s: seq<Place>, b: seq<Place>)
    requires Unique(s)
    ensures Unique(UpsertAll(s, b))
    decreases |b|
  {
    if b != [] {
      var x := b[0];
      IndexSpec(s);
      var m := Index(s);
      var s' := UpsertOne(s, x);
      if x.reference in m {
        assert Unique(s');
      } else {
        RefsIndex(s);
        assert x.reference !in Refs(s);
        forall i | 0 <= i < |s| ensures s[i].reference != x.reference {
          assert s[i] in s;
        }
        assert Unique(s');
      }
      UpsertAllUnique(s', b[1..]);
    }
  }

  /** The store grows by exactly the number of new references. */
  lemma UpsertAllLength(s: seq<Place>, b: seq<Place>)
    ensures |UpsertAll(s, b)| == |s| + |Appended(Refs(s), b)|
  {
    UpsertAllShape(s, b);
  }

  /** Entries whose reference is not in the batch keep their position and
      every field. */
  lemma UpsertAllKeepsOthers(s: seq<Place>, b: seq<Place>, i: nat)
    requires i < |s| && s[i].reference !in Refs(b)
    ensures i < |UpsertAll(s, b)| && UpsertAll(s, b)[i] == s[i]
  {
    UpsertAllShape(s, b);
  }

  /** A stored reference written again is overwritten in place: the position
      the index gives it holds the batch's last result for it. */
  lemma UpsertAllOverwrites(s: seq<Place>, b: seq<Place>, r: string)
    requires r in Index(s) && r in Refs(b)
    ensures Index(s)[r] < |UpsertAll(s, b)| && UpsertAll(s, b)[Index(s)[r]] == Last(b, r)
  {
    IndexSpec(s);
    UpsertAllShape(s, b);
  }

  lemma {:induction false} LastConcat(a: seq<Place>, b: seq<Place>, r: string)
    requires r in Refs(b)
    ensures r in Refs(a + b) && Last(a + b, r) == Last(b, r)
    decreases |a|
  {
    assert forall p :: p in b ==> p in a + b;
    if a != [] {
      assert (a + b)[1..] == a[1..] + b;
      assert forall p :: p in b ==> p in a[1..] + b;
      LastConcat(a[1..], b, r);
    } else {
      assert a + b == b;
    }
  }

  lemma {:induction false} AppendedConcat(known: set<string>, a: seq<Place>, b: seq<Place>)
    ensures Appended(known, a + b) == Appended(known, a) + Appended(known + Refs(a), b)
    decreases |a|
  {
    if a == [] {
      assert a + b == b;
      assert known + Refs(a) == known;
    } else {
      assert (a + b)[0] == a[0] && (a + b)[1..] == a[1..] + b;
      RefsTail(a);
      if a[0].reference in known {
        AppendedConcat(known, a[1..], b);
        assert known + Refs(a[1..]) == known + Refs(a);
      } else {
        AppendedConcat(known + {a[0].reference}, a[1..], b);
        assert known + {a[0].reference} + Refs(a[1..]) == known + Refs(a);
      }
    }
  }

  lemma {:induction false} AppendedKnown(known: set<string>, b: seq<Place>)
    requires Refs(b) <= known
    ensures Appended(known, b) == []
    decreases |b|
  {
    if b != [] {
      RefsTail(b);
      AppendedKnown(known, b[1..]);
    }
  }

  lemma OverwrittenTwice(s: seq<Place>, b: seq<Place>)
    ensures Overwritten(s, b + b) == Overwritten(s, b)
  {
    assert Refs(b + b) == Refs(b);
    forall r | r in Refs(b) ensures Last(b + b, r) == Last(b, r) {
      LastConcat(b, b, r);
    }
  }

  lemma AddedTwice(s: seq<Place>, b: seq<Place>)
    ensures Added(s, b + b) == Added(s, b)
  {
    AppendedConcat(Refs(s), b, b);
    AppendedKnown(Refs(s) + Refs(b), b);
    assert Appended(Refs(s), b + b) == Appended(Refs(s), b);
    forall r | r in Refs(b) ensures Last(b + b, r) == Last(b, r) {
      LastConcat(b, b, r);
    }
  }

  /** Upsert idempotence: writing the same batch twice leaves the store as
      writing it once. */
  lemma UpsertAllIdempotent(s: seq<Place>, b: seq<Place>)
    ensures UpsertAll(UpsertAll(s, b), b) == UpsertAll(s, b)
  {
    UpsertAllConcat(s, b, b);
    UpsertAllShape(s, b + b);
    UpsertAllShape(s, b);
    OverwrittenTwice(s, b);
    AddedTwice(s, b);
  }

  // ---------------------------------------------------------------------
  // Equality up to `cachedAt`
  // ---------------------------------------------------------------------

  /** Two lists that differ at most in their `cachedAt` fields. */
  predicate SameUpToStamp(s: seq<Place>, t: seq<Place>)
  {
    |s| == |t| && forall i :: 0 <= i < |s| ==> s[i].(cachedAt := "") == t[i].(cachedAt := "")
  }

  lemma SameUpToStampStamp(s: seq<Place>, t: seq<Place>, now: string)
    requires SameUpToStamp(s, t)
    ensures Stamp(s, now) == Stamp(t, now)
  {
    forall i | 0 <= i < |s| ensures s[i].(cachedAt := now) == t[i].(cachedAt := now) {
      assert s[i].(cachedAt := "") == t[i].(cachedAt := "");
    }
  }

  /** Writing batches that agree up to `cachedAt` into stores that agree up
      to `cachedAt` gives stores that agree up to `cachedAt`. */
  lemma {:induction false} UpsertAllUpToStamp(s: seq<Place>, t: seq<Place>, b: seq<Place>, c: seq<Place>)
    requires SameUpToStamp(s, t) && SameUpToStamp(b, c)
    ensures SameUpToStamp(UpsertAll(s, b), UpsertAll(t, c))
    decreases |b|
  {
    if b != [] {
      var x, y := b[0], c[0];
      assert x.(cachedAt := "") == y.(cachedAt := "");
      UpsertOneUpToStamp(s, t, x, y);
      assert SameUpToStamp(b[1..], c[1..]);
      UpsertAllUpToStamp(UpsertOne(s, x), UpsertOne(t, y), b[1..], c[1..]);
    }
  }

  lemma UpsertOneUpToStamp(s: seq<Place>, t: seq<Place>, x: Place, y: Place)
    requires SameUpToStamp(s, t) && x.(cachedAt := "") == y.(cachedAt := "")
    ensures SameUpToStamp(UpsertOne(s, x), UpsertOne(t, y))
  {
    assert forall i :: 0 <= i < |s| ==> s[i].reference == s[i].(cachedAt := "").reference;
    assert forall i :: 0 <= i < |t| ==> t[i].reference == t[i].(cachedAt := "").reference;
    IndexSameRefs(s, t);
    assert x.reference == y.reference;
    if x.reference in Index(s) {
      IndexLookup(s, x.reference);
    }
  }

  // ---------------------------------------------------------------------
  // Proximity scan
  // ---------------------------------------------------------------------

  /** The stored places near `q`, in store order. */
  function Nearby(s: seq<Place>, q: Coord, near: (Coord, Coord) -> bool): seq<Place>
  {
    if s == [] then []
    else Nearby(s[..|s| - 1], q, near) + (if near(q, s[|s| - 1].location) then [s[|s| - 1]] else [])
  }

  /** The scan returns exactly the stored places near `q`, and no more of
      them than are stored. */
  lemma {:induction false} NearbySpec(s: seq<Place>, q: Coord, near: (Coord, Coord) -> bool)
    ensures |Nearby(s, q, near)| <= |s|
    ensures forall p :: p in Nearby(s, q, near) <==> p in s && near(q, p.location)
    decreases |s|
  {
    if s != [] {
      var init := s[..|s| - 1];
      NearbySpec(init, q, near);
      assert s == init + [s[|s| - 1]];
    }
  }

  /** The scan distributes over concatenation, so it keeps store order. */
  lemma {:induction false} NearbyConcat(s: seq<Place>, t: seq<Place>, q: Coord, near: (Coord, Coord) -> bool)
    ensures Nearby(s + t, q, near) == Nearby(s, q, near) + Nearby(t, q, near)
    decreases |t|
  {
    if t == [] {
      assert s + t == s;
    } else {
      var t' := t[..|t| - 1];
      NearbyConcat(s, t', q, near);
      assert (s + t)[..|s + t| - 1] == s + t';
    }
  }

  lemma UpsertNew(s: seq<Place>, x: Place)
    requires x.reference !in Index(s)
    ensures UpsertOne(s, x) == s + [x]
    ensures Index(s + [x]) == Index(s)[x.reference := |s|]
  {
    IndexAppend(s, x);
  }

  lemma UpsertExisting(s: seq<Place>, x: Place)
    requires x.reference in Index(s)
    ensures Index(s)[x.reference] < |s|
    ensures UpsertOne(s, x) == s[Index(s)[x.reference] := x]
    ensures Index(s[Index(s)[x.reference] := x]) == Index(s)
  {
    IndexLookup(s, x.reference);
    var s' := s[Index(s)[x.reference] := x];
    assert forall j :: 0 <= j < |s| ==> s'[j].reference == s[j].reference;
    IndexSameRefs(s, s');
  }

  /** One turn of the `write_to_cache` loop writes one more result. */
  lemma WriteStep(c0: seq<Place>, results: seq<Place>, i: nat)
    requires i < |results|
    ensures UpsertAll(c0, results[..i + 1]) == UpsertOne(UpsertAll(c0, results[..i]), results[i])
  {
    TakeSnoc(results, i);
    UpsertAllConcat(c0, results[..i], [results[i]]);
    UpsertAllOne(UpsertAll(c0, results[..i]), results[i]);
  }

  /** What a batch write does to the length and to uniqueness. */
  lemma WriteResult(c0: seq<Place>, results: seq<Place>)
    ensures |UpsertAll(c0, results)| == |c0| + |Appended(Refs(c0), results)|
    ensures Unique(c0) ==> Unique(UpsertAll(c0, results))
  {
    UpsertAllLength(c0, results);
    if Unique(c0) {
      UpsertAllUnique(c0, results);
    }
  }

  // ---------------------------------------------------------------------
  // The cache object
  // ---------------------------------------------------------------------

  /** The contents of a cache file as `json.load` returns them; each key
      may be missing. */
  datatype CacheFile = CacheFile(cacheData: Option<seq<Place>>, cacheRequests: Option<seq<Coord>>)

  class JsonFileCache {
    /** `_cache`, `_cache_set` and `_cache_requests`. */
    var cache: seq<Place>
    var cacheSet: map<string, nat>
    var cacheRequests: set<Coord>

    /** `_file_path_cache_requests`; an empty path disables that file. */
    const requestsPath: string
    /** The proximity test: the haversine distance is below 1 km. */
    const near: (Coord, Coord) -> bool

    /** What the two files last received. */
    var storedCache: seq<Place>
    var storedRequests: set<Coord>
    /** The batches passed to `write_to_cache`, oldest first. */
    ghost var writes: seq<seq<Place>>

    ghost predicate Valid()
      reads this
    {
      cacheSet == Index(cache)
    }

    constructor (requestsPath: string, near: (Coord, Coord) -> bool)
      ensures Valid() && Unique(cache)
      ensures cache == [] && cacheRequests == {}
      ensures this.requestsPath == requestsPath && this.near == near
      ensures storedCache == [] && storedRequests == {} && writes == []
    {
      this.requestsPath := requestsPath;
      this.near := near;
      cache, cacheSet, cacheRequests := [], map[], {};
      storedCache, storedRequests, writes := [], {}, [];
    }

    /** `is_request_in_cache`: whether `q` was already sent to the provider;
        changes nothing. */
    method IsRequestInCache(q: Coord) returns (seen: bool)
      ensures seen <==> q in cacheRequests
    {
      seen := q in cacheRequests;
    }

    /** `_is_request_in_cache`: answers whether `q` was seen and, when asked
        to, records it and rewrites the requests file (unless its path is
        empty). */
    method CheckRequest(q: Coord, addIfNot: bool) returns (seen: bool)
      modifies this`cacheRequests, this`storedRequests
      ensures seen <==> q in old(cacheRequests)
      ensures cacheRequests == if addIfNot then old(cacheRequests) + {q} else old(cacheRequests)
      ensures storedRequests ==
        if !seen && addIfNot && |requestsPath| > 0 then cacheRequests else old(storedRequests)
    {
      if q !in cacheRequests {
        if addIfNot {
          cacheRequests := cacheRequests + {q};
          WriteCacheRequests();
        }
        return false;
      }
      return true;
    }

    /** `_write_cache_requests`: the requests file is rewritten unless its
        path is empty. */
    method WriteCacheRequests()
      modifies this`storedRequests
      ensures storedRequests == if |requestsPath| == 0 then old(storedRequests) else cacheRequests
    {
      if |requestsPath| == 0 {
        return;
      }
      storedRequests := cacheRequests;
    }

    /** `get_cache`: marks `q` as seen and returns the stored places near it,
        in store order. */
    method GetCache(q: Coord) returns (places: seq<Place>)
      requires Valid()
      modifies this`cacheRequests, this`storedRequests
      ensures Valid()
      ensures places == Nearby(cache, q, near)
      ensures cacheRequests == old(cacheRequests) + {q}
      ensures storedRequests ==
        if q !in old(cacheRequests) && |requestsPath| > 0 then cacheRequests else old(storedRequests)
    {
      var _ := CheckRequest(q, true);
      places := [];
      var i := 0;
      while i < |cache|
        invariant 0 <= i <= |cache|
        invariant places == Nearby(cache[..i], q, near)
      {
        assert cache[..i + 1][..i] == cache[..i];
        if near(q, cache[i].location) {
          places := places + [cache[i]];
        }
        i := i + 1;
      }
      assert cache[..i] == cache;
    }

    /** `write_to_cache`: upserts the batch by reference, stamps every stored
        entry with the flush time, and rewrites the cache file. `added` is
        the count the source logs. */
    method WriteToCache(results: seq<Place>, now: string) returns (added: nat)
      requires Valid()
      modifies this`cache, this`cacheSet, this`storedCache, this`writes
      ensures Valid()
      ensures cache == Stamp(UpsertAll(old(cache), results), now)
      ensures |cache| == |old(cache)| + added
      ensures added == |Appended(Refs(old(cache)), results)|
      ensures old(Unique(cache)) ==> Unique(cache)
      ensures storedCache == cache && writes == old(writes) + [results]
    {
      ghost var c0 := cache;
      added := UpsertResults(results);
      ghost var c1 := cache;
      StampAll(now);
      IndexSameRefs(c1, cache);
      WriteResult(c0, results);
      storedCache := cache;
      writes := writes + [results];
    }

    /** The first loop of `write_to_cache`: each result overwrites the entry
        the index gives its reference, or is appended and indexed; `added`
        counts the appended ones. */
    method UpsertResults(results: seq<Place>) returns (added: nat)
      requires Valid()
      modifies this`cache, this`cacheSet
      ensures Valid()
      ensures cache == UpsertAll(old(cache), results)
      ensures |cache| == |old(cache)| + added
    {
      ghost var c0 := cache;
      added := 0;
      var i := 0;
      while i < |results|
        invariant 0 <= i <= |results|
        invariant cache == UpsertAll(c0, results[..i])
        invariant cacheSet == Index(cache)
        invariant |cache| == |c0| + added
      {
        // The stamp the source puts on each result here is overwritten by
        // the stamp of the second loop on every stored entry.
        var result := results[i];
        WriteStep(c0, results, i);
        if result.reference !in cacheSet {
          UpsertNew(cache, result);
          cache := cache + [result];
          cacheSet := cacheSet[result.reference := |cache| - 1];
          added := added + 1;
        } else {
          UpsertExisting(cache, result);
          var cacheIndex := cacheSet[result.reference];
          cache := cache[cacheIndex := result];
        }
        i := i + 1;
      }
      TakeAll(results);
    }

    /** The second loop of `write_to_cache`: every stored entry gets the
        same `cachedAt`. */
    method StampAll(now: string)
      modifies this`cache
      ensures cache == Stamp(old(cache), now)
    {
      ghost var c1 := cache;
      var j := 0;
      while j < |cache|
        invariant 0 <= j <= |cache| == |c1|
        invariant forall k :: 0 <= k < j ==> cache[k] == c1[k].(cachedAt := now)
        invariant forall k :: j <= k < |cache| ==> cache[k] == c1[k]
      {
        cache := cache[j := cache[j].(cachedAt := now)];
        j := j + 1;
      }
    }

    /** `load_cache`: replaces the store and/or the seen-set with what the
        cache file holds, keeping what a missing key leaves out, then reads
        the requests file unless its path is empty. `ok` is false where the
        source raises because a file cannot be opened. */
    method LoadCache(file: Option<CacheFile>, requestsFile: Option<CacheFile>) returns (ok: bool)
      requires Valid()
      modifies this`cache, this`cacheSet, this`cacheRequests
      ensures Valid()
      ensures file.None? ==> !ok && cache == old(cache) && cacheRequests == old(cacheRequests)
      ensures file.Some? ==>
        cache == (if file.value.cacheData.Some? then file.value.cacheData.value else old(cache))
      ensures file.Some? ==> ok == (|requestsPath| == 0 || requestsFile.Some?)
      ensures file.Some? ==> (cacheRequests ==
        if |requestsPath| > 0 && requestsFile.Some? && requestsFile.value.cacheRequests.Some?
        then set c | c in requestsFile.value.cacheRequests.value
        else if file.value.cacheRequests.Some? then set c | c in file.value.cacheRequests.value
        else old(cacheRequests))
    {
      if file.None? {
        return false;
      }
      var json := file.value;
      if json.cacheData.Some? {
        cache := json.cacheData.value;
        cacheSet := map[];
        var index := 0;
        while index < |cache|
          modifies this`cacheSet
          invariant 0 <= index <= |cache|
          invariant cacheSet == Index(cache[..index])
        {
          var item := cache[index];
          IndexAppend(cache[..index], item);
          assert cache[..index + 1] == cache[..index] + [item];
          cacheSet := cacheSet[item.reference := index];
          index := index + 1;
        }
        assert cache[..index] == cache;
      }
      if json.cacheRequests.Some? {
        cacheRequests := set c | c in json.cacheRequests.value;
      }
      ok := LoadCacheRequests(requestsFile);
    }

    /** `_load_cache_requests`. */
    method LoadCacheRequests(requestsFile: Option<CacheFile>) returns (ok: bool)
      modifies this`cacheRequests
      ensures ok == (|requestsPath| == 0 || requestsFile.Some?)
      ensures cacheRequests ==
        if |requestsPath| > 0 && requestsFile.Some? && requestsFile.value.cacheRequests.Some?
        then set c | c in requestsFile.value.cacheRequests.value
        else old(cacheRequests)
    {
      if |requestsPath| == 0 {
        return true;
      }
      if requestsFile.None? {
        return false;
      }
      if requestsFile.value.cacheRequests.Some? {
        cacheRequests := set c | c in requestsFile.value.cacheRequests.value;
      }
      return true;
    }
  }

  /** Writing the same batch twice leaves the same entries in the same
      order; only the flush time differs. */
  lemma WriteTwice(s: seq<Place>, b: seq<Place>, t1: string, t2: string)
    ensures Stamp(UpsertAll(Stamp(UpsertAll(s, b), t1), b), t2) == Stamp(UpsertAll(s, b), t2)
  {
    var r := UpsertAll(s, b);
    assert SameUpToStamp(Stamp(r, t1), r);
    assert SameUpToStamp(b, b);
    UpsertAllUpToStamp(Stamp(r, t1), r, b, b);
    UpsertAllIdempotent(s, b);
    SameUpToStampStamp(UpsertAll(Stamp(r, t1), b), r, t2);
  }
}
