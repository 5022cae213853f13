/**
 canonicalJSON and sortDeep (backend/internal/audit/chain.go:41-84).

 A JSON object is a sequence of distinct keys with their values, in whatever order a Go map range
 yields them. Canonical form sorts the keys at every depth. What it must do for hashing: not depend
 on that order, tell different values apart, and be stable.
 */
module CanonicalJson {

  datatype Json =
    | Null
    | Bool(b: bool)
    | Num(n: int)
    | Str(s: string)
    | Arr(items: seq<Json>)
    | Obj(fields: seq<(string, Json)>)

  // ---------------------------------------------------------------- the order of sort.Strings

  predicate Leq(a: string, b: string) {
    if a == "" then true
    else if b == "" then false
    else if a[0] != b[0] then a[0] < b[0]
    else Leq(a[1..], b[1..])
  }

  lemma {:induction false} LeqIsAntisymmetric(a: string, b: string)
    requires Leq(a, b) && Leq(b, a)
    ensures a == b
  {
    if a != "" && b != "" {
      LeqIsAntisymmetric(a[1..], b[1..]);
      assert a == [a[0]] + a[1..] && b == [b[0]] + b[1..];
    }
  }

  lemma {:induction false} LeqIsTransitive(a: string, b: string, c: string)
    requires Leq(a, b) && Leq(b, c)
    ensures Leq(a, c)
  {
    if a != "" && b != "" && c != "" && a[0] == b[0] == c[0] {
      LeqIsTransitive(a[1..], b[1..], c[1..]);
    }
  }

  lemma {:induction false} LeqIsTotal(a: string, b: string)
    ensures Leq(a, b) || Leq(b, a)
  {
    if a != "" && b != "" {
      LeqIsTotal(a[1..], b[1..]);
    }
  }

  // ---------------------------------------------------------------- canonical form

  type Fields = seq<(string, Json)>

  predicate DistinctKeys(fs: Fields) {
    forall i, j :: 0 <= i < j < |fs| ==> fs[i].0 != fs[j].0
  }

  predicate Sorted(fs: Fields) {
    forall i, j :: 0 <= i < j < |fs| ==> Leq(fs[i].0, fs[j].0)
  }

  function Insert(f: (string, Json), fs: Fields): Fields {
    if fs == [] || Leq(f.0, fs[0].0) then [f] + fs else [fs[0]] + Insert(f, fs[1..])
  }

  function Sort(fs: Fields): Fields {
    if fs == [] then [] else Insert(fs[0], Sort(fs[1..]))
  }

  function SortDeep(v: Json): Json {
    match v
    case Arr(items) => Arr(seq(|items|, i requires 0 <= i < |items| => SortDeep(items[i])))
    case Obj(fields) =>
      Obj(Sort(seq(|fields|, i requires 0 <= i < |fields| => (fields[i].0, SortDeep(fields[i].1)))))
    case _ => v
  }

  function SortItems(items: seq<Json>): (r: seq<Json>)
    ensures |r| == |items| && forall i :: 0 <= i < |items| ==> r[i] == SortDeep(items[i])
  {
    seq(|items|, i requires 0 <= i < |items| => SortDeep(items[i]))
  }

  function SortFields(fields: Fields): (r: Fields)
    ensures |r| == |fields| && forall i :: 0 <= i < |fields| ==> r[i] == (fields[i].0, SortDeep(fields[i].1))
  {
    seq(|fields|, i requires 0 <= i < |fields| => (fields[i].0, SortDeep(fields[i].1)))
  }

  /** One level of SortDeep. */
  lemma SortDeepUnfolds(v: Json)
    ensures v.Arr? ==> SortDeep(v) == Arr(SortItems(v.items))
    ensures v.Obj? ==> SortDeep(v) == Obj(Sort(SortFields(v.fields)))
  {
    if v.Arr? {
      assert SortDeep(v).items == SortItems(v.items);
    }
    if v.Obj? {
      assert seq(|v.fields|, i requires 0 <= i < |v.fields| => (v.fields[i].0, SortDeep(v.fields[i].1)))
               == SortFields(v.fields);
    }
  }

  /** Objects are Go maps: keys are distinct, at every depth. */
  predicate WellFormed(v: Json) {
    match v
    case Arr(items) => forall i :: 0 <= i < |items| ==> WellFormed(items[i])
    case Obj(fields) => DistinctKeys(fields) && forall i :: 0 <= i < |fields| ==> WellFormed(fields[i].1)
    case _ => true
  }

  /** The same value: arrays item by item, objects key by key in any order, to any depth. */
  predicate Same(v: Json, w: Json)
    decreases v, 0
  {
    match v
    case Arr(items) =>
      w.Arr? && |items| == |w.items| && forall i :: 0 <= i < |items| ==> Same(items[i], w.items[i])
    case Obj(fields) =>
      w.Obj? && |fields| == |w.fields| && forall i :: 0 <= i < |fields| ==> HasField(fields[i].1, fields[i].0, w.fields)
    case _ => v == w
  }

  /** Some entry of `fs` has the key, and the same value. */
  predicate HasField(value: Json, key: string, fs: Fields)
    decreases value, 1
  {
    exists j :: 0 <= j < |fs| && fs[j].0 == key && Same(value, fs[j].1)
  }

  // ---------------------------------------------------------------- sorting facts

  lemma {:induction false} InsertFacts(f: (string, Json), fs: Fields)
    ensures |Insert(f, fs)| == |fs| + 1
    ensures forall x :: x in Insert(f, fs) <==> x == f || x in fs
    ensures Sorted(fs) ==> Sorted(Insert(f, fs))
    decreases |fs|
  {
    var r := Insert(f, fs);
    if fs == [] {
    } else if Leq(f.0, fs[0].0) {
      if Sorted(fs) {
        forall i, j | 0 <= i < j < |r| ensures Leq(r[i].0, r[j].0) {
          if i == 0 && j > 1 {
            LeqIsTransitive(f.0, fs[0].0, fs[j - 1].0);
          }
        }
      }
    } else {
      InsertFacts(f, fs[1..]);
      assert forall x :: x in fs <==> x == fs[0] || x in fs[1..];
      if Sorted(fs) {
        LeqIsTotal(f.0, fs[0].0);
        forall i, j | 0 <= i < j < |r| ensures Leq(r[i].0, r[j].0) {
          if i == 0 {
            assert r[j] in Insert(f, fs[1..]);
            assert r[j] == f || r[j] in fs[1..];
          }
        }
      }
    }
  }

  lemma {:induction false} SortFacts(fs: Fields)
    ensures |Sort(fs)| == |fs| && Sorted(Sort(fs))
    ensures forall x :: x in Sort(fs) <==> x in fs
    decreases |fs|
  {
    if fs != [] {
      SortFacts(fs[1..]);
      InsertFacts(fs[0], Sort(fs[1..]));
      assert forall x :: x in fs <==> x == fs[0] || x in fs[1..];
    }
  }

  /** The keys of a sequence, all different when there are as many as entries. */
  function Keys(fs: Fields): set<string> {
    set i | 0 <= i < |fs| :: fs[i].0
  }

  lemma {:induction false} KeyCount(fs: Fields)
    ensures |Keys(fs)| <= |fs|
    ensures DistinctKeys(fs) <==> |Keys(fs)| == |fs|
    decreases |fs|
  {
    if fs != [] {
      var init, last := fs[..|fs| - 1], fs[|fs| - 1].0;
      KeyCount(init);
      assert Keys(fs) == Keys(init) + {last};
      if last in Keys(init) {
        var i :| 0 <= i < |init| && init[i].0 == last;
        assert fs[i].0 == fs[|fs| - 1].0;
      }
      if DistinctKeys(fs) {
        assert DistinctKeys(init);
      }
      if |Keys(fs)| == |fs| {
        assert DistinctKeys(init) && last !in Keys(init);
        forall i, j | 0 <= i < j < |fs| ensures fs[i].0 != fs[j].0 {
          assert init[i].0 in Keys(init);
        }
      }
    }
  }

  lemma SortKeepsDistinct(fs: Fields)
    requires DistinctKeys(fs)
    ensures DistinctKeys(Sort(fs))
  {
    SortFacts(fs);
    KeyCount(fs);
    KeyCount(Sort(fs));
    forall k ensures k in Keys(Sort(fs)) <==> k in Keys(fs) {
      if k in Keys(fs) {
        var i :| 0 <= i < |fs| && fs[i].0 == k;
        assert fs[i] in Sort(fs);
      }
      if k in Keys(Sort(fs)) {
        var i :| 0 <= i < |Sort(fs)| && Sort(fs)[i].0 == k;
        assert Sort(fs)[i] in fs;
      }
    }
    assert Keys(Sort(fs)) == Keys(fs);
  }

  /** A sorted sequence with distinct keys is determined by its entries. */
  lemma {:induction false} SortedIsUnique(a: Fields, b: Fields)
    requires Sorted(a) && Sorted(b) && DistinctKeys(a) && DistinctKeys(b) && |a| == |b|
    requires forall x :: x in a ==> x in b
    ensures a == b
    decreases |a|
  {
    if a != [] {
      HeadsAgree(a, b);
      forall x | x in a[1..] ensures x in b[1..] {
        var i :| 0 <= i < |a[1..]| && a[1..][i] == x;
        assert x == a[i + 1] && x in b && x.0 != a[0].0;
        var j :| 0 <= j < |b| && b[j] == x;
        assert b[1..][j - 1] == x;
      }
      SortedIsUnique(a[1..], b[1..]);
      assert a == [a[0]] + a[1..] && b == [b[0]] + b[1..];
    }
  }

  lemma HeadsAgree(a: Fields, b: Fields)
    requires Sorted(a) && Sorted(b) && DistinctKeys(a) && DistinctKeys(b) && |a| == |b| > 0
    requires forall x :: x in a ==> x in b
    ensures a[0] == b[0]
  {
    assert a[0] in b;
    var j :| 0 <= j < |b| && b[j] == a[0];
    if j > 0 {
      // b[0] must occur in a as well: a's keys are as many as b's and lie among them
      KeyCount(a);
      KeyCount(b);
      forall k | k in Keys(a) ensures k in Keys(b) {
        var i :| 0 <= i < |a| && a[i].0 == k;
        assert a[i] in b;
      }
      EqualByCount(Keys(a), Keys(b));
      assert b[0].0 in Keys(b);
      var i :| 0 <= i < |a| && a[i].0 == b[0].0;
      assert Leq(b[0].0, b[j].0);
      assert i > 0 ==> Leq(a[0].0, a[i].0);
      if i > 0 {
        LeqIsAntisymmetric(a[0].0, b[0].0);
      }
    }
  }

  lemma EqualByCount(a: set<string>, b: set<string>)
    requires a <= b && |a| == |b|
    ensures a == b
  {
    assert b == a + (b - a);
    assert |b| == |a| + |b - a|;
    assert b - a == {};
  }

  // ---------------------------------------------------------------- the results

  lemma {:induction false} CanonicalIsWellFormed(v: Json)
    requires WellFormed(v)
    ensures WellFormed(SortDeep(v))
    decreases v
  {
    SortDeepUnfolds(v);
    match v
    case Arr(items) =>
      forall i | 0 <= i < |items| ensures WellFormed(SortItems(items)[i]) {
        CanonicalIsWellFormed(items[i]);
      }
    case Obj(fields) =>
      var mapped := SortFields(fields);
      SortFacts(mapped);
      SortKeepsDistinct(mapped);
      forall i | 0 <= i < |mapped| ensures WellFormed(Sort(mapped)[i].1) {
        assert Sort(mapped)[i] in mapped;
        var j :| 0 <= j < |mapped| && mapped[j] == Sort(mapped)[i];
        CanonicalIsWellFormed(fields[j].1);
      }
    case _ =>
  }

  /** Main result: values that are the same up to key order, at any depth, have one canonical form. */
  lemma {:induction false} CanonicalIgnoresKeyOrder(v: Json, w: Json)
    requires WellFormed(v) && WellFormed(w) && Same(v, w)
    ensures SortDeep(v) == SortDeep(w)
    decreases v
  {
    SortDeepUnfolds(v);
    SortDeepUnfolds(w);
    match v
    case Arr(items) =>
      forall i | 0 <= i < |items| ensures SortDeep(items[i]) == SortDeep(w.items[i]) {
        CanonicalIgnoresKeyOrder(items[i], w.items[i]);
      }
      assert SortItems(items) == SortItems(w.items);
    case Obj(fields) =>
      var a, b := SortFields(fields), SortFields(w.fields);
      SortFacts(a);
      SortFacts(b);
      SortKeepsDistinct(a);
      SortKeepsDistinct(b);
      forall x | x in Sort(a) ensures x in Sort(b) {
        assert x in a;
        var i :| 0 <= i < |a| && a[i] == x;
        assert HasField(fields[i].1, fields[i].0, w.fields);
        var j :| 0 <= j < |w.fields| && w.fields[j].0 == fields[i].0 && Same(fields[i].1, w.fields[j].1);
        CanonicalIgnoresKeyOrder(fields[i].1, w.fields[j].1);
        assert b[j] == x;
      }
      SortedIsUnique(Sort(a), Sort(b));
    case _ =>
  }

  /** Canonical form is the same value as the original. */
  lemma {:induction false} CanonicalIsSame(v: Json)
    requires WellFormed(v)
    ensures Same(v, SortDeep(v))
    decreases v
  {
    SortDeepUnfolds(v);
    match v
    case Arr(items) =>
      forall i | 0 <= i < |items| ensures Same(items[i], SortItems(items)[i]) {
        CanonicalIsSame(items[i]);
      }
    case Obj(fields) =>
      var mapped := SortFields(fields);
      SortFacts(mapped);
      forall i | 0 <= i < |fields|
        ensures HasField(fields[i].1, fields[i].0, Sort(mapped))
      {
        CanonicalIsSame(fields[i].1);
        assert mapped[i] in Sort(mapped);
        var j :| 0 <= j < |mapped| && Sort(mapped)[j] == mapped[i];
        assert Sort(mapped)[j].0 == fields[i].0 && Same(fields[i].1, Sort(mapped)[j].1);
      }
    case _ =>
  }

  /** Main result: canonicalising twice is canonicalising once. */
  lemma CanonicalIsIdempotent(v: Json)
    requires WellFormed(v)
    ensures SortDeep(SortDeep(v)) == SortDeep(v)
  {
    CanonicalIsSame(v);
    CanonicalIsWellFormed(v);
    CanonicalIgnoresKeyOrder(v, SortDeep(v));
  }

  lemma {:induction false} SameIsSymmetric(v: Json, w: Json)
    requires WellFormed(v) && WellFormed(w) && Same(v, w)
    ensures Same(w, v)
    decreases v
  {
    match v
    case Arr(items) =>
      forall i | 0 <= i < |items| ensures Same(w.items[i], items[i]) {
        SameIsSymmetric(items[i], w.items[i]);
      }
    case Obj(fields) =>
      SameKeys(fields, w.fields);
      forall j | 0 <= j < |w.fields|
        ensures HasField(w.fields[j].1, w.fields[j].0, fields)
      {
        assert w.fields[j].0 in Keys(w.fields);
        var i :| 0 <= i < |fields| && fields[i].0 == w.fields[j].0;
        assert HasField(fields[i].1, fields[i].0, w.fields);
        assert Same(fields[i].1, w.fields[j].1);
        SameIsSymmetric(fields[i].1, w.fields[j].1);
      }
    case _ =>
  }

  /** As many distinct keys on both sides, one side's among the other's: the same keys. */
  lemma SameKeys(a: Fields, b: Fields)
    requires DistinctKeys(a) && DistinctKeys(b) && |a| == |b|
    requires forall i :: 0 <= i < |a| ==> HasField(a[i].1, a[i].0, b)
    ensures Keys(a) == Keys(b)
  {
    KeyCount(a);
    KeyCount(b);
    forall k | k in Keys(a) ensures k in Keys(b) {
      var i :| 0 <= i < |a| && a[i].0 == k;
      var j :| 0 <= j < |b| && b[j].0 == a[i].0 && Same(a[i].1, b[j].1);
    }
    EqualByCount(Keys(a), Keys(b));
  }

  lemma {:induction false} SameIsTransitive(u: Json, v: Json, w: Json)
    requires Same(u, v) && Same(v, w)
    ensures Same(u, w)
    decreases u
  {
    match u
    case Arr(items) =>
      forall i | 0 <= i < |items| ensures Same(items[i], w.items[i]) {
        SameIsTransitive(items[i], v.items[i], w.items[i]);
      }
    case Obj(fields) =>
      forall i | 0 <= i < |fields|
        ensures HasField(fields[i].1, fields[i].0, w.fields)
      {
        assert HasField(fields[i].1, fields[i].0, v.fields);
        var j :| 0 <= j < |v.fields| && v.fields[j].0 == fields[i].0 && Same(fields[i].1, v.fields[j].1);
        assert HasField(v.fields[j].1, v.fields[j].0, w.fields);
        var k :| 0 <= k < |w.fields| && w.fields[k].0 == v.fields[j].0 && Same(v.fields[j].1, w.fields[k].1);
        SameIsTransitive(fields[i].1, v.fields[j].1, w.fields[k].1);
      }
    case _ =>
  }

  /** Main result, exact: two values share a canonical form if and only if they differ in key order alone. */
  lemma CanonicalDecidesSameness(v: Json, w: Json)
    requires WellFormed(v) && WellFormed(w)
    ensures SortDeep(v) == SortDeep(w) <==> Same(v, w)
  {
    if Same(v, w) {
      CanonicalIgnoresKeyOrder(v, w);
    }
    if SortDeep(v) == SortDeep(w) {
      CanonicalIsSame(v);
      CanonicalIsSame(w);
      CanonicalIsWellFormed(w);
      SameIsSymmetric(w, SortDeep(w));
      SameIsTransitive(v, SortDeep(v), w);
    }
  }
}
