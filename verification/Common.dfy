/** Small vocabulary shared by the pallet models: options, bytes, sequence helpers, a stable sort. */
module Common {

  datatype Option<+T> = None | Some(value: T)

  newtype byte = x: int | 0 <= x < 256
  type Bytes = seq<byte>

  /** Parachain identifiers (`ParaId`, an unsigned 32-bit number compared by value). */
  type ParaId = nat

  /** A message as it was relayed: the relay block it was sent at and its payload. */
  datatype Message = Message(sentAt: nat, data: Bytes)

  function Min(a: nat, b: nat): nat { if a <= b then a else b }

  /** Saturating subtraction on unsigned numbers. */
  function SatSub(a: nat, b: nat): nat { if a <= b then 0 else a - b }

  // ---- concatenation ----

  lemma Associative<T>(a: seq<T>, b: seq<T>, c: seq<T>)
    ensures a + (b + c) == a + b + c
  {
  }

  function Concat<T>(ss: seq<seq<T>>): seq<T> {
    if ss == [] then [] else ss[0] + Concat(ss[1..])
  }

  lemma {:induction false} ConcatAppend<T>(a: seq<seq<T>>, b: seq<seq<T>>)
    ensures Concat(a + b) == Concat(a) + Concat(b)
  {
    if a == [] {
      assert a + b == b;
    } else {
      ConcatAppend(a[1..], b);
      assert (a + b)[0] == a[0] && (a + b)[1..] == a[1..] + b;
      Associative(a[0], Concat(a[1..]), Concat(b));
    }
  }

  lemma ConcatSnoc<T>(a: seq<seq<T>>, x: seq<T>)
    ensures Concat(a + [x]) == Concat(a) + x
  {
    ConcatAppend(a, [x]);
    assert [x][1..] == [];
    assert Concat([x]) == x + Concat<T>([]);
  }

  // ---- filtering ----

  function Filter<T>(s: seq<T>, p: T -> bool): (r: seq<T>)
    ensures |r| <= |s|
  {
    if s == [] then []
    else if p(s[0]) then [s[0]] + Filter(s[1..], p)
    else Filter(s[1..], p)
  }

  lemma {:induction false} FilterMember<T>(s: seq<T>, p: T -> bool, x: T)
    ensures x in Filter(s, p) <==> x in s && p(x)
  {
    if s != [] { FilterMember(s[1..], p, x); }
  }

  lemma {:induction false} FilterAppend<T>(a: seq<T>, b: seq<T>, p: T -> bool)
    ensures Filter(a + b, p) == Filter(a, p) + Filter(b, p)
  {
    if a == [] {
      assert a + b == b;
    } else {
      FilterAppend(a[1..], b, p);
      assert (a + b)[0] == a[0] && (a + b)[1..] == a[1..] + b;
      Associative([a[0]], Filter(a[1..], p), Filter(b, p));
    }
  }

  lemma {:induction false} FilterAll<T>(s: seq<T>, p: T -> bool)
    requires forall x :: x in s ==> p(x)
    ensures Filter(s, p) == s
  {
    if s != [] { FilterAll(s[1..], p); }
  }

  lemma {:induction false} FilterNone<T>(s: seq<T>, p: T -> bool)
    requires forall x :: x in s ==> !p(x)
    ensures Filter(s, p) == []
  {
    if s != [] { FilterNone(s[1..], p); }
  }

  // ---- stable sorting (the library's `sort_by`) ----

  ghost predicate TotalPreorder<T(!new)>(le: (T, T) -> bool) {
    && (forall x, y :: le(x, y) || le(y, x))
    && (forall x, y, z :: le(x, y) && le(y, z) ==> le(x, z))
  }

  ghost predicate SortedBy<T>(s: seq<T>, le: (T, T) -> bool) {
    forall i, j :: 0 <= i < j < |s| ==> le(s[i], s[j])
  }

  /** Inserts `x` behind every element that is at most `x`. */
  function Insert<T>(s: seq<T>, x: T, le: (T, T) -> bool): (r: seq<T>)
    ensures multiset(r) == multiset(s) + multiset{x}
  {
    if s == [] || le(s[|s| - 1], x) then s + [x]
    else
      var r := Insert(s[..|s| - 1], x, le) + [s[|s| - 1]];
      assert s == s[..|s| - 1] + [s[|s| - 1]];
      r
  }

  function StableSort<T>(s: seq<T>, le: (T, T) -> bool): (r: seq<T>)
    ensures multiset(r) == multiset(s)
    ensures |r| == |s|
  {
    if s == [] then []
    else
      var r := Insert(StableSort(s[..|s| - 1], le), s[|s| - 1], le);
      assert s == s[..|s| - 1] + [s[|s| - 1]];
      assert |multiset(r)| == |multiset(s)|;
      r
  }

  lemma SameElements<T>(a: seq<T>, b: seq<T>)
    requires multiset(a) == multiset(b)
    ensures forall x :: x in a <==> x in b
  {
    forall x ensures x in a <==> x in b {
      assert x in a <==> x in multiset(a);
      assert x in b <==> x in multiset(b);
    }
  }

  lemma {:induction false} InsertSorted<T(!new)>(s: seq<T>, x: T, le: (T, T) -> bool)
    requires TotalPreorder(le) && SortedBy(s, le)
    ensures SortedBy(Insert(s, x, le), le)
  {
    if s == [] {
    } else if le(s[|s| - 1], x) {
      forall i, j | 0 <= i < j < |s| + 1 ensures le((s + [x])[i], (s + [x])[j]) {
        if j == |s| { assert i == |s| - 1 || le(s[i], s[|s| - 1]); }
      }
    } else {
      var init, last := s[..|s| - 1], s[|s| - 1];
      InsertSorted(init, x, le);
      var r := Insert(init, x, le);
      forall i | 0 <= i < |r| ensures le(r[i], last) {
        assert r[i] in multiset(r);
        assert r[i] == x || r[i] in multiset(init);
        assert r[i] == x || r[i] in init;
      }
    }
  }

  lemma {:induction false} StableSortSorted<T(!new)>(s: seq<T>, le: (T, T) -> bool)
    requires TotalPreorder(le)
    ensures SortedBy(StableSort(s, le), le)
  {
    if s != [] {
      StableSortSorted(s[..|s| - 1], le);
      InsertSorted(StableSort(s[..|s| - 1], le), s[|s| - 1], le);
    }
  }

  ghost predicate DistinctKeys<T>(s: seq<T>, key: T -> nat) {
    forall i, j :: 0 <= i < j < |s| ==> key(s[i]) != key(s[j])
  }

  lemma {:induction false} InsertDistinct<T(!new)>(s: seq<T>, x: T, le: (T, T) -> bool, key: T -> nat)
    requires DistinctKeys(s, key) && forall y :: y in s ==> key(y) != key(x)
    ensures DistinctKeys(Insert(s, x, le), key)
  {
    if s != [] && !le(s[|s| - 1], x) {
      var init, last := s[..|s| - 1], s[|s| - 1];
      InsertDistinct(init, x, le, key);
      var r := Insert(init, x, le);
      forall i | 0 <= i < |r| ensures key(r[i]) != key(last) {
        assert r[i] in multiset(r);
        if r[i] == x {
          assert last in s;
        } else {
          assert r[i] in multiset(init);
          assert r[i] in init;
        }
      }
    }
  }

  /** Sorting keeps distinct keys distinct, whatever the order is. */
  lemma {:induction false} SortDistinct<T(!new)>(s: seq<T>, le: (T, T) -> bool, key: T -> nat)
    requires DistinctKeys(s, key)
    ensures DistinctKeys(StableSort(s, le), key)
  {
    if s != [] {
      var init, last := s[..|s| - 1], s[|s| - 1];
      SortDistinct(init, le, key);
      SameElements(StableSort(init, le), init);
      forall y | y in StableSort(init, le) ensures key(y) != key(last) {
        assert y in init;
        var i :| 0 <= i < |init| && init[i] == y;
        assert s[i] == y;
      }
      InsertDistinct(StableSort(init, le), last, le, key);
    }
  }

  lemma {:induction false} InsertFilterOther<T>(s: seq<T>, x: T, le: (T, T) -> bool, p: T -> bool)
    requires !p(x)
    ensures Filter(Insert(s, x, le), p) == Filter(s, p)
  {
    if s == [] || le(s[|s| - 1], x) {
      FilterAppend(s, [x], p);
    } else {
      var init, last := s[..|s| - 1], s[|s| - 1];
      InsertFilterOther(init, x, le, p);
      FilterAppend(Insert(init, x, le), [last], p);
      FilterAppend(init, [last], p);
      assert s == init + [last];
    }
  }

  lemma {:induction false} InsertFilterLast<T(!new)>(s: seq<T>, x: T, le: (T, T) -> bool, p: T -> bool)
    requires p(x)
    requires TotalPreorder(le) && SortedBy(s, le)
    requires forall y :: y in s && p(y) ==> le(y, x)
    ensures Filter(Insert(s, x, le), p) == Filter(s, p) + [x]
  {
    hide Filter;
    if s == [] || le(s[|s| - 1], x) {
      FilterSnocIs(s, x, p);
    } else {
      var init, last := s[..|s| - 1], s[|s| - 1];
      assert last in s;
      assert !p(last);
      InsertFilterLast(init, x, le, p);
      FilterSnocIs(Insert(init, x, le), last, p);
      FilterSnocIs(init, last, p);
      assert s == init + [last];
    }
  }

  lemma FilterSnocIs<T>(s: seq<T>, x: T, p: T -> bool)
    ensures Filter(s + [x], p) == if p(x) then Filter(s, p) + [x] else Filter(s, p)
  {
    hide Filter;
    FilterAppend(s, [x], p);
    FilterOne(x, p);
    assert Filter(s, p) + [] == Filter(s, p);
  }

  lemma {:induction false} FiltersCommute<T>(s: seq<T>, p: T -> bool, q: T -> bool)
    ensures Filter(Filter(s, p), q) == Filter(Filter(s, q), p)
  {
    if s != [] { FiltersCommute(s[1..], p, q); }
  }

  lemma FilterOne<T>(x: T, p: T -> bool)
    ensures Filter([x], p) == if p(x) then [x] else []
  {
    assert [x][1..] == [];
  }

  lemma SortedSnoc<T>(s: seq<T>, x: T, le: (T, T) -> bool)
    requires SortedBy(s + [x], le)
    ensures SortedBy(s, le) && forall y :: y in s ==> le(y, x)
  {
    var t := s + [x];
    forall i, j | 0 <= i < j < |s| ensures le(s[i], s[j]) { assert s[i] == t[i] && s[j] == t[j]; }
    forall y | y in s ensures le(y, x) {
      var i :| 0 <= i < |s| && s[i] == y;
      assert t[i] == y && t[|s|] == x;
    }
  }

  /** Stability: a class of elements already in order keeps its order. */
  lemma {:induction false} StableSortFilter<T(!new)>(s: seq<T>, le: (T, T) -> bool, p: T -> bool)
    requires TotalPreorder(le)
    requires SortedBy(Filter(s, p), le)
    ensures Filter(StableSort(s, le), p) == Filter(s, p)
  {
    if s != [] {
      var init, last := s[..|s| - 1], s[|s| - 1];
      assert s == init + [last];
      FilterSnocIs(init, last, p);
      if p(last) { SortedSnoc(Filter(init, p), last, le); }
      StableSortFilter(init, le, p);
      var r := StableSort(init, le);
      if p(last) {
        StableSortSorted(init, le);
        forall y | y in r && p(y) ensures le(y, last) { FilterMember(r, p, y); }
        InsertFilterLast(r, last, le, p);
      } else {
        InsertFilterOther(r, last, le, p);
      }
    }
  }

  /** The elements of a class stay in order when a sorted list is restricted to it. */
  lemma {:induction false} FilterSorted<T(!new)>(s: seq<T>, le: (T, T) -> bool, p: T -> bool)
    requires SortedBy(s, le)
    ensures SortedBy(Filter(s, p), le)
  {
    if s != [] {
      assert SortedBy(s[1..], le);
      FilterSorted(s[1..], le, p);
      var rest := Filter(s[1..], p);
      forall y | y in rest ensures le(s[0], y) {
        FilterMember(s[1..], p, y);
      }
    }
  }

  // ---- the library's halving search ----

  /** Looks for the key `x` in `s[lo..hi]`; on an unsorted list a present key may be missed. */
  function Search<T>(s: seq<T>, key: T -> nat, x: nat, lo: nat, hi: nat): (r: Option<nat>)
    requires lo <= hi <= |s|
    ensures r.Some? ==> lo <= r.value < hi && key(s[r.value]) == x
    decreases hi - lo
  {
    if lo == hi then None
    else
      var mid := lo + (hi - lo) / 2;
      if key(s[mid]) < x then Search(s, key, x, mid + 1, hi)
      else if key(s[mid]) > x then Search(s, key, x, lo, mid)
      else Some(mid)
  }

  ghost predicate Ascending<T>(s: seq<T>, key: T -> nat) {
    forall i, j :: 0 <= i < j < |s| ==> key(s[i]) < key(s[j])
  }

  /** On a strictly ascending list the search misses nothing. */
  lemma {:induction false} SearchFinds<T>(s: seq<T>, key: T -> nat, x: nat, lo: nat, hi: nat)
    requires Ascending(s, key) && lo <= hi <= |s|
    requires forall i :: 0 <= i < |s| && key(s[i]) == x ==> lo <= i < hi
    ensures Search(s, key, x, lo, hi).None? ==> forall i :: 0 <= i < |s| ==> key(s[i]) != x
    decreases hi - lo
  {
    if lo < hi {
      var mid := lo + (hi - lo) / 2;
      if key(s[mid]) < x {
        SearchFinds(s, key, x, mid + 1, hi);
      } else if key(s[mid]) > x {
        SearchFinds(s, key, x, lo, mid);
      }
    }
  }

  lemma SameTail<T>(a: seq<T>, b: seq<T>, c: seq<T>)
    requires a + c == b + c
    ensures a == b
  {
    assert |a| == |b|;
    assert (a + c)[..|a|] == a && (b + c)[..|b|] == b;
  }

  lemma SameHead<T>(a: seq<T>, b: seq<T>, c: seq<T>)
    requires a + b == a + c
    ensures b == c
  {
    assert (a + b)[|a|..] == b && (a + c)[|a|..] == c;
  }

  // ---- storage double maps: pages by parachain and index, absent pages read as empty ----

  type DoubleMap = map<ParaId, map<nat, Bytes>>

  function Inner(pages: DoubleMap, r: ParaId): map<nat, Bytes> {
    if r in pages then pages[r] else map[]
  }

  function Page(inner: map<nat, Bytes>, i: nat): Bytes { if i in inner then inner[i] else [] }

  function StorePages(pages: DoubleMap, r: ParaId, inner: map<nat, Bytes>): DoubleMap {
    if Inner(pages, r) == inner then pages else pages[r := inner]
  }
}
