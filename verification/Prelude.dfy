/** Shared vocabulary: optional values, sums over finite maps, filtering and stable sorting. */
module Prelude {

  datatype Option<+T> = None | Some(value: T)

  /** Python's whitespace, for strip(). */
  predicate IsSpace(c: char) {
    || 9 <= c as int <= 13 || 28 <= c as int <= 32
    || c as int in {0x85, 0xa0, 0x1680, 0x2028, 0x2029, 0x202f, 0x205f, 0x3000}
    || 0x2000 <= c as int <= 0x200a
  }

  predicate IsBlank(s: string) {
    forall i :: 0 <= i < |s| ==> IsSpace(s[i])
  }

  /** Tab, line and separator controls, the blanks of all widths, and nothing else. */
  const SPACES: set<int> := {
    9, 10, 11, 12, 13, 28, 29, 30, 31, 32, 133, 160, 5760, 8192, 8193, 8194, 8195, 8196, 8197, 8198, 8199, 8200, 8201,
    8202, 8232, 8233, 8239, 8287, 12288}

  lemma BlankMeans(s: string)
    ensures IsBlank(s) <==> forall i :: 0 <= i < |s| ==> s[i] as int in SPACES
  {
    forall i | 0 <= i < |s| ensures IsSpace(s[i]) <==> s[i] as int in SPACES {
      SpaceMeans(s[i]);
    }
  }

  lemma SpaceMeans(c: char)
    ensures IsSpace(c) <==> c as int in SPACES
  {
  }

  // ----- sums over the values of a finite map -----

  ghost function SumValues<K(!new)>(m: map<K, int>): int
    decreases |m.Keys|
  {
    if m.Keys == {} then 0 else
      var k :| k in m;
      assert (m - {k}).Keys == m.Keys - {k};
      m[k] + SumValues(m - {k})
  }

  lemma {:induction false} SumWithout<K(!new)>(m: map<K, int>, k: K)
    requires k in m
    ensures SumValues(m) == m[k] + SumValues(m - {k})
    decreases |m.Keys|
  {
    var j :| j in m && SumValues(m) == m[j] + SumValues(m - {j});
    if j != k {
      assert (m - {j}).Keys == m.Keys - {j};
      assert (m - {k}).Keys == m.Keys - {k};
      SumWithout(m - {j}, k);
      SumWithout(m - {k}, j);
      assert (m - {j}) - {k} == (m - {k}) - {j};
    }
  }

  lemma SumUpdate<K(!new)>(m: map<K, int>, k: K, v: int)
    ensures SumValues(m[k := v]) == SumValues(m) - (if k in m then m[k] else 0) + v
  {
    SumWithout(m[k := v], k);
    assert m[k := v] - {k} == m - {k};
    if k in m {
      SumWithout(m, k);
    } else {
      assert m - {k} == m;
    }
  }

  lemma {:induction false} SumNonNegative<K(!new)>(m: map<K, int>)
    requires forall k :: k in m ==> 0 <= m[k]
    ensures 0 <= SumValues(m)
    decreases |m.Keys|
  {
    if m.Keys != {} {
      var k :| k in m && SumValues(m) == m[k] + SumValues(m - {k});
      assert (m - {k}).Keys == m.Keys - {k};
      SumNonNegative(m - {k});
    }
  }

  lemma {:induction false} SumMonotone<K(!new)>(m: map<K, int>, n: map<K, int>)
    requires m.Keys == n.Keys
    requires forall k :: k in m ==> m[k] <= n[k]
    ensures SumValues(m) <= SumValues(n)
    decreases |m.Keys|
  {
    if m.Keys != {} {
      var k :| k in m && SumValues(m) == m[k] + SumValues(m - {k});
      SumWithout(n, k);
      assert (m - {k}).Keys == m.Keys - {k} == (n - {k}).Keys;
      SumMonotone(m - {k}, n - {k});
    }
  }

  // ----- filtering a sequence -----

  function Filter<T(!new)>(s: seq<T>, keep: T -> bool): (r: seq<T>)
    ensures |r| <= |s|
    ensures forall x :: x in r <==> x in s && keep(x)
  {
    if s == [] then [] else (if keep(s[0]) then [s[0]] else []) + Filter(s[1..], keep)
  }

  lemma AppendLast<T>(a: seq<T>, b: seq<T>)
    ensures a + b == if b == [] then a else (a + b[..|b| - 1]) + [b[|b| - 1]]
  {
  }

  lemma {:induction false} FilterConcat<T(!new)>(a: seq<T>, b: seq<T>, keep: T -> bool)
    ensures Filter(a + b, keep) == Filter(a, keep) + Filter(b, keep)
  {
    if a == [] {
      assert a + b == b;
    } else {
      assert (a + b)[1..] == a[1..] + b;
      FilterConcat(a[1..], b, keep);
    }
  }

  /** Filtering keeps exactly the occurrences of the elements it accepts. */
  lemma {:induction false} FilterCounts<T(!new)>(s: seq<T>, keep: T -> bool, x: T)
    ensures multiset(Filter(s, keep))[x] == if keep(x) then multiset(s)[x] else 0
  {
    if s != [] {
      FilterCounts(s[1..], keep, x);
      assert s == [s[0]] + s[1..];
    }
  }

  /** Replacing the first element not yet processed. */
  lemma ReplaceNext<T>(done: seq<T>, s: seq<T>, i: nat, x: T)
    requires i == |done| < |s|
    ensures (done + s[i..])[i := x] == (done + [x]) + s[i + 1..]
  {
  }

  // ----- stable sorting, as Python's sorted() -----

  ghost predicate TotalPreorder<T(!new)>(leq: (T, T) -> bool) {
    && (forall x, y :: leq(x, y) || leq(y, x))
    && (forall x, y, z :: leq(x, y) && leq(y, z) ==> leq(x, z))
  }

  ghost predicate SortedBy<T>(s: seq<T>, leq: (T, T) -> bool) {
    forall i, j :: 0 <= i < j < |s| ==> leq(s[i], s[j])
  }

  function Insert<T>(x: T, s: seq<T>, leq: (T, T) -> bool): seq<T> {
    if s == [] || leq(x, s[0]) then [x] + s else [s[0]] + Insert(x, s[1..], leq)
  }

  function Sort<T>(s: seq<T>, leq: (T, T) -> bool): seq<T> {
    if s == [] then [] else Insert(s[0], Sort(s[1..], leq), leq)
  }

  lemma {:induction false} InsertPermutes<T>(x: T, s: seq<T>, leq: (T, T) -> bool)
    ensures multiset(Insert(x, s, leq)) == multiset([x] + s)
  {
    if !(s == [] || leq(x, s[0])) {
      InsertPermutes(x, s[1..], leq);
      assert s == [s[0]] + s[1..];
    }
  }

  lemma {:induction false} InsertSorted<T(!new)>(x: T, s: seq<T>, leq: (T, T) -> bool)
    requires TotalPreorder(leq) && SortedBy(s, leq)
    ensures SortedBy(Insert(x, s, leq), leq)
  {
    if !(s == [] || leq(x, s[0])) {
      var t := Insert(x, s[1..], leq);
      InsertSorted(x, s[1..], leq);
      InsertPermutes(x, s[1..], leq);
      forall j | 0 <= j < |t| ensures leq(s[0], t[j]) {
        assert t[j] in multiset(t);
        assert t[j] in multiset([x] + s[1..]);
      }
    }
  }

  lemma {:induction false} SortSorts<T(!new)>(s: seq<T>, leq: (T, T) -> bool)
    requires TotalPreorder(leq)
    ensures SortedBy(Sort(s, leq), leq)
    ensures multiset(Sort(s, leq)) == multiset(s)
  {
    if s != [] {
      SortSorts(s[1..], leq);
      InsertSorted(s[0], Sort(s[1..], leq), leq);
      InsertPermutes(s[0], Sort(s[1..], leq), leq);
      assert s == [s[0]] + s[1..];
    }
  }

  lemma FilterCons<T(!new)>(x: T, s: seq<T>, keep: T -> bool)
    ensures Filter([x] + s, keep) == (if keep(x) then [x] else []) + Filter(s, keep)
  {
    assert ([x] + s)[1..] == s;
  }

  lemma OnlyOne<T>(a: seq<T>, b: seq<T>, c: seq<T>)
    requires a == [] || b == []
    ensures a + (b + c) == b + (a + c)
  {
  }

  lemma {:induction false} InsertStable<T(!new)>(x: T, s: seq<T>, leq: (T, T) -> bool, keep: T -> bool)
    requires forall a, b :: keep(a) && keep(b) ==> leq(a, b)
    ensures Filter(Insert(x, s, leq), keep) == (if keep(x) then [x] else []) + Filter(s, keep)
  {
    if s == [] || leq(x, s[0]) {
      FilterCons(x, s, keep);
    } else {
      var first, second := if keep(s[0]) then [s[0]] else [], if keep(x) then [x] else [];
      InsertStable(x, s[1..], leq, keep);
      FilterCons(s[0], Insert(x, s[1..], leq), keep);
      OnlyOne(first, second, Filter(s[1..], keep));
    }
  }

  /** Elements that the order does not tell apart stay in the order they came in. */
  lemma {:induction false} SortStable<T(!new)>(s: seq<T>, leq: (T, T) -> bool, keep: T -> bool)
    requires forall a, b :: keep(a) && keep(b) ==> leq(a, b)
    ensures Filter(Sort(s, leq), keep) == Filter(s, keep)
  {
    if s != [] {
      SortStable(s[1..], leq, keep);
      InsertStable(s[0], Sort(s[1..], leq), leq, keep);
      FilterCons(s[0], Sort(s[1..], leq), keep);
    }
  }

  lemma HeadOut<T>(s: seq<T>)
    requires s != []
    ensures multiset(s[1..]) == multiset(s) - multiset{s[0]}
  {
    assert s == [s[0]] + s[1..];
  }

  /** Two sorted arrangements of the same elements coincide when the order tells them apart. */
  lemma {:induction false} SortedUnique<T(!new)>(s: seq<T>, t: seq<T>, leq: (T, T) -> bool)
    requires SortedBy(s, leq) && SortedBy(t, leq) && multiset(s) == multiset(t)
    requires forall x, y :: x in s && y in s && leq(x, y) && leq(y, x) ==> x == y
    ensures s == t
  {
    assert |s| == |multiset(s)| == |multiset(t)| == |t|;
    if s != [] {
      assert s[0] in multiset(t) && t[0] in multiset(s);
      assert s[0] == t[0];
      HeadOut(s);
      HeadOut(t);
      SortedUnique(s[1..], t[1..], leq);
    }
  }
}
