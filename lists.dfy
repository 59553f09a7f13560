/**
 * The Array.prototype operations the dashboard is written with (find, findIndex, some,
 * filter, map, a counting reduce and an in-place sort), each with the contract the
 * JavaScript built-in promises.
 */
module Lists {
  import opened Wrappers

  /** Array.prototype.findIndex: the first index whose element satisfies `p`. */
  function FindIndex<T>(s: seq<T>, p: T -> bool): (r: Option<nat>)
    ensures r.Some? ==> r.value < |s| && p(s[r.value]) && forall j :: 0 <= j < r.value ==> !p(s[j])
    ensures r.None? ==> forall j :: 0 <= j < |s| ==> !p(s[j])
  {
    if s == [] then None
    else if p(s[0]) then Some(0)
    else match FindIndex(s[1..], p)
      case Some(i) => Some(i + 1)
      case None => None
  }

  /** An index that satisfies `p` with none before it is the one `FindIndex` returns. */
  lemma FindIndexAt<T>(s: seq<T>, p: T -> bool, k: nat)
    requires k < |s| && p(s[k]) && forall j :: 0 <= j < k ==> !p(s[j])
    ensures FindIndex(s, p) == Some(k)
  {
  }

  /** Array.prototype.find: the first element that satisfies `p`. */
  function Find<T(!new)>(s: seq<T>, p: T -> bool): (r: Option<T>)
    ensures r.Some? ==> r.value in s && p(r.value)
    ensures r.None? <==> forall x :: x in s ==> !p(x)
  {
    match FindIndex(s, p)
    case Some(i) => Some(s[i])
    case None => None
  }

  /** Array.prototype.some. */
  function Any<T>(s: seq<T>, p: T -> bool): (r: bool)
    ensures r <==> exists i :: 0 <= i < |s| && p(s[i])
  {
    FindIndex(s, p).Some?
  }

  /** `r` is `s` with some elements left out, the rest in their original order. */
  predicate IsSubsequence<T(==)>(r: seq<T>, s: seq<T>)
    decreases |s|
  {
    if r == [] then true
    else if s == [] then false
    else if r[0] == s[0] then IsSubsequence(r[1..], s[1..])
    else IsSubsequence(r, s[1..])
  }

  lemma {:induction false} SubsequenceShorter<T>(r: seq<T>, s: seq<T>)
    requires IsSubsequence(r, s)
    ensures |r| <= |s|
    decreases |s|
  {
    if r != [] {
      if r[0] == s[0] { SubsequenceShorter(r[1..], s[1..]); } else { SubsequenceShorter(r, s[1..]); }
    }
  }

  /** Array.prototype.filter: the elements that satisfy `p`, in order. */
  function Filter<T(!new)>(s: seq<T>, p: T -> bool): (r: seq<T>)
    ensures |r| <= |s|
    ensures forall x :: x in r <==> x in s && p(x)
    ensures forall i :: 0 <= i < |r| ==> p(r[i])
    ensures IsSubsequence(r, s)
    decreases |s|
  {
    if s == [] then []
    else
      var rest := Filter(s[1..], p);
      assert s == [s[0]] + s[1..];
      if p(s[0]) then
        assert ([s[0]] + rest)[1..] == rest;
        [s[0]] + rest
      else
        assert rest != [] ==> rest[0] in s[1..];
        SkipHead(rest, s, p);
        rest
  }

  lemma SkipHead<T(!new)>(rest: seq<T>, s: seq<T>, p: T -> bool)
    requires s != [] && !p(s[0]) && IsSubsequence(rest, s[1..])
    requires forall i :: 0 <= i < |rest| ==> p(rest[i])
    ensures IsSubsequence(rest, s)
  {
    if rest != [] {
      assert p(rest[0]);
    }
  }

  /** Filtering a list whose every element passes changes nothing. */
  lemma {:induction false} FilterKeepsAll<T(!new)>(s: seq<T>, p: T -> bool)
    requires forall i :: 0 <= i < |s| ==> p(s[i])
    ensures Filter(s, p) == s
    decreases |s|
  {
    if s != [] {
      FilterKeepsAll(s[1..], p);
      assert s == [s[0]] + s[1..];
    }
  }

  /** Filtering a list with one more element at the end. */
  lemma {:induction false} FilterSnoc<T(!new)>(s: seq<T>, x: T, p: T -> bool)
    ensures Filter(s + [x], p) == Filter(s, p) + if p(x) then [x] else []
    decreases |s|
  {
    if s == [] {
      assert s + [x] == [x];
      assert [x][1..] == [];
    } else {
      assert (s + [x])[0] == s[0];
      assert (s + [x])[1..] == s[1..] + [x];
      FilterSnoc(s[1..], x, p);
    }
  }

  /** The number of elements that satisfy `p`. */
  function Count<T(!new)>(s: seq<T>, p: T -> bool): nat
  {
    |Filter(s, p)|
  }

  /** An element that fails `p` keeps the count below the length. */
  lemma {:induction false} CountBelowLength<T(!new)>(s: seq<T>, p: T -> bool, i: nat)
    requires i < |s| && !p(s[i])
    ensures Count(s, p) < |s|
    decreases |s|
  {
    if i > 0 {
      CountBelowLength(s[1..], p, i - 1);
    }
  }

  /** Counting splits over concatenation. */
  lemma {:induction false} CountAppend<T(!new)>(s: seq<T>, t: seq<T>, p: T -> bool)
    ensures Count(s + t, p) == Count(s, p) + Count(t, p)
    decreases |s|
  {
    if s == [] {
      assert s + t == t;
    } else {
      assert (s + t)[1..] == s[1..] + t;
      CountAppend(s[1..], t, p);
    }
  }

  /** Array.prototype.map. */
  function Map<T, U>(s: seq<T>, f: T -> U): (r: seq<U>)
    ensures |r| == |s| && forall i :: 0 <= i < |s| ==> r[i] == f(s[i])
  {
    if s == [] then [] else [f(s[0])] + Map(s[1..], f)
  }

  /** Mapping a list with one more element at the end. */
  lemma MapSnoc<T, U>(s: seq<T>, x: T, f: T -> U)
    ensures Map(s + [x], f) == Map(s, f) + [f(x)]
  {
    assert forall i :: 0 <= i < |s| ==> (s + [x])[i] == s[i];
  }

  /** Mapping splits over concatenation. */
  lemma MapAppend<T, U>(a: seq<T>, b: seq<T>, f: T -> U)
    ensures Map(a + b, f) == Map(a, f) + Map(b, f)
  {
    assert forall i :: 0 <= i < |a| ==> (a + b)[i] == a[i];
    assert forall i :: 0 <= i < |b| ==> (a + b)[|a| + i] == b[i];
  }

  /** `s.map((x, i) => f(x, i))`, built from the front of the list. */
  function MapIndexed<T, U>(s: seq<T>, f: (T, nat) -> U): (r: seq<U>)
    ensures |r| == |s|
  {
    if s == [] then []
    else
      var k := |s| - 1;
      MapIndexed(s[..k], f) + [f(s[k], k)]
  }

  /** The element at `k` of `MapIndexed` is `f` applied to the k-th element and `k`. */
  lemma {:induction false} MapIndexedAt<T, U>(s: seq<T>, f: (T, nat) -> U, k: nat)
    requires k < |s|
    ensures MapIndexed(s, f)[k] == f(s[k], k)
    decreases |s|
  {
    var last := |s| - 1;
    if k < last {
      assert s[..last][k] == s[k];
      MapIndexedAt(s[..last], f, k);
    }
  }

  // ---- Counting reduce: `acc[k] = (acc[k] || 0) + 1` -----------------------

  /** The tally `s.reduce((acc, x) => { acc[k(x)] = (acc[k(x)] || 0) + 1; return acc }, {})`. */
  function Tally(keys: seq<int>): (m: map<int, nat>)
    ensures m.Keys == set x | x in keys
    ensures forall k :: k in m ==> m[k] == multiset(keys)[k]
  {
    if keys == [] then map[]
    else
      var init := keys[..|keys| - 1];
      var k := keys[|keys| - 1];
      var m := Tally(init);
      assert keys == init + [k];
      assert (set x | x in init) + {k} == set x | x in keys;
      m[k := (if k in m then m[k] else 0) + 1]
  }

  // ---- `[...new Set(s)]` and the default string sort -------------------------

  /** `[...new Set(s)]`: the first occurrence of each element, in order. */
  function Dedup<T(==,!new)>(s: seq<T>): (r: seq<T>)
    ensures forall x :: x in r <==> x in s
    ensures forall i, j :: 0 <= i < j < |r| ==> r[i] != r[j]
  {
    if s == [] then []
    else
      var init := s[..|s| - 1];
      var d := Dedup(init);
      assert s == init + [s[|s| - 1]];
      if s[|s| - 1] in d then d else d + [s[|s| - 1]]
  }

  /** `a` sorts no later than `b` under `Array.prototype.sort()`: lexicographic on characters. */
  predicate StringLe(a: string, b: string)
    decreases |a|
  {
    a == [] || (b != [] && (a[0] < b[0] || (a[0] == b[0] && StringLe(a[1..], b[1..]))))
  }

  lemma {:induction false} StringLeTotal(a: string, b: string)
    ensures StringLe(a, b) || StringLe(b, a)
    decreases |a|
  {
    if a != [] && b != [] && a[0] == b[0] {
      StringLeTotal(a[1..], b[1..]);
    }
  }

  lemma {:induction false} StringLeReflexive(a: string)
    ensures StringLe(a, a)
    decreases |a|
  {
    if a != [] {
      StringLeReflexive(a[1..]);
    }
  }

  lemma {:induction false} StringLeTrans(a: string, b: string, c: string)
    requires StringLe(a, b) && StringLe(b, c)
    ensures StringLe(a, c)
    decreases |a|
  {
    if a != [] && a[0] == b[0] && b[0] == c[0] {
      StringLeTrans(a[1..], b[1..], c[1..]);
    }
  }

  lemma {:induction false} StringLeAntisymmetric(a: string, b: string)
    requires StringLe(a, b) && StringLe(b, a)
    ensures a == b
    decreases |a|
  {
    if a != [] {
      StringLeAntisymmetric(a[1..], b[1..]);
      assert a == [a[0]] + a[1..] && b == [b[0]] + b[1..];
    }
  }

  predicate StringsSorted(s: seq<string>) {
    forall i, j :: 0 <= i < j < |s| ==> StringLe(s[i], s[j])
  }

  /** `x` placed before the first element it sorts no later than. */
  function InsertString(x: string, s: seq<string>): (r: seq<string>)
    ensures multiset(r) == multiset(s) + multiset{x}
  {
    if s == [] then [x]
    else if StringLe(x, s[0]) then [x] + s
    else
      assert s == [s[0]] + s[1..];
      [s[0]] + InsertString(x, s[1..])
  }

  lemma {:induction false} InsertStringSorted(x: string, s: seq<string>)
    requires StringsSorted(s)
    ensures StringsSorted(InsertString(x, s))
  {
    if s == [] {
    } else if StringLe(x, s[0]) {
      forall j | 0 <= j < |s|
        ensures StringLe(x, s[j])
      {
        if j > 0 { StringLeTrans(x, s[0], s[j]); }
      }
      SortedCons(x, s);
    } else {
      StringLeTotal(x, s[0]);
      var t := InsertString(x, s[1..]);
      InsertStringSorted(x, s[1..]);
      InsertAbove(s[0], x, s[1..]);
      SortedCons(s[0], t);
    }
  }

  /** A sorted list stays sorted behind an element no later than any of its own. */
  lemma SortedCons(a: string, t: seq<string>)
    requires StringsSorted(t)
    requires forall j :: 0 <= j < |t| ==> StringLe(a, t[j])
    ensures StringsSorted([a] + t)
  {
    var r := [a] + t;
    forall i, j | 0 <= i < j < |r|
      ensures StringLe(r[i], r[j])
    {
      assert r[j] == t[j - 1];
      if i > 0 { assert r[i] == t[i - 1]; }
    }
  }

  /** Inserting into a list bounded below by `b` an element not below `b` keeps the bound. */
  lemma InsertAbove(b: string, x: string, s: seq<string>)
    requires StringLe(b, x)
    requires forall j :: 0 <= j < |s| ==> StringLe(b, s[j])
    ensures forall j :: 0 <= j < |InsertString(x, s)| ==> StringLe(b, InsertString(x, s)[j])
  {
    var t := InsertString(x, s);
    forall j | 0 <= j < |t|
      ensures StringLe(b, t[j])
    {
      assert t[j] in multiset(s) + multiset{x};
      if t[j] != x {
        assert t[j] in s;
        var k :| 0 <= k < |s| && s[k] == t[j];
      }
    }
  }

  /** `s.sort()` on strings, done as an insertion sort. */
  function SortStrings(s: seq<string>): (r: seq<string>)
    ensures multiset(r) == multiset(s)
  {
    if s == [] then []
    else
      assert s == [s[0]] + s[1..];
      InsertString(s[0], SortStrings(s[1..]))
  }

  lemma {:induction false} SortStringsSorted(s: seq<string>)
    ensures StringsSorted(SortStrings(s))
  {
    if s != [] {
      SortStringsSorted(s[1..]);
      InsertStringSorted(s[0], SortStrings(s[1..]));
    }
  }

  /** Two sorted lists of distinct strings with the same elements are the same list. */
  lemma {:induction false} SortedDistinctUnique(r: seq<string>, t: seq<string>)
    requires StringsSorted(r) && StringsSorted(t)
    requires forall i, j :: 0 <= i < j < |r| ==> r[i] != r[j]
    requires forall i, j :: 0 <= i < j < |t| ==> t[i] != t[j]
    requires forall x :: x in r <==> x in t
    ensures r == t
    decreases |r|
  {
    assert t != [] ==> t[0] in t;
    if r != [] {
      assert r[0] in t;
      assert t != [];
      assert t[0] in r;
      var k :| 0 <= k < |r| && r[k] == t[0];
      var m :| 0 <= m < |t| && t[m] == r[0];
      StringLeReflexive(r[0]);
      assert StringLe(r[0], t[0]) by { if k > 0 { assert StringLe(r[0], r[k]); } }
      assert StringLe(t[0], r[0]) by { if m > 0 { assert StringLe(t[0], t[m]); } }
      StringLeAntisymmetric(r[0], t[0]);
      assert r == [r[0]] + r[1..] && t == [t[0]] + t[1..];
      forall x
        ensures x in r[1..] <==> x in t[1..]
      {
        if x in r[1..] {
          var i :| 0 <= i < |r[1..]| && r[1..][i] == x;
          assert r[i + 1] == x && x != r[0] && x in t;
          var j :| 0 <= j < |t| && t[j] == x;
          assert j > 0 && t[1..][j - 1] == x;
        }
        if x in t[1..] {
          var i :| 0 <= i < |t[1..]| && t[1..][i] == x;
          assert t[i + 1] == x && x != t[0] && x in r;
          var j :| 0 <= j < |r| && r[j] == x;
          assert j > 0 && r[1..][j - 1] == x;
        }
      }
      SortedDistinctUnique(r[1..], t[1..]);
    }
  }

  // ---- In-place sort --------------------------------------------------------

  /** `a` comes no later than `b` under a descending sort on (first, then second). */
  predicate KeyGe(a: (real, real), b: (real, real)) {
    a.0 > b.0 || (a.0 == b.0 && a.1 >= b.1)
  }

  predicate KeyGt(a: (real, real), b: (real, real)) {
    a.0 > b.0 || (a.0 == b.0 && a.1 > b.1)
  }

  predicate SortedDescending<T>(s: seq<T>, key: T -> (real, real)) {
    forall i, j :: 0 <= i < j < |s| ==> KeyGe(key(s[i]), key(s[j]))
  }

  /** Exchanges two cells, which keeps the multiset of the elements. */
  method Swap<T>(a: array<T>, i: nat, j: nat)
    requires i < j < a.Length
    modifies a
    ensures a[..] == old(a[..])[i := old(a[j])][j := old(a[i])]
    ensures multiset(a[..]) == multiset(old(a[..]))
  {
    a[i], a[j] := a[j], a[i];
  }

  /**
   * Array.prototype.sort with the comparator `(x, y) => key(y) - key(x)`, done as an
   * insertion sort: an element moves left only past strictly smaller keys.
   */
  method SortDescending<T>(a: array<T>, key: T -> (real, real))
    modifies a
    ensures SortedDescending(a[..], key)
    ensures multiset(a[..]) == multiset(old(a[..]))
  {
    var i := 0;
    while i < a.Length
      invariant 0 <= i <= a.Length
      invariant forall p, q :: 0 <= p < q < i ==> KeyGe(key(a[p]), key(a[q]))
      invariant multiset(a[..]) == multiset(old(a[..]))
    {
      var j := i;
      while j > 0 && KeyGt(key(a[j]), key(a[j - 1]))
        invariant 0 <= j <= i
        invariant forall p, q :: 0 <= p < q <= i && p != j && q != j ==> KeyGe(key(a[p]), key(a[q]))
        invariant forall q :: j < q <= i ==> KeyGt(key(a[j]), key(a[q]))
        invariant multiset(a[..]) == multiset(old(a[..]))
      {
        Swap(a, j - 1, j);
        j := j - 1;
      }
      i := i + 1;
    }
  }
}
