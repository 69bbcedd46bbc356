/**
 * The list operations the source borrows from lodash and from JavaScript arrays, each defined
 * once with the semantics those libraries document: `filter`, `without`, `intersection`,
 * `uniq`, `uniqBy`, `takeRightWhile`, `reverse` and `sort`.
 */
module Lists {

  /** `xs.filter(p)`: the elements of `xs` satisfying `p`, in their original order. */
  function Filter<T(!new)>(xs: seq<T>, p: T -> bool): (r: seq<T>)
    ensures |r| <= |xs|
    ensures forall x :: x in r <==> x in xs && p(x)
  {
    if xs == [] then []
    else (if p(xs[0]) then [xs[0]] else []) + Filter(xs[1..], p)
  }

  /** Filtering a concatenation filters each part: the relative order of survivors is kept. */
  lemma {:induction false} FilterAppend<T(!new)>(a: seq<T>, b: seq<T>, p: T -> bool)
    ensures Filter(a + b, p) == Filter(a, p) + Filter(b, p)
  {
    if a == [] {
      assert a + b == b;
    } else {
      assert (a + b)[1..] == a[1..] + b;
      FilterAppend(a[1..], b, p);
    }
  }

  /** `r` is `xs` read at the strictly increasing positions `idx`: a subsequence, in order. */
  predicate SubsequenceAt<T(==)>(r: seq<T>, xs: seq<T>, idx: seq<nat>) {
    |idx| == |r| &&
    (forall k :: 0 <= k < |idx| ==> idx[k] < |xs| && r[k] == xs[idx[k]]) &&
    (forall k, l :: 0 <= k < l < |idx| ==> idx[k] < idx[l])
  }

  /** `filter` keeps the order of `xs`: its result is a subsequence. */
  lemma {:induction false} FilterInOrder<T(!new)>(xs: seq<T>, p: T -> bool)
    ensures exists idx :: SubsequenceAt(Filter(xs, p), xs, idx)
  {
    if xs == [] {
      assert SubsequenceAt(Filter(xs, p), xs, []);
    } else {
      FilterInOrder(xs[1..], p);
      var tail :| SubsequenceAt(Filter(xs[1..], p), xs[1..], tail);
      var idx := SubsequenceAtCons(xs[0], xs[1..], Filter(xs[1..], p), tail, p(xs[0]));
      assert [xs[0]] + xs[1..] == xs;
      assert SubsequenceAt(Filter(xs, p), xs, idx);
    }
  }

  /** A subsequence of `rest` is one of `[x] + rest`, with or without `x` in front. */
  lemma SubsequenceAtCons<T>(x: T, rest: seq<T>, r: seq<T>, tail: seq<nat>, keep: bool) returns (idx: seq<nat>)
    requires SubsequenceAt(r, rest, tail)
    ensures SubsequenceAt((if keep then [x] else []) + r, [x] + rest, idx)
  {
    var shifted := SubsequenceAtShift(x, rest, r, tail);
    if keep {
      idx := [0] + shifted;
      assert forall k :: 1 <= k < |idx| ==> idx[k] == shifted[k - 1];
    } else {
      idx := shifted;
    }
  }

  /** The positions of a subsequence of `rest`, each moved up by one, select it from `[x] + rest`. */
  lemma SubsequenceAtShift<T>(x: T, rest: seq<T>, r: seq<T>, tail: seq<nat>) returns (shifted: seq<nat>)
    requires SubsequenceAt(r, rest, tail)
    ensures SubsequenceAt(r, [x] + rest, shifted)
    ensures forall k :: 0 <= k < |shifted| ==> 0 < shifted[k]
  {
    shifted := seq(|tail|, k requires 0 <= k < |tail| => tail[k] + 1);
    forall k | 0 <= k < |tail| ensures shifted[k] < |[x] + rest| && ([x] + rest)[shifted[k]] == r[k] {
      assert ([x] + rest)[shifted[k]] == rest[tail[k]];
    }
  }

  /** `filter` keeps every occurrence of a value satisfying the predicate, and no other value. */
  lemma {:induction false} FilterCount<T(!new)>(xs: seq<T>, p: T -> bool)
    ensures forall x :: multiset(Filter(xs, p))[x] == if p(x) then multiset(xs)[x] else 0
  {
    if xs != [] {
      FilterCount(xs[1..], p);
      assert xs == [xs[0]] + xs[1..];
      assert multiset(xs) == multiset{xs[0]} + multiset(xs[1..]);
    }
  }

  /** Filtering with a predicate every element satisfies changes nothing. */
  lemma {:induction false} FilterKeepsAll<T(!new)>(xs: seq<T>, p: T -> bool)
    requires forall x :: x in xs ==> p(x)
    ensures Filter(xs, p) == xs
  {
    if xs != [] {
      FilterKeepsAll(xs[1..], p);
    }
  }

  /** lodash `without(xs, ...ys)`: `xs` in order, with every occurrence of a value of `ys` dropped. */
  function Without<T(==,!new)>(xs: seq<T>, ys: seq<T>): (r: seq<T>)
    ensures |r| <= |xs|
    ensures forall x :: x in r <==> x in xs && x !in ys
  {
    Filter(xs, x => x !in ys)
  }

  /** `without` is empty exactly when every element of `xs` occurs in `ys`. */
  lemma WithoutEmpty<T(!new)>(xs: seq<T>, ys: seq<T>)
    ensures Without(xs, ys) == [] <==> forall x :: x in xs ==> x in ys
  {
    var r := Without(xs, ys);
    if r != [] {
      assert r[0] in r;
    }
  }

  /** No value occurs twice. */
  predicate Distinct<T(==)>(s: seq<T>) {
    forall i, j :: 0 <= i < j < |s| ==> s[i] != s[j]
  }

  /** Some element of `s` has key `k`. */
  predicate HasKey<T(==), K(==)>(s: seq<T>, key: T -> K, k: K) {
    exists y :: y in s && key(y) == k
  }

  /**
   * lodash `uniqBy(xs, key)`: the first element of `xs` for each key, in order. Defined by
   * scanning from the front: an element is appended unless its key has been seen already.
   */
  function UniqBy<T(==,!new), K(==)>(xs: seq<T>, key: T -> K): (r: seq<T>)
    ensures forall y :: y in r ==> y in xs
    ensures forall x :: x in xs ==> HasKey(r, key, key(x))
    ensures forall i, j :: 0 <= i < j < |r| ==> key(r[i]) != key(r[j])
  {
    if xs == [] then []
    else
      var init, last := xs[..|xs| - 1], xs[|xs| - 1];
      assert forall x :: x in init ==> x in xs;
      var u := UniqBy(init, key);
      if HasKey(u, key, key(last)) then u else u + [last]
  }

  /** Every first occurrence of a key in `xs` survives `UniqBy`. */
  lemma {:induction false} UniqByKeepsFirst<T(!new), K>(xs: seq<T>, key: T -> K, i: nat)
    requires i < |xs|
    requires forall k :: 0 <= k < i ==> key(xs[k]) != key(xs[i])
    ensures xs[i] in UniqBy(xs, key)
  {
    if i < |xs| - 1 {
      UniqByKeepsFirst(xs[..|xs| - 1], key, i);
    }
  }

  /** Every element `uniqBy` keeps is the first of `xs` with its key. */
  lemma UniqByKeepsOnlyFirst<T(!new), K>(xs: seq<T>, key: T -> K, y: T)
    requires y in UniqBy(xs, key)
    ensures exists i :: 0 <= i < |xs| && xs[i] == y && forall k :: 0 <= k < i ==> key(xs[k]) != key(xs[i])
  {
    var u := UniqBy(xs, key);
    var i := FirstWithKey(xs, key, key(y));
    UniqByKeepsFirst(xs, key, i);
    var a :| 0 <= a < |u| && u[a] == y;
    var b :| 0 <= b < |u| && u[b] == xs[i];
    assert key(u[a]) == key(u[b]);
    if a != b {
      assert false;
    }
  }

  /** The position of the first element of `xs` whose key is `k`. */
  function FirstWithKey<T, K(==)>(xs: seq<T>, key: T -> K, k: K): (i: nat)
    requires exists j :: 0 <= j < |xs| && key(xs[j]) == k
    ensures i < |xs| && key(xs[i]) == k
    ensures forall j :: 0 <= j < i ==> key(xs[j]) != k
    decreases |xs|
  {
    if key(xs[0]) == k then 0
    else
      var j :| 0 <= j < |xs| && key(xs[j]) == k;
      assert key(xs[1..][j - 1]) == k;
      1 + FirstWithKey(xs[1..], key, k)
  }

  /** lodash `uniq(xs)`: the first occurrence of each value, in order. */
  function Uniq<T(==)>(xs: seq<T>): seq<T> {
    if xs == [] then []
    else
      var u := Uniq(xs[..|xs| - 1]);
      if xs[|xs| - 1] in u then u else u + [xs[|xs| - 1]]
  }

  /** `uniq` keeps every value of `xs` and no other, each once. */
  lemma {:induction false} UniqMembers<T>(xs: seq<T>)
    ensures forall x :: x in Uniq(xs) <==> x in xs
    ensures Distinct(Uniq(xs))
  {
    if xs != [] {
      var init, last := xs[..|xs| - 1], xs[|xs| - 1];
      UniqMembers(init);
      assert forall x :: x in xs <==> x in init || x == last;
    }
  }

  /** `uniq` is `uniqBy` with the identity as key. */
  lemma {:induction false} UniqIsUniqByIdentity<T(!new)>(xs: seq<T>)
    ensures Uniq(xs) == UniqBy(xs, x => x)
  {
    if xs != [] {
      var init, last := xs[..|xs| - 1], xs[|xs| - 1];
      UniqIsUniqByIdentity(init);
      var u := Uniq(init);
      assert HasKey(u, x => x, last) <==> last in u;
    }
  }

  /**
   * lodash `intersection(xs, ys)`: the distinct values of `xs` that occur in `ys`, in `xs` order
   * (a value is kept at its first occurrence in `xs`).
   */
  function Intersection<T(==)>(xs: seq<T>, ys: seq<T>): seq<T> {
    if xs == [] then []
    else
      var r := Intersection(xs[..|xs| - 1], ys);
      var last := xs[|xs| - 1];
      if last in ys && last !in r then r + [last] else r
  }

  /** The intersection holds exactly the values in both lists, each once. */
  lemma {:induction false} IntersectionMembers<T>(xs: seq<T>, ys: seq<T>)
    ensures forall x :: x in Intersection(xs, ys) <==> x in xs && x in ys
    ensures Distinct(Intersection(xs, ys))
  {
    if xs != [] {
      var init := xs[..|xs| - 1];
      IntersectionMembers(init, ys);
      assert forall x :: x in xs <==> x in init || x == xs[|xs| - 1];
    }
  }

  /** `intersection` is `uniq` of the values of `xs` that occur in `ys`. */
  lemma {:induction false} IntersectionIsUniqOfFilter<T(!new)>(xs: seq<T>, ys: seq<T>)
    ensures Intersection(xs, ys) == Uniq(Filter(xs, x => x in ys))
  {
    if xs != [] {
      var init, last := xs[..|xs| - 1], xs[|xs| - 1];
      IntersectionIsUniqOfFilter(init, ys);
      IntersectionMembers(init, ys);
      FilterAppend(init, [last], x => x in ys);
      assert xs == init + [last];
      var f := Filter(init, x => x in ys);
      if last in ys {
        assert Filter(xs, x => x in ys) == f + [last];
        assert (f + [last])[..|f + [last]| - 1] == f;
      } else {
        assert Filter([last], x => x in ys) == [];
        assert Filter(xs, x => x in ys) == f;
      }
    }
  }

  /** lodash `takeRightWhile(xs, p)`: the longest suffix of `xs` whose elements all satisfy `p`. */
  function TakeRightWhile<T>(xs: seq<T>, p: T -> bool): (r: seq<T>)
    ensures |r| <= |xs| && r == xs[|xs| - |r|..]
    ensures forall x :: x in r ==> p(x)
    ensures |r| < |xs| ==> !p(xs[|xs| - |r| - 1])
  {
    if xs == [] || !p(xs[|xs| - 1]) then []
    else TakeRightWhile(xs[..|xs| - 1], p) + [xs[|xs| - 1]]
  }

  /** The suffix `takeRightWhile` keeps starts right after the last element failing `p`. */
  lemma {:induction false} TakeRightWhileStopsAt<T>(xs: seq<T>, p: T -> bool, i: nat)
    requires i < |xs| && !p(xs[i])
    requires forall j :: i < j < |xs| ==> p(xs[j])
    ensures TakeRightWhile(xs, p) == xs[i + 1..]
  {
    if i < |xs| - 1 {
      TakeRightWhileStopsAt(xs[..|xs| - 1], p, i);
      assert xs[i + 1..] == xs[..|xs| - 1][i + 1..] + [xs[|xs| - 1]];
    }
  }

  /** `xs.slice().reverse()`. */
  function Reverse<T>(xs: seq<T>): (r: seq<T>)
    ensures |r| == |xs|
    ensures forall i :: 0 <= i < |xs| ==> r[i] == xs[|xs| - 1 - i]
  {
    if xs == [] then [] else [xs[|xs| - 1]] + Reverse(xs[..|xs| - 1])
  }

  /** `lt` is a strict order: irreflexive and transitive. */
  ghost predicate StrictOrder<T(!new)>(lt: (T, T) -> bool) {
    (forall a :: !lt(a, a)) &&
    (forall a, b, c :: lt(a, b) && lt(b, c) ==> lt(a, c))
  }

  /** No element is strictly below an element before it. */
  predicate SortedBy<T>(s: seq<T>, lt: (T, T) -> bool) {
    forall i, j :: 0 <= i < j < |s| ==> !lt(s[j], s[i])
  }

  /** Insert `x` before the first element it is strictly below, i.e. after all its equals. */
  function Insert<T>(x: T, s: seq<T>, lt: (T, T) -> bool): (r: seq<T>)
    ensures |r| == |s| + 1
    ensures multiset(r) == multiset(s) + multiset{x}
  {
    if s == [] then [x]
    else if lt(x, s[0]) then [x] + s
    else
      assert s == [s[0]] + s[1..];
      [s[0]] + Insert(x, s[1..], lt)
  }

  /**
   * `xs.slice().sort(cmp)` for a comparator whose negative results are `lt`: an insertion
   * sort that inserts each element after the ones it compares equal to.
   */
  function Sort<T>(s: seq<T>, lt: (T, T) -> bool): (r: seq<T>)
    ensures |r| == |s|
    ensures multiset(r) == multiset(s)
  {
    if s == [] then []
    else
      assert s == s[..|s| - 1] + [s[|s| - 1]];
      Insert(s[|s| - 1], Sort(s[..|s| - 1], lt), lt)
  }

  lemma {:induction false} InsertSorted<T(!new)>(x: T, s: seq<T>, lt: (T, T) -> bool)
    requires StrictOrder(lt) && SortedBy(s, lt)
    ensures SortedBy(Insert(x, s, lt), lt)
  {
    if s == [] {
    } else if lt(x, s[0]) {
      InsertFrontSorted(x, s, lt);
    } else {
      var rest := Insert(x, s[1..], lt);
      InsertSorted(x, s[1..], lt);
      assert Insert(x, s, lt) == [s[0]] + rest;
      forall y | y in rest ensures !lt(y, s[0]) {
        assert y in multiset(rest);
        if y != x {
          assert y in s[1..];
          var k :| 0 <= k < |s[1..]| && s[1..][k] == y;
          assert s[k + 1] == y;
        }
      }
      ConsSorted(s[0], rest, lt);
    }
  }

  lemma InsertFrontSorted<T(!new)>(x: T, s: seq<T>, lt: (T, T) -> bool)
    requires StrictOrder(lt) && SortedBy(s, lt) && s != [] && lt(x, s[0])
    ensures SortedBy([x] + s, lt)
  {
    forall y | y in s ensures !lt(y, x) {
      var k :| 0 <= k < |s| && s[k] == y;
      assert !lt(s[k], s[0]);
    }
    ConsSorted(x, s, lt);
  }

  lemma ConsSorted<T>(x: T, s: seq<T>, lt: (T, T) -> bool)
    requires SortedBy(s, lt) && forall y :: y in s ==> !lt(y, x)
    ensures SortedBy([x] + s, lt)
  {
    var r := [x] + s;
    forall i, j | 0 <= i < j < |r| ensures !lt(r[j], r[i]) {
      assert r[j] == s[j - 1];
      if i > 0 {
        assert r[i] == s[i - 1];
      }
    }
  }

  /** Sorting orders its output whenever `lt` is a strict order. */
  lemma {:induction false} SortSorted<T(!new)>(s: seq<T>, lt: (T, T) -> bool)
    requires StrictOrder(lt)
    ensures SortedBy(Sort(s, lt), lt)
  {
    if s != [] {
      SortSorted(s[..|s| - 1], lt);
      InsertSorted(s[|s| - 1], Sort(s[..|s| - 1], lt), lt);
    }
  }

  /** Lexicographic order on strings by character code (`localeCompare` is locale-dependent). */
  predicate StringLess(a: string, b: string) {
    if a == [] then b != []
    else b != [] && (a[0] < b[0] || (a[0] == b[0] && StringLess(a[1..], b[1..])))
  }

  lemma {:induction false} StringLessIrreflexive(a: string)
    ensures !StringLess(a, a)
  {
    if a != [] {
      StringLessIrreflexive(a[1..]);
    }
  }

  lemma {:induction false} StringLessTransitive(a: string, b: string, c: string)
    requires StringLess(a, b) && StringLess(b, c)
    ensures StringLess(a, c)
  {
    if a != [] && a[0] == b[0] && b[0] == c[0] {
      StringLessTransitive(a[1..], b[1..], c[1..]);
    }
  }
}
