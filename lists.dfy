/** Sequence operations the source takes from libraries: lodash's `sortBy`,
    `reverse` and `filter`, and the built-in `Array.prototype.sort`, which has
    been stable since ES2019. lodash's `sortBy` compares the key first and the
    original position last, so both sorts are stable sorts by a key. */
module Lists {

  /** `s` is in ascending order of `key`. */
  predicate Ascending<T>(s: seq<T>, key: T -> real) {
    forall i, j :: 0 <= i < j < |s| ==> key(s[i]) <= key(s[j])
  }

  /** `s` is in descending order of `key`. */
  predicate Descending<T>(s: seq<T>, key: T -> real) {
    forall i, j :: 0 <= i < j < |s| ==> key(s[i]) >= key(s[j])
  }

  /** The elements of `s` whose key is `v`, in their order in `s`. */
  function WithKey<T>(s: seq<T>, key: T -> real, v: real): seq<T>
  {
    Select(s, KeyIs(key, v))
  }

  /** The test `WithKey` filters by: the key is `v`. */
  function KeyIs<T>(key: T -> real, v: real): T -> bool {
    (x: T) => key(x) == v
  }

  /** The elements of `s` that satisfy `p`, in their order in `s`. */
  function Select<T>(s: seq<T>, p: T -> bool): (r: seq<T>)
    ensures |r| <= |s|
  {
    if |s| == 0 then []
    else Select(s[..|s| - 1], p) + (if p(s[|s| - 1]) then [s[|s| - 1]] else [])
  }

  /** Filtering keeps every element satisfying `p`, and only those. */
  lemma {:induction false} SelectMembers<T>(s: seq<T>, p: T -> bool)
    ensures forall i :: 0 <= i < |Select(s, p)| ==> Select(s, p)[i] in s && p(Select(s, p)[i])
    ensures forall i :: 0 <= i < |s| && p(s[i]) ==> s[i] in Select(s, p)
  {
    if |s| > 0 {
      var init, last := s[..|s| - 1], s[|s| - 1];
      SelectMembers(init, p);
      assert s == init + [last];
      forall i | 0 <= i < |s| && p(s[i]) ensures s[i] in Select(s, p) {
        if i < |s| - 1 {
          assert s[i] == init[i];
        }
      }
    }
  }

  /** Filtering keeps order: it can be applied part by part. */
  lemma {:induction false} SelectAppend<T>(a: seq<T>, b: seq<T>, p: T -> bool)
    ensures Select(a + b, p) == Select(a, p) + Select(b, p)
    decreases |b|
  {
    if |b| == 0 {
      assert a + b == a;
    } else {
      assert (a + b)[..|a + b| - 1] == a + b[..|b| - 1];
      SelectAppend(a, b[..|b| - 1], p);
    }
  }

  /** A single element is kept exactly when it satisfies `p`. */
  lemma SelectOne<T>(x: T, p: T -> bool)
    ensures Select([x], p) == if p(x) then [x] else []
  {
    assert [x][..0] == [];
  }

  /** Inserts `x` into the ascending `s` after every element whose key is at
      most `key(x)`, so that `x` follows the elements that came before it. */
  function Insert<T>(s: seq<T>, x: T, key: T -> real): (r: seq<T>)
    requires Ascending(s, key)
    ensures |r| == |s| + 1
    ensures multiset(r) == multiset(s) + multiset{x}
    ensures Ascending(r, key)
    decreases |s|
  {
    if |s| == 0 then [x]
    else if key(s[|s| - 1]) <= key(x) then
      assert (s + [x])[..|s|] == s;
      s + [x]
    else
      var init, last := s[..|s| - 1], s[|s| - 1];
      var r' := Insert(init, x, key);
      InsertBelow(s, x, key, r');
      assert s == init + [last];
      r' + [last]
  }

  /** Inserting `x` adds it at the end of its own key's subsequence and
      leaves every other key's subsequence as it was. */
  lemma {:induction false} InsertWithKey<T>(s: seq<T>, x: T, key: T -> real, v: real)
    requires Ascending(s, key)
    ensures WithKey(Insert(s, x, key), key, v) == WithKey(s, key, v) + (if key(x) == v then [x] else [])
    decreases |s|
  {
    if |s| == 0 {
      SelectOne(x, KeyIs(key, v));
    } else if key(s[|s| - 1]) <= key(x) {
      SelectAppend(s, [x], KeyIs(key, v));
      SelectOne(x, KeyIs(key, v));
    } else {
      InsertWithKey(s[..|s| - 1], x, key, v);
      InsertWithKeyBelow(s, x, key, v);
    }
  }

  /** The step of `InsertWithKey` where `x` goes before the last element. */
  lemma InsertWithKeyBelow<T>(s: seq<T>, x: T, key: T -> real, v: real)
    requires Ascending(s, key) && |s| > 0 && key(s[|s| - 1]) > key(x)
    requires WithKey(Insert(s[..|s| - 1], x, key), key, v)
      == WithKey(s[..|s| - 1], key, v) + (if key(x) == v then [x] else [])
    ensures WithKey(Insert(s, x, key), key, v) == WithKey(s, key, v) + (if key(x) == v then [x] else [])
  {
    var init, last := s[..|s| - 1], s[|s| - 1];
    var r' := Insert(init, x, key);
    var p := KeyIs(key, v);
    assert p(x) == (key(x) == v) && p(last) == (key(last) == v);
    assert Insert(s, x, key) == r' + [last];
    SelectSwap(init, r', x, last, p);
    assert WithKey(s, key, v) == Select(init, p) + (if p(last) then [last] else []);
  }

  /** If filtering `b` gives filtering `a` plus `x`, an element appended to
      `b` that is not kept together with `x` is kept before `x`. */
  lemma SelectSwap<T>(a: seq<T>, b: seq<T>, x: T, last: T, p: T -> bool)
    requires Select(b, p) == Select(a, p) + (if p(x) then [x] else [])
    requires !(p(x) && p(last))
    ensures Select(b + [last], p) == Select(a, p) + (if p(last) then [last] else []) + (if p(x) then [x] else [])
  {
    SelectAppend(b, [last], p);
    SelectOne(last, p);
  }

  /** When the last element of `s` has a key above `key(x)`, every element
      of `r'` (the rest of `s` with `x` inserted) is at or below it. */
  lemma InsertBelow<T>(s: seq<T>, x: T, key: T -> real, r': seq<T>)
    requires Ascending(s, key) && |s| > 0 && key(s[|s| - 1]) > key(x)
    requires multiset(r') == multiset(s[..|s| - 1]) + multiset{x}
    ensures forall i :: 0 <= i < |r'| ==> key(r'[i]) <= key(s[|s| - 1])
  {
    var init := s[..|s| - 1];
    forall i | 0 <= i < |r'| ensures key(r'[i]) <= key(s[|s| - 1]) {
      assert r'[i] in multiset(r');
      if r'[i] != x {
        assert r'[i] in multiset(init);
        var k :| 0 <= k < |init| && init[k] == r'[i];
        assert s[k] == init[k];
      }
    }
  }

  /** The stable ascending sort by `key`: sorted, a permutation of `s`, and
      for every key value the elements carrying it keep their order in `s`. */
  function SortBy<T>(s: seq<T>, key: T -> real): (r: seq<T>)
    ensures |r| == |s|
    ensures Ascending(r, key)
    ensures multiset(r) == multiset(s)
  {
    if |s| == 0 then []
    else
      assert s == s[..|s| - 1] + [s[|s| - 1]];
      Insert(SortBy(s[..|s| - 1], key), s[|s| - 1], key)
  }

  /** The sort is stable: for every key value, the elements carrying it come
      out in the order they had in `s`. */
  lemma {:induction false} SortByStable<T>(s: seq<T>, key: T -> real, v: real)
    ensures WithKey(SortBy(s, key), key, v) == WithKey(s, key, v)
  {
    if |s| > 0 {
      var init := s[..|s| - 1];
      SortByStable(init, key, v);
      InsertWithKey(SortBy(init, key), s[|s| - 1], key, v);
    }
  }

  /** lodash's and JavaScript's `reverse`. */
  function Reverse<T>(s: seq<T>): (r: seq<T>)
    ensures |r| == |s|
    ensures forall i :: 0 <= i < |s| ==> r[i] == s[|s| - 1 - i]
  {
    if |s| == 0 then [] else [s[|s| - 1]] + Reverse(s[..|s| - 1])
  }

  lemma {:induction false} ReverseMultiset<T>(s: seq<T>)
    ensures multiset(Reverse(s)) == multiset(s)
  {
    if |s| > 0 {
      ReverseMultiset(s[..|s| - 1]);
      assert s == s[..|s| - 1] + [s[|s| - 1]];
    }
  }

  lemma ReverseAppend<T>(a: seq<T>, b: seq<T>)
    ensures Reverse(a + b) == Reverse(b) + Reverse(a)
  {
    var l, r := Reverse(a + b), Reverse(b) + Reverse(a);
    assert |l| == |r|;
    forall i | 0 <= i < |l| ensures l[i] == r[i] {
      if i < |b| {
        assert r[i] == Reverse(b)[i];
      } else {
        assert r[i] == Reverse(a)[i - |b|];
      }
    }
  }

  /** Reversing a sequence reverses each of its per-key subsequences. */
  lemma {:induction false} ReverseWithKey<T>(s: seq<T>, key: T -> real, v: real)
    ensures WithKey(Reverse(s), key, v) == Reverse(WithKey(s, key, v))
  {
    if |s| > 0 {
      var init, last := s[..|s| - 1], s[|s| - 1];
      var tail := if key(last) == v then [last] else [];
      ReverseWithKey(init, key, v);
      SelectAppend([last], Reverse(init), KeyIs(key, v));
      SelectOne(last, KeyIs(key, v));
      ReverseAppend(WithKey(init, key, v), tail);
    }
  }

  /** The last element of `s` among those with the greatest key: every key
      is at most its key, and every later element's key is smaller. */
  predicate IsLastMax<T>(s: seq<T>, key: T -> real, i: int) {
    && 0 <= i < |s|
    && (forall j :: 0 <= j < |s| ==> key(s[j]) <= key(s[i]))
    && (forall j :: i < j < |s| ==> key(s[j]) < key(s[i]))
  }

  lemma {:induction false} WithKeyLast<T>(s: seq<T>, key: T -> real, v: real, i: int)
    requires 0 <= i < |s| && key(s[i]) == v
    requires forall j :: i < j < |s| ==> key(s[j]) != v
    ensures |WithKey(s, key, v)| > 0 && WithKey(s, key, v)[|WithKey(s, key, v)| - 1] == s[i]
  {
    if i < |s| - 1 {
      WithKeyLast(s[..|s| - 1], key, v, i);
    }
  }

  /** The greatest position in `s` whose element has key `v`. */
  function LastWithKey<T>(s: seq<T>, key: T -> real, v: real): (i: int)
    requires exists j :: 0 <= j < |s| && key(s[j]) == v
    ensures 0 <= i < |s| && key(s[i]) == v
    ensures forall j :: i < j < |s| ==> key(s[j]) != v
  {
    if key(s[|s| - 1]) == v then |s| - 1
    else
      var j :| 0 <= j < |s| && key(s[j]) == v;
      assert s[..|s| - 1][j] == s[j];
      LastWithKey(s[..|s| - 1], key, v)
  }

  /** The last element of the stable ascending sort is the input's last
      element among those carrying the greatest key. */
  lemma SortByLast<T>(s: seq<T>, key: T -> real) returns (i: int)
    requires |s| > 0
    ensures IsLastMax(s, key, i) && SortBy(s, key)[|s| - 1] == s[i]
  {
    var r := SortBy(s, key);
    var n := |s|;
    var v := key(r[n - 1]);
    SamePermutationMembers(r, s, n - 1);
    i := LastWithKey(s, key, v);
    WithKeyLast(r, key, v, n - 1);
    WithKeyLast(s, key, v, i);
    SortByStable(s, key, v);
    assert r[n - 1] == s[i];
    MaxAtEnd(s, r, key);
  }

  /** An ascending rearrangement of `s` ends with a greatest key of `s`. */
  lemma MaxAtEnd<T>(s: seq<T>, r: seq<T>, key: T -> real)
    requires |r| == |s| > 0 && multiset(r) == multiset(s) && Ascending(r, key)
    ensures forall j :: 0 <= j < |s| ==> key(s[j]) <= key(r[|r| - 1])
  {
    forall j | 0 <= j < |s| ensures key(s[j]) <= key(r[|r| - 1]) {
      SamePermutationMembers(s, r, j);
      var k :| 0 <= k < |r| && r[k] == s[j];
      assert k <= |r| - 1;
    }
  }

  lemma SamePermutationMembers<T>(a: seq<T>, b: seq<T>, j: int)
    requires multiset(a) == multiset(b) && 0 <= j < |a|
    ensures exists k :: 0 <= k < |b| && b[k] == a[j]
  {
    assert a[j] in multiset(a);
    assert a[j] in b;
  }
}
