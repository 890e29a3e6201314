/** Shared vocabulary of the model: optional values, request fields, controller
    outcomes, and the sequence utilities that stand for the database queries
    (filtering, grouped counts, ordering) and the Python dictionaries. */
module Common {

  datatype Option<T> = None | Some(value: T)

  /** A request field as the controller sees it, after the input middleware has
      trimmed strings and turned empty strings into null: not sent, sent as
      null, or sent with a value. */
  datatype Input<T> = Absent | Null | Given(value: T)

  /** What a controller action reports: the kind of flash message on its
      redirect, or the 404 that route-model binding gives for a missing record. */
  datatype Outcome = Success | Info | Error | NotFound

  function Min(a: int, b: int): int { if a <= b then a else b }

  predicate NoDup<T(==)>(s: seq<T>) {
    forall i, j :: 0 <= i < j < |s| ==> s[i] != s[j]
  }

  // ---------------------------------------------------------------------------
  // Filtering (a WHERE clause, or a Python comprehension with a condition)

  /** The elements of `s` that satisfy `p`, in their original order. */
  function Filter<T(!new)>(s: seq<T>, p: T -> bool): (r: seq<T>)
    ensures |r| <= |s|
    ensures forall i :: 0 <= i < |r| ==> p(r[i])
    ensures forall x :: x in r <==> x in s && p(x)
    decreases |s|
  {
    if s == [] then []
    else
      var init, last := s[..|s| - 1], s[|s| - 1];
      assert s == init + [last];
      Filter(init, p) + (if p(last) then [last] else [])
  }

  /** The prefix one longer is the prefix and the next element. */
  lemma TakeSnoc<T>(s: seq<T>, i: nat)
    requires i < |s|
    ensures s[..i + 1] == s[..i] + [s[i]]
  {
  }

  /** Extending the input by one element extends the filtered sequence by that
      element exactly when it passes; this is what a loop over `s` maintains. */
  lemma FilterSnoc<T(!new)>(s: seq<T>, x: T, p: T -> bool)
    ensures Filter(s + [x], p) == Filter(s, p) + (if p(x) then [x] else [])
  {
    assert (s + [x])[..|s + [x]| - 1] == s;
  }

  lemma {:induction false} FilterAppend<T(!new)>(a: seq<T>, b: seq<T>, p: T -> bool)
    ensures Filter(a + b, p) == Filter(a, p) + Filter(b, p)
    decreases |b|
  {
    if b == [] {
      assert a + b == a;
    } else {
      var init, last := b[..|b| - 1], b[|b| - 1];
      var e := if p(last) then [last] else [];
      assert b == init + [last];
      assert a + b == (a + init) + [last];
      FilterSnoc(a + init, last, p);
      FilterAppend(a, init, p);
      FilterSnoc(init, last, p);
      var fa, fi := Filter(a, p), Filter(init, p);
      assert Filter(a + b, p) == (fa + fi) + e;
      assert Filter(b, p) == fi + e;
      assert (fa + fi) + e == fa + (fi + e);
    }
  }

  /** Filtering with a predicate no element satisfies gives nothing. */
  lemma FilterNone<T(!new)>(s: seq<T>, p: T -> bool)
    requires forall x :: x in s ==> !p(x)
    ensures Filter(s, p) == []
  {
  }

  /** Filtering with a predicate every element satisfies changes nothing. */
  lemma {:induction false} FilterAll<T(!new)>(s: seq<T>, p: T -> bool)
    requires forall x :: x in s ==> p(x)
    ensures Filter(s, p) == s
    decreases |s|
  {
    if s != [] {
      var init, last := s[..|s| - 1], s[|s| - 1];
      assert s == init + [last];
      assert forall x :: x in init ==> x in s;
      FilterAll(init, p);
    }
  }

  /** Two predicates that agree on every element filter alike. */
  lemma {:induction false} FilterEquiv<T(!new)>(s: seq<T>, p: T -> bool, q: T -> bool)
    requires forall x :: x in s ==> p(x) == q(x)
    ensures Filter(s, p) == Filter(s, q)
    decreases |s|
  {
    if s != [] {
      var init := s[..|s| - 1];
      assert s == init + [s[|s| - 1]];
      assert forall x :: x in init ==> x in s;
      FilterEquiv(init, p, q);
    }
  }

  lemma FilterSingleton<T(!new)>(x: T, p: T -> bool)
    ensures Filter([x], p) == if p(x) then [x] else []
  {
    FilterSnoc([], x, p);
    assert [] + [x] == [x];
  }

  /** Deleting the element at `k` deletes one match when it passes, and
      leaves the filtered sequence as it was otherwise. */
  lemma FilterRemoveAt<T(!new)>(s: seq<T>, k: nat, p: T -> bool)
    requires k < |s|
    ensures |Filter(s[..k] + s[k + 1..], p)| == |Filter(s, p)| - (if p(s[k]) then 1 else 0)
    ensures !p(s[k]) ==> Filter(s[..k] + s[k + 1..], p) == Filter(s, p)
  {
    var a, b := s[..k], s[k + 1..];
    assert s == (a + [s[k]]) + b;
    FilterAppend(a + [s[k]], b, p);
    FilterSnoc(a, s[k], p);
    FilterAppend(a, b, p);
    assert s[..k] + s[k + 1..] == a + b;
    if p(s[k]) {
      assert Filter(s, p) == Filter(a, p) + [s[k]] + Filter(b, p);
    } else {
      assert Filter(a + [s[k]], p) == Filter(a, p);
      assert Filter(s, p) == Filter(a, p) + Filter(b, p);
    }
  }

  /** Replacing the element at `k` by `x` trades its match for that of `x`. */
  lemma FilterReplaceAt<T(!new)>(s: seq<T>, k: nat, x: T, p: T -> bool)
    requires k < |s|
    ensures |Filter(s[k := x], p)| == |Filter(s, p)| - (if p(s[k]) then 1 else 0) + (if p(x) then 1 else 0)
    ensures !p(s[k]) && !p(x) ==> Filter(s[k := x], p) == Filter(s, p)
  {
    var a, b := s[..k], s[k + 1..];
    assert s == a + [s[k]] + b;
    assert s[k := x] == a + [x] + b;
    FilterAppend(a + [s[k]], b, p);
    FilterAppend(a, [s[k]], p);
    FilterAppend(a + [x], b, p);
    FilterAppend(a, [x], p);
    FilterSingleton(s[k], p);
    FilterSingleton(x, p);
  }

  /** Filtering by `p` first changes nothing when `q` implies `p`. */
  lemma {:induction false} FilterFilter<T(!new)>(s: seq<T>, p: T -> bool, q: T -> bool)
    requires forall x :: q(x) ==> p(x)
    ensures Filter(Filter(s, p), q) == Filter(s, q)
    decreases |s|
  {
    if s != [] {
      var init, last := s[..|s| - 1], s[|s| - 1];
      assert s == init + [last];
      FilterFilter(init, p, q);
      FilterSnoc(init, last, p);
      FilterSnoc(init, last, q);
      assert q(last) ==> p(last);
      if p(last) {
        assert Filter(s, p) == Filter(init, p) + [last];
        FilterSnoc(Filter(init, p), last, q);
        assert Filter(Filter(s, p), q) == Filter(Filter(init, p), q) + (if q(last) then [last] else []);
      } else {
        assert Filter(s, p) == Filter(init, p);
        assert Filter(s, q) == Filter(init, q);
      }
    }
  }

  /** Two sequences that agree at every position where either element passes
      filter alike. */
  lemma {:induction false} FilterPointwise<T(!new)>(a: seq<T>, b: seq<T>, p: T -> bool)
    requires |a| == |b|
    requires forall i :: 0 <= i < |a| && (p(a[i]) || p(b[i])) ==> a[i] == b[i]
    ensures Filter(a, p) == Filter(b, p)
    decreases |a|
  {
    if a != [] {
      var n := |a| - 1;
      assert a == a[..n] + [a[n]];
      assert b == b[..n] + [b[n]];
      FilterPointwise(a[..n], b[..n], p);
    }
  }

  // ---------------------------------------------------------------------------
  // Grouped counts: a Python dict `d[k] = d.get(k, 0) + 1`, or GROUP BY + COUNT,
  // as an association list in first-appearance order.

  function KeysOf<K>(acc: seq<(K, nat)>): (ks: seq<K>)
    ensures |ks| == |acc|
    ensures forall i :: 0 <= i < |acc| ==> ks[i] == acc[i].0
  {
    seq(|acc|, i requires 0 <= i < |acc| => acc[i].0)
  }

  function SumCounts<K>(acc: seq<(K, nat)>): nat
    decreases |acc|
  {
    if acc == [] then 0 else SumCounts(acc[..|acc| - 1]) + acc[|acc| - 1].1
  }

  /** First index of `x` in `s`, or |s| when it is absent. */
  function IndexOf<T(==)>(s: seq<T>, x: T): (i: nat)
    ensures i <= |s|
    ensures i < |s| ==> s[i] == x
    ensures forall j :: 0 <= j < i ==> s[j] != x
    ensures i == |s| <==> x !in s
  {
    if s == [] then 0 else if s[0] == x then 0 else 1 + IndexOf(s[1..], x)
  }

  lemma {:induction false} SumCountsUpdate<K>(acc: seq<(K, nat)>, i: nat, e: (K, nat))
    requires i < |acc|
    ensures SumCounts(acc[i := e]) == SumCounts(acc) - acc[i].1 + e.1
    decreases |acc|
  {
    var n := |acc| - 1;
    if i < n {
      assert acc[i := e][..n] == acc[..n][i := e];
      SumCountsUpdate(acc[..n], i, e);
    } else {
      assert acc[i := e][..n] == acc[..n];
    }
  }

  lemma SumCountsSnoc<K>(acc: seq<(K, nat)>, e: (K, nat))
    ensures SumCounts(acc + [e]) == SumCounts(acc) + e.1
  {
    assert (acc + [e])[..|acc|] == acc;
  }

  /** One dictionary increment: bump the count under `x`, or append `(x, 1)`. */
  function Bump<K(==)>(acc: seq<(K, nat)>, x: K): (r: seq<(K, nat)>)
    requires NoDup(KeysOf(acc))
    ensures NoDup(KeysOf(r))
    ensures KeysOf(r) == if x in KeysOf(acc) then KeysOf(acc) else KeysOf(acc) + [x]
    ensures forall i :: 0 <= i < |r| ==>
      r[i].1 == (if i < |acc| then acc[i].1 else 0) + (if r[i].0 == x then 1 else 0)
    ensures SumCounts(r) == SumCounts(acc) + 1
  {
    var i := IndexOf(KeysOf(acc), x);
    if i < |acc| then
      var r := acc[i := (x, acc[i].1 + 1)];
      SumCountsUpdate(acc, i, (x, acc[i].1 + 1));
      assert KeysOf(r) == KeysOf(acc);
      r
    else
      var r := acc + [(x, 1)];
      SumCountsSnoc(acc, (x, 1));
      assert KeysOf(r) == KeysOf(acc) + [x];
      r
  }

  /** The grouped counts of `xs`, built one element at a time from the left,
      as the source's counting loops do. */
  function Tally<K(==,!new)>(xs: seq<K>): (r: seq<(K, nat)>)
    ensures NoDup(KeysOf(r))
    ensures forall k :: k in KeysOf(r) <==> k in xs
    ensures forall i :: 0 <= i < |r| ==> r[i].1 == multiset(xs)[r[i].0]
    ensures SumCounts(r) == |xs|
    decreases |xs|
  {
    if xs == [] then []
    else
      var init, last := xs[..|xs| - 1], xs[|xs| - 1];
      assert xs == init + [last];
      var acc := Tally(init);
      BumpCounts(acc, init, last);
      Bump(acc, last)
  }

  /** Bumping the groups of `xs` under `x` gives the groups of `xs + [x]`. */
  lemma BumpCounts<K>(acc: seq<(K, nat)>, xs: seq<K>, x: K)
    requires NoDup(KeysOf(acc))
    requires forall k :: k in KeysOf(acc) <==> k in xs
    requires forall i :: 0 <= i < |acc| ==> acc[i].1 == multiset(xs)[acc[i].0]
    ensures forall k :: k in KeysOf(Bump(acc, x)) <==> k in xs + [x]
    ensures forall i :: 0 <= i < |Bump(acc, x)| ==> Bump(acc, x)[i].1 == multiset(xs + [x])[Bump(acc, x)[i].0]
  {
    var r := Bump(acc, x);
    assert forall k :: k in KeysOf(r) <==> k in KeysOf(acc) || k == x;
    forall i | 0 <= i < |r|
      ensures r[i].1 == multiset(xs + [x])[r[i].0]
    {
      if i < |acc| {
        assert KeysOf(r)[i] == KeysOf(acc)[i];
      } else {
        assert r[i].0 == x && x !in xs;
      }
    }
  }

  /** Extending the counted input by one element is one `Bump`. */
  lemma TallySnoc<K(!new)>(xs: seq<K>, x: K)
    ensures Tally(xs + [x]) == Bump(Tally(xs), x)
  {
    assert (xs + [x])[..|xs + [x]| - 1] == xs;
  }

  lemma {:induction false} SumCountsRemoveAt<K>(s: seq<(K, nat)>, j: nat)
    requires j < |s|
    ensures SumCounts(s) == SumCounts(s[..j] + s[j + 1..]) + s[j].1
    decreases |s|
  {
    var n := |s| - 1;
    if j == n {
      assert s[..j] + s[j + 1..] == s[..n];
    } else {
      var t := s[..j] + s[j + 1..];
      assert t[..|t| - 1] == s[..n][..j] + s[..n][j + 1..];
      assert t[|t| - 1] == s[n];
      SumCountsRemoveAt(s[..n], j);
    }
  }

  /** Sums of counts do not depend on the order of the entries. */
  lemma {:induction false} SumCountsPermutation<K>(a: seq<(K, nat)>, b: seq<(K, nat)>)
    requires multiset(a) == multiset(b)
    ensures SumCounts(a) == SumCounts(b)
    decreases |a|
  {
    if a == [] {
      assert |b| == |multiset(b)| == 0;
    } else {
      var n := |a| - 1;
      var last := a[n];
      assert a == a[..n] + [last];
      assert last in multiset(b);
      var j :| 0 <= j < |b| && b[j] == last;
      var rest := b[..j] + b[j + 1..];
      assert b == b[..j] + [last] + b[j + 1..];
      assert multiset(b) == multiset(rest) + multiset{last};
      assert multiset(a) == multiset(a[..n]) + multiset{last};
      assert multiset(a[..n]) == multiset(a) - multiset{last};
      assert multiset(rest) == multiset(b) - multiset{last};
      SumCountsRemoveAt(b, j);
      SumCountsPermutation(a[..n], rest);
    }
  }

  /** A sequence without repeats holds each value at most once. */
  lemma {:induction false} NoDupCount<T>(s: seq<T>, x: T)
    requires NoDup(s)
    ensures multiset(s)[x] <= 1
    decreases |s|
  {
    if s != [] {
      var tail := s[1..];
      assert s == [s[0]] + tail;
      assert NoDup(tail) by {
        forall i, j | 0 <= i < j < |tail|
          ensures tail[i] != tail[j]
        {
          assert tail[i] == s[i + 1] && tail[j] == s[j + 1];
        }
      }
      NoDupCount(tail, x);
      if x == s[0] {
        assert x !in tail by {
          forall j | 0 <= j < |tail|
            ensures tail[j] != s[0]
          {
            assert tail[j] == s[j + 1];
          }
        }
      }
    }
  }

  /** A value found at two positions occurs at least twice. */
  lemma TwoPositions<T>(s: seq<T>, i: nat, j: nat)
    requires i < j < |s| && s[i] == s[j]
    ensures multiset(s)[s[i]] >= 2
  {
    assert s == s[..j] + s[j..];
    assert s[i] in s[..j];
    assert s[j..][0] == s[j];
  }

  /** Every element of `a` is an element of any reordering `b` of it. */
  lemma KeysOfPermutation<K>(a: seq<(K, nat)>, b: seq<(K, nat)>)
    requires multiset(a) == multiset(b)
    ensures forall k :: k in KeysOf(a) ==> k in KeysOf(b)
  {
    forall k | k in KeysOf(a)
      ensures k in KeysOf(b)
    {
      var p :| 0 <= p < |a| && KeysOf(a)[p] == k;
      assert a[p] in multiset(b);
      var q :| 0 <= q < |b| && b[q] == a[p];
      assert KeysOf(b)[q] == k;
    }
  }

  /** Reordering an association list with distinct keys keeps its keys
      distinct, the same, and with the same total. */
  lemma PermutedCounts<K>(a: seq<(K, nat)>, b: seq<(K, nat)>)
    requires multiset(a) == multiset(b)
    requires NoDup(KeysOf(a))
    ensures NoDup(KeysOf(b))
    ensures forall k :: k in KeysOf(b) <==> k in KeysOf(a)
    ensures forall e :: e in b <==> e in a
    ensures SumCounts(b) == SumCounts(a)
  {
    KeysOfPermutation(a, b);
    KeysOfPermutation(b, a);
    SumCountsPermutation(a, b);
    assert forall e :: e in b <==> e in multiset(a);
    assert NoDup(a) by {
      forall p, q | 0 <= p < q < |a|
        ensures a[p] != a[q]
      {
        assert KeysOf(a)[p] != KeysOf(a)[q];
      }
    }
    forall i, j | 0 <= i < j < |b|
      ensures KeysOf(b)[i] != KeysOf(b)[j]
    {
      if b[i].0 == b[j].0 {
        assert b[i] in multiset(a) && b[j] in multiset(a);
        var p :| 0 <= p < |a| && a[p] == b[i];
        var q :| 0 <= q < |a| && a[q] == b[j];
        assert KeysOf(a)[p] == KeysOf(a)[q];
        assert p == q;
        TwoPositions(b, i, j);
        NoDupCount(a, b[i]);
        assert false;
      }
    }
  }

  /** One field of every row, in row order (a `pluck`, or a Python list of
      one key of each dict). */
  function Column<T, U>(s: seq<T>, f: T -> U): (c: seq<U>)
    ensures |c| == |s|
    ensures forall i :: 0 <= i < |s| ==> c[i] == f(s[i])
  {
    seq(|s|, i requires 0 <= i < |s| => f(s[i]))
  }

  /** Counting the rows whose field has a given value counts that value's
      occurrences in the column. */
  lemma {:induction false} FilterCountsValue<T(!new), U>(s: seq<T>, f: T -> U, v: U, p: T -> bool)
    requires forall x :: p(x) == (f(x) == v)
    ensures |Filter(s, p)| == multiset(Column(s, f))[v]
    decreases |s|
  {
    if s != [] {
      var init, last := s[..|s| - 1], s[|s| - 1];
      assert s == init + [last];
      FilterSnoc(init, last, p);
      assert Column(s, f) == Column(init, f) + [f(last)];
      FilterCountsValue(init, f, v, p);
    }
  }

  // ---------------------------------------------------------------------------
  // Ordering: ORDER BY key DESC. Ties keep no promised order.

  predicate SortedDesc<T>(s: seq<T>, key: T -> int) {
    forall i, j :: 0 <= i < j < |s| ==> key(s[i]) >= key(s[j])
  }

  function Insert<T>(x: T, s: seq<T>, key: T -> int): (r: seq<T>)
    requires SortedDesc(s, key)
    ensures |r| == |s| + 1
    ensures r[0] == x || (|s| > 0 && r[0] == s[0])
    ensures multiset(r) == multiset(s) + multiset{x}
    ensures SortedDesc(r, key)
    decreases |s|
  {
    if s == [] || key(x) >= key(s[0]) then
      SortedCons(x, s, key);
      [x] + s
    else
      SortedTail(s, key);
      var rest := Insert(x, s[1..], key);
      SortedCons(s[0], rest, key);
      assert multiset([s[0]] + rest) == multiset{s[0]} + multiset(rest);
      [s[0]] + rest
  }

  lemma SortedTail<T>(s: seq<T>, key: T -> int)
    requires SortedDesc(s, key) && s != []
    ensures SortedDesc(s[1..], key)
    ensures multiset(s) == multiset{s[0]} + multiset(s[1..])
  {
    assert s == [s[0]] + s[1..];
    forall i, j | 0 <= i < j < |s[1..]|
      ensures key(s[1..][i]) >= key(s[1..][j])
    {
      assert s[1..][i] == s[i + 1] && s[1..][j] == s[j + 1];
    }
  }

  /** A head that outranks the first element of a sorted tail keeps it sorted. */
  lemma SortedCons<T>(h: T, t: seq<T>, key: T -> int)
    requires SortedDesc(t, key)
    requires t == [] || key(h) >= key(t[0])
    ensures SortedDesc([h] + t, key)
  {
    var r := [h] + t;
    forall i, j | 0 <= i < j < |r|
      ensures key(r[i]) >= key(r[j])
    {
      if i == 0 {
        assert r[j] == t[j - 1];
        if j > 1 {
          assert key(t[0]) >= key(t[j - 1]);
        }
      } else {
        assert r[i] == t[i - 1] && r[j] == t[j - 1];
      }
    }
  }

  /** The elements of `s` ordered by `key`, largest first. */
  function SortDesc<T>(s: seq<T>, key: T -> int): (r: seq<T>)
    ensures |r| == |s|
    ensures multiset(r) == multiset(s)
    ensures SortedDesc(r, key)
    decreases |s|
  {
    if s == [] then []
    else
      assert s == [s[0]] + s[1..];
      Insert(s[0], SortDesc(s[1..], key), key)
  }

  /** In a sequence sorted by `key`, nothing after position k outranks
      anything before it. */
  lemma SortedPrefixDominates<T>(sorted: seq<T>, key: T -> int, k: nat)
    requires SortedDesc(sorted, key) && k <= |sorted|
    ensures forall a, i :: a in multiset(sorted[k..]) && 0 <= i < k ==> key(a) <= key(sorted[i])
  {
    forall a, i | a in multiset(sorted[k..]) && 0 <= i < k
      ensures key(a) <= key(sorted[i])
    {
      var j :| 0 <= j < |sorted[k..]| && sorted[k..][j] == a;
      assert sorted[k + j] == a;
    }
  }

  lemma SortedTopDominates<T>(s: seq<T>, sorted: seq<T>, key: T -> int, k: nat)
    requires SortedDesc(sorted, key) && multiset(sorted) == multiset(s) && k <= |sorted|
    ensures multiset(sorted[..k]) <= multiset(s)
    ensures forall a, i :: a in multiset(s) - multiset(sorted[..k]) && 0 <= i < k ==> key(a) <= key(sorted[i])
  {
    assert sorted == sorted[..k] + sorted[k..];
    assert multiset(s) - multiset(sorted[..k]) == multiset(sorted[k..]);
    SortedPrefixDominates(sorted, key, k);
  }

  /** `LIMIT n` after `ORDER BY key DESC`. */
  function TopByDesc<T>(s: seq<T>, key: T -> int, n: nat): (r: seq<T>)
    ensures |r| == Min(n, |s|)
    ensures SortedDesc(r, key)
    ensures multiset(r) <= multiset(s)
    ensures forall a, i :: a in multiset(s) - multiset(r) && 0 <= i < |r| ==> key(a) <= key(r[i])
  {
    var sorted := SortDesc(s, key);
    SortedTopDominates(s, sorted, key, Min(n, |s|));
    sorted[..Min(n, |s|)]
  }

  // ---------------------------------------------------------------------------
  // Text

  function DigitChar(d: nat): char
    requires d < 10
  {
    "0123456789"[d]
  }

  /** Decimal rendering of a natural number, as PHP renders an int in a string. */
  function NatToString(n: nat): (r: string)
    ensures |r| >= 1
    ensures forall i :: 0 <= i < |r| ==> '0' <= r[i] <= '9'
    decreases n
  {
    if n < 10 then [DigitChar(n)] else NatToString(n / 10) + [DigitChar(n % 10)]
  }

  function LowerChar(c: char): char {
    if 'A' <= c <= 'Z' then (c as int + 32) as char else c
  }

  function UpperChar(c: char): char {
    if 'a' <= c <= 'z' then (c as int - 32) as char else c
  }

  /** ASCII lower-casing (PHP's `strtolower`; Python's `str.lower` on ASCII). */
  function ToLower(s: string): string {
    seq(|s|, i requires 0 <= i < |s| => LowerChar(s[i]))
  }

  /** Lower-casing twice is lower-casing once. */
  lemma ToLowerIdempotent(s: string)
    ensures ToLower(ToLower(s)) == ToLower(s)
  {
  }

  /** PHP's `ucfirst`: upper-case the first character only. */
  function Ucfirst(s: string): string {
    if s == [] then [] else [UpperChar(s[0])] + s[1..]
  }

  /** The characters PHP's `trim` removes. */
  predicate TrimChar(c: char) {
    c == ' ' || c == '\t' || c == '\n' || c == '\r' || c == '\0' || c == '\U{000B}'
  }

  /** What the framework's `required` rule treats as empty for a string. */
  predicate Blank(s: string) {
    forall i :: 0 <= i < |s| ==> TrimChar(s[i])
  }

  // ---------------------------------------------------------------------------
  // Request fields

  /** A `required` string rule with `max:n`. */
  predicate RequiredString(f: Input<string>, maxLen: nat) {
    f.Given? && !Blank(f.value) && |f.value| <= maxLen
  }

  /** A `nullable|string|max:n` rule: absent or null passes. */
  predicate NullableString(f: Input<string>, maxLen: nat) {
    f.Given? ==> |f.value| <= maxLen
  }

  /** The stored value a create request gives a nullable column. */
  function CreateValue<T>(f: Input<T>): Option<T> {
    if f.Given? then Some(f.value) else None
  }

  /** The stored value an update request gives a nullable column: fields that
      were not sent are not part of the validated data and keep their value. */
  function UpdateValue<T>(f: Input<T>, current: Option<T>): Option<T> {
    match f
    case Absent => current
    case Null => None
    case Given(v) => Some(v)
  }
}
