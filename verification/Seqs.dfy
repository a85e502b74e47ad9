/** Generic sequence helpers: JavaScript's `[...new Set(xs)]`, `filter` and flattening. */
module Seqs {

  predicate Distinct<T(==)>(xs: seq<T>) {
    forall i, j | 0 <= i < j < |xs| :: xs[i] != xs[j]
  }

  /** Two repeat-free sequences with nothing in common concatenate without repeats. */
  lemma DistinctConcat<T>(xs: seq<T>, ys: seq<T>)
    requires Distinct(xs) && Distinct(ys)
    requires forall x, y | x in xs && y in ys :: x != y
    ensures Distinct(xs + ys)
  {
    forall i, j | 0 <= i < j < |xs + ys|
      ensures (xs + ys)[i] != (xs + ys)[j]
    {
      if j < |xs| {
        assert (xs + ys)[i] == xs[i] && (xs + ys)[j] == xs[j];
      } else if i >= |xs| {
        assert (xs + ys)[i] == ys[i - |xs|] && (xs + ys)[j] == ys[j - |xs|];
      } else {
        assert (xs + ys)[i] == xs[i] && (xs + ys)[j] == ys[j - |xs|];
        assert xs[i] in xs && ys[j - |xs|] in ys;
      }
    }
  }

  /** The tail of a repeat-free sequence is repeat-free and does not contain the head. */
  lemma DistinctTail<T>(xs: seq<T>)
    requires Distinct(xs) && |xs| > 0
    ensures Distinct(xs[1..]) && xs[0] !in xs[1..]
    ensures forall x :: x in xs <==> x == xs[0] || x in xs[1..]
  {
    var tail := xs[1..];
    forall j | 0 <= j < |tail|
      ensures tail[j] != xs[0]
    {
      assert tail[j] == xs[j + 1];
    }
    assert xs == [xs[0]] + tail;
  }

  /**
   * `[...new Set(xs)]`: each element kept at its first occurrence, later
   * repeats dropped. Defined by appending, as the Set is filled in order.
   */
  function Dedup<T(==)>(xs: seq<T>): (r: seq<T>)
    ensures Distinct(r)
    ensures forall x | x in r :: x in xs
    ensures forall x | x in xs :: x in r
    ensures |r| <= |xs|
  {
    if |xs| == 0 then []
    else
      var d := Dedup(xs[..|xs| - 1]);
      var x := xs[|xs| - 1];
      assert xs == xs[..|xs| - 1] + [x];
      if x in d then d else d + [x]
  }

  /** The position of the first occurrence of `x`. */
  function FirstIndex<T(==)>(xs: seq<T>, x: T): (k: nat)
    requires x in xs
    ensures k < |xs| && xs[k] == x
    ensures forall m | 0 <= m < k :: xs[m] != x
  {
    if xs[0] == x then 0
    else
      assert x in xs[1..] by {
        var m :| 0 <= m < |xs| && xs[m] == x;
        assert xs[1..][m - 1] == x;
      }
      var k := FirstIndex(xs[1..], x);
      assert forall m | 1 <= m < k + 1 :: xs[m] == xs[1..][m - 1];
      k + 1
  }

  /** Elements already in `a` are first met inside `a`, whatever follows. */
  lemma FirstIndexPrefix<T>(a: seq<T>, b: seq<T>, x: T)
    requires x in a
    ensures FirstIndex(a + b, x) == FirstIndex(a, x)
  {
    var k := FirstIndex(a, x);
    var k' := FirstIndex(a + b, x);
    assert (a + b)[k] == x;
    assert k' <= k;
    assert a[k'] == (a + b)[k'];
  }

  /**
   * `ys` holds the elements of `xs`, each once, in the order of their first
   * occurrence in `xs`: what `[...new Set(xs)]` produces.
   */
  predicate FirstSeen<T(==)>(ys: seq<T>, xs: seq<T>) {
    && Distinct(ys)
    && (forall y | y in ys :: y in xs)
    && (forall x | x in xs :: x in ys)
    && (forall i, j | 0 <= i < j < |ys| && ys[i] in xs && ys[j] in xs :: FirstIndex(xs, ys[i]) < FirstIndex(xs, ys[j]))
  }

  /** Deduplication keeps each element at its first occurrence, in order. */
  lemma {:induction false} DedupFirstSeen<T>(xs: seq<T>)
    ensures FirstSeen(Dedup(xs), xs)
  {
    if |xs| > 0 {
      var p := xs[..|xs| - 1];
      var x := xs[|xs| - 1];
      assert xs == p + [x];
      DedupFirstSeen(p);
      PrefixIndexes(p, x);
      DedupSnoc(p, x);
      if x in p {
        RepeatFirstSeen(Dedup(p), p, x);
      } else {
        AppendFirstSeen(Dedup(p), p, x);
      }
    }
  }

  /** A repeat at the end of `p` leaves its first-seen sequence as it is. */
  lemma RepeatFirstSeen<T>(d: seq<T>, p: seq<T>, x: T)
    requires FirstSeen(d, p) && x in p
    requires forall y | y in p :: FirstIndex(p + [x], y) == FirstIndex(p, y)
    ensures FirstSeen(d, p + [x])
  {
    forall y | y in p + [x]
      ensures y in d
    {
      assert y in p;
    }
  }

  /** A new element at the end of `p` goes at the end of its first-seen sequence. */
  lemma AppendFirstSeen<T>(d: seq<T>, p: seq<T>, x: T)
    requires FirstSeen(d, p) && x !in p
    requires forall y | y in p :: FirstIndex(p + [x], y) == FirstIndex(p, y)
    ensures FirstSeen(d + [x], p + [x])
  {
    var xs := p + [x];
    assert x !in d;
    assert FirstIndex(xs, x) == |p|;
    forall i | 0 <= i < |d|
      ensures d[i] in xs && FirstIndex(xs, d[i]) < FirstIndex(xs, x)
    {
      assert d[i] in d;
    }
    forall i, j | 0 <= i < j < |d|
      ensures FirstIndex(xs, d[i]) < FirstIndex(xs, d[j])
    {
      assert d[i] in d && d[j] in d;
    }
    LastFirstSeen(d, xs, x);
    forall y | y in xs
      ensures y in d + [x]
    {
      if y != x {
        assert y in p;
      }
    }
  }

  /** Appending a new element, first met after all of `d`, keeps the order. */
  lemma LastFirstSeen<T>(d: seq<T>, xs: seq<T>, x: T)
    requires Distinct(d) && x !in d && x in xs
    requires forall i | 0 <= i < |d| :: d[i] in xs
    requires forall i, j | 0 <= i < j < |d| :: FirstIndex(xs, d[i]) < FirstIndex(xs, d[j])
    requires forall i | 0 <= i < |d| :: FirstIndex(xs, d[i]) < FirstIndex(xs, x)
    ensures Distinct(d + [x])
    ensures forall i, j | 0 <= i < j < |d + [x]| :: FirstIndex(xs, (d + [x])[i]) < FirstIndex(xs, (d + [x])[j])
  {
    var r := d + [x];
    assert forall i | 0 <= i < |d| :: r[i] == d[i];
  }

  /** A non-empty sequence holds its first and its last element. */
  lemma Ends<T>(ys: seq<T>)
    ensures |ys| > 0 ==> ys[0] in ys && ys[|ys| - 1] in ys
  {
  }

  /** The first-seen order fixes the sequence: it is exactly the deduplication. */
  lemma {:induction false} FirstSeenIsDedup<T>(ys: seq<T>, xs: seq<T>)
    requires FirstSeen(ys, xs)
    ensures ys == Dedup(xs)
    decreases |xs|, 1
  {
    if |xs| == 0 {
      Ends(ys);
    } else {
      var p := xs[..|xs| - 1];
      var x := xs[|xs| - 1];
      assert xs == p + [x];
      if x in p {
        FirstSeenKnownLast(ys, xs, p, x);
      } else {
        FirstSeenNewLast(ys, xs, p, x);
      }
    }
  }

  /** The step of `FirstSeenIsDedup` for a last element met before. */
  lemma {:induction false} FirstSeenKnownLast<T>(ys: seq<T>, xs: seq<T>, p: seq<T>, x: T)
    requires FirstSeen(ys, xs)
    requires xs == p + [x] && x in p
    ensures ys == Dedup(xs)
    decreases |xs|, 0
  {
    PrefixIndexes(p, x);
    DedupSnoc(p, x);
    KnownLastFirstSeen(ys, xs, p, x);
    FirstSeenIsDedup(ys, p);
  }

  /** The step of `FirstSeenIsDedup` for a last element met nowhere before. */
  lemma {:induction false} FirstSeenNewLast<T>(ys: seq<T>, xs: seq<T>, p: seq<T>, x: T)
    requires FirstSeen(ys, xs)
    requires xs == p + [x] && x !in p
    ensures ys == Dedup(xs)
    decreases |xs|, 0
  {
    PrefixIndexes(p, x);
    DedupSnoc(p, x);
    NewLastComesLast(ys, xs, p, x);
    InitFirstSeen(ys, xs, p, x);
    FirstSeenIsDedup(ys[..|ys| - 1], p);
    assert ys == ys[..|ys| - 1] + [x];
  }

  /** Deduplication of a sequence extended by one element. */
  lemma DedupSnoc<T>(p: seq<T>, x: T)
    ensures Dedup(p + [x]) == if x in p then Dedup(p) else Dedup(p) + [x]
  {
    assert (p + [x])[..|p + [x]| - 1] == p;
  }

  /** Elements of `p` are first met at the same place in `p + [x]`. */
  lemma PrefixIndexes<T>(p: seq<T>, x: T)
    ensures forall y | y in p :: FirstIndex(p + [x], y) == FirstIndex(p, y)
  {
    forall y | y in p
      ensures FirstIndex(p + [x], y) == FirstIndex(p, y)
    {
      FirstIndexPrefix(p, [x], y);
    }
  }

  /** A last element already met earlier changes nothing: `ys` is first-seen in the prefix too. */
  lemma KnownLastFirstSeen<T>(ys: seq<T>, xs: seq<T>, p: seq<T>, x: T)
    requires FirstSeen(ys, xs)
    requires xs == p + [x] && x in p
    requires forall y | y in p :: FirstIndex(xs, y) == FirstIndex(p, y)
    ensures FirstSeen(ys, p)
  {
    forall y | y in xs
      ensures y in p
    {
      var m :| 0 <= m < |xs| && xs[m] == y;
      if m < |p| {
        assert p[m] == y;
      }
    }
  }

  /** When the last element of `xs` is met nowhere before, it comes last in `ys`. */
  lemma NewLastComesLast<T>(ys: seq<T>, xs: seq<T>, p: seq<T>, x: T)
    requires FirstSeen(ys, xs)
    requires xs == p + [x] && x !in p
    ensures |ys| > 0 && ys[|ys| - 1] == x
  {
    assert x in xs;
    var k :| 0 <= k < |ys| && ys[k] == x;
    assert FirstIndex(xs, x) == |p|;
    Ends(ys);
  }

  /** Dropping that last element leaves the first-seen sequence of the prefix. */
  lemma InitFirstSeen<T>(ys: seq<T>, xs: seq<T>, p: seq<T>, x: T)
    requires FirstSeen(ys, xs)
    requires xs == p + [x] && x !in p
    requires |ys| > 0 && ys[|ys| - 1] == x
    requires forall y | y in p :: FirstIndex(xs, y) == FirstIndex(p, y)
    ensures FirstSeen(ys[..|ys| - 1], p)
  {
    var init := ys[..|ys| - 1];
    DropLastDistinct(ys);
    InitMembers(ys, xs, p, x);
    forall i, j | 0 <= i < j < |init| && init[i] in p && init[j] in p
      ensures FirstIndex(p, init[i]) < FirstIndex(p, init[j])
    {
      assert init[i] == ys[i] && init[j] == ys[j];
    }
  }

  /** Without its last element a repeat-free sequence stays repeat-free and no longer holds that element. */
  lemma DropLastDistinct<T>(ys: seq<T>)
    requires Distinct(ys) && |ys| > 0
    ensures Distinct(ys[..|ys| - 1]) && ys[|ys| - 1] !in ys[..|ys| - 1]
  {
    var init := ys[..|ys| - 1];
    forall i | 0 <= i < |init|
      ensures init[i] != ys[|ys| - 1]
    {
      assert init[i] == ys[i];
    }
  }

  /** The elements left after dropping the new last one are exactly those of the prefix. */
  lemma InitMembers<T>(ys: seq<T>, xs: seq<T>, p: seq<T>, x: T)
    requires forall y | y in ys :: y in xs
    requires forall y | y in xs :: y in ys
    requires xs == p + [x] && x !in p
    requires |ys| > 0 && ys[|ys| - 1] == x && x !in ys[..|ys| - 1]
    ensures forall y | y in ys[..|ys| - 1] :: y in p
    ensures forall y | y in p :: y in ys[..|ys| - 1]
  {
    var init := ys[..|ys| - 1];
    assert ys == init + [x];
    forall y | y in init
      ensures y in p
    {
      assert y in xs && y != x;
      var m :| 0 <= m < |xs| && xs[m] == y;
      assert p[m] == y;
    }
    forall y | y in p
      ensures y in init
    {
      assert y in xs && y != x;
    }
  }

  /** Later elements never disturb the order already fixed by earlier ones. */
  lemma {:induction false} DedupPrefix<T>(a: seq<T>, b: seq<T>)
    ensures |Dedup(a)| <= |Dedup(a + b)|
    ensures Dedup(a + b)[..|Dedup(a)|] == Dedup(a)
    decreases |b|
  {
    if |b| == 0 {
      assert a + b == a;
    } else {
      var b' := b[..|b| - 1];
      DedupPrefix(a, b');
      assert (a + b)[..|a + b| - 1] == a + b';
    }
  }

  /** Appending elements already present changes nothing. */
  lemma {:induction false} DedupAbsorbs<T>(a: seq<T>, b: seq<T>)
    requires forall x | x in b :: x in a
    ensures Dedup(a + b) == Dedup(a)
    decreases |b|
  {
    if |b| == 0 {
      assert a + b == a;
    } else {
      var b' := b[..|b| - 1];
      DedupAbsorbs(a, b');
      assert (a + b)[..|a + b| - 1] == a + b';
      assert b[|b| - 1] in a;
    }
  }

  /** A sequence without repeats is its own deduplication. */
  lemma {:induction false} DedupOfDistinct<T>(xs: seq<T>)
    requires Distinct(xs)
    ensures Dedup(xs) == xs
  {
    if |xs| > 0 {
      var p := xs[..|xs| - 1];
      assert Distinct(p);
      DedupOfDistinct(p);
      assert xs[|xs| - 1] !in p;
      assert xs == p + [xs[|xs| - 1]];
    }
  }

  /** Deduplication is idempotent. */
  lemma DedupIdempotent<T>(xs: seq<T>)
    ensures Dedup(Dedup(xs)) == Dedup(xs)
  {
    DedupOfDistinct(Dedup(xs));
  }

  /** `xs.filter(keep)`: the kept elements, in their original order. */
  function Filter<T>(xs: seq<T>, keep: T -> bool): (r: seq<T>)
    ensures |r| <= |xs|
    ensures forall i | 0 <= i < |r| :: keep(r[i]) && r[i] in xs
    ensures forall i | 0 <= i < |xs| && keep(xs[i]) :: xs[i] in r
    ensures |r| == |xs| <==> forall i | 0 <= i < |xs| :: keep(xs[i])
  {
    if |xs| == 0 then []
    else
      var rest := Filter(xs[1..], keep);
      assert forall i | 1 <= i < |xs| :: xs[i] == xs[1..][i - 1];
      if keep(xs[0]) then [xs[0]] + rest else rest
  }

  /** Filtering distributes over concatenation, so relative order is kept. */
  lemma {:induction false} FilterAppend<T>(a: seq<T>, b: seq<T>, keep: T -> bool)
    ensures Filter(a + b, keep) == Filter(a, keep) + Filter(b, keep)
  {
    if |a| > 0 {
      assert (a + b)[1..] == a[1..] + b;
      assert (a + b)[0] == a[0];
      FilterAppend(a[1..], b, keep);
      if keep(a[0]) {
        calc {
          Filter(a + b, keep);
          [a[0]] + Filter(a[1..] + b, keep);
          [a[0]] + (Filter(a[1..], keep) + Filter(b, keep));
          ([a[0]] + Filter(a[1..], keep)) + Filter(b, keep);
        }
      }
    } else {
      assert a + b == b;
    }
  }

  /** Filtering with a predicate that keeps everything changes nothing. */
  lemma {:induction false} FilterKeepsAll<T>(xs: seq<T>, keep: T -> bool)
    requires forall i | 0 <= i < |xs| :: keep(xs[i])
    ensures Filter(xs, keep) == xs
  {
    if |xs| > 0 {
      FilterKeepsAll(xs[1..], keep);
      assert xs == [xs[0]] + xs[1..];
    }
  }

  /** Filtering with a predicate that keeps nothing leaves nothing. */
  lemma {:induction false} FilterDropsAll<T>(xs: seq<T>, keep: T -> bool)
    requires forall i | 0 <= i < |xs| :: !keep(xs[i])
    ensures Filter(xs, keep) == []
  {
    if |xs| > 0 {
      FilterDropsAll(xs[1..], keep);
    }
  }

  /** Filtering with a predicate that rejects position `k` alone removes just that position. */
  lemma {:induction false} FilterDropsOne<T>(xs: seq<T>, k: nat, keep: T -> bool)
    requires k < |xs| && !keep(xs[k])
    requires forall j | 0 <= j < |xs| && j != k :: keep(xs[j])
    ensures Filter(xs, keep) == xs[..k] + xs[k + 1..]
  {
    KeepsTailExcept(xs, k, keep);
    if k == 0 {
      FilterKeepsAll(xs[1..], keep);
    } else {
      FilterDropsOne(xs[1..], k - 1, keep);
      DropOneCons(xs, k);
    }
  }

  /** The tail of `xs` is kept everywhere except at the position `k` moves to. */
  lemma KeepsTailExcept<T>(xs: seq<T>, k: nat, keep: T -> bool)
    requires 0 < |xs|
    requires forall j | 0 <= j < |xs| && j != k :: keep(xs[j])
    ensures forall j | 0 <= j < |xs| - 1 && j + 1 != k :: keep(xs[1..][j])
  {
    assert forall j | 0 <= j < |xs| - 1 :: xs[1..][j] == xs[j + 1];
  }

  /** Dropping position `k > 0` of `xs` keeps the head and drops `k - 1` of the tail. */
  lemma DropOneCons<T>(xs: seq<T>, k: nat)
    requires 0 < k < |xs|
    ensures xs[..k] + xs[k + 1..] == [xs[0]] + (xs[1..][..k - 1] + xs[1..][k..])
  {
    assert xs[..k] == [xs[0]] + xs[1..][..k - 1];
    assert xs[k + 1..] == xs[1..][k..];
  }

  /** Two predicates that agree on the elements select the same elements. */
  lemma {:induction false} FilterAgree<T>(xs: seq<T>, f: T -> bool, g: T -> bool)
    requires forall i | 0 <= i < |xs| :: f(xs[i]) == g(xs[i])
    ensures Filter(xs, f) == Filter(xs, g)
  {
    if |xs| > 0 {
      FilterAgree(xs[1..], f, g);
    }
  }

  /** Concatenation of a sequence of sequences. */
  function Flatten<T>(xss: seq<seq<T>>): seq<T>
  {
    if |xss| == 0 then [] else xss[0] + Flatten(xss[1..])
  }

  lemma FlattenAppend<T>(xss: seq<seq<T>>, ys: seq<T>)
    ensures Flatten(xss + [ys]) == Flatten(xss) + ys
  {
    if |xss| == 0 {
      assert xss + [ys] == [ys];
    } else {
      assert (xss + [ys])[1..] == xss[1..] + [ys];
      FlattenAppend(xss[1..], ys);
    }
  }
}
