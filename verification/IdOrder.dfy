/**
 * The order the registry is kept in: records sorted by id with a stable
 * sort. The id comparison is lexicographic code-point order (the same as
 * code-unit order for valid ids), standing in for `localeCompare`.
 */
module IdOrder {
  import opened Types

  /** `a` sorts no later than `b`: lexicographic on characters, a prefix first. */
  predicate IdLeq(a: string, b: string) {
    if |a| == 0 then true
    else if |b| == 0 then false
    else if a[0] != b[0] then a[0] < b[0]
    else IdLeq(a[1..], b[1..])
  }

  /** `a.localeCompare(b) < 0` in this model. */
  predicate IdLess(a: string, b: string) {
    IdLeq(a, b) && a != b
  }

  lemma {:induction false} IdLeqReflexive(a: string)
    ensures IdLeq(a, a)
  {
    if |a| > 0 {
      IdLeqReflexive(a[1..]);
    }
  }

  lemma {:induction false} IdLeqTotal(a: string, b: string)
    ensures IdLeq(a, b) || IdLeq(b, a)
  {
    if |a| > 0 && |b| > 0 && a[0] == b[0] {
      IdLeqTotal(a[1..], b[1..]);
    }
  }

  lemma {:induction false} IdLeqAntisymmetric(a: string, b: string)
    requires IdLeq(a, b) && IdLeq(b, a)
    ensures a == b
  {
    if |a| > 0 && |b| > 0 {
      IdLeqAntisymmetric(a[1..], b[1..]);
      assert a == [a[0]] + a[1..] && b == [b[0]] + b[1..];
    }
  }

  lemma {:induction false} IdLeqTransitive(a: string, b: string, c: string)
    requires IdLeq(a, b) && IdLeq(b, c)
    ensures IdLeq(a, c)
  {
    if |a| > 0 && |b| > 0 && |c| > 0 && a[0] == b[0] && b[0] == c[0] {
      IdLeqTransitive(a[1..], b[1..], c[1..]);
    }
  }

  /** Not strictly before means at or after. */
  lemma NotLessIsGeq(a: string, b: string)
    ensures !IdLess(a, b) <==> IdLeq(b, a)
  {
    IdLeqTotal(a, b);
    IdLeqReflexive(a);
    if IdLeq(b, a) && IdLeq(a, b) {
      IdLeqAntisymmetric(a, b);
    }
  }

  /** Every pair of records is in id order. */
  predicate SortedById(servers: seq<Server>) {
    forall i, j | 0 <= i < j < |servers| :: IdLeq(servers[i].id, servers[j].id)
  }

  /**
   * Inserts `x` after every record whose id is not greater than its own,
   * so a record joins the end of its run of equal ids.
   */
  function Insert(sorted: seq<Server>, x: Server): (r: seq<Server>)
    ensures |r| == |sorted| + 1
  {
    if |sorted| == 0 then [x]
    else if IdLess(x.id, sorted[0].id) then [x] + sorted
    else [sorted[0]] + Insert(sorted[1..], x)
  }

  lemma {:induction false} InsertPermutes(sorted: seq<Server>, x: Server)
    ensures multiset(Insert(sorted, x)) == multiset(sorted) + multiset{x}
  {
    if |sorted| > 0 && !IdLess(x.id, sorted[0].id) {
      InsertPermutes(sorted[1..], x);
      assert sorted == [sorted[0]] + sorted[1..];
    }
  }

  /** Everything in the result of an insertion is the new record or was already there. */
  lemma InsertMembers(sorted: seq<Server>, x: Server)
    ensures forall y | y in Insert(sorted, x) :: y == x || y in sorted
  {
    InsertPermutes(sorted, x);
    forall y | y in Insert(sorted, x)
      ensures y == x || y in sorted
    {
      assert y in multiset(Insert(sorted, x));
    }
  }

  /** A record no later than everything in a sorted list can go in front of it. */
  lemma ConsSorted(h: Server, t: seq<Server>)
    requires SortedById(t)
    requires forall y | y in t :: IdLeq(h.id, y.id)
    ensures SortedById([h] + t)
  {
    forall i, j | 0 <= i < j < |[h] + t|
      ensures IdLeq(([h] + t)[i].id, ([h] + t)[j].id)
    {
      assert ([h] + t)[j] == t[j - 1] && t[j - 1] in t;
      if i > 0 {
        assert ([h] + t)[i] == t[i - 1];
      }
    }
  }

  lemma SortedTail(sorted: seq<Server>)
    requires |sorted| > 0 && SortedById(sorted)
    ensures SortedById(sorted[1..]) && forall y | y in sorted[1..] :: IdLeq(sorted[0].id, y.id)
  {
    forall y | y in sorted[1..]
      ensures IdLeq(sorted[0].id, y.id)
    {
      var k :| 0 <= k < |sorted[1..]| && sorted[1..][k] == y;
      assert sorted[k + 1] == y;
    }
  }

  lemma {:induction false} InsertSorted(sorted: seq<Server>, x: Server)
    requires SortedById(sorted)
    ensures SortedById(Insert(sorted, x))
  {
    if |sorted| == 0 {
    } else if IdLess(x.id, sorted[0].id) {
      SortedTail(sorted);
      forall y | y in sorted
        ensures IdLeq(x.id, y.id)
      {
        if y != sorted[0] {
          assert y in sorted[1..] by {
            var k :| 0 <= k < |sorted| && sorted[k] == y;
            assert sorted[1..][k - 1] == y;
          }
          IdLeqTransitive(x.id, sorted[0].id, y.id);
        }
      }
      ConsSorted(x, sorted);
    } else {
      var tail := sorted[1..];
      SortedTail(sorted);
      InsertSorted(tail, x);
      InsertMembers(tail, x);
      NotLessIsGeq(x.id, sorted[0].id);
      ConsSorted(sorted[0], Insert(tail, x));
    }
  }

  /**
   * `servers.sort((a, b) => a.id.localeCompare(b.id))`: a stable sort
   * (the language's sort is stable), here an insertion sort from the left.
   */
  function SortById(servers: seq<Server>): (r: seq<Server>)
    ensures SortedById(r)
    ensures multiset(r) == multiset(servers)
    ensures |r| == |servers|
  {
    if |servers| == 0 then []
    else
      var init := servers[..|servers| - 1];
      var last := servers[|servers| - 1];
      assert servers == init + [last];
      var s := SortById(init);
      InsertSorted(s, last);
      InsertPermutes(s, last);
      Insert(s, last)
  }

  /** A record that belongs at the end is appended. */
  lemma {:induction false} InsertAtEnd(sorted: seq<Server>, x: Server)
    requires forall i | 0 <= i < |sorted| :: IdLeq(sorted[i].id, x.id)
    ensures Insert(sorted, x) == sorted + [x]
  {
    if |sorted| > 0 {
      NotLessIsGeq(x.id, sorted[0].id);
      InsertAtEnd(sorted[1..], x);
      assert sorted == [sorted[0]] + sorted[1..];
    }
  }

  /** A registry already in id order is left exactly as it is, so sorting is idempotent. */
  lemma {:induction false} SortKeepsSorted(servers: seq<Server>)
    requires SortedById(servers)
    ensures SortById(servers) == servers
  {
    if |servers| > 0 {
      var init := servers[..|servers| - 1];
      var last := servers[|servers| - 1];
      assert servers == init + [last];
      assert SortedById(init);
      SortKeepsSorted(init);
      assert forall i | 0 <= i < |init| :: init[i] == servers[i];
      InsertAtEnd(init, last);
      assert SortById(servers) == Insert(SortById(init), last);
    }
  }

  lemma SortIdempotent(servers: seq<Server>)
    ensures SortById(SortById(servers)) == SortById(servers)
  {
    SortKeepsSorted(SortById(servers));
  }

  /** A record whose id is in no record of a list with unique ids can go in front of it. */
  lemma ConsUnique(h: Server, t: seq<Server>)
    requires UniqueIds(t)
    requires forall y | y in t :: h.id != y.id
    ensures UniqueIds([h] + t)
  {
    forall i, j | 0 <= i < |[h] + t| && 0 <= j < |[h] + t| && i != j
      ensures ([h] + t)[i].id != ([h] + t)[j].id
    {
      if i > 0 {
        assert ([h] + t)[i] == t[i - 1] && t[i - 1] in t;
      }
      if j > 0 {
        assert ([h] + t)[j] == t[j - 1] && t[j - 1] in t;
      }
    }
  }

  lemma {:induction false} InsertKeepsUniqueIds(sorted: seq<Server>, x: Server)
    requires UniqueIds(sorted)
    requires forall i | 0 <= i < |sorted| :: sorted[i].id != x.id
    ensures UniqueIds(Insert(sorted, x))
  {
    if |sorted| == 0 {
    } else if IdLess(x.id, sorted[0].id) {
      ConsUnique(x, sorted);
    } else {
      var tail := sorted[1..];
      assert UniqueIds(tail);
      InsertKeepsUniqueIds(tail, x);
      InsertMembers(tail, x);
      forall y | y in Insert(tail, x)
        ensures sorted[0].id != y.id
      {
        if y != x {
          var k :| 0 <= k < |tail| && tail[k] == y;
          assert tail[k] == sorted[k + 1];
        }
      }
      ConsUnique(sorted[0], Insert(tail, x));
    }
  }

  /** Sorting keeps a registry free of repeated ids. */
  lemma {:induction false} SortKeepsUniqueIds(servers: seq<Server>)
    requires UniqueIds(servers)
    ensures UniqueIds(SortById(servers))
  {
    if |servers| > 0 {
      var init := servers[..|servers| - 1];
      var last := servers[|servers| - 1];
      assert servers == init + [last];
      assert UniqueIds(init);
      SortKeepsUniqueIds(init);
      var s := SortById(init);
      forall i | 0 <= i < |s|
        ensures s[i].id != last.id
      {
        assert s[i] in multiset(init);
        var k :| 0 <= k < |init| && init[k] == s[i];
        assert init[k] == servers[k];
      }
      InsertKeepsUniqueIds(s, last);
      assert SortById(servers) == Insert(s, last);
    }
  }
}
