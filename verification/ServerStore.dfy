/**
 * The registry operations of `ServerStore` as pure transformations of the
 * record list. Reading and writing the JSON file is outside the model: every
 * operation takes the list it would have read and returns the list it would
 * write, or the error it would throw (leaving the file, so the list, as it was).
 */
module ServerStore {
  import opened Wrappers
  import opened Seqs
  import opened Types
  import opened Validation
  import opened IdOrder

  /** The three errors the store throws. */
  datatype StoreError =
    | ValidationFailed(errors: seq<Violation>)
    | AlreadyExists(id: string)
    | NotFound(id: string)

  /**
   * `Partial<Server>` as passed to `update`. A required member is either
   * supplied or not; an optional member may also be supplied as `undefined`
   * (`Some(None)`), which the object spread copies over the old value.
   */
  datatype Changes = Changes(
    id: Option<string>,
    labelText: Option<string>,
    port: Option<int>,
    instanceDir: Option<Option<string>>,
    serverVersion: Option<string>,
    adminVersion: Option<Option<string>>,
    french: Option<Option<bool>>,
    ethiopian: Option<Option<bool>>,
    openAccess: Option<Option<bool>>,
    tags: Option<Option<seq<string>>>)

  const NoChanges := Changes(None, None, None, None, None, None, None, None, None, None)

  /** One member of an object spread: a supplied value wins. */
  function Override<T>(current: T, supplied: Option<T>): T {
    if supplied.Some? then supplied.value else current
  }

  /** `{ ...server, ...changes }`. */
  function Merge(s: Server, c: Changes): Server {
    Server(
      Override(s.id, c.id),
      Override(s.labelText, c.labelText),
      Override(s.port, c.port),
      Override(s.instanceDir, c.instanceDir),
      Override(s.serverVersion, c.serverVersion),
      Override(s.adminVersion, c.adminVersion),
      Override(s.french, c.french),
      Override(s.ethiopian, c.ethiopian),
      Override(s.openAccess, c.openAccess),
      Override(s.tags, c.tags))
  }

  /** `{ ...first, ...second }` on change sets. */
  function Then(first: Changes, second: Changes): Changes {
    Changes(
      if second.id.Some? then second.id else first.id,
      if second.labelText.Some? then second.labelText else first.labelText,
      if second.port.Some? then second.port else first.port,
      if second.instanceDir.Some? then second.instanceDir else first.instanceDir,
      if second.serverVersion.Some? then second.serverVersion else first.serverVersion,
      if second.adminVersion.Some? then second.adminVersion else first.adminVersion,
      if second.french.Some? then second.french else first.french,
      if second.ethiopian.Some? then second.ethiopian else first.ethiopian,
      if second.openAccess.Some? then second.openAccess else first.openAccess,
      if second.tags.Some? then second.tags else first.tags)
  }

  /** An empty change set leaves the record as it is. */
  lemma MergeNothing(s: Server)
    ensures Merge(s, NoChanges) == s
  {
  }

  /** Two spreads in a row are one spread of the combined changes; hence merging is idempotent. */
  lemma MergeThen(s: Server, c1: Changes, c2: Changes)
    ensures Merge(Merge(s, c1), c2) == Merge(s, Then(c1, c2))
    ensures Merge(Merge(s, c1), c1) == Merge(s, c1)
  {
  }

  /** `findIndex(s => s.id === id)`, with `-1` as `None`. */
  function FindIndex(servers: seq<Server>, id: string): (r: Option<nat>)
    ensures r.Some? <==> IdPresent(servers, id)
    ensures r.Some? ==> r.value < |servers| && servers[r.value].id == id
    ensures r.Some? ==> forall j | 0 <= j < r.value :: servers[j].id != id
  {
    if |servers| == 0 then None
    else if servers[0].id == id then Some(0)
    else
      var r := FindIndex(servers[1..], id);
      assert forall j | 1 <= j < |servers| :: servers[j] == servers[1..][j - 1];
      if r.None? then None else Some(r.value + 1)
  }

  /** `FindIndex` looks only at the ids. */
  lemma {:induction false} FindIndexByIds(a: seq<Server>, b: seq<Server>, id: string)
    requires |a| == |b|
    requires forall i | 0 <= i < |a| :: a[i].id == b[i].id
    ensures FindIndex(a, id) == FindIndex(b, id)
  {
    if |a| > 0 && a[0].id != id {
      FindIndexByIds(a[1..], b[1..], id);
    }
  }

  /** `get`: the first record with that id, or `null`. */
  function Get(servers: seq<Server>, id: string): (r: Option<Server>)
    ensures r.Some? <==> IdPresent(servers, id)
    ensures r.Some? ==> r.value.id == id && r.value in servers
    ensures r.Some? ==> exists k | 0 <= k < |servers| :: servers[k] == r.value && forall j | 0 <= j < k :: servers[j].id != id
  {
    var k := FindIndex(servers, id);
    if k.None? then None else Some(servers[k.value])
  }

  /** `get` is the lookup the validator's conflict check performs when nothing is excluded. */
  lemma GetIsConflictCheck(servers: seq<Server>, id: string)
    ensures Get(servers, id) == CheckIdConflict(servers, id, None)
  {
    var g := Get(servers, id);
    var c := CheckIdConflict(servers, id, None);
    if g.Some? {
      var k :| 0 <= k < |servers| && servers[k] == g.value && forall j | 0 <= j < k :: servers[j].id != id;
      var m :| 0 <= m < |servers| && servers[m] == c.value && forall j | 0 <= j < m :: servers[j].id != id;
      assert k == m;
    }
  }

  /**
   * `add`: the record is validated first, then its id checked against the
   * registry, then appended and the list re-sorted by id.
   */
  function Add(servers: seq<Server>, s: Server): (r: Result<seq<Server>, StoreError>)
    ensures r == Failure(ValidationFailed(ValidateServer(s).errors)) <==> !WellFormed(s)
    ensures r == Failure(AlreadyExists(s.id)) <==> WellFormed(s) && IdPresent(servers, s.id)
    ensures r.Success? <==> WellFormed(s) && !IdPresent(servers, s.id)
    ensures r.Success? ==> SortedById(r.value) && multiset(r.value) == multiset(servers) + multiset{s}
  {
    var v := ValidateServer(s);
    if !v.valid then Failure(ValidationFailed(v.errors))
    else if CheckIdConflict(servers, s.id, None).Some? then Failure(AlreadyExists(s.id))
    else Success(SortById(servers + [s]))
  }

  /** After a successful `add`, `get` finds exactly the added record, and ids stay unique. */
  lemma AddThenGet(servers: seq<Server>, s: Server)
    requires Add(servers, s).Success?
    ensures Get(Add(servers, s).value, s.id) == Some(s)
    ensures UniqueIds(servers) ==> UniqueIds(Add(servers, s).value)
  {
    var r := Add(servers, s).value;
    assert s in multiset(r);
    var g := Get(r, s.id);
    assert g.value in multiset(r);
    if UniqueIds(servers) {
      var xs := servers + [s];
      forall i, j | 0 <= i < j < |xs|
        ensures xs[i].id != xs[j].id
      {
        if j == |servers| {
          assert xs[i] == servers[i];
        } else {
          assert xs[i] == servers[i] && xs[j] == servers[j];
        }
      }
      SortKeepsUniqueIds(xs);
    }
  }

  /**
   * `update`: the first record with that id is replaced by its merge with
   * the changes, provided the merge validates; the list is then re-sorted.
   */
  function Update(servers: seq<Server>, id: string, changes: Changes): (r: Result<seq<Server>, StoreError>)
    ensures r == Failure(NotFound(id)) <==> !IdPresent(servers, id)
    ensures r.Success? <==>
      IdPresent(servers, id) && WellFormed(Merge(servers[FindIndex(servers, id).value], changes))
    ensures r.Failure? && r.error.ValidationFailed? <==>
      IdPresent(servers, id) && !WellFormed(Merge(servers[FindIndex(servers, id).value], changes))
    ensures IdPresent(servers, id) ==>
      var merged := Merge(servers[FindIndex(servers, id).value], changes);
      (r == Failure(ValidationFailed(ValidateServer(merged).errors)) <==> !WellFormed(merged))
    ensures r.Success? ==>
      var k := FindIndex(servers, id).value;
      SortedById(r.value) && multiset(r.value) == multiset(servers[k := Merge(servers[k], changes)])
  {
    var k := FindIndex(servers, id);
    if k.None? then Failure(NotFound(id))
    else
      var updated := Merge(servers[k.value], changes);
      var v := ValidateServer(updated);
      if !v.valid then Failure(ValidationFailed(v.errors))
      else Success(SortById(servers[k.value := updated]))
  }

  /** An update that does not change the id keeps ids unique. */
  lemma UpdateKeepsUniqueIds(servers: seq<Server>, id: string, changes: Changes)
    requires UniqueIds(servers)
    requires changes.id == None || changes.id == Some(id)
    requires Update(servers, id, changes).Success?
    ensures UniqueIds(Update(servers, id, changes).value)
  {
    var k := FindIndex(servers, id).value;
    var xs := servers[k := Merge(servers[k], changes)];
    assert forall i | 0 <= i < |xs| :: xs[i].id == servers[i].id;
    SortKeepsUniqueIds(xs);
  }

  /**
   * `remove`: every record with that id is dropped, the others keep their
   * order; nothing is re-sorted. An id that is absent is an error.
   */
  function Remove(servers: seq<Server>, id: string): (r: Result<seq<Server>, StoreError>)
    ensures r.Failure? <==> !IdPresent(servers, id)
    ensures r.Failure? ==> r.error == NotFound(id)
    ensures r.Success? ==> |r.value| < |servers| && !IdPresent(r.value, id)
    ensures r.Success? ==> forall i | 0 <= i < |servers| && servers[i].id != id :: servers[i] in r.value
    ensures r.Success? ==> forall x | x in r.value :: x in servers
  {
    var filtered := WithoutId(servers, id);
    if |filtered| == |servers| then Failure(NotFound(id)) else Success(filtered)
  }

  /** With unique ids, `remove` drops exactly the one record and keeps every other position's order. */
  lemma RemoveKeepsOrder(servers: seq<Server>, id: string)
    requires UniqueIds(servers) && IdPresent(servers, id)
    ensures Remove(servers, id) == Success(servers[..FindIndex(servers, id).value] + servers[FindIndex(servers, id).value + 1..])
  {
    FilterDropsOne(servers, FindIndex(servers, id).value, (s: Server) => s.id != id);
  }

  /** `remove` leaves a registry that was in id order still in id order. */
  lemma {:induction false} FilterKeepsSorted(servers: seq<Server>, keep: Server -> bool)
    requires SortedById(servers)
    ensures SortedById(Filter(servers, keep))
  {
    if |servers| > 0 {
      var tail := servers[1..];
      IdOrder.SortedTail(servers);
      FilterKeepsSorted(tail, keep);
      var rest := Filter(tail, keep);
      assert Filter(servers, keep) == if keep(servers[0]) then [servers[0]] + rest else rest;
      if keep(servers[0]) {
        forall y | y in rest
          ensures IdLeq(servers[0].id, y.id)
        {
          var k :| 0 <= k < |tail| && tail[k] == y;
          assert tail[k] == servers[k + 1];
        }
        ConsSorted(servers[0], rest);
      }
    }
  }

  /** The tag list `addTags` stores: the current tags, then the new ones, each once at its first occurrence. */
  function UnionTags(current: seq<string>, added: seq<string>): (r: seq<string>)
    ensures Distinct(r)
    ensures forall t | t in r :: t in current || t in added
    ensures forall t | t in current || t in added :: t in r
    ensures FirstSeen(r, current + added)
  {
    DedupFirstSeen(current + added);
    Dedup(current + added)
  }

  /** Existing tags keep their places at the front when they were already distinct. */
  lemma UnionKeepsCurrent(current: seq<string>, added: seq<string>)
    requires Distinct(current)
    ensures |current| <= |UnionTags(current, added)|
    ensures UnionTags(current, added)[..|current|] == current
  {
    DedupPrefix(current, added);
    DedupOfDistinct(current);
  }

  /**
   * `addTags`: the record's tags become the union, in place; the list is
   * not re-sorted and no other record changes.
   */
  function AddTags(servers: seq<Server>, id: string, added: seq<string>): (r: Result<seq<Server>, StoreError>)
    ensures r.Failure? <==> !IdPresent(servers, id)
    ensures r.Failure? ==> r.error == NotFound(id)
    ensures r.Success? ==>
      var k := FindIndex(servers, id).value;
      |r.value| == |servers|
      && (forall j | 0 <= j < |servers| && j != k :: r.value[j] == servers[j])
      && r.value[k] == servers[k].(tags := Some(UnionTags(TagsOf(servers[k]), added)))
  {
    var k := FindIndex(servers, id);
    if k.None? then Failure(NotFound(id))
    else
      var s := servers[k.value];
      Success(servers[k.value := s.(tags := Some(UnionTags(TagsOf(s), added)))])
  }

  /** Adding the same tags twice is the same as adding them once. */
  lemma AddTagsIdempotent(servers: seq<Server>, id: string, added: seq<string>)
    requires AddTags(servers, id, added).Success?
    ensures AddTags(AddTags(servers, id, added).value, id, added) == AddTags(servers, id, added)
  {
    var once := AddTags(servers, id, added).value;
    var k := FindIndex(servers, id).value;
    FindIndexByIds(servers, once, id);
    var u := UnionTags(TagsOf(servers[k]), added);
    assert TagsOf(once[k]) == u;
    DedupAbsorbs(u, added);
    DedupIdempotent(TagsOf(servers[k]) + added);
    assert UnionTags(u, added) == u;
    assert once[k := once[k].(tags := Some(u))] == once;
  }

  /** `currentTags.filter(tag => !tagsToRemove.includes(tag))`. */
  function WithoutTags(current: seq<string>, removed: seq<string>): (r: seq<string>)
    ensures forall t | t in r :: t in current && t !in removed
    ensures forall t | t in current && t !in removed :: t in r
  {
    Filter(current, (t: string) => t !in removed)
  }

  /**
   * `WithoutTags` keeps the order and multiplicity of the current tags: the
   * result for a concatenation is the concatenation of the results, and one
   * tag is kept, once, exactly when it is not being removed.
   */
  lemma WithoutTagsOrder(a: seq<string>, b: seq<string>, removed: seq<string>)
    ensures WithoutTags(a + b, removed) == WithoutTags(a, removed) + WithoutTags(b, removed)
    ensures forall t: string :: WithoutTags([t], removed) == if t in removed then [] else [t]
  {
    FilterAppend(a, b, (t: string) => t !in removed);
    forall t: string
      ensures WithoutTags([t], removed) == if t in removed then [] else [t]
    {
      assert [t][1..] == [];
    }
  }

  /**
   * `removeTags`: the given tags are filtered out of the record's tags in
   * place; an empty remainder is stored as an absent member, not `[]`.
   */
  function RemoveTags(servers: seq<Server>, id: string, removed: seq<string>): (r: Result<seq<Server>, StoreError>)
    ensures r.Failure? <==> !IdPresent(servers, id)
    ensures r.Failure? ==> r.error == NotFound(id)
    ensures r.Success? ==>
      var k := FindIndex(servers, id).value;
      |r.value| == |servers|
      && (forall j | 0 <= j < |servers| && j != k :: r.value[j] == servers[j])
      && r.value[k] == servers[k].(tags := r.value[k].tags)
      && r.value[k].tags != Some([])
      && TagsOf(r.value[k]) == WithoutTags(TagsOf(servers[k]), removed)
      && (forall t | t in TagsOf(r.value[k]) :: t in TagsOf(servers[k]) && t !in removed)
      && (forall t | t in TagsOf(servers[k]) && t !in removed :: t in TagsOf(r.value[k]))
  {
    var k := FindIndex(servers, id);
    if k.None? then Failure(NotFound(id))
    else
      var s := servers[k.value];
      var kept := WithoutTags(TagsOf(s), removed);
      Success(servers[k.value := s.(tags := if |kept| > 0 then Some(kept) else None)])
  }

  /** What the union adds after the current tags comes from the added list. */
  lemma UnionTail(current: seq<string>, added: seq<string>)
    requires Distinct(current)
    ensures |current| <= |UnionTags(current, added)|
    ensures forall t | t in UnionTags(current, added)[|current|..] :: t in added
  {
    var u := UnionTags(current, added);
    UnionKeepsCurrent(current, added);
  }

  /** Filtering out tags that were just appended to disjoint, distinct tags leaves the old tags. */
  lemma UnionThenWithout(current: seq<string>, added: seq<string>)
    requires Distinct(current)
    requires forall t | t in added :: t !in current
    ensures WithoutTags(UnionTags(current, added), added) == current
  {
    var u := UnionTags(current, added);
    UnionKeepsCurrent(current, added);
    UnionTail(current, added);
    var rest := u[|current|..];
    assert u == current + rest;
    var keep := (t: string) => t !in added;
    FilterAppend(current, rest, keep);
    FilterKeepsAll(current, keep);
    FilterDropsAll(rest, keep);
  }

  /**
   * Removing the tags just added restores the record, provided none of them
   * was there before and the old tags were distinct (an empty list becomes
   * absent, so an old `Some([])` is not restored).
   */
  lemma RemoveTagsUndoesAddTags(servers: seq<Server>, id: string, added: seq<string>)
    requires IdPresent(servers, id)
    requires var s := servers[FindIndex(servers, id).value];
      s.tags != Some([]) && Distinct(TagsOf(s)) && forall t | t in added :: t !in TagsOf(s)
    ensures AddTags(servers, id, added).Success?
    ensures RemoveTags(AddTags(servers, id, added).value, id, added) == Success(servers)
  {
    var once := AddTags(servers, id, added).value;
    var k := FindIndex(servers, id).value;
    FindIndexByIds(servers, once, id);
    var s := servers[k];
    UnionThenWithout(TagsOf(s), added);
    var back := RemoveTags(once, id, added).value;
    assert back[k] == s;
    assert back == servers;
  }

  /** `getByTag`: the records carrying the tag, in registry order. */
  function GetByTag(servers: seq<Server>, tag: string): (r: seq<Server>)
    ensures forall x | x in r :: x in servers && HasTag(x, tag)
    ensures forall i | 0 <= i < |servers| && HasTag(servers[i], tag) :: servers[i] in r
  {
    Filter(servers, (s: Server) => HasTag(s, tag))
  }

  /** `getByTags`: the records carrying at least one of the tags, in registry order. */
  function GetByTags(servers: seq<Server>, tags: seq<string>): (r: seq<Server>)
    ensures forall x | x in r :: x in servers && exists t | t in tags :: HasTag(x, t)
    ensures forall i, t | 0 <= i < |servers| && t in tags && HasTag(servers[i], t) :: servers[i] in r
  {
    Filter(servers, (s: Server) => exists t | t in tags :: HasTag(s, t))
  }

  /** Asking for one tag through `getByTags` is `getByTag`. */
  lemma GetByOneTag(servers: seq<Server>, tag: string)
    ensures GetByTags(servers, [tag]) == GetByTag(servers, tag)
  {
    FilterAgree(servers, (s: Server) => exists t | t in [tag] :: HasTag(s, t), (s: Server) => HasTag(s, tag));
  }

  /** `getByVersion`: the records whose server version equals the string exactly. */
  function GetByVersion(servers: seq<Server>, version: string): (r: seq<Server>)
    ensures forall x | x in r :: x in servers && x.serverVersion == version
    ensures forall i | 0 <= i < |servers| && servers[i].serverVersion == version :: servers[i] in r
  {
    Filter(servers, (s: Server) => s.serverVersion == version)
  }

  /**
   * `getByTag` keeps registry order: the query of a concatenation is the
   * concatenation of the queries, and one record is kept exactly when it carries the tag.
   */
  lemma GetByTagOrder(a: seq<Server>, b: seq<Server>, tag: string)
    ensures GetByTag(a + b, tag) == GetByTag(a, tag) + GetByTag(b, tag)
    ensures forall s: Server :: GetByTag([s], tag) == if HasTag(s, tag) then [s] else []
  {
    FilterAppend(a, b, (s: Server) => HasTag(s, tag));
    forall s: Server
      ensures GetByTag([s], tag) == if HasTag(s, tag) then [s] else []
    {
      assert [s][1..] == [];
    }
  }

  /** `getByTags` keeps registry order in the same sense. */
  lemma GetByTagsOrder(a: seq<Server>, b: seq<Server>, tags: seq<string>)
    ensures GetByTags(a + b, tags) == GetByTags(a, tags) + GetByTags(b, tags)
    ensures forall s: Server :: GetByTags([s], tags) == if exists t | t in tags :: HasTag(s, t) then [s] else []
  {
    FilterAppend(a, b, (s: Server) => exists t | t in tags :: HasTag(s, t));
    forall s: Server
      ensures GetByTags([s], tags) == if exists t | t in tags :: HasTag(s, t) then [s] else []
    {
      assert [s][1..] == [];
    }
  }

  /** `getByVersion` keeps registry order in the same sense. */
  lemma GetByVersionOrder(a: seq<Server>, b: seq<Server>, version: string)
    ensures GetByVersion(a + b, version) == GetByVersion(a, version) + GetByVersion(b, version)
    ensures forall s: Server :: GetByVersion([s], version) == if s.serverVersion == version then [s] else []
  {
    FilterAppend(a, b, (s: Server) => s.serverVersion == version);
    forall s: Server
      ensures GetByVersion([s], version) == if s.serverVersion == version then [s] else []
    {
      assert [s][1..] == [];
    }
  }

  /** Every successful change leaves a registry that was in id order still in id order. */
  lemma MutationsKeepSorted(servers: seq<Server>, s: Server, id: string, changes: Changes)
    requires SortedById(servers)
    ensures Add(servers, s).Success? ==> SortedById(Add(servers, s).value)
    ensures Update(servers, id, changes).Success? ==> SortedById(Update(servers, id, changes).value)
    ensures Remove(servers, id).Success? ==> SortedById(Remove(servers, id).value)
  {
    FilterKeepsSorted(servers, (x: Server) => x.id != id);
  }
}
