/**
 * `wb config tag` and `wb config untag`: the target is resolved once, then
 * the tags are added to (or removed from) every resolved tenant in turn.
 * A store error part-way exits with status 1, leaving the earlier writes.
 */
module ConfigTag {
  import opened Wrappers
  import opened Seqs
  import opened Types
  import opened ServerStore
  import opened TagResolver

  /** Why the command exits with status 1. */
  datatype TagError =
    | MissingId
    | NoTags
    | Unresolved(cause: ResolveError)
    | StoreFailed(storeError: StoreError)

  /** The registry as the command leaves it, and the error it exits with, if any. */
  datatype Outcome = Outcome(servers: seq<Server>, failure: Option<TagError>)

  /** One write of the loop: `addTags` when adding, `removeTags` otherwise. */
  function TagStep(servers: seq<Server>, id: string, tags: seq<string>, adding: bool): Result<seq<Server>, StoreError> {
    if adding then AddTags(servers, id, tags) else RemoveTags(servers, id, tags)
  }

  /** The `for` loop over the resolved ids; the first store error ends it. */
  function ApplyTags(servers: seq<Server>, ids: seq<string>, tags: seq<string>, adding: bool): (o: Outcome)
    ensures o.failure.Some? ==> o.failure.value.StoreFailed?
    ensures o.failure.None? ==> |o.servers| == |servers|
    decreases |ids|
  {
    if |ids| == 0 then Outcome(servers, None)
    else
      match TagStep(servers, ids[0], tags, adding)
      case Failure(e) => Outcome(servers, Some(StoreFailed(e)))
      case Success(next) => ApplyTags(next, ids[1..], tags, adding)
  }

  /** `handleConfigTag` (`adding`) and `handleConfigUntag`: at least one tag, then resolution, then the loop. */
  function HandleTag(servers: seq<Server>, target: string, tags: seq<string>, adding: bool): Outcome {
    if |tags| == 0 then Outcome(servers, Some(NoTags))
    else
      match ResolveTargets(servers, [target])
      case Failure(e) => Outcome(servers, Some(Unresolved(e)))
      case Success(ids) => ApplyTags(servers, ids, tags, adding)
  }

  /** The `tag` and `untag` subcommands: the first word is the target, the rest are the tags. */
  function TagCommand(servers: seq<Server>, args: seq<string>, adding: bool): (o: Outcome)
    ensures |args| == 0 || args[0] == "" <==> o == Outcome(servers, Some(MissingId))
  {
    if |args| == 0 || args[0] == "" then Outcome(servers, Some(MissingId))
    else HandleTag(servers, args[0], args[1..], adding)
  }

  /** A record that gained the tags: only its tags changed, it now has all of them, and nothing else was added. */
  predicate GainedTags(before: Server, after: Server, tags: seq<string>) {
    && after == before.(tags := after.tags)
    && (forall t | t in tags :: t in TagsOf(after))
    && (forall t | t in TagsOf(after) :: t in TagsOf(before) || t in tags)
  }

  /**
   * A record that lost the tags: only its tags changed, it keeps exactly
   * the tags not named, and an emptied list is stored as an absent member.
   */
  predicate LostTags(before: Server, after: Server, tags: seq<string>) {
    && after == before.(tags := after.tags)
    && after.tags != Some([])
    && (forall t | t in TagsOf(after) :: t in TagsOf(before) && t !in tags)
    && (forall t | t in TagsOf(before) && t !in tags :: t in TagsOf(after))
  }

  /** The change one write makes to a named tenant. */
  predicate Changed(before: Server, after: Server, tags: seq<string>, adding: bool) {
    if adding then GainedTags(before, after, tags) else LostTags(before, after, tags)
  }

  /** Doing it twice is doing it once, as far as the relation says. */
  lemma ChangedTwice(a: Server, b: Server, c: Server, tags: seq<string>, adding: bool)
    requires Changed(a, b, tags, adding) && Changed(b, c, tags, adding)
    ensures Changed(a, c, tags, adding)
  {
  }

  /**
   * One write on a registry with unique ids: it succeeds for a present id,
   * changes that tenant's tags as the relation says and leaves every other
   * record, and every id, where it was.
   */
  lemma TagStepEffect(servers: seq<Server>, id: string, tags: seq<string>, adding: bool)
    requires UniqueIds(servers) && IdPresent(servers, id)
    ensures TagStep(servers, id, tags, adding).Success?
    ensures var next := TagStep(servers, id, tags, adding).value;
      && |next| == |servers|
      && (forall j | 0 <= j < |servers| :: next[j].id == servers[j].id)
      && (forall j | 0 <= j < |servers| && servers[j].id == id :: Changed(servers[j], next[j], tags, adding))
      && (forall j | 0 <= j < |servers| && servers[j].id != id :: next[j] == servers[j])
  {
    var k := FindIndex(servers, id).value;
    forall j | 0 <= j < |servers| && servers[j].id == id
      ensures j == k
    {
    }
  }

  /** Two registries with the same ids in the same places agree on which ids are present and on uniqueness. */
  lemma SameIds(servers: seq<Server>, next: seq<Server>)
    requires |next| == |servers| && forall j | 0 <= j < |servers| :: next[j].id == servers[j].id
    ensures UniqueIds(servers) ==> UniqueIds(next)
    ensures forall x :: IdPresent(next, x) <==> IdPresent(servers, x)
  {
    forall x
      ensures IdPresent(next, x) <==> IdPresent(servers, x)
    {
      if IdPresent(servers, x) {
        var i :| 0 <= i < |servers| && servers[i].id == x;
        assert next[i].id == x;
      }
    }
  }

  /**
   * The loop over present ids on a registry with unique ids never meets a
   * store error; every tenant it names changed as the relation says, and
   * every other record is as it was, in its place.
   */
  lemma {:induction false} ApplyTagsEffect(servers: seq<Server>, ids: seq<string>, tags: seq<string>, adding: bool)
    requires UniqueIds(servers)
    requires forall id | id in ids :: IdPresent(servers, id)
    ensures var o := ApplyTags(servers, ids, tags, adding);
      && o.failure.None?
      && |o.servers| == |servers|
      && (forall j | 0 <= j < |servers| && servers[j].id in ids :: Changed(servers[j], o.servers[j], tags, adding))
      && (forall j | 0 <= j < |servers| && servers[j].id !in ids :: o.servers[j] == servers[j])
    decreases |ids|
  {
    if |ids| > 0 {
      var id := ids[0];
      TagStepEffect(servers, id, tags, adding);
      var next := TagStep(servers, id, tags, adding).value;
      SameIds(servers, next);
      assert forall x | x in ids[1..] :: x in ids;
      ApplyTagsEffect(next, ids[1..], tags, adding);
      var o := ApplyTags(servers, ids, tags, adding);
      assert o == ApplyTags(next, ids[1..], tags, adding);
      ComposeEffect(servers, next, o.servers, ids, tags, adding);
    }
  }

  /** One write to the first id followed by the writes to the rest changes exactly the tenants the ids name. */
  lemma ComposeEffect(servers: seq<Server>, next: seq<Server>, out: seq<Server>, ids: seq<string>, tags: seq<string>, adding: bool)
    requires |ids| > 0
    requires |next| == |servers| && |out| == |servers|
    requires forall j | 0 <= j < |servers| :: next[j].id == servers[j].id
    requires forall j | 0 <= j < |servers| && servers[j].id == ids[0] :: Changed(servers[j], next[j], tags, adding)
    requires forall j | 0 <= j < |servers| && servers[j].id != ids[0] :: next[j] == servers[j]
    requires forall j | 0 <= j < |next| && next[j].id in ids[1..] :: Changed(next[j], out[j], tags, adding)
    requires forall j | 0 <= j < |next| && next[j].id !in ids[1..] :: out[j] == next[j]
    ensures forall j | 0 <= j < |servers| && servers[j].id in ids :: Changed(servers[j], out[j], tags, adding)
    ensures forall j | 0 <= j < |servers| && servers[j].id !in ids :: out[j] == servers[j]
  {
    assert forall x :: x in ids <==> x == ids[0] || x in ids[1..];
    forall j | 0 <= j < |servers| && servers[j].id in ids
      ensures Changed(servers[j], out[j], tags, adding)
    {
      if servers[j].id == ids[0] && servers[j].id in ids[1..] {
        ChangedTwice(servers[j], next[j], out[j], tags, adding);
      }
    }
  }

  /**
   * `handleConfigTag` and `handleConfigUntag`: no tags and an unresolved
   * target are the only errors; otherwise exactly the resolved tenants
   * gain (or lose) the tags and nothing else in the registry changes.
   */
  lemma HandleTagOutcome(servers: seq<Server>, target: string, tags: seq<string>, adding: bool)
    requires UniqueIds(servers)
    ensures var o := HandleTag(servers, target, tags, adding);
      && (o.failure == Some(NoTags) <==> |tags| == 0)
      && (o.failure.Some? && o.failure.value.Unresolved? <==> |tags| > 0 && ResolveTargets(servers, [target]).Failure?)
      && (o.failure.Some? ==> o.servers == servers && !o.failure.value.StoreFailed?)
    ensures var o := HandleTag(servers, target, tags, adding);
      o.failure.None? ==>
        var ids := ResolveTargets(servers, [target]).value;
        && |o.servers| == |servers|
        && (forall j | 0 <= j < |servers| && servers[j].id in ids :: Changed(servers[j], o.servers[j], tags, adding))
        && (forall j | 0 <= j < |servers| && servers[j].id !in ids :: o.servers[j] == servers[j])
  {
    if |tags| > 0 && ResolveTargets(servers, [target]).Success? {
      ApplyTagsEffect(servers, ResolveTargets(servers, [target]).value, tags, adding);
    }
  }

  /** A tenant is changed exactly when the target picks it. */
  lemma ResolvedIffPicked(servers: seq<Server>, target: string, id: string)
    requires ResolveTargets(servers, [target]).Success?
    ensures id in ResolveTargets(servers, [target]).value <==> PicksId(servers, Classify(target), id)
  {
    assert [target][0] == target;
  }
}
