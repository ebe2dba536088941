/**
 * What a sync run promises, proved about the specification functions of
 * SyncSpec (and so, through the methods' postconditions, about module Sync).
 */
module SyncProperties {
  import opened Wrappers
  import opened Entities
  import opened Normalizer
  import opened Store
  import opened SyncSpec

  /** The posts that the update entries name. */
  function TargetIds(items: seq<UpdateItem>): set<PostId>
  {
    set u | u in items :: u.wpId
  }

  /** Every update entry that names an existing post carries the external key that post already has. */
  predicate KeyConsistent(s: StoreState, items: seq<UpdateItem>)
  {
    forall u :: u in items && u.wpId in s.posts ==>
      ApiIdKey in u.apiEntity.meta && TrackedKey(Some(u.apiEntity.meta[ApiIdKey])) == RecordKey(s.posts[u.wpId])
  }

  /** Post `id` exists and is `rec`. */
  predicate HasPost(posts: map<PostId, Record>, id: PostId, rec: Record)
  {
    id in posts && posts[id] == rec
  }

  /** No two posts of one language carry the same external key. */
  ghost predicate UniqueTrackedKeys(s: StoreState, lang: Lang)
  {
    forall a, b, k :: Tracks(s, lang, a, k) && Tracks(s, lang, b, k) ==> a == b
  }

  // ---------------------------------------------------------------------------
  // The local index

  lemma {:induction false} IndexOfExact(posts: map<PostId, Record>, ids: seq<PostId>)
    ensures forall k :: k in IndexOf(posts, ids) ==>
      && IndexOf(posts, ids)[k] in ids
      && IndexOf(posts, ids)[k] in posts
      && RecordKey(posts[IndexOf(posts, ids)[k]]) == Some(k)
    ensures forall id :: id in ids && id in posts && RecordKey(posts[id]).Some? ==>
      RecordKey(posts[id]).value in IndexOf(posts, ids)
  {
    if ids != [] {
      var init := ids[..|ids| - 1];
      IndexOfExact(posts, init);
      assert ids == init + [ids[|ids| - 1]];
    }
  }

  /**
   * The index holds exactly the keys of the posts tagged with the language,
   * and maps each to a post that is tagged with it and carries it. Posts with
   * an empty external key are not in it.
   */
  lemma IndexExact(s: StoreState, lang: Lang)
    requires ValidState(s)
    ensures forall k :: k in Index(s, lang) ==> Tracks(s, lang, Index(s, lang)[k], k)
    ensures forall id, k :: Tracks(s, lang, id, k) ==> k in Index(s, lang)
  {
    IndexOfExact(s.posts, TaggedIds(s, lang));
  }

  // ---------------------------------------------------------------------------
  // The partition

  /** The two lists together are as long as the remote list. */
  lemma {:induction false} PartitionSizes(list: seq<RemoteEntity>, idx: KeyIndex, from: Lang)
    ensures |Creates(list, idx, from)| + |Updates(list, idx, from)| == |list|
  {
    if list != [] {
      PartitionSizes(list[..|list| - 1], idx, from);
    }
  }

  /** The seen list names every entity's key, in list order. */
  lemma {:induction false} SeenAt(list: seq<RemoteEntity>, from: Lang)
    ensures forall i :: 0 <= i < |list| ==> Seen(list, from)[i] == LookupKey(list[i], from)
  {
    if list != [] {
      var n := |list| - 1;
      SeenAt(list[..n], from);
      assert Seen(list, from) == Seen(list[..n], from) + [LookupKey(list[n], from)];
    }
  }

  /** Every accepted element has its image in the selection. */
  lemma {:induction false} SelectHas<A(!new), B>(list: seq<A>, keep: A -> bool, f: A --> B, i: int)
    requires forall x :: keep(x) ==> f.requires(x)
    requires 0 <= i < |list| && keep(list[i])
    ensures f(list[i]) in Select(list, keep, f)
  {
    var n := |list| - 1;
    var init := list[..n];
    var tail := if keep(list[n]) then [f(list[n])] else [];
    assert Select(list, keep, f) == Select(init, keep, f) + tail;
    if i < n {
      SelectHas(init, keep, f, i);
      assert init[i] == list[i];
    } else {
      assert tail == [f(list[i])];
    }
  }

  /** Every element of the selection is the image of an accepted element. */
  lemma {:induction false} SelectSound<A(!new), B>(list: seq<A>, keep: A -> bool, f: A --> B)
    requires forall x :: keep(x) ==> f.requires(x)
    ensures forall y :: y in Select(list, keep, f) ==>
      exists i :: 0 <= i < |list| && keep(list[i]) && y == f(list[i])
  {
    if list != [] {
      var n := |list| - 1;
      var init := list[..n];
      SelectSound(init, keep, f);
      var tail := if keep(list[n]) then [f(list[n])] else [];
      assert Select(list, keep, f) == Select(init, keep, f) + tail;
      forall y | y in Select(list, keep, f)
        ensures exists i :: 0 <= i < |list| && keep(list[i]) && y == f(list[i])
      {
        if y in Select(init, keep, f) {
          var i :| 0 <= i < n && keep(init[i]) && y == f(init[i]);
          assert list[i] == init[i];
        } else {
          assert keep(list[n]) && y == f(list[n]);
        }
      }
    }
  }

  /** The create list holds exactly the normalised entities whose key is not in the index. */
  lemma CreatesExact(list: seq<RemoteEntity>, idx: KeyIndex, from: Lang)
    ensures forall i :: 0 <= i < |list| && LookupKey(list[i], from) !in idx ==>
      NormalizeAsWritten(list[i]) in Creates(list, idx, from)
    ensures forall x :: x in Creates(list, idx, from) ==>
      exists i :: 0 <= i < |list| && LookupKey(list[i], from) !in idx && x == NormalizeAsWritten(list[i])
  {
    var keep := e => LookupKey(e, from) !in idx;
    forall i | 0 <= i < |list| && LookupKey(list[i], from) !in idx
      ensures NormalizeAsWritten(list[i]) in Creates(list, idx, from)
    {
      SelectHas(list, keep, NormalizeAsWritten, i);
    }
    SelectSound(list, keep, NormalizeAsWritten);
  }

  /** The update list holds exactly the normalised entities whose key is in the index, each with its indexed post. */
  lemma UpdatesExact(list: seq<RemoteEntity>, idx: KeyIndex, from: Lang)
    ensures forall i :: 0 <= i < |list| && LookupKey(list[i], from) in idx ==>
      UpdateItem(NormalizeAsWritten(list[i]), idx[LookupKey(list[i], from)]) in Updates(list, idx, from)
    ensures forall u :: u in Updates(list, idx, from) ==>
      exists i :: 0 <= i < |list| && LookupKey(list[i], from) in idx &&
        u == UpdateItem(NormalizeAsWritten(list[i]), idx[LookupKey(list[i], from)])
  {
    var keep := e => LookupKey(e, from) in idx;
    var f := e requires LookupKey(e, from) in idx => UpdateItem(NormalizeAsWritten(e), idx[LookupKey(e, from)]);
    forall i | 0 <= i < |list| && LookupKey(list[i], from) in idx
      ensures UpdateItem(NormalizeAsWritten(list[i]), idx[LookupKey(list[i], from)]) in Updates(list, idx, from)
    {
      SelectHas(list, keep, f, i);
    }
    SelectSound(list, keep, f);
  }

  /**
   * Every remote entity lands in exactly one of the two lists, depending on
   * whether its key is in the index, and every key, title or not, is seen.
   */
  lemma PartitionExact(list: seq<RemoteEntity>, idx: KeyIndex, from: Lang)
    ensures |Creates(list, idx, from)| + |Updates(list, idx, from)| == |list|
    ensures forall i :: 0 <= i < |list| ==> Seen(list, from)[i] == LookupKey(list[i], from)
    ensures forall i :: 0 <= i < |list| ==>
      (LookupKey(list[i], from) !in idx ==> NormalizeAsWritten(list[i]) in Creates(list, idx, from)) &&
      (LookupKey(list[i], from) in idx ==>
         UpdateItem(NormalizeAsWritten(list[i]), idx[LookupKey(list[i], from)]) in Updates(list, idx, from))
  {
    PartitionSizes(list, idx, from);
    SeenAt(list, from);
    CreatesExact(list, idx, from);
    UpdatesExact(list, idx, from);
  }

  /** The seen list holds exactly the lookup keys of the remote entities. */
  lemma SeenExact(list: seq<RemoteEntity>, from: Lang)
    ensures forall k :: k in Seen(list, from) <==> exists i :: 0 <= i < |list| && LookupKey(list[i], from) == k
  {
    SeenAt(list, from);
  }

  /** Update entries only name posts of the index. */
  lemma UpdateTargetsIndexed(list: seq<RemoteEntity>, idx: KeyIndex, from: Lang)
    ensures TargetIds(Updates(list, idx, from)) <= idx.Values
  {
    UpdatesExact(list, idx, from);
    forall id | id in TargetIds(Updates(list, idx, from))
      ensures id in idx.Values
    {
      var u :| u in Updates(list, idx, from) && u.wpId == id;
      var i :| 0 <= i < |list| && LookupKey(list[i], from) in idx &&
        u == UpdateItem(NormalizeAsWritten(list[i]), idx[LookupKey(list[i], from)]);
    }
  }

  // ---------------------------------------------------------------------------
  // The create phase

  /**
   * One create: an entry without a title, or one the store rejects, changes
   * nothing (in particular no custom field is written); otherwise a new post
   * tagged `to` carries the title and every custom field of the entry,
   * external key included.
   */
  lemma CreateOneSpec(s: StoreState, p: Policy, item: Normalized, to: Lang)
    requires ValidState(s)
    ensures !Acceptable(item, p, to) ==> CreateOne(s, p, item, to) == s
    ensures Acceptable(item, p, to) ==>
      CreateOne(s, p, item, to) == StoreState(s.posts[s.nextId := NewRecord(item, to)], s.nextId + 1)
  {
    if Acceptable(item, p, to) {
      assert map[] + item.meta == item.meta;
    }
  }

  /** The entries that lead to new posts are exactly the acceptable ones. */
  lemma {:induction false} AcceptedMembers(items: seq<Normalized>, p: Policy, to: Lang)
    ensures forall x :: x in Accepted(items, p, to) <==> x in items && Acceptable(x, p, to)
  {
    if items != [] {
      var init := items[..|items| - 1];
      AcceptedMembers(init, p, to);
      assert items == init + [items[|items| - 1]];
    }
  }

  /**
   * The create phase leaves every existing post alone and adds posts only
   * above the old ID counter, one per acceptable entry.
   */
  lemma {:induction false} CreatesApplied(s: StoreState, p: Policy, items: seq<Normalized>, to: Lang)
    requires ValidState(s)
    ensures ValidState(ApplyCreates(s, p, items, to))
    ensures ApplyCreates(s, p, items, to).nextId == s.nextId + |Accepted(items, p, to)|
    ensures forall id :: id in s.posts ==>
      id in ApplyCreates(s, p, items, to).posts && ApplyCreates(s, p, items, to).posts[id] == s.posts[id]
    ensures forall id :: id in ApplyCreates(s, p, items, to).posts ==> id in s.posts || s.nextId <= id
  {
    if items != [] {
      var init := items[..|items| - 1];
      var last := items[|items| - 1];
      CreatesApplied(s, p, init, to);
      var prev := ApplyCreates(s, p, init, to);
      CreateOneSpec(prev, p, last, to);
      assert Accepted(items, p, to) == Accepted(init, p, to) + (if Acceptable(last, p, to) then [last] else []);
    }
  }

  /** The `j`-th acceptable entry becomes post `nextId + j`, tagged `to`, with its title and custom fields. */
  lemma {:induction false} CreatesAppliedAt(s: StoreState, p: Policy, items: seq<Normalized>, to: Lang, j: nat)
    requires ValidState(s)
    requires j < |Accepted(items, p, to)|
    ensures s.nextId + j in ApplyCreates(s, p, items, to).posts
    ensures ApplyCreates(s, p, items, to).posts[s.nextId + j] == NewRecord(Accepted(items, p, to)[j], to)
  {
    var init := items[..|items| - 1];
    var last := items[|items| - 1];
    CreatesApplied(s, p, init, to);
    var prev := ApplyCreates(s, p, init, to);
    CreateOneSpec(prev, p, last, to);
    var accInit := Accepted(init, p, to);
    assert Accepted(items, p, to) == accInit + (if Acceptable(last, p, to) then [last] else []);
    if j < |accInit| {
      CreatesAppliedAt(s, p, init, to, j);
      assert s.nextId + j != prev.nextId;
    }
  }

  // ---------------------------------------------------------------------------
  // The update phase

  /**
   * One update: the matched post gets the entry's title, whatever it is, and
   * every custom field of the entry; a rejected update writes nothing. No
   * other post changes.
   */
  lemma UpdateOneSpec(s: StoreState, p: Policy, u: UpdateItem)
    ensures UpdateOne(s, p, u).nextId == s.nextId
    ensures UpdateOne(s, p, u).posts.Keys == s.posts.Keys
    ensures forall id :: id in s.posts && id != u.wpId ==> UpdateOne(s, p, u).posts[id] == s.posts[id]
    ensures u.wpId in s.posts ==>
      UpdateOne(s, p, u).posts[u.wpId] ==
        if p.acceptsUpdate(u.wpId, u.apiEntity.postTitle)
        then Record(s.posts[u.wpId].lang, u.apiEntity.postTitle, s.posts[u.wpId].meta + u.apiEntity.meta)
        else s.posts[u.wpId]
  {
  }

  /**
   * The update phase keeps the set of posts, their language tags and every
   * post no entry names; when each entry carries its post's own key, every
   * post keeps its external key.
   */
  lemma {:induction false} UpdatesApplied(s: StoreState, p: Policy, items: seq<UpdateItem>)
    ensures ApplyUpdates(s, p, items).nextId == s.nextId
    ensures ApplyUpdates(s, p, items).posts.Keys == s.posts.Keys
    ensures forall id :: id in s.posts ==> ApplyUpdates(s, p, items).posts[id].lang == s.posts[id].lang
    ensures forall id :: id in s.posts && id !in TargetIds(items) ==> ApplyUpdates(s, p, items).posts[id] == s.posts[id]
    ensures KeyConsistent(s, items) ==>
      forall id :: id in s.posts ==> RecordKey(ApplyUpdates(s, p, items).posts[id]) == RecordKey(s.posts[id])
  {
    if items != [] {
      var init := items[..|items| - 1];
      var last := items[|items| - 1];
      assert items == init + [last];
      assert TargetIds(items) == TargetIds(init) + {last.wpId};
      UpdatesApplied(s, p, init);
      var t := ApplyUpdates(s, p, init);
      UpdateOneSpec(t, p, last);
      if KeyConsistent(s, items) {
        assert KeyConsistent(s, init);
        if last.wpId in t.posts && p.acceptsUpdate(last.wpId, last.apiEntity.postTitle) {
          var m := t.posts[last.wpId].meta + last.apiEntity.meta;
          assert m[ApiIdKey] == last.apiEntity.meta[ApiIdKey];
        }
      }
    }
  }

  /** Applying the same update twice leaves the post as applying it once. */
  lemma UpdateOneTwice(s: StoreState, p: Policy, u: UpdateItem)
    requires u.wpId in s.posts
    ensures UpdateOne(UpdateOne(s, p, u), p, u).posts[u.wpId] == UpdateOne(s, p, u).posts[u.wpId]
  {
    UpdateOneSpec(s, p, u);
    var t := UpdateOne(s, p, u);
    UpdateOneSpec(t, p, u);
    var m := s.posts[u.wpId].meta;
    var x := u.apiEntity.meta;
    assert (m + x) + x == m + x;
  }

  /** When every entry naming post `u0.wpId` is `u0`, that post ends as one update with `u0` leaves it. */
  lemma {:induction false} UpdatesAt(s: StoreState, p: Policy, items: seq<UpdateItem>, u0: UpdateItem)
    requires u0.wpId in s.posts
    requires forall u :: u in items && u.wpId == u0.wpId ==> u == u0
    ensures u0.wpId in ApplyUpdates(s, p, items).posts
    ensures u0.wpId in ApplyUpdates(s, p, items).posts &&
      ApplyUpdates(s, p, items).posts[u0.wpId] ==
        if u0 in items then UpdateOne(s, p, u0).posts[u0.wpId] else s.posts[u0.wpId]
  {
    UpdatesApplied(s, p, items);
    if items != [] {
      var init := items[..|items| - 1];
      var last := items[|items| - 1];
      assert items == init + [last];
      UpdatesAt(s, p, init, u0);
      var t := ApplyUpdates(s, p, init);
      UpdatesApplied(s, p, init);
      UpdateOneSpec(t, p, last);
      UpdateOneSpec(s, p, u0);
      if last == u0 && u0 in init {
        UpdateOneSpec(UpdateOne(s, p, u0), p, u0);
        UpdateOneTwice(s, p, u0);
      }
    }
  }

  // ---------------------------------------------------------------------------
  // A whole run

  /** An API error or an empty answer ends the run before any write. */
  lemma RunAbortsOnEmptyFetch(s: StoreState, p: Policy, fetched: Option<seq<RemoteEntity>>, from: Lang, to: Lang)
    requires fetched.None? || fetched.value == []
    ensures RunResult(s, p, fetched, from, to) == s
  {
  }

  /** The IDs the run may touch all come from the index, whose posts exist. */
  lemma RunTouchesIndexOnly(s: StoreState, list: seq<RemoteEntity>, from: Lang)
    requires ValidState(s)
    ensures Index(s, from).Values <= s.posts.Keys
    ensures TargetIds(Updates(list, Index(s, from), from)) <= Index(s, from).Values
    ensures StaleIds(Index(s, from), Seen(list, from)) <= Index(s, from).Values
  {
    IndexExact(s, from);
    UpdateTargetsIndexed(list, Index(s, from), from);
  }

  /** A run keeps the store's ID invariant. */
  lemma RunPreservesValid(s: StoreState, p: Policy, fetched: Option<seq<RemoteEntity>>, from: Lang, to: Lang)
    requires ValidState(s)
    ensures ValidState(RunResult(s, p, fetched, from, to))
  {
    if fetched.Some? && fetched.value != [] {
      var list := fetched.value;
      var idx := Index(s, from);
      var a := ApplyCreates(s, p, Creates(list, idx, from), to);
      CreatesApplied(s, p, Creates(list, idx, from), to);
      UpdatesApplied(a, p, Updates(list, idx, from));
    }
  }

  /** A post tagged with another language, or without an external key, is not in the index. */
  lemma UntrackedNotIndexed(s: StoreState, from: Lang, id: PostId)
    requires ValidState(s)
    requires id in s.posts && (s.posts[id].lang != from || RecordKey(s.posts[id]).None?)
    ensures id !in Index(s, from).Values
  {
    var idx := Index(s, from);
    IndexExact(s, from);
    forall k | k in idx
      ensures idx[k] != id
    {
      assert Tracks(s, from, idx[k], k);
    }
  }

  /** The three phases of a run on a non-empty answer, as named states. */
  lemma RunPhases(s: StoreState, p: Policy, list: seq<RemoteEntity>, from: Lang, to: Lang)
    requires list != []
    ensures var idx := Index(s, from);
      var b := ApplyUpdates(ApplyCreates(s, p, Creates(list, idx, from), to), p, Updates(list, idx, from));
      RunResult(s, p, Some(list), from, to) == if idx == map[] then b else DeleteAll(b, p, StaleIds(idx, Seen(list, from)))
  {
  }

  /**
   * Posts outside the index (tagged with another language, without an
   * external key, or shadowed by another post with the same key) come out of
   * a run exactly as they went in.
   */
  lemma RunLeavesUntrackedAlone(s: StoreState, p: Policy, list: seq<RemoteEntity>, from: Lang, to: Lang)
    requires ValidState(s)
    ensures forall id :: id in s.posts && id !in Index(s, from).Values ==>
      id in RunResult(s, p, Some(list), from, to).posts && RunResult(s, p, Some(list), from, to).posts[id] == s.posts[id]
    ensures forall id :: id in s.posts && (s.posts[id].lang != from || RecordKey(s.posts[id]).None?) ==>
      id in RunResult(s, p, Some(list), from, to).posts && RunResult(s, p, Some(list), from, to).posts[id] == s.posts[id]
  {
    var r := RunResult(s, p, Some(list), from, to);
    if list != [] {
      var idx := Index(s, from);
      RunTouchesIndexOnly(s, list, from);
      var a := ApplyCreates(s, p, Creates(list, idx, from), to);
      var b := ApplyUpdates(a, p, Updates(list, idx, from));
      CreatesApplied(s, p, Creates(list, idx, from), to);
      UpdatesApplied(a, p, Updates(list, idx, from));
      RunPhases(s, p, list, from, to);
      forall id | id in s.posts && id !in idx.Values
        ensures id in r.posts && r.posts[id] == s.posts[id]
      {
        assert id !in TargetIds(Updates(list, idx, from));
        assert b.posts[id] == s.posts[id];
        assert id !in StaleIds(idx, Seen(list, from));
      }
    }
    forall id | id in s.posts && (s.posts[id].lang != from || RecordKey(s.posts[id]).None?)
      ensures id in r.posts && r.posts[id] == s.posts[id]
    {
      UntrackedNotIndexed(s, from, id);
    }
  }

  /** A stale ID is the index entry of a key that no remote entity has. */
  lemma StaleIdsExact(idx: KeyIndex, list: seq<RemoteEntity>, from: Lang)
    ensures forall id :: id in StaleIds(idx, Seen(list, from)) <==>
      exists k :: k in idx && idx[k] == id && forall i :: 0 <= i < |list| ==> LookupKey(list[i], from) != k
  {
    SeenExact(list, from);
  }

  /**
   * Deletes: a post that existed before the run is gone afterwards exactly
   * when it is the index entry of a key no remote entity had and the store
   * accepts the delete. With an empty index nothing is deleted.
   */
  lemma RunDeletesExactlyStale(s: StoreState, p: Policy, list: seq<RemoteEntity>, from: Lang, to: Lang)
    requires ValidState(s)
    requires list != []
    ensures forall id :: id in s.posts ==>
      (id !in RunResult(s, p, Some(list), from, to).posts <==>
        id in StaleIds(Index(s, from), Seen(list, from)) && p.acceptsDelete(id))
    ensures Index(s, from) == map[] ==> s.posts.Keys <= RunResult(s, p, Some(list), from, to).posts.Keys
  {
    var idx := Index(s, from);
    var a := ApplyCreates(s, p, Creates(list, idx, from), to);
    var b := ApplyUpdates(a, p, Updates(list, idx, from));
    CreatesApplied(s, p, Creates(list, idx, from), to);
    UpdatesApplied(a, p, Updates(list, idx, from));
    RunPhases(s, p, list, from, to);
    assert idx == map[] ==> StaleIds(idx, Seen(list, from)) == {};
  }

  /**
   * Creates: the posts the run adds are exactly one per acceptable create
   * entry, in list order, each tagged `to` and carrying the entry's title and
   * every custom field, external key included.
   */
  lemma RunCreatesAccepted(s: StoreState, p: Policy, list: seq<RemoteEntity>, from: Lang, to: Lang)
    requires ValidState(s)
    requires list != []
    ensures var acc := Accepted(Creates(list, Index(s, from), from), p, to);
      var r := RunResult(s, p, Some(list), from, to);
      && r.nextId == s.nextId + |acc|
      && (forall id :: id in r.posts ==> id in s.posts || s.nextId <= id < r.nextId)
      && (forall j :: 0 <= j < |acc| ==> HasPost(r.posts, s.nextId + j, NewRecord(acc[j], to)))
    ensures forall x :: x in Accepted(Creates(list, Index(s, from), from), p, to) <==>
      x in Creates(list, Index(s, from), from) && !PhpEmpty(x.postTitle) && p.acceptsInsert(x.postTitle.value, to)
  {
    var idx := Index(s, from);
    RunTouchesIndexOnly(s, list, from);
    var items := Creates(list, idx, from);
    var a := ApplyCreates(s, p, items, to);
    var b := ApplyUpdates(a, p, Updates(list, idx, from));
    var r := RunResult(s, p, Some(list), from, to);
    CreatesApplied(s, p, items, to);
    AcceptedMembers(items, p, to);
    UpdatesApplied(a, p, Updates(list, idx, from));
    RunPhases(s, p, list, from, to);
    var acc := Accepted(items, p, to);
    forall j | 0 <= j < |acc|
      ensures HasPost(r.posts, s.nextId + j, NewRecord(acc[j], to))
    {
      var id := s.nextId + j;
      CreatesAppliedAt(s, p, items, to, j);
      assert id !in s.posts;
      assert id !in idx.Values;
      assert id !in TargetIds(Updates(list, idx, from));
      assert b.posts[id] == a.posts[id];
      assert id !in StaleIds(idx, Seen(list, from));
    }
  }

  /**
   * Updates: when no two remote entities share a key, a matched post ends
   * with the entity's title and every custom field of the entity written
   * over its own (empty values included), unless the store rejects the
   * update, in which case it is unchanged. It is never deleted.
   */
  lemma RunUpdatesMatched(s: StoreState, p: Policy, list: seq<RemoteEntity>, from: Lang, to: Lang, i: nat)
    requires ValidState(s)
    requires i < |list|
    requires forall a, b :: 0 <= a < b < |list| ==> LookupKey(list[a], from) != LookupKey(list[b], from)
    requires LookupKey(list[i], from) in Index(s, from)
    ensures var id := Index(s, from)[LookupKey(list[i], from)];
      var e := NormalizeAsWritten(list[i]);
      && id in s.posts
      && id in RunResult(s, p, Some(list), from, to).posts
      && RunResult(s, p, Some(list), from, to).posts[id] ==
        if p.acceptsUpdate(id, e.postTitle) then Record(s.posts[id].lang, e.postTitle, s.posts[id].meta + e.meta)
        else s.posts[id]
  {
    var idx := Index(s, from);
    var key := LookupKey(list[i], from);
    var id := idx[key];
    IndexExact(s, from);
    var items := Updates(list, idx, from);
    var u0 := UpdateItem(NormalizeAsWritten(list[i]), id);
    OnlyEntryFor(s, list, from, i);
    var a := ApplyCreates(s, p, Creates(list, idx, from), to);
    CreatesApplied(s, p, Creates(list, idx, from), to);
    UpdatesAt(a, p, items, u0);
    UpdateOneSpec(a, p, u0);
    RunPhases(s, p, list, from, to);
    SeenAt(list, from);
    forall k | k in idx && k !in Seen(list, from)
      ensures idx[k] != id
    {
      assert Tracks(s, from, idx[k], k);
      assert Seen(list, from)[i] == key;
    }
    assert id !in StaleIds(idx, Seen(list, from));
  }

  /**
   * When no two remote entities share a key, the update entry built from
   * entity `i` is the only one naming its indexed post.
   */
  lemma OnlyEntryFor(s: StoreState, list: seq<RemoteEntity>, from: Lang, i: nat)
    requires ValidState(s)
    requires i < |list|
    requires forall a, b :: 0 <= a < b < |list| ==> LookupKey(list[a], from) != LookupKey(list[b], from)
    requires LookupKey(list[i], from) in Index(s, from)
    ensures var idx := Index(s, from);
      var u0 := UpdateItem(NormalizeAsWritten(list[i]), idx[LookupKey(list[i], from)]);
      && u0 in Updates(list, idx, from)
      && forall u :: u in Updates(list, idx, from) && u.wpId == u0.wpId ==> u == u0
  {
    var idx := Index(s, from);
    var id := idx[LookupKey(list[i], from)];
    IndexExact(s, from);
    UpdatesExact(list, idx, from);
    forall u | u in Updates(list, idx, from) && u.wpId == id
      ensures u == UpdateItem(NormalizeAsWritten(list[i]), id)
    {
      var j :| 0 <= j < |list| && LookupKey(list[j], from) in idx &&
        u == UpdateItem(NormalizeAsWritten(list[j]), idx[LookupKey(list[j], from)]);
      assert Tracks(s, from, id, LookupKey(list[j], from));
      assert Tracks(s, from, id, LookupKey(list[i], from));
      assert j == i;
    }
  }

  /**
   * No phone reaches the store on create: every post a run adds carries an
   * empty phone repeater, because the run writes only the `meta` of the
   * normalised entity.
   */
  lemma RunCreatesNoPhones(s: StoreState, p: Policy, list: seq<RemoteEntity>, from: Lang, to: Lang)
    requires ValidState(s)
    requires list != []
    ensures var r := RunResult(s, p, Some(list), from, to);
      forall id :: id in r.posts && id !in s.posts ==>
        PhoneRepeaterKey in r.posts[id].meta && r.posts[id].meta[PhoneRepeaterKey] == Phones([])
  {
    var idx := Index(s, from);
    var r := RunResult(s, p, Some(list), from, to);
    var items := Creates(list, idx, from);
    var acc := Accepted(items, p, to);
    RunCreatesAccepted(s, p, list, from, to);
    AcceptedMembers(items, p, to);
    CreatesExact(list, idx, from);
    forall id | id in r.posts && id !in s.posts
      ensures PhoneRepeaterKey in r.posts[id].meta && r.posts[id].meta[PhoneRepeaterKey] == Phones([])
    {
      var j := id - s.nextId;
      assert HasPost(r.posts, s.nextId + j, NewRecord(acc[j], to));
      assert acc[j] in items;
      var i :| 0 <= i < |list| && LookupKey(list[i], from) !in idx && acc[j] == NormalizeAsWritten(list[i]);
      AsWrittenRepeaterEmpty(list[i]);
    }
  }

  /**
   * When every entry writes an empty phone repeater, a post that some
   * accepted entry names ends the update phase with an empty repeater:
   * later entries for it either write the empty repeater again or are
   * refused and change nothing.
   */
  lemma {:induction false} UpdatesClearPhones(s: StoreState, p: Policy, items: seq<UpdateItem>, j: nat)
    requires j < |items|
    requires items[j].wpId in s.posts
    requires p.acceptsUpdate(items[j].wpId, items[j].apiEntity.postTitle)
    requires forall u :: u in items ==>
      PhoneRepeaterKey in u.apiEntity.meta && u.apiEntity.meta[PhoneRepeaterKey] == Phones([])
    ensures var r := ApplyUpdates(s, p, items);
      items[j].wpId in r.posts && PhoneRepeaterKey in r.posts[items[j].wpId].meta
      && r.posts[items[j].wpId].meta[PhoneRepeaterKey] == Phones([])
  {
    var init := items[..|items| - 1];
    var last := items[|items| - 1];
    var id := items[j].wpId;
    UpdatesApplied(s, p, init);
    var prev := ApplyUpdates(s, p, init);
    UpdateOneSpec(prev, p, last);
    assert last in items;
    if j < |items| - 1 {
      assert init[j] == items[j];
      assert forall u :: u in init ==> u in items;
      UpdatesClearPhones(s, p, init, j);
    }
  }

  /**
   * An accepted update clears the phone rows of its post: a matched post
   * whose update the store accepts ends the run with an empty phone
   * repeater, whatever other entities share its key.
   */
  lemma RunUpdateClearsPhones(s: StoreState, p: Policy, list: seq<RemoteEntity>, from: Lang, to: Lang, i: nat)
    requires ValidState(s)
    requires i < |list|
    requires LookupKey(list[i], from) in Index(s, from)
    ensures var id := Index(s, from)[LookupKey(list[i], from)];
      var r := RunResult(s, p, Some(list), from, to);
      p.acceptsUpdate(id, NormalizeAsWritten(list[i]).postTitle) ==>
        id in r.posts && PhoneRepeaterKey in r.posts[id].meta && r.posts[id].meta[PhoneRepeaterKey] == Phones([])
  {
    var idx := Index(s, from);
    var key := LookupKey(list[i], from);
    var id := idx[key];
    if p.acceptsUpdate(id, NormalizeAsWritten(list[i]).postTitle) {
      IndexExact(s, from);
      var items := Updates(list, idx, from);
      UpdatesExact(list, idx, from);
      var u0 := UpdateItem(NormalizeAsWritten(list[i]), id);
      var j :| 0 <= j < |items| && items[j] == u0;
      forall u | u in items
        ensures PhoneRepeaterKey in u.apiEntity.meta && u.apiEntity.meta[PhoneRepeaterKey] == Phones([])
      {
        var k :| 0 <= k < |list| && LookupKey(list[k], from) in idx &&
          u == UpdateItem(NormalizeAsWritten(list[k]), idx[LookupKey(list[k], from)]);
        AsWrittenRepeaterEmpty(list[k]);
      }
      var a := ApplyCreates(s, p, Creates(list, idx, from), to);
      CreatesApplied(s, p, Creates(list, idx, from), to);
      UpdatesClearPhones(a, p, items, j);
      RunPhases(s, p, list, from, to);
      SeenAt(list, from);
      forall k | k in idx && k !in Seen(list, from)
        ensures idx[k] != id
      {
        assert Tracks(s, from, idx[k], k);
        assert Seen(list, from)[i] == key;
      }
      assert id !in StaleIds(idx, Seen(list, from));
    }
  }
}
