/**
 * Running the same sync twice. When the remote answer does not change, the
 * run reads and writes one language, and no two local posts of that
 * language share an external key, the second run creates no post and
 * deletes none: every entity the first run could store is found by the
 * second run's index, and every stale post the second run sees is one whose
 * delete the store already refused.
 */
module SyncIdempotence {
  import opened Wrappers
  import opened Entities
  import opened Normalizer
  import opened Store
  import opened SyncSpec
  import opened SyncProperties

  /** Every remote entity is in the language the run reads, so its stored key is its lookup key. */
  predicate InLanguage(list: seq<RemoteEntity>, from: Lang)
  {
    forall i :: 0 <= i < |list| ==> list[i].langcode == from
  }

  /** A post created from an entity of language `from` carries the key the run looks the entity up by. */
  lemma NormalizedKey(e: RemoteEntity, from: Lang, to: Lang)
    requires e.langcode == from
    ensures TrackedKey(Some(NormalizeAsWritten(e).meta[ApiIdKey])) == Some(LookupKey(e, from))
    ensures RecordKey(NewRecord(NormalizeAsWritten(e), to)) == Some(LookupKey(e, from))
  {
    ExternalKeyNotEmpty(e.id, from);
  }

  /** Each update entry of a run carries the key its indexed post already has. */
  lemma UpdatesKeyConsistent(s: StoreState, p: Policy, list: seq<RemoteEntity>, from: Lang, to: Lang)
    requires ValidState(s)
    requires InLanguage(list, from)
    ensures var idx := Index(s, from);
      KeyConsistent(ApplyCreates(s, p, Creates(list, idx, from), to), Updates(list, idx, from))
  {
    var idx := Index(s, from);
    var a := ApplyCreates(s, p, Creates(list, idx, from), to);
    IndexExact(s, from);
    UpdatesExact(list, idx, from);
    CreatesApplied(s, p, Creates(list, idx, from), to);
    forall u | u in Updates(list, idx, from) && u.wpId in a.posts
      ensures ApiIdKey in u.apiEntity.meta && TrackedKey(Some(u.apiEntity.meta[ApiIdKey])) == RecordKey(a.posts[u.wpId])
    {
      var i :| 0 <= i < |list| && LookupKey(list[i], from) in idx &&
        u == UpdateItem(NormalizeAsWritten(list[i]), idx[LookupKey(list[i], from)]);
      NormalizedKey(list[i], from, to);
      assert Tracks(s, from, u.wpId, LookupKey(list[i], from));
    }
  }

  /** A post that exists before and after a run keeps its language tag and its external key. */
  lemma RunKeepsOldKeys(s: StoreState, p: Policy, list: seq<RemoteEntity>, from: Lang, to: Lang)
    requires ValidState(s)
    requires list != []
    requires InLanguage(list, from)
    ensures var r := RunResult(s, p, Some(list), from, to);
      forall id :: id in s.posts && id in r.posts ==>
        r.posts[id].lang == s.posts[id].lang && RecordKey(r.posts[id]) == RecordKey(s.posts[id])
  {
    var idx := Index(s, from);
    var a := ApplyCreates(s, p, Creates(list, idx, from), to);
    CreatesApplied(s, p, Creates(list, idx, from), to);
    UpdatesKeyConsistent(s, p, list, from, to);
    UpdatesApplied(a, p, Updates(list, idx, from));
    RunPhases(s, p, list, from, to);
  }

  /** A post a run adds is tagged `to` and carries the lookup key of one of the remote entities. */
  lemma RunNewPostsKeyed(s: StoreState, p: Policy, list: seq<RemoteEntity>, from: Lang, to: Lang)
    requires ValidState(s)
    requires list != []
    requires InLanguage(list, from)
    ensures var r := RunResult(s, p, Some(list), from, to);
      forall id :: id in r.posts && id !in s.posts ==>
        && r.posts[id].lang == to
        && RecordKey(r.posts[id]).Some?
        && RecordKey(r.posts[id]).value in Seen(list, from)
  {
    var idx := Index(s, from);
    var r := RunResult(s, p, Some(list), from, to);
    var items := Creates(list, idx, from);
    var acc := Accepted(items, p, to);
    RunCreatesAccepted(s, p, list, from, to);
    AcceptedMembers(items, p, to);
    CreatesExact(list, idx, from);
    SeenAt(list, from);
    forall id | id in r.posts && id !in s.posts
      ensures r.posts[id].lang == to && RecordKey(r.posts[id]).Some? && RecordKey(r.posts[id]).value in Seen(list, from)
    {
      var j := id - s.nextId;
      assert HasPost(r.posts, s.nextId + j, NewRecord(acc[j], to));
      assert acc[j] in items;
      var i :| 0 <= i < |list| && LookupKey(list[i], from) !in idx && acc[j] == NormalizeAsWritten(list[i]);
      NormalizedKey(list[i], from, to);
      assert Seen(list, from)[i] == LookupKey(list[i], from);
    }
  }

  /**
   * After a run, the index holds the key of every remote entity that was
   * already indexed or whose create the store accepts.
   */
  lemma FirstRunCovers(s: StoreState, p: Policy, list: seq<RemoteEntity>, from: Lang)
    requires ValidState(s)
    requires list != []
    requires InLanguage(list, from)
    ensures var r := RunResult(s, p, Some(list), from, from);
      forall i ::
        (0 <= i < |list| && (LookupKey(list[i], from) in Index(s, from) || Acceptable(NormalizeAsWritten(list[i]), p, from)))
        ==> LookupKey(list[i], from) in Index(r, from)
  {
    var idx := Index(s, from);
    var r := RunResult(s, p, Some(list), from, from);
    var items := Creates(list, idx, from);
    var acc := Accepted(items, p, from);
    IndexExact(s, from);
    RunPreservesValid(s, p, Some(list), from, from);
    IndexExact(r, from);
    RunKeepsOldKeys(s, p, list, from, from);
    RunDeletesExactlyStale(s, p, list, from, from);
    RunCreatesAccepted(s, p, list, from, from);
    AcceptedMembers(items, p, from);
    CreatesExact(list, idx, from);
    SeenAt(list, from);
    forall i | 0 <= i < |list| && (LookupKey(list[i], from) in idx || Acceptable(NormalizeAsWritten(list[i]), p, from))
      ensures LookupKey(list[i], from) in Index(r, from)
    {
      var key := LookupKey(list[i], from);
      if key in idx {
        var id := idx[key];
        assert Tracks(s, from, id, key);
        assert Seen(list, from)[i] == key;
        forall k | k in idx && k !in Seen(list, from)
          ensures idx[k] != id
        {
          assert Tracks(s, from, idx[k], k);
        }
        assert id !in StaleIds(idx, Seen(list, from));
        assert Tracks(r, from, id, key);
      } else {
        assert NormalizeAsWritten(list[i]) in acc;
        var j :| 0 <= j < |acc| && acc[j] == NormalizeAsWritten(list[i]);
        assert HasPost(r.posts, s.nextId + j, NewRecord(acc[j], from));
        NormalizedKey(list[i], from, from);
        assert Tracks(r, from, s.nextId + j, key);
      }
    }
  }

  /** With no acceptable entry, the create phase adds nothing. */
  lemma {:induction false} NoneAccepted(items: seq<Normalized>, p: Policy, to: Lang)
    requires forall x :: x in items ==> !Acceptable(x, p, to)
    ensures Accepted(items, p, to) == []
  {
    if items != [] {
      var init := items[..|items| - 1];
      assert forall x :: x in init ==> x in items;
      NoneAccepted(init, p, to);
    }
  }

  /** On the second run with the same answer, no create entry is acceptable. */
  lemma SecondRunCreatesNothing(s: StoreState, p: Policy, list: seq<RemoteEntity>, from: Lang)
    requires ValidState(s)
    requires list != []
    requires InLanguage(list, from)
    ensures var r := RunResult(s, p, Some(list), from, from);
      Accepted(Creates(list, Index(r, from), from), p, from) == []
  {
    var r := RunResult(s, p, Some(list), from, from);
    var items := Creates(list, Index(r, from), from);
    FirstRunCovers(s, p, list, from);
    CreatesExact(list, Index(r, from), from);
    AcceptedMembers(items, p, from);
    NoneAccepted(items, p, from);
  }

  /**
   * On the second run, every stale post is one the first run already tried
   * to delete: the store refuses to delete it again.
   */
  lemma SecondRunDeletesNothing(s: StoreState, p: Policy, list: seq<RemoteEntity>, from: Lang)
    requires ValidState(s)
    requires list != []
    requires InLanguage(list, from)
    requires UniqueTrackedKeys(s, from)
    ensures var r := RunResult(s, p, Some(list), from, from);
      forall id :: id in StaleIds(Index(r, from), Seen(list, from)) ==> !p.acceptsDelete(id)
  {
    var idx := Index(s, from);
    var r := RunResult(s, p, Some(list), from, from);
    var idx1 := Index(r, from);
    RunPreservesValid(s, p, Some(list), from, from);
    IndexExact(s, from);
    IndexExact(r, from);
    RunKeepsOldKeys(s, p, list, from, from);
    RunNewPostsKeyed(s, p, list, from, from);
    RunDeletesExactlyStale(s, p, list, from, from);
    forall id | id in StaleIds(idx1, Seen(list, from))
      ensures !p.acceptsDelete(id)
    {
      var k :| k in idx1 && k !in Seen(list, from) && idx1[k] == id;
      assert Tracks(r, from, id, k);
      assert id in s.posts;
      assert Tracks(s, from, id, k);
      assert Tracks(s, from, idx[k], k);
      assert idx[k] == id;
      assert id in StaleIds(idx, Seen(list, from));
    }
  }

  /**
   * A run with nothing acceptable to create and only stale posts whose
   * delete the store refuses keeps the set of posts and the ID counter.
   */
  lemma RunChangesNoKeys(s: StoreState, p: Policy, list: seq<RemoteEntity>, from: Lang, to: Lang)
    requires ValidState(s)
    requires list != []
    requires Accepted(Creates(list, Index(s, from), from), p, to) == []
    requires forall id :: id in StaleIds(Index(s, from), Seen(list, from)) ==> !p.acceptsDelete(id)
    ensures RunResult(s, p, Some(list), from, to).posts.Keys == s.posts.Keys
    ensures RunResult(s, p, Some(list), from, to).nextId == s.nextId
  {
    RunCreatesAccepted(s, p, list, from, to);
    RunDeletesExactlyStale(s, p, list, from, to);
  }

  /**
   * Running the sync twice with the same answer (reading and writing one
   * language, with no two local posts sharing an external key) leaves the
   * second run with nothing to create and nothing to delete: the set of
   * posts and the ID counter stay as the first run left them.
   */
  lemma RunIsIdempotent(s: StoreState, p: Policy, list: seq<RemoteEntity>, from: Lang)
    requires ValidState(s)
    requires list != []
    requires InLanguage(list, from)
    requires UniqueTrackedKeys(s, from)
    ensures var s1 := RunResult(s, p, Some(list), from, from);
      var s2 := RunResult(s1, p, Some(list), from, from);
      s2.posts.Keys == s1.posts.Keys && s2.nextId == s1.nextId
  {
    RunPreservesValid(s, p, Some(list), from, from);
    SecondRunCreatesNothing(s, p, list, from);
    SecondRunDeletesNothing(s, p, list, from);
    RunChangesNoKeys(RunResult(s, p, Some(list), from, from), p, list, from, from);
  }
}
