/**
 * The Sync class of src/Sync.php as imperative methods over the local store.
 * Each method is proved to leave the store in the state its specification
 * function in SyncSpec describes.
 */
module Sync {
  import opened Wrappers
  import opened Entities
  import opened Normalizer
  import opened Store
  import opened SyncSpec

  /** `fetch_wp_entities`: the index of the posts tagged `fromLang`, keyed by their external key. */
  method FetchWpEntities(store: LocalStore, fromLang: Lang) returns (entities: KeyIndex)
    ensures entities == Index(store.State(), fromLang)
  {
    var ids := store.Query(fromLang);
    if |ids| == 0 {
      return map[];
    }
    entities := map[];
    var i := 0;
    while i < |ids|
      invariant 0 <= i <= |ids|
      invariant entities == IndexOf(store.posts, ids[..i])
    {
      assert ids[..i + 1][..i] == ids[..i];
      var apiId := store.GetField(ids[i], ApiIdKey);
      if apiId.Some? && apiId.value.Text? && !PhpEmpty(Some(apiId.value.text)) {
        entities := entities[apiId.value.text := ids[i]];
      }
      i := i + 1;
    }
    assert ids[..|ids|] == ids;
  }

  /** The partition loop of `run`: every remote entity goes to exactly one list, and its key is recorded. */
  method Partition(apiEntities: seq<RemoteEntity>, wpEntities: KeyIndex, fromLang: Lang)
    returns (toBeCreated: seq<Normalized>, toBeUpdated: seq<UpdateItem>, apiEntityIdList: seq<string>)
    ensures toBeCreated == Creates(apiEntities, wpEntities, fromLang)
    ensures toBeUpdated == Updates(apiEntities, wpEntities, fromLang)
    ensures apiEntityIdList == Seen(apiEntities, fromLang)
  {
    toBeCreated, toBeUpdated, apiEntityIdList := [], [], [];
    var i := 0;
    while i < |apiEntities|
      invariant 0 <= i <= |apiEntities|
      invariant toBeCreated == Creates(apiEntities[..i], wpEntities, fromLang)
      invariant toBeUpdated == Updates(apiEntities[..i], wpEntities, fromLang)
      invariant apiEntityIdList == Seen(apiEntities[..i], fromLang)
    {
      PartitionSnoc(apiEntities, wpEntities, fromLang, i);
      var apiEntity := apiEntities[i];
      var normalizedApiEntity := NormalizeAsWritten(apiEntity);
      var key := ExternalKey(apiEntity.id, fromLang);
      if key !in wpEntities {
        toBeCreated := toBeCreated + [normalizedApiEntity];
      } else {
        toBeUpdated := toBeUpdated + [UpdateItem(normalizedApiEntity, wpEntities[key])];
      }
      apiEntityIdList := apiEntityIdList + [key];
      i := i + 1;
    }
    assert apiEntities[..|apiEntities|] == apiEntities;
  }

  /** The loop of `run` that lists the posts whose key was not seen. */
  method CollectStale(wpEntities: KeyIndex, apiEntityIdList: seq<string>) returns (toBeDeleted: seq<PostId>)
    ensures forall id :: id in toBeDeleted <==> id in StaleIds(wpEntities, apiEntityIdList)
  {
    toBeDeleted := [];
    var remaining := wpEntities.Keys;
    while remaining != {}
      invariant remaining <= wpEntities.Keys
      invariant forall id :: id in toBeDeleted <==>
        exists k :: k in wpEntities && k !in remaining && k !in apiEntityIdList && wpEntities[k] == id
      decreases remaining
    {
      var apiId :| apiId in remaining;
      if apiId !in apiEntityIdList {
        toBeDeleted := toBeDeleted + [wpEntities[apiId]];
      }
      remaining := remaining - {apiId};
    }
  }

  /** `update_entity_meta`: writes every custom field of `meta` onto post `id`. */
  method UpdateEntityMeta(store: LocalStore, id: PostId, meta: MetaMap)
    requires store.Valid()
    modifies store
    ensures store.Valid()
    ensures store.State() == WriteMeta(old(store.State()), id, meta)
  {
    WriteMetaNothing(old(store.State()), id);
    if meta == map[] {
      return;
    }
    var remaining := meta.Keys;
    assert (map k | k in meta && k !in remaining :: meta[k]) == map[];
    while remaining != {}
      invariant remaining <= meta.Keys
      invariant store.Valid()
      invariant store.State() == WriteMeta(old(store.State()), id, map k | k in meta && k !in remaining :: meta[k])
      decreases remaining
    {
      var metaKey :| metaKey in remaining;
      ghost var written := map k | k in meta && k !in remaining :: meta[k];
      WriteMetaOneMore(old(store.State()), id, written, metaKey, meta[metaKey]);
      store.SetField(id, metaKey, meta[metaKey]);
      remaining := remaining - {metaKey};
      assert (map k | k in meta && k !in remaining :: meta[k]) == written[metaKey := meta[metaKey]];
    }
    assert (map k | k in meta && k !in remaining :: meta[k]) == meta;
  }

  /** `create_entities`: skips title-less entries, carries on past rejected inserts. */
  method CreateEntities(store: LocalStore, toLang: Lang, toBeCreated: seq<Normalized>)
    requires store.Valid()
    modifies store
    ensures store.Valid()
    ensures store.State() == ApplyCreates(old(store.State()), store.policy, toBeCreated, toLang)
  {
    if |toBeCreated| == 0 {
      return;
    }
    var i := 0;
    while i < |toBeCreated|
      invariant 0 <= i <= |toBeCreated|
      invariant store.Valid()
      invariant store.State() == ApplyCreates(old(store.State()), store.policy, toBeCreated[..i], toLang)
    {
      assert toBeCreated[..i + 1][..i] == toBeCreated[..i];
      var item := toBeCreated[i];
      if !PhpEmpty(item.postTitle) {
        var id := store.Insert(item.postTitle.value, toLang);
        if id.Some? {
          UpdateEntityMeta(store, id.value, item.meta);
        }
      }
      i := i + 1;
    }
    assert toBeCreated[..|toBeCreated|] == toBeCreated;
  }

  /** `update_entities`: rewrites title and custom fields, carries on past rejected updates. */
  method UpdateEntities(store: LocalStore, toBeUpdated: seq<UpdateItem>)
    requires store.Valid()
    modifies store
    ensures store.Valid()
    ensures store.State() == ApplyUpdates(old(store.State()), store.policy, toBeUpdated)
  {
    if |toBeUpdated| == 0 {
      return;
    }
    var i := 0;
    while i < |toBeUpdated|
      invariant 0 <= i <= |toBeUpdated|
      invariant store.Valid()
      invariant store.State() == ApplyUpdates(old(store.State()), store.policy, toBeUpdated[..i])
    {
      assert toBeUpdated[..i + 1][..i] == toBeUpdated[..i];
      var item := toBeUpdated[i];
      var ok := store.Update(item.wpId, item.apiEntity.postTitle);
      if ok {
        UpdateEntityMeta(store, item.wpId, item.apiEntity.meta);
      }
      i := i + 1;
    }
    assert toBeUpdated[..|toBeUpdated|] == toBeUpdated;
  }

  /** `delete_entities`: permanent deletes; a rejected delete is ignored. */
  method DeleteEntities(store: LocalStore, toBeDeleted: seq<PostId>)
    requires store.Valid()
    modifies store
    ensures store.Valid()
    ensures store.State() == DeleteAll(old(store.State()), store.policy, Elems(toBeDeleted))
  {
    assert DeleteAll(old(store.State()), store.policy, {}).posts == store.posts;
    if |toBeDeleted| == 0 {
      return;
    }
    var i := 0;
    while i < |toBeDeleted|
      invariant 0 <= i <= |toBeDeleted|
      invariant store.Valid()
      invariant store.State() == DeleteAll(old(store.State()), store.policy, Elems(toBeDeleted[..i]))
    {
      DeleteOneMore(old(store.State()), store.policy, Elems(toBeDeleted[..i]), toBeDeleted[i]);
      ElemsSnoc(toBeDeleted, i);
      var _ := store.Delete(toBeDeleted[i]);
      i := i + 1;
    }
    assert toBeDeleted[..|toBeDeleted|] == toBeDeleted;
  }

  /**
   * `run($from_lang, $to_lang)`. `fetched` is what `fetch_entities` returned:
   * None for a non-200 response or an undecodable body.
   */
  method Run(store: LocalStore, fetched: Option<seq<RemoteEntity>>, fromLang: Lang, toLang: Lang)
    requires store.Valid()
    modifies store
    ensures store.Valid()
    ensures store.State() == RunResult(old(store.State()), store.policy, fetched, fromLang, toLang)
  {
    if fetched.None? || |fetched.value| == 0 {
      // An empty answer is treated like an API error: nothing is written.
      return;
    }
    var wpEntities := FetchWpEntities(store, fromLang);
    var toBeCreated, toBeUpdated, apiEntityIdList := Partition(fetched.value, wpEntities, fromLang);
    CreateEntities(store, toLang, toBeCreated);
    UpdateEntities(store, toBeUpdated);
    if wpEntities == map[] {
      return;
    }
    var toBeDeleted := CollectStale(wpEntities, apiEntityIdList);
    assert Elems(toBeDeleted) == StaleIds(wpEntities, apiEntityIdList);
    DeleteEntities(store, toBeDeleted);
  }
}
