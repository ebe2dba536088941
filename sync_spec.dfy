/**
 * The sync run of src/Sync.php as functions on store states: the index of
 * local posts, the partition of the remote list, and the create, update and
 * delete phases. The methods in module Sync are proved to compute exactly
 * these; module SyncProperties proves what they promise.
 */
module SyncSpec {
  import opened Wrappers
  import opened Entities
  import opened Normalizer
  import opened Store

  /** The local index: external key to post ID (`$wp_entities`). */
  type KeyIndex = map<string, PostId>

  /** One entry of `$to_be_updated`: the normalised entity and the matched post. */
  datatype UpdateItem = UpdateItem(apiEntity: Normalized, wpId: PostId)

  /** The external key stored on a post, if PHP's `empty()` does not reject it. */
  function TrackedKey(v: Option<MetaValue>): Option<string>
  {
    if v.Some? && v.value.Text? && !PhpEmpty(Some(v.value.text)) then Some(v.value.text) else None
  }

  function RecordKey(r: Record): Option<string>
  {
    TrackedKey(if ApiIdKey in r.meta then Some(r.meta[ApiIdKey]) else None)
  }

  /** Post `id` is tagged `lang` and carries the non-empty external key `k`. */
  predicate Tracks(s: StoreState, lang: Lang, id: PostId, k: string)
  {
    id in s.posts && s.posts[id].lang == lang && RecordKey(s.posts[id]) == Some(k)
  }

  /** The index loop of `fetch_wp_entities` over the queried IDs; a later post overwrites an earlier one with the same key. */
  function IndexOf(posts: map<PostId, Record>, ids: seq<PostId>): KeyIndex
  {
    if ids == [] then map[]
    else
      var prev := IndexOf(posts, ids[..|ids| - 1]);
      var id := ids[|ids| - 1];
      var k := if id in posts then RecordKey(posts[id]) else None;
      if k.Some? then prev[k.value := id] else prev
  }

  /** `fetch_wp_entities($from_lang)` */
  function Index(s: StoreState, lang: Lang): KeyIndex
  {
    IndexOf(s.posts, TaggedIds(s, lang))
  }

  /** The key `run` looks up and records for a remote entity: its id with the run's source language. */
  function LookupKey(e: RemoteEntity, from: Lang): string
  {
    ExternalKey(e.id, from)
  }

  /** The images under `f` of the elements of `list` that `keep` accepts, in list order. */
  function Select<A(!new), B>(list: seq<A>, keep: A -> bool, f: A --> B): seq<B>
    requires forall x :: keep(x) ==> f.requires(x)
  {
    if list == [] then []
    else
      var x := list[|list| - 1];
      Select(list[..|list| - 1], keep, f) + (if keep(x) then [f(x)] else [])
  }

  /** `$to_be_created`: the normalised entities whose key is not in the index, in list order. */
  function Creates(list: seq<RemoteEntity>, idx: KeyIndex, from: Lang): seq<Normalized>
  {
    Select(list, e => LookupKey(e, from) !in idx, NormalizeAsWritten)
  }

  /** `$to_be_updated`: the normalised entities whose key is in the index, with the matched post. */
  function Updates(list: seq<RemoteEntity>, idx: KeyIndex, from: Lang): seq<UpdateItem>
  {
    Select(list, e => LookupKey(e, from) in idx,
           e requires LookupKey(e, from) in idx => UpdateItem(NormalizeAsWritten(e), idx[LookupKey(e, from)]))
  }

  /** `$api_entity_id_list`: the key of every remote entity, title or not. */
  function Seen(list: seq<RemoteEntity>, from: Lang): (r: seq<string>)
    ensures |r| == |list|
  {
    if list == [] then []
    else Seen(list[..|list| - 1], from) + [LookupKey(list[|list| - 1], from)]
  }

  /** `update_entity_meta`: every pair of `meta` written onto post `id`. */
  function WriteMeta(s: StoreState, id: PostId, meta: MetaMap): StoreState
  {
    if id in s.posts then
      StoreState(s.posts[id := s.posts[id].(meta := s.posts[id].meta + meta)], s.nextId)
    else s
  }

  /** A create entry that leads to a new post: it has a title and the store accepts the insert. */
  predicate Acceptable(item: Normalized, p: Policy, to: Lang)
  {
    !PhpEmpty(item.postTitle) && p.acceptsInsert(item.postTitle.value, to)
  }

  /** The post a successful create leaves behind. */
  function NewRecord(item: Normalized, to: Lang): Record
  {
    Record(to, item.postTitle, item.meta)
  }

  /** One iteration of the loop in `create_entities`. */
  function CreateOne(s: StoreState, p: Policy, item: Normalized, to: Lang): StoreState
  {
    if PhpEmpty(item.postTitle) then s
    else
      var inserted := InsertResult(s, p, item.postTitle.value, to);
      if inserted.1.None? then inserted.0 else WriteMeta(inserted.0, inserted.1.value, item.meta)
  }

  /** `create_entities($to_lang, $items)` */
  function ApplyCreates(s: StoreState, p: Policy, items: seq<Normalized>, to: Lang): StoreState
  {
    if items == [] then s
    else CreateOne(ApplyCreates(s, p, items[..|items| - 1], to), p, items[|items| - 1], to)
  }

  /** The create entries that lead to new posts, in order. */
  function Accepted(items: seq<Normalized>, p: Policy, to: Lang): seq<Normalized>
  {
    if items == [] then []
    else
      var item := items[|items| - 1];
      Accepted(items[..|items| - 1], p, to) + (if Acceptable(item, p, to) then [item] else [])
  }

  /** One iteration of the loop in `update_entities`: no title check. */
  function UpdateOne(s: StoreState, p: Policy, u: UpdateItem): StoreState
  {
    var updated := UpdateResult(s, p, u.wpId, u.apiEntity.postTitle);
    if updated.1 then WriteMeta(updated.0, u.wpId, u.apiEntity.meta) else updated.0
  }

  /** `update_entities($items)` */
  function ApplyUpdates(s: StoreState, p: Policy, items: seq<UpdateItem>): StoreState
  {
    if items == [] then s
    else UpdateOne(ApplyUpdates(s, p, items[..|items| - 1]), p, items[|items| - 1])
  }

  /** `delete_entities`: every listed post the store agrees to delete is gone. */
  function DeleteAll(s: StoreState, p: Policy, ids: set<PostId>): (r: StoreState)
    ensures r.nextId == s.nextId
    ensures forall id :: id in r.posts <==> id in s.posts && !(id in ids && p.acceptsDelete(id))
    ensures forall id :: id in r.posts ==> r.posts[id] == s.posts[id]
  {
    StoreState(map id | id in s.posts && !(id in ids && p.acceptsDelete(id)) :: s.posts[id], s.nextId)
  }

  /** `$to_be_deleted`: the posts of index entries whose key was not seen. */
  function StaleIds(idx: KeyIndex, seen: seq<string>): set<PostId>
  {
    set k | k in idx && k !in seen :: idx[k]
  }

  /**
   * `run($from_lang, $to_lang)` with the API's answer `fetched` (None for a
   * non-200 response or an undecodable body): creates, then updates, then,
   * when the index is not empty, deletes.
   */
  function RunResult(s: StoreState, p: Policy, fetched: Option<seq<RemoteEntity>>, from: Lang, to: Lang): StoreState
  {
    if fetched.None? || fetched.value == [] then s
    else
      var list := fetched.value;
      var idx := Index(s, from);
      var afterCreates := ApplyCreates(s, p, Creates(list, idx, from), to);
      var afterUpdates := ApplyUpdates(afterCreates, p, Updates(list, idx, from));
      if idx == map[] then afterUpdates
      else DeleteAll(afterUpdates, p, StaleIds(idx, Seen(list, from)))
  }

  /** The set of IDs in a list. */
  function Elems(ids: seq<PostId>): set<PostId>
  {
    set id | id in ids
  }

  lemma ElemsSnoc(ids: seq<PostId>, i: nat)
    requires i < |ids|
    ensures Elems(ids[..i + 1]) == Elems(ids[..i]) + {ids[i]}
  {
    assert ids[..i + 1] == ids[..i] + [ids[i]];
  }

  lemma WriteMetaNothing(s: StoreState, id: PostId)
    ensures WriteMeta(s, id, map[]) == s
  {
    if id in s.posts {
      assert s.posts[id].meta + map[] == s.posts[id].meta;
      assert s.posts[id := s.posts[id].(meta := s.posts[id].meta)] == s.posts;
    }
  }

  /** Setting one more field extends the set of written fields. */
  lemma WriteMetaOneMore(s: StoreState, id: PostId, written: MetaMap, key: FieldKey, value: MetaValue)
    ensures SetFieldResult(WriteMeta(s, id, written), id, key, value) == WriteMeta(s, id, written[key := value])
  {
    if id in s.posts {
      assert (s.posts[id].meta + written)[key := value] == s.posts[id].meta + written[key := value];
    }
  }

  /** One more delete extends the set of deleted IDs. */
  lemma DeleteOneMore(s: StoreState, p: Policy, ids: set<PostId>, id: PostId)
    ensures DeleteResult(DeleteAll(s, p, ids), p, id).0 == DeleteAll(s, p, ids + {id})
  {
    var l := DeleteResult(DeleteAll(s, p, ids), p, id).0;
    var r := DeleteAll(s, p, ids + {id});
    assert l.posts.Keys == r.posts.Keys;
    assert forall x :: x in l.posts ==> l.posts[x] == r.posts[x];
  }

  /** The partition lists of a prefix grow by the next entity's share. */
  lemma PartitionSnoc(list: seq<RemoteEntity>, idx: KeyIndex, from: Lang, i: nat)
    requires i < |list|
    ensures var k := LookupKey(list[i], from);
      && Creates(list[..i + 1], idx, from) == Creates(list[..i], idx, from) + (if k in idx then [] else [NormalizeAsWritten(list[i])])
      && Updates(list[..i + 1], idx, from) == Updates(list[..i], idx, from) + (if k in idx then [UpdateItem(NormalizeAsWritten(list[i]), idx[k])] else [])
      && Seen(list[..i + 1], from) == Seen(list[..i], from) + [k]
  {
    assert list[..i + 1][..i] == list[..i];
  }
}
