/**
 * The local record store: the WordPress posts of the place-of-business type
 * together with their language tags (Polylang) and custom fields (ACF).
 * Whether WordPress accepts a write is decided by the store's fixed
 * acceptance policy, which stands for its validation and database errors.
 */
module Store {
  import opened Wrappers
  import opened Entities

  type PostId = nat

  /** One post: its language tag, its title (null when written as null) and its custom fields. */
  datatype Record = Record(lang: Lang, title: Option<string>, meta: MetaMap)

  /** The posts by ID, and the ID the next successful insert receives. */
  datatype StoreState = StoreState(posts: map<PostId, Record>, nextId: nat)

  /** Which writes the store accepts; a rejected write changes nothing. */
  datatype Policy = Policy(
    acceptsInsert: (string, Lang) -> bool,
    acceptsUpdate: (PostId, Option<string>) -> bool,
    acceptsDelete: PostId -> bool)

  /** Post IDs are positive (0 signals a failed insert) and below the next ID. */
  predicate ValidState(s: StoreState)
  {
    0 < s.nextId && forall id :: id in s.posts ==> 0 < id < s.nextId
  }

  /** `wp_insert_post`: a fresh post with no custom fields, or no ID when rejected. */
  function InsertResult(s: StoreState, p: Policy, title: string, lang: Lang): (r: (StoreState, Option<PostId>))
    ensures ValidState(s) ==> ValidState(r.0)
    ensures r.1.Some? <==> p.acceptsInsert(title, lang)
    ensures r.1.None? ==> r.0 == s
    ensures r.1.Some? && ValidState(s) ==>
      && r.1.value !in s.posts
      && r.0.posts == s.posts[r.1.value := Record(lang, Some(title), map[])]
  {
    if p.acceptsInsert(title, lang) then
      (StoreState(s.posts[s.nextId := Record(lang, Some(title), map[])], s.nextId + 1), Some(s.nextId))
    else
      (s, None)
  }

  /** `wp_update_post` with an ID and a title: fails for a missing post or a rejected write. */
  function UpdateResult(s: StoreState, p: Policy, id: PostId, title: Option<string>): (r: (StoreState, bool))
    ensures r.1 <==> id in s.posts && p.acceptsUpdate(id, title)
    ensures !r.1 ==> r.0 == s
    ensures r.1 ==> r.0 == StoreState(s.posts[id := s.posts[id].(title := title)], s.nextId)
  {
    if id in s.posts && p.acceptsUpdate(id, title) then
      (StoreState(s.posts[id := s.posts[id].(title := title)], s.nextId), true)
    else
      (s, false)
  }

  /** `wp_delete_post($id, true)`: permanent removal, no trash. */
  function DeleteResult(s: StoreState, p: Policy, id: PostId): (r: (StoreState, bool))
    ensures r.1 <==> id in s.posts && p.acceptsDelete(id)
    ensures r.0.posts.Keys == if r.1 then s.posts.Keys - {id} else s.posts.Keys
    ensures forall other :: other in r.0.posts ==> r.0.posts[other] == s.posts[other]
    ensures r.0.nextId == s.nextId
  {
    if id in s.posts && p.acceptsDelete(id) then (StoreState(s.posts - {id}, s.nextId), true)
    else (s, false)
  }

  /** `update_field`: sets one custom field of an existing post. */
  function SetFieldResult(s: StoreState, id: PostId, key: FieldKey, value: MetaValue): StoreState
  {
    if id in s.posts then
      StoreState(s.posts[id := s.posts[id].(meta := s.posts[id].meta[key := value])], s.nextId)
    else s
  }

  /** The IDs below `n` of the posts tagged `lang`, newest (highest ID) first. */
  function TaggedIdsBelow(posts: map<PostId, Record>, lang: Lang, n: nat): (r: seq<PostId>)
    ensures forall id :: id in r <==> id < n && id in posts && posts[id].lang == lang
    ensures forall i :: 0 <= i < |r| ==> r[i] < n
    ensures forall i, j :: 0 <= i < j < |r| ==> r[i] > r[j]
  {
    if n == 0 then []
    else
      var rest := TaggedIdsBelow(posts, lang, n - 1);
      if n - 1 in posts && posts[n - 1].lang == lang then [n - 1] + rest else rest
  }

  /** The result of the `WP_Query` for one language: every post tagged `lang`, newest first. */
  function TaggedIds(s: StoreState, lang: Lang): seq<PostId>
  {
    TaggedIdsBelow(s.posts, lang, s.nextId)
  }

  class LocalStore {
    var posts: map<PostId, Record>
    var nextId: nat
    const policy: Policy

    function State(): StoreState
      reads this
    {
      StoreState(posts, nextId)
    }

    predicate Valid()
      reads this
    {
      ValidState(State())
    }

    /** An empty store whose first post will get ID 1. */
    constructor (policy: Policy)
      ensures Valid() && State() == StoreState(map[], 1) && this.policy == policy
    {
      posts := map[];
      nextId := 1;
      this.policy := policy;
    }

    method Insert(title: string, lang: Lang) returns (id: Option<PostId>)
      requires Valid()
      modifies this
      ensures Valid()
      ensures (State(), id) == InsertResult(old(State()), policy, title, lang)
    {
      if policy.acceptsInsert(title, lang) {
        id := Some(nextId);
        posts := posts[nextId := Record(lang, Some(title), map[])];
        nextId := nextId + 1;
      } else {
        id := None;
      }
    }

    method Update(id: PostId, title: Option<string>) returns (ok: bool)
      requires Valid()
      modifies this
      ensures Valid()
      ensures (State(), ok) == UpdateResult(old(State()), policy, id, title)
    {
      ok := id in posts && policy.acceptsUpdate(id, title);
      if ok {
        posts := posts[id := posts[id].(title := title)];
      }
    }

    method Delete(id: PostId) returns (ok: bool)
      requires Valid()
      modifies this
      ensures Valid()
      ensures (State(), ok) == DeleteResult(old(State()), policy, id)
    {
      ok := id in posts && policy.acceptsDelete(id);
      if ok {
        posts := posts - {id};
      }
    }

    method SetField(id: PostId, key: FieldKey, value: MetaValue)
      requires Valid()
      modifies this
      ensures Valid()
      ensures State() == SetFieldResult(old(State()), id, key, value)
    {
      if id in posts {
        posts := posts[id := posts[id].(meta := posts[id].meta[key := value])];
      }
    }

    /** `get_field`: the custom field's value, or null. */
    method GetField(id: PostId, key: FieldKey) returns (v: Option<MetaValue>)
      ensures v.Some? <==> id in posts && key in posts[id].meta
      ensures v.Some? ==> v.value == posts[id].meta[key]
    {
      if id in posts && key in posts[id].meta {
        v := Some(posts[id].meta[key]);
      } else {
        v := None;
      }
    }

    /** The posts of one language, newest first. */
    method Query(lang: Lang) returns (ids: seq<PostId>)
      ensures ids == TaggedIds(State(), lang)
    {
      ids := [];
      var i := 0;
      while i < nextId
        invariant 0 <= i <= nextId
        invariant ids == TaggedIdsBelow(posts, lang, i)
      {
        if i in posts && posts[i].lang == lang {
          ids := [i] + ids;
        }
        i := i + 1;
      }
    }
  }
}
