/**
 * The language driver of src/Plugin.php: `import` runs one sync per
 * language Polylang lists (or a single `fi` to `fi` sync without Polylang),
 * `add_cpts_to_polylang` puts the place-of-business post type under
 * translation, and `init` creates the plugin singleton once.
 */
module PluginDriver {
  import opened Wrappers
  import opened Entities
  import opened Normalizer
  import opened Store
  import opened SyncSpec
  import opened SyncProperties
  import opened SyncIdempotence
  import Sync

  /** `Plugin::DEFAULT_LANGUAGE` */
  const DefaultLanguage: Lang := "fi"

  /** `Plugin::FALLBACK_LANGUAGE` */
  const FallbackLanguage: Lang := "en"

  /** `PlaceOfBusiness::SLUG` */
  const PlaceOfBusinessSlug: string := "placeofbusiness-cpt"

  /** The Polylang filter `hooks` registers `add_cpts_to_polylang` on. */
  const PostTypesFilter: string := "pll_get_post_types"

  /** One `do_import($from_lang, $to_lang)` call. */
  datatype LangPair = LangPair(from: Lang, to: Lang)

  /** The target language of a sync: Finnish stays Finnish, every other language goes to English. */
  function TargetLanguage(from: Lang): (to: Lang)
    ensures to == DefaultLanguage <==> from == DefaultLanguage
    ensures to == DefaultLanguage || to == FallbackLanguage
  {
    if from == DefaultLanguage then DefaultLanguage else FallbackLanguage
  }

  /** The syncs of the loop over `pll_languages_list()`: one per listed language, in list order. */
  function PlanOf(langs: seq<Lang>): (plan: seq<LangPair>)
    ensures |plan| == |langs|
    ensures forall i :: 0 <= i < |langs| ==> plan[i] == LangPair(langs[i], TargetLanguage(langs[i]))
  {
    if langs == [] then []
    else
      var from := langs[|langs| - 1];
      PlanOf(langs[..|langs| - 1]) + [LangPair(from, TargetLanguage(from))]
  }

  /**
   * The syncs `import` performs. `languages` is what `pll_languages_list()`
   * returns, or None when Polylang is not loaded.
   */
  function SyncPlan(languages: Option<seq<Lang>>): seq<LangPair>
  {
    if languages.None? then [LangPair(DefaultLanguage, DefaultLanguage)] else PlanOf(languages.value)
  }

  /**
   * The store after the syncs of `plan`, in order. `api` gives the answer of
   * `fetch_entities` for each source language.
   */
  function ImportRuns(s: StoreState, p: Policy, api: Lang -> Option<seq<RemoteEntity>>, plan: seq<LangPair>): StoreState
  {
    if plan == [] then s
    else
      var last := plan[|plan| - 1];
      RunResult(ImportRuns(s, p, api, plan[..|plan| - 1]), p, api(last.from), last.from, last.to)
  }

  /** `import()` */
  function ImportResult(s: StoreState, p: Policy, api: Lang -> Option<seq<RemoteEntity>>, languages: Option<seq<Lang>>): StoreState
  {
    ImportRuns(s, p, api, SyncPlan(languages))
  }

  /** The plan of one more language ends with that language's sync. */
  lemma PlanStep(langs: seq<Lang>, i: nat)
    requires i < |langs|
    ensures PlanOf(langs[..i + 1]) == PlanOf(langs[..i]) + [LangPair(langs[i], TargetLanguage(langs[i]))]
  {
    assert langs[..i + 1][..i] == langs[..i];
  }

  /** The state after the sync of the next listed language is the state after the longer plan. */
  lemma ImportStep(s: StoreState, p: Policy, api: Lang -> Option<seq<RemoteEntity>>, langs: seq<Lang>, i: nat,
                   before: StoreState, after: StoreState)
    requires i < |langs|
    requires before == ImportRuns(s, p, api, PlanOf(langs[..i]))
    requires after == RunResult(before, p, api(langs[i]), langs[i], TargetLanguage(langs[i]))
    ensures after == ImportRuns(s, p, api, PlanOf(langs[..i + 1]))
  {
    PlanStep(langs, i);
    ImportRunsSnoc(s, p, api, PlanOf(langs[..i]), LangPair(langs[i], TargetLanguage(langs[i])));
  }

  /** One more sync at the end of a plan runs after the others. */
  lemma ImportRunsSnoc(s: StoreState, p: Policy, api: Lang -> Option<seq<RemoteEntity>>, plan: seq<LangPair>, x: LangPair)
    ensures ImportRuns(s, p, api, plan + [x]) == RunResult(ImportRuns(s, p, api, plan), p, api(x.from), x.from, x.to)
  {
    assert (plan + [x])[..|plan|] == plan;
  }

  /** Without Polylang, `import` performs exactly one sync, from Finnish to Finnish. */
  lemma ImportWithoutPolylang(s: StoreState, p: Policy, api: Lang -> Option<seq<RemoteEntity>>)
    ensures ImportResult(s, p, api, None) == RunResult(s, p, api(DefaultLanguage), DefaultLanguage, DefaultLanguage)
  {
    ImportRunsSnoc(s, p, api, [], LangPair(DefaultLanguage, DefaultLanguage));
    assert [] + [LangPair(DefaultLanguage, DefaultLanguage)] == SyncPlan(None);
  }

  /** Running two plans one after the other is running their concatenation. */
  lemma {:induction false} ImportRunsAppend(s: StoreState, p: Policy, api: Lang -> Option<seq<RemoteEntity>>, a: seq<LangPair>, b: seq<LangPair>)
    ensures ImportRuns(s, p, api, a + b) == ImportRuns(ImportRuns(s, p, api, a), p, api, b)
    decreases |b|
  {
    if b == [] {
      assert a + b == a;
    } else {
      var init := b[..|b| - 1];
      assert (a + b)[..|a + b| - 1] == a + init;
      ImportRunsAppend(s, p, api, a, init);
    }
  }

  /**
   * With a language list, `import` performs the syncs of the first languages
   * and then those of the rest: the syncs follow the list order, one per
   * language, each with the language's target.
   */
  lemma ImportInListOrder(s: StoreState, p: Policy, api: Lang -> Option<seq<RemoteEntity>>, first: seq<Lang>, rest: seq<Lang>)
    ensures ImportResult(s, p, api, Some(first + rest)) ==
      ImportRuns(ImportResult(s, p, api, Some(first)), p, api, PlanOf(rest))
  {
    PlanOfAppend(first, rest);
    ImportRunsAppend(s, p, api, PlanOf(first), PlanOf(rest));
  }

  /** The plan of a concatenated list is the concatenation of the plans. */
  lemma PlanOfAppend(first: seq<Lang>, rest: seq<Lang>)
    ensures PlanOf(first + rest) == PlanOf(first) + PlanOf(rest)
  {
    var l := PlanOf(first + rest);
    var r := PlanOf(first) + PlanOf(rest);
    assert |l| == |r|;
    forall i | 0 <= i < |l|
      ensures l[i] == r[i]
    {
      if i < |first| {
        assert (first + rest)[i] == first[i];
      } else {
        assert (first + rest)[i] == rest[i - |first|];
      }
    }
  }

  /** A one-language list performs the sync of that language to its target. */
  lemma ImportOneLanguage(s: StoreState, p: Policy, api: Lang -> Option<seq<RemoteEntity>>, l: Lang)
    ensures ImportResult(s, p, api, Some([l])) == RunResult(s, p, api(l), l, TargetLanguage(l))
  {
    ImportRunsSnoc(s, p, api, [], LangPair(l, TargetLanguage(l)));
    assert [] + [LangPair(l, TargetLanguage(l))] == PlanOf([l]);
  }

  /** Every sync of an import keeps the store well formed. */
  lemma {:induction false} ImportPreservesValid(s: StoreState, p: Policy, api: Lang -> Option<seq<RemoteEntity>>, plan: seq<LangPair>)
    requires ValidState(s)
    ensures ValidState(ImportRuns(s, p, api, plan))
  {
    if plan != [] {
      var last := plan[|plan| - 1];
      ImportPreservesValid(s, p, api, plan[..|plan| - 1]);
      RunPreservesValid(ImportRuns(s, p, api, plan[..|plan| - 1]), p, api(last.from), last.from, last.to);
    }
  }

  /**
   * Without Polylang the import is a Finnish-to-Finnish sync, so importing
   * the same Finnish answer twice leaves the set of posts and the ID counter
   * as the first import left them.
   */
  lemma ImportWithoutPolylangIdempotent(s: StoreState, p: Policy, api: Lang -> Option<seq<RemoteEntity>>)
    requires ValidState(s)
    requires api(DefaultLanguage).Some? ==> InLanguage(api(DefaultLanguage).value, DefaultLanguage)
    requires UniqueTrackedKeys(s, DefaultLanguage)
    ensures var s1 := ImportResult(s, p, api, None);
      var s2 := ImportResult(s1, p, api, None);
      s2.posts.Keys == s1.posts.Keys && s2.nextId == s1.nextId
  {
    ImportWithoutPolylang(s, p, api);
    var s1 := ImportResult(s, p, api, None);
    ImportWithoutPolylang(s1, p, api);
    var fetched := api(DefaultLanguage);
    if fetched.Some? && fetched.value != [] {
      RunIsIdempotent(s, p, fetched.value, DefaultLanguage);
    }
  }

  /**
   * A post the index finds after a sync whose target differs from its
   * source existed before the sync, under the same key: the posts the sync
   * creates are tagged with the target, which the index does not read.
   */
  lemma CrossLanguageIndexedBefore(s: StoreState, p: Policy, list: seq<RemoteEntity>, from: Lang, to: Lang, k: string)
    requires ValidState(s)
    requires list != []
    requires InLanguage(list, from)
    requires from != to
    requires k in Index(RunResult(s, p, Some(list), from, to), from)
    ensures var id := Index(RunResult(s, p, Some(list), from, to), from)[k];
      id in s.posts && k in Index(s, from)
  {
    var r := RunResult(s, p, Some(list), from, to);
    var id := Index(r, from)[k];
    RunPreservesValid(s, p, Some(list), from, to);
    IndexExact(r, from);
    assert Tracks(r, from, id, k);
    RunNewPostsKeyed(s, p, list, from, to);
    assert id in s.posts;
    RunKeepsOldKeys(s, p, list, from, to);
    IndexExact(s, from);
    assert Tracks(s, from, id, k);
  }

  /**
   * A sync whose target differs from its source (under Polylang, every
   * language other than fi and en) finds after it only posts that existed
   * before it, and no key joins its index; so every entity it had to create is
   * still a create entry of the next sync with the same answer.
   */
  lemma CrossLanguageRunRecreates(s: StoreState, p: Policy, list: seq<RemoteEntity>, from: Lang, to: Lang)
    requires ValidState(s)
    requires list != []
    requires InLanguage(list, from)
    requires from != to
    ensures var r := RunResult(s, p, Some(list), from, to);
      && (forall k :: k in Index(r, from) ==> Index(r, from)[k] in s.posts)
      && Index(r, from).Keys <= Index(s, from).Keys
      && (forall i :: 0 <= i < |list| && LookupKey(list[i], from) !in Index(s, from) ==>
            NormalizeAsWritten(list[i]) in Creates(list, Index(r, from), from))
  {
    var r := RunResult(s, p, Some(list), from, to);
    forall k | k in Index(r, from)
      ensures Index(r, from)[k] in s.posts && k in Index(s, from)
    {
      CrossLanguageIndexedBefore(s, p, list, from, to, k);
    }
    CreatesExact(list, Index(r, from), from);
  }

  /** `add_cpts_to_polylang`: the place-of-business post type maps to itself; every other entry stays. */
  function AddCptsToPolylang(postTypes: map<string, string>, isSettings: bool): (r: map<string, string>)
    ensures r.Keys == postTypes.Keys + {PlaceOfBusinessSlug}
    ensures r[PlaceOfBusinessSlug] == PlaceOfBusinessSlug
    ensures forall k :: k in postTypes && k != PlaceOfBusinessSlug ==> r[k] == postTypes[k]
  {
    postTypes[PlaceOfBusinessSlug := PlaceOfBusinessSlug]
  }

  /** Applying the filter again changes nothing, whatever the settings flag. */
  lemma AddCptsIdempotent(postTypes: map<string, string>, a: bool, b: bool)
    ensures AddCptsToPolylang(AddCptsToPolylang(postTypes, a), b) == AddCptsToPolylang(postTypes, a)
  {
  }

  /** An instance of the Plugin class. */
  class Plugin {
    var version: string
    var pluginPath: string

    constructor (version: string, pluginPath: string)
      ensures this.version == version && this.pluginPath == pluginPath
    {
      this.version := version;
      this.pluginPath := pluginPath;
    }

    /** `do_import($from_lang, $to_lang)`: one sync with the API's answer for `fromLang`. */
    method DoImport(store: LocalStore, api: Lang -> Option<seq<RemoteEntity>>, fromLang: Lang, toLang: Lang)
      requires store.Valid()
      modifies store
      ensures store.Valid()
      ensures store.State() == RunResult(old(store.State()), store.policy, api(fromLang), fromLang, toLang)
    {
      Sync.Run(store, api(fromLang), fromLang, toLang);
    }

    /** The loop of `import()` over the languages Polylang lists. */
    method ImportLanguages(store: LocalStore, langs: seq<Lang>, api: Lang -> Option<seq<RemoteEntity>>)
      requires store.Valid()
      modifies store
      ensures store.Valid()
      ensures store.State() == ImportRuns(old(store.State()), store.policy, api, PlanOf(langs))
    {
      var i := 0;
      while i < |langs|
        invariant 0 <= i <= |langs|
        invariant store.Valid()
        invariant store.State() == ImportRuns(old(store.State()), store.policy, api, PlanOf(langs[..i]))
      {
        var fromLang := langs[i];
        var toLang := TargetLanguage(fromLang);
        ghost var before := store.State();
        DoImport(store, api, fromLang, toLang);
        ImportStep(old(store.State()), store.policy, api, langs, i, before, store.State());
        i := i + 1;
      }
      assert langs[..i] == langs;
    }

    /**
     * `import()`. `languages` is the result of `pll_languages_list()`, or
     * None when that function does not exist.
     */
    method Import(store: LocalStore, languages: Option<seq<Lang>>, api: Lang -> Option<seq<RemoteEntity>>)
      requires store.Valid()
      modifies store
      ensures store.Valid()
      ensures store.State() == ImportResult(old(store.State()), store.policy, api, languages)
    {
      if languages.None? {
        ImportWithoutPolylang(store.State(), store.policy, api);
        DoImport(store, api, DefaultLanguage, DefaultLanguage);
        return;
      }
      ImportLanguages(store, languages.value, api);
    }
  }

  /** The static `$instance` of the Plugin class and the filters its hooks have registered. */
  class Registry {
    var instance: Plugin?
    var filters: seq<string>

    constructor ()
      ensures instance == null && filters == []
    {
      instance := null;
      filters := [];
    }

    /**
     * `Plugin::init`: the first call creates the instance and registers its
     * Polylang filter; every later call changes nothing.
     */
    method Init(version: string, pluginPath: string)
      modifies this
      ensures old(instance) != null ==> instance == old(instance) && filters == old(filters)
      ensures old(instance) == null ==>
        && instance != null && fresh(instance)
        && instance.version == version && instance.pluginPath == pluginPath
        && filters == old(filters) + [PostTypesFilter]
    {
      if instance == null {
        instance := new Plugin(version, pluginPath);
        filters := filters + [PostTypesFilter];
      }
    }

    /**
     * `get_instance()`: its declared return type is `Plugin`, so calling it
     * before `init` fails; callers must have run `Init` first.
     */
    method GetInstance() returns (p: Plugin)
      requires instance != null
      ensures p == instance
    {
      p := instance;
    }

    /** `plugin()`: no declared return type, so it yields null before `init`. */
    method CurrentPlugin() returns (p: Plugin?)
      ensures p == instance
    {
      p := instance;
    }
  }
}
