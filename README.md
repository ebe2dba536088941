# Place-of-business sync, modelled in Dafny

This project models the core of the WordPress plugin
`tms-plugin-place-of-business-sync`. The plugin mirrors the
place-of-business entities published by the Tampere.fi Drupal API into
WordPress posts of the `placeofbusiness-cpt` type, one language pair at a
time. It has two parts:

- **The sync engine** (`src/Sync.php`). `run($from_lang, $to_lang)` does
  the following:
  1. Indexes the local posts tagged `from_lang` by their external key
     `tamperefi_api_id` (`fetch_wp_entities`).
  2. Normalises every remote entity into `{post_title, meta}`
     (`normalize_api_entity`, `handle_phone_numbers`). As written, the
     phone rows miss `meta` (see "## Findings").
  3. Splits the entities into a create list and an update list, depending
     on whether `"{id}-{from_lang}"` is indexed.
  4. Records every key it sees.
  5. Applies creates, then updates, then deletes of the indexed posts whose
     key was not seen. Deletes happen only when the index was not empty.
- **The language driver** (`src/Plugin.php`). `import` runs one sync per
  Polylang language. Finnish goes to Finnish and every other language goes
  to English. Without Polylang it runs a single `fi` to `fi` sync.
  `add_cpts_to_polylang` puts the post type under translation. `init`
  creates the plugin singleton once.

## How the model is built

- **Store.** The WordPress database is the class `Store.LocalStore`. It has
  a map from post ID to a record (language tag, title, custom fields) and
  the next post ID.
  - Its methods `Insert`, `Update`, `Delete`, `SetField`, `GetField` and
    `Query` stand for `wp_insert_post`, `wp_update_post`, `wp_delete_post`,
    `update_field`, `get_field` and the `WP_Query`.
  - A fixed acceptance `Policy` decides which writes WordPress refuses.
    This lets the "log and continue" paths be stated exactly.
- **Fetch.** The HTTP fetch is an input of type
  `Option<seq<RemoteEntity>>`. `None` stands for a non-200 answer or a body
  that does not decode.
- **Sync methods.** Every method of module `Sync` is an imperative loop,
  like the PHP. The run normalises with `NormalizeAsWritten`, the
  normaliser as the code has it; `Normalize` is the corrected one. Each is proved to leave the store in the state given by a
  function of module `SyncSpec` (`Sync.Run` gives `RunResult`). Modules
  `SyncProperties` and `SyncIdempotence` prove what those functions promise.
- **Driver.** Module `PluginDriver` does the same for `import`. Its loop
  calls `Sync.Run` once per language, and `ImportResult` folds `RunResult`
  over the language plan.

## Behaviour the proofs make explicit

- **Idempotence (`SyncIdempotence.RunIsIdempotent`).** Take a second run
  with the same answer. If it reads and writes one language, every entity
  is in that language, and no two local posts share an external key, then
  it creates no post and deletes none. This rests on the store refusing
  the same writes in both runs (see "## Left out").
  - Duplicate local keys are outside this statement. The query lists the
    newest post first and later posts overwrite earlier index entries, so
    the index keeps the oldest post of a key. The newer posts with that key
    are neither updated nor deleted by the run; one of them is indexed only
    in a later run, once the older post is gone.
- **Languages other than fi and en
  (`PluginDriver.CrossLanguageRunRecreates`).** Under Polylang, a sync from
  such a language goes to English (`fi` goes to `fi`, `en` to `en`). The
  statement holds when every entity's langcode is the source language.
  - It tags the posts it creates `en`, but its index reads posts tagged with
    the source language.
  - So no created post ever joins that index. The next sync with the same
    answer has the same create list and inserts the same entities again.
- **Updates ignore titles.** Updates carry no title check. An entity
  without a title still rewrites the title (to null) and the custom fields
  of its matched post.
- **Empty custom fields stay.** Only the top-level keys of the normalised
  array are stripped. Empty custom fields are kept and written, and
  overwrite what the post had.
- **No phone is stored.** Every post the run creates or updates ends with
  an empty phone repeater, whatever phones the API lists.

## Model

| member | source | states |
|---|---|---|
| Entities.FieldName | src/Sync.php:223-233 | each custom field the normaliser writes has its ACF field name (`tamperefi_api_id`, `title`, …, `mail_address_city`), never empty |
| Entities.NatToString | src/Sync.php:224 | the decimal form of an entity ID: non-empty, all digits, no leading zero, one digit exactly for IDs below 10, and its digits read back as the ID |
| Entities.ExternalKeyNotEmpty | src/Sync.php:224 | the external key `id-lang` ends in `-` followed by the language, and PHP's `empty()` never rejects it |
| Normalizer.AdditionalEntries | src/Sync.php:263-270 | one phone row per additional phone, in source order, its text defaulting to "" |
| Normalizer.PhoneListShape | src/Sync.php:255-272 | the phone rows: the primary phone first (text defaulting to ""), then each additional phone in order; the length is [primary present] + number of additional phones; no rows exactly when there is no phone data |
| Normalizer.Normalize | src/Sync.php:220-245 | the corrected normaliser: its meta always holds the external key built from the entity's own id and langcode |
| Normalizer.NormalizeFields | src/Sync.php:221-242 | all nine custom fields are present; absent API properties become ""; empty values stay; `post_title` is dropped exactly when PHP finds the title empty; the phone repeater holds the phone rows |
| Normalizer.NormalizeAsWritten | src/Sync.php:220-245 | the normaliser the run uses: its meta always holds the external key built from the entity's own id and langcode |
| Normalizer.AsWrittenFields | src/Sync.php:255-272 | as written, the title and meta are the corrected ones except that meta keeps an empty phone repeater; the rows sit in a separate top-level `phone_repeater` key, present exactly when there is a row |
| Normalizer.AsWrittenRepeaterEmpty | src/Sync.php:229 | the as-written meta always holds the phone repeater field, empty |
| Normalizer.PhonesLostAsWritten | src/Sync.php:257-265 | for any entity with a phone, the as-written meta's repeater is empty while the corrected one is not |
| Normalizer.PhonesLostExample | src/Sync.php:256-260 | a concrete entity with one primary phone whose row the as-written normaliser loses |
| Store.InsertResult | src/Sync.php:126-142 | an insert yields a post ID exactly when accepted, the new post is fresh, tagged with the language, titled and without custom fields; a refused insert changes nothing |
| Store.UpdateResult | src/Sync.php:163-172 | an update succeeds exactly for an existing post the store accepts, and then changes only that post's title |
| Store.DeleteResult | src/Sync.php:208-210 | a forced delete removes exactly that post when it exists and is accepted, leaving every other post as it was |
| Store.TaggedIdsBelow | src/Sync.php:284-288 | the query returns exactly the posts tagged with the language, newest (highest ID) first, without repeats |
| Store.LocalStore.Insert | src/Sync.php:126-132 | `wp_insert_post` on the store behaves as InsertResult |
| Store.LocalStore.Update | src/Sync.php:163-166 | `wp_update_post` on the store behaves as UpdateResult |
| Store.LocalStore.Delete | src/Sync.php:209 | `wp_delete_post($id, true)` on the store behaves as DeleteResult |
| Store.LocalStore.SetField | src/Sync.php:192 | `update_field` sets one custom field of an existing post and nothing else |
| Store.LocalStore.GetField | src/Sync.php:297 | `get_field` returns the stored value, or nothing when the post or field is absent |
| Store.LocalStore.Query | src/Sync.php:284-288 | the `WP_Query` returns the IDs of TaggedIds |
| SyncSpec.DeleteAll | src/Sync.php:203-211 | the delete phase removes exactly the listed posts the store agrees to delete; the others and the ID counter are untouched |
| Sync.FetchWpEntities | src/Sync.php:283-305 | the index loop builds exactly `Index`, skipping posts whose key PHP finds empty |
| Sync.Partition | src/Sync.php:74-88 | the partition loop builds exactly the create list, the update list and the seen list |
| Sync.CollectStale | src/Sync.php:97-101 | the to-be-deleted list holds exactly the posts of index keys absent from the seen list |
| Sync.UpdateEntityMeta | src/Sync.php:186-194 | writing the meta pairs one at a time leaves every pair written onto the post |
| Sync.CreateEntities | src/Sync.php:114-146 | the create loop leaves the store as ApplyCreates: title-less entries skipped, failed inserts write no meta and the loop goes on |
| Sync.UpdateEntities | src/Sync.php:155-176 | the update loop leaves the store as ApplyUpdates: no title check, failed updates write no meta and the loop goes on |
| Sync.DeleteEntities | src/Sync.php:203-211 | the delete loop leaves the store as DeleteAll of the listed IDs |
| Sync.Run | src/Sync.php:57-104 | the whole run leaves the store as RunResult: abort on a missing or empty answer, then creates, updates and (with a non-empty index) deletes |
| SyncProperties.IndexOfExact | src/Sync.php:296-302 | every index entry maps its key to a listed post carrying that key, and every listed post with a non-empty key has its key indexed |
| SyncProperties.IndexExact | src/Sync.php:283-305 | the index holds exactly the keys of the posts tagged with the language, each mapped to a post tagged with it and carrying it |
| SyncProperties.PartitionSizes | src/Sync.php:74-88 | the create and update lists together are as long as the remote list |
| SyncProperties.SeenAt | src/Sync.php:87 | the seen list holds the key `id-from_lang` of every entity, in list order, title or not |
| SyncProperties.CreatesExact | src/Sync.php:77-78 | the create list holds exactly the normalised entities whose key is not indexed |
| SyncProperties.UpdatesExact | src/Sync.php:80-85 | the update list holds exactly the normalised entities whose key is indexed, each with the indexed post |
| SyncProperties.PartitionExact | src/Sync.php:74-88 | each remote entity lands in exactly one list depending on the index, and every key is seen |
| SyncProperties.SeenExact | src/Sync.php:87 | a key is seen exactly when some remote entity has it |
| SyncProperties.UpdateTargetsIndexed | src/Sync.php:81-84 | update entries only name posts of the index |
| SyncProperties.CreateOneSpec | src/Sync.php:121-144 | a create without a title, or one the store refuses, changes nothing; otherwise a new post tagged `to_lang` carries the title and every custom field, external key included |
| SyncProperties.AcceptedMembers | src/Sync.php:121-142 | the entries that lead to new posts are exactly those with a title that the store accepts |
| SyncProperties.CreatesApplied | src/Sync.php:121-145 | the create phase keeps every existing post, adds one post per accepted entry above the old ID counter, and keeps IDs valid |
| SyncProperties.CreatesAppliedAt | src/Sync.php:126-144 | the j-th accepted entry becomes post `nextId + j` with its title, language and custom fields |
| SyncProperties.UpdateOneSpec | src/Sync.php:162-175 | one update rewrites the matched post's title, whatever it is, and every custom field of the entry; a refused update writes nothing; no other post changes |
| SyncProperties.UpdatesApplied | src/Sync.php:162-175 | the update phase keeps the set of posts, their language tags and every post no entry names, and external keys when entries carry their post's key |
| SyncProperties.UpdateOneTwice | src/Sync.php:162-175 | applying the same update twice leaves the post as applying it once |
| SyncProperties.UpdatesAt | src/Sync.php:162-175 | a post named by only one update entry ends as that single update leaves it |
| SyncProperties.RunAbortsOnEmptyFetch | src/Sync.php:61-66 | a missing or empty answer leaves the store unchanged |
| SyncProperties.RunTouchesIndexOnly | src/Sync.php:68-101 | every ID the run updates or deletes comes from the index, whose posts exist |
| SyncProperties.RunPreservesValid | src/Sync.php:57-104 | a run keeps post IDs positive and below the next ID |
| SyncProperties.UntrackedNotIndexed | src/Sync.php:296-302 | a post of another language, or one without an external key, is not in the index |
| SyncProperties.RunLeavesUntrackedAlone | src/Sync.php:57-104 | posts outside the index (other language, no key, or a newer post shadowed by an older one with the same key) come out of the run unchanged |
| SyncProperties.StaleIdsExact | src/Sync.php:97-101 | a post is stale exactly when it is indexed under a key no remote entity has |
| SyncProperties.RunDeletesExactlyStale | src/Sync.php:93-103 | an existing post is gone after the run exactly when it is stale and the store accepts the delete; with an empty index nothing is deleted |
| SyncProperties.RunCreatesAccepted | src/Sync.php:114-146 | the run adds exactly one post per accepted create entry, in list order, tagged `to_lang`, with its title and every custom field |
| SyncProperties.RunUpdatesMatched | src/Sync.php:155-176 | with distinct remote keys, a matched post ends with the entity's title and custom fields written over its own, or unchanged when the update is refused, and is never deleted |
| SyncProperties.RunCreatesNoPhones | src/Sync.php:144 | every post a run creates carries the phone repeater field, empty |
| SyncProperties.UpdatesClearPhones | src/Sync.php:162-175 | when every entry writes an empty phone repeater, a post named by any accepted entry ends the update phase with an empty repeater, whatever later entries name it |
| SyncProperties.RunUpdateClearsPhones | src/Sync.php:174 | a matched post whose update is accepted ends with an empty phone repeater, whatever other entities share its key |
| SyncProperties.OnlyEntryFor | src/Sync.php:80-85 | with distinct remote keys, the update entry of an entity is the only one naming its post |
| SyncIdempotence.NormalizedKey | src/Sync.php:224 | for an entity in the run's language, the stored external key equals the lookup key `id-from_lang` |
| SyncIdempotence.UpdatesKeyConsistent | src/Sync.php:80-85 | when every entity's langcode is the source language, each update entry carries the key its indexed post already has |
| SyncIdempotence.RunKeepsOldKeys | src/Sync.php:57-104 | when every entity's langcode is the source language, a post that survives a run keeps its language tag and external key |
| SyncIdempotence.RunNewPostsKeyed | src/Sync.php:126-144 | when every entity's langcode is the source language, every post a run adds is tagged `to_lang` and carries the lookup key of a remote entity |
| SyncIdempotence.FirstRunCovers | src/Sync.php:57-104 | after a same-language run in which every entity's langcode is that language, the index holds the key of every entity that was indexed or whose create was accepted |
| SyncIdempotence.NoneAccepted | src/Sync.php:121-124 | with no acceptable entry the create phase adds nothing |
| SyncIdempotence.SecondRunCreatesNothing | src/Sync.php:74-79 | a second same-language run with the same answer, every entity in that language, has no acceptable create under the same acceptance policy |
| SyncIdempotence.SecondRunDeletesNothing | src/Sync.php:97-103 | every stale post of the second run is one whose delete the same acceptance policy refuses again |
| SyncIdempotence.RunChangesNoKeys | src/Sync.php:90-103 | a run with nothing to create and only refused deletes keeps the set of posts and the ID counter |
| SyncIdempotence.RunIsIdempotent | src/Sync.php:57-104 | running the same same-language sync twice, every entity in that language, no two local posts sharing a key and the same acceptance policy throughout, the second run adds and removes no post |
| PluginDriver.TargetLanguage | src/Plugin.php:220-222 | the target is `fi` exactly when the source is `fi`, and `en` otherwise |
| PluginDriver.PlanOf | src/Plugin.php:216-225 | one sync per listed language, in list order, each to its target language |
| PluginDriver.ImportWithoutPolylang | src/Plugin.php:210-214 | without Polylang the import is exactly one `fi` to `fi` sync |
| PluginDriver.ImportRunsAppend | src/Plugin.php:218-225 | running two plans one after the other equals running their concatenation |
| PluginDriver.ImportInListOrder | src/Plugin.php:216-225 | the import of a list is the import of its first part followed by the syncs of the rest |
| PluginDriver.PlanOfAppend | src/Plugin.php:218-225 | the plan of a concatenated list is the concatenation of the plans |
| PluginDriver.ImportOneLanguage | src/Plugin.php:218-225 | a one-language list performs that language's sync to its target |
| PluginDriver.ImportPreservesValid | src/Plugin.php:209-226 | every import keeps post IDs valid |
| PluginDriver.ImportWithoutPolylangIdempotent | src/Plugin.php:210-214 | without Polylang, with every entity of the answer in `fi` and the same acceptance policy throughout, importing the same answer twice keeps the set of posts and the ID counter after the first import |
| PluginDriver.CrossLanguageIndexedBefore | src/Plugin.php:220-224 | after a sync to a different language in which every entity's langcode is the source language, every indexed post existed before and was indexed under the same key |
| PluginDriver.CrossLanguageRunRecreates | src/Plugin.php:220-224 | a sync to a different language in which every entity's langcode is the source language adds no key to its own index, so the next sync with the same answer has every earlier create entry again |
| PluginDriver.AddCptsToPolylang | src/Plugin.php:151-155 | the post type slug maps to itself and every other entry stays unchanged, whatever the settings flag |
| PluginDriver.AddCptsIdempotent | src/Plugin.php:151-155 | applying the filter twice equals applying it once |
| PluginDriver.Plugin.constructor | src/Plugin.php:121-125 | the instance keeps the version and the plugin path |
| PluginDriver.Plugin.DoImport | src/Plugin.php:236-238 | one import call is one sync of the given pair with the API's answer for the source language |
| PluginDriver.Plugin.ImportLanguages | src/Plugin.php:216-225 | the language loop leaves the store as the plan's syncs in order |
| PluginDriver.Plugin.Import | src/Plugin.php:209-226 | `import` leaves the store as ImportResult |
| PluginDriver.Registry.constructor | src/Plugin.php:34 | no instance exists and no filter is registered before `init` |
| PluginDriver.Registry.Init | src/Plugin.php:99-104 | the first call creates the instance with the version and path and registers the Polylang filter once; later calls change nothing |
| PluginDriver.Registry.GetInstance | src/Plugin.php:48-50 | `get_instance()` returns the singleton; being typed `Plugin`, it needs `init` to have run |
| PluginDriver.Registry.CurrentPlugin | src/Plugin.php:111-113 | `plugin()` returns the singleton, null before `init` |

## Left out

- `fetch_entities`: the environment lookups, URL building, Basic
  authentication and `json_decode` are I/O. The model takes the answer as
  an `Option` input. A JSON body that is not an array is not modelled.
- Logging (`WP_CLI::log`, `printf`, `error_log`): side output only.
- `pll_set_post_language` after a failed insert (on the error or 0): it
  touches no post the model has.
- `post_type`, `post_content` and `post_status` of inserted posts are
  constants of the call, not kept in the record.
- Custom fields are a fixed enumeration of the nine fields the normaliser
  writes. Fields other plugins store on the same posts are not modelled.
- A non-text value stored under the external-key field counts as no key.
  How PHP would compare such a value is not modelled.
- A remote `id` is an integer. The PHP string concatenation of other JSON
  types (floats, strings) is not modelled.
- PHP arrays keep insertion order. The model's maps do not:
  - the order in which meta pairs are written is immaterial, since each
    key is written once;
  - the order of Polylang's post-type map is not represented.
- Store.TaggedIdsBelow: `WP_Query`'s default order (newest post date first)
  is modelled as highest ID first. Which post wins a duplicated key follows
  from this.
- SyncIdempotence.RunIsIdempotent: write failures are modelled as
  repeatable. The acceptance policy is one fixed function, so a write
  refused in the first run is refused again in the second. A failure that
  later succeeds (a passing database error, say) is not modelled; then the
  second run does create or delete a post. SecondRunCreatesNothing,
  SecondRunDeletesNothing and ImportWithoutPolylangIdempotent rest on the
  same assumption.
- An entity whose langcode differs from the source language is stored
  under `id-langcode` but looked up as `id-from_lang`. Its update rewrites
  the matched post's key, and the post created for it is not found under
  its lookup key.
  The key-keeping, idempotence and cross-language statements assume every
  entity is in the source language; the run itself handles any langcode.
- SyncIdempotence.RunIsIdempotent: states that the set of posts and the ID
  counter are unchanged, not that every field of every post is unchanged.
  Only UpdateOneTwice states that for one update.
- SyncProperties.RunUpdatesMatched: assumes the remote entities have
  distinct keys. With duplicates the last entry's values win; that case is
  not stated.
- `WP_Query` sets no `post_status`, so it returns published posts only.
  The model's posts have no status: it indexes, updates and deletes draft,
  private and trashed posts that carry a key, where the code would ignore
  them and create the entity again.
- Without Polylang, `pll_set_post_language` is skipped (src/Sync.php:134)
  and `WP_Query` ignores `lang`. The model still tags inserted posts and
  filters the index by tag. Since that import is a single `fi` to `fi`
  sync, this differs only for posts tagged otherwise.
- SyncProperties.CreatesAppliedAt: new post IDs are consecutive
  (`nextId + j`). WordPress's auto-increment is shared with revisions
  (the post type supports them) and with every other post, so real IDs
  only increase.
- An exception or fatal error during one language's sync is not modelled.
  The import loop has no error handling, and the model's syncs always
  complete.
- The API answer for a language is a fixed function of the language during
  one import. Answers that change between calls are not modelled.
- `cli_hooks` and `cli_callback` (WP-CLI argument wiring),
  `src/PlaceOfBusiness.php` (post type and field group registration) and
  `plugin.php` (bootstrap) are not part of this model. Of `hooks`, only the
  Polylang filter registration is kept.
- `plugin_uri` (from `plugin_dir_url` and `basename`) and
  `get_version`/`get_plugin_path`/`get_plugin_uri` are plain accessors of
  WordPress-derived strings.

## Findings

| source | as written | input that shows it | evidently intended | confidence | as-written member | corrected member |
|---|---|---|---|---|---|---|
| src/Sync.php:257 | `handle_phone_numbers` appends the phone rows to a new top-level `phone_repeater` key, not to `meta['phone_repeater']`. `meta` keeps its empty repeater, and no later phase reads the top-level key, so no phone is ever stored. The run as modelled follows the code as written | an entity with id 1, langcode `fi`, title `A` and `field_phone` `040 123`: its meta repeater is empty | the rows go into `meta['phone_repeater']`, the repeater field the post type defines, primary phone first, then the additional phones in order | not executed | Normalizer.NormalizeAsWritten, Normalizer.AsWrittenFields, Normalizer.PhonesLostAsWritten, Normalizer.PhonesLostExample, SyncProperties.RunCreatesNoPhones, SyncProperties.RunUpdateClearsPhones | Normalizer.Normalize, Normalizer.NormalizeFields, Normalizer.PhoneListShape |
