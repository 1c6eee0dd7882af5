# Models router: authorization and bulk merge

A Dafny model of the models router of Open WebUI (`backend/open_webui/routers/models.py`):
the HTTP handlers that list, create, read, toggle, update and delete "model" records
(an AI model configuration: id, owner, access control, `meta` with capabilities and tags),
and the two admin bulk endpoints that toggle or merge many records in one request.

What is modelled, module by module:

- `Json` (`Json.dfy`): `Option`, `Result`, and the JSON `Value` found in request bodies and in a record's `meta`.
- `ModelRecords` (`Records.dfy`): the `Model` record, the `ModelForm` request body, the `Store`
  (storage's table as a map from id to record), the record built by an insert and by an update,
  and `Error`, one constructor per distinct failure response.
- `AccessPolicy` (`AccessPolicy.dfy`): the one rule every single-record handler applies: admin, or owner
  (`user_id` equals the caller's id), or granted the capability by `has_access`; and the creation
  gate: admin, or holding the `workspace.models` permission. `has_access` and `has_permission`
  are parameters of arrow type, so nothing is assumed about them.
- `ModelRouter` (`Router.dfy`): the handlers as pure functions from the store to the store and a
  result. The parameter `persisted` says whether storage's write returned a record.
- `TagLists` (`TagLists.dfy`): the list operations the bulk merge uses: the tag-remove filter
  (`Without`), the capabilities de-duplication (`Dedup`), and the tag-add loop (`AppendNewTags`, proved
  against `TagsAdded`).
- `BulkMerge` (`BulkMerge.dfy`): the per-record merge of a bulk update, in the source's fixed order:
  shallow `meta` update, then the capabilities union, then the tag action. Where the source raises,
  the merge is `Err(MergeFailed)`. Merging twice with the same updates gives the same record as merging once.
- `ModelTable` (`ModelTable.dfy`): the table as a class `Table` with a `models` map field, and the two bulk loops
  as methods. Each turn fetches one record, changes it and writes it back. A failing merge ends the
  request: ids before it stay written, and that id and the ones after it are not touched.
- `Scenarios` (`Scenarios.dfy`): concrete cases of the bulk endpoints' behaviour.

Error cases, as the code has them:
- Creating a taken id is `IdTaken` (models.py:74-79).
- An update refused by the write check is `Prohibited` (models.py:169-177). Refused toggles and deletes are `Unauthorized` (models.py:138-142 and 262-265).
- A `remove` tag action on a record whose `meta` has no `tags` key raises `KeyError` (models.py:233-237).
  The model gives `MergeFailed` there, and the loop keeps the writes it made before that id.

## Model

| member | source | states |
|---|---|---|
| `AccessPolicy.MayAccess` | backend/open_webui/routers/models.py:102-106 | the access rule: admin, or owner of the record, or granted the capability by `has_access` on the record's access control |
| `AccessPolicy.MayCreate` | backend/open_webui/routers/models.py:66-68 | the creation gate: admin, or holding the `workspace.models` permission |
| `AccessPolicy.AdminMayAccessEverything` | backend/open_webui/routers/models.py:102-106 | an admin passes the access check for every capability on every record |
| `AccessPolicy.OwnerMayAccessWhateverTheAcl` | backend/open_webui/routers/models.py:124-128 | the owner passes the access check whatever the record's access control holds |
| `AccessPolicy.StrangerNeedsGrant` | backend/open_webui/routers/models.py:257-261 | for a caller who is neither admin nor owner, access is exactly what `has_access` grants |
| `AccessPolicy.AdminMayCreate` | backend/open_webui/routers/models.py:66-68 | an admin passes the creation gate whatever the permission configuration |
| `ModelRouter.ListModels` | backend/open_webui/routers/models.py:37-42 | an admin lists every record; anyone else lists exactly the records they own, unchanged |
| `ModelRouter.ListBaseModels` | backend/open_webui/routers/models.py:50-52 | admin only; lists exactly the records storage flags as base models |
| `ModelRouter.Create` | backend/open_webui/routers/models.py:60-89 | the creation gate is checked before the id lookup; a taken id fails with `IdTaken` and leaves the store as it was; success inserts one record under the form's id, owned by the caller, with every other field taken from the form; a failed insert is `CreateFailed`; every failure leaves the store unchanged; records stay keyed by their id |
| `ModelRouter.Get` | backend/open_webui/routers/models.py:98-112 | absent id gives `NotFound` and nothing else does; an existing record is returned exactly when the read check passes; a denied read gives no record and no error; the store has no way to change |
| `ModelRouter.Toggle` | backend/open_webui/routers/models.py:120-147 | absent id gives `NotFound`; a failed write check gives `Unauthorized`; the store changes only when the write check passes; success flips `isActive` of that record only; a failed write is `UpdateFailed` |
| `ModelRouter.Update` | backend/open_webui/routers/models.py:155-180 | absent id gives `NotFound`; a failed write check gives `Prohibited`; the store changes only when the write check passes; success keeps id and owner and takes base model id, name, params, meta, access control and activity from the form; a storage no-op is a successful call with no record |
| `ModelRouter.Delete` | backend/open_webui/routers/models.py:248-268 | absent id gives `NotFound`; a failed write check gives `Unauthorized`; the store changes only when the write check passes; `true` exactly when the record was removed |
| `ModelRouter.DeleteAll` | backend/open_webui/routers/models.py:271-274 | admin only; returns storage's success flag; success leaves an empty store, failure the old one |
| `ModelRouter.MutationGuard` | backend/open_webui/routers/models.py:122-265 | on an existing record, a caller who is neither admin, owner nor write-granted gets toggle (122-142), update (161-177) and delete (250-265) refused with the store unchanged |
| `ModelRouter.CreateThenGet` | backend/open_webui/routers/models.py:74-84 | after a successful create, the creator reads the new record back |
| `ModelRouter.CreateTwice` | backend/open_webui/routers/models.py:74-79 | a second create with the same id fails with `IdTaken` and leaves the first record in place |
| `ModelRouter.ToggleTwice` | backend/open_webui/routers/models.py:129 | two successful toggles restore the store |
| `ModelRouter.UpdateThenGet` | backend/open_webui/routers/models.py:179-180 | an admin or the owner reads back what a successful update wrote |
| `ModelRouter.DeleteThenGet` | backend/open_webui/routers/models.py:267-268 | after a successful delete the id is `NotFound`, and a create of that id by a permitted caller succeeds |
| `ModelRouter.DeleteAllThenList` | backend/open_webui/routers/models.py:271-274 | after a successful delete-all, an admin's listing is empty |
| `TagLists.Without` | backend/open_webui/routers/models.py:233-237 | the tag-remove filter never makes the list longer |
| `TagLists.WithoutMembers` | backend/open_webui/routers/models.py:233-237 | the tag-remove filter keeps exactly the elements that are not in the removal list |
| `TagLists.WithoutAppend` | backend/open_webui/routers/models.py:233-237 | filtering distributes over concatenation, so survivors keep their relative order |
| `TagLists.WithoutNothing` | backend/open_webui/routers/models.py:233-237 | filtering a list none of whose elements are removed returns it unchanged |
| `TagLists.WithoutIdempotent` | backend/open_webui/routers/models.py:233-237 | removing the same tags twice is removing them once |
| `TagLists.WithoutKeepsNoDup` | backend/open_webui/routers/models.py:233-237 | filtering a list without duplicates gives a list without duplicates |
| `TagLists.Dedup` | backend/open_webui/routers/models.py:222 | the de-duplicated list is never longer than its input |
| `TagLists.DedupMembers` | backend/open_webui/routers/models.py:222 | the de-duplicated list has exactly the input's elements |
| `TagLists.DedupNoDup` | backend/open_webui/routers/models.py:222 | the de-duplicated list holds no element twice |
| `TagLists.DedupOfNoDup` | backend/open_webui/routers/models.py:222 | de-duplicating a list without duplicates changes nothing |
| `TagLists.DedupAppend` | backend/open_webui/routers/models.py:222 | de-duplicating `a + b` is `a`'s de-duplication followed by `b`'s new elements in first-appearance order |
| `TagLists.DedupAbsorbs` | backend/open_webui/routers/models.py:218-222 | appending elements a duplicate-free list already holds, then de-duplicating, gives that list back |
| `TagLists.TagsAdded` | backend/open_webui/routers/models.py:226-231 | the old tags followed by the incoming tags not already present, each once, in first-appearance order |
| `TagLists.TagsAddedShape` | backend/open_webui/routers/models.py:226-231 | tag add keeps the old list as a prefix and appends exactly the new tags missing from it, each once |
| `TagLists.TagsAddedNoDup` | backend/open_webui/routers/models.py:226-231 | if the old tag list had no duplicates, neither does the result |
| `TagLists.TagsAddedIdempotent` | backend/open_webui/routers/models.py:226-231 | adding the same tags a second time changes nothing |
| `TagLists.TagsAddedStep` | backend/open_webui/routers/models.py:229-231 | one turn of the append-if-absent loop extends the result by that tag exactly when it is missing |
| `TagLists.AppendNewTags` | backend/open_webui/routers/models.py:229-231 | the loop over the incoming tags returns the old list followed by the missing new tags in first-appearance order |
| `BulkMerge.Pair` | backend/open_webui/routers/models.py:216 | an element of a key/value sequence unpacks into a pair: a two-element list with a string key gives that key and value; only lists and two-character strings give pairs |
| `BulkMerge.PairFields` | backend/open_webui/routers/models.py:216 | the fields a pair sequence writes, pair after pair, so later pairs win; one non-pair element rejects the sequence |
| `BulkMerge.PairFieldsDefined` | backend/open_webui/routers/models.py:216 | a key/value sequence is accepted exactly when every element is a pair |
| `BulkMerge.PairFieldsKeys` | backend/open_webui/routers/models.py:216 | every key a key/value sequence writes is the key of one of its pairs |
| `BulkMerge.PairFieldsLastWins` | backend/open_webui/routers/models.py:216 | a key takes the value of the last pair that names it |
| `BulkMerge.UpdateFields` | backend/open_webui/routers/models.py:216 | an object writes its fields; an empty list or an empty string writes nothing; a list is accepted exactly when every element is a pair; `null`, booleans, numbers and non-empty strings fail |
| `BulkMerge.MergeMeta` | backend/open_webui/routers/models.py:215-216 | without `meta` in the updates nothing changes; with it, the step fails exactly when `UpdateFields` rejects the value, and otherwise every written key maps to its new value and every other key keeps its old value |
| `BulkMerge.ListOrEmpty` | backend/open_webui/routers/models.py:219-220 | the list a step starts from: the empty list when the key is absent, none when its value is not a list |
| `BulkMerge.CapabilitiesRequested` | backend/open_webui/routers/models.py:218 | the capabilities step runs only when the updates carry both `capabilities` and `meta` |
| `BulkMerge.TagsRequested` | backend/open_webui/routers/models.py:224-225 | the tag step runs only when the updates carry both `tags` and `tag_action` |
| `BulkMerge.MergeCapabilities` | backend/open_webui/routers/models.py:218-222 | runs only when both `capabilities` and `meta` are in the updates; then it fails exactly on a non-list or an unhashable element; on success the list has no duplicates and holds exactly the old capabilities (or none) and the new ones; no other key changes |
| `BulkMerge.MergeTags` | backend/open_webui/routers/models.py:224-237 | runs only when both `tags` and `tag_action` are present; other actions change nothing; add fails exactly on non-lists, keeps the old list (or `[]`) as prefix and appends the missing new tags; remove fails exactly when `tags` is missing or not a list, and keeps exactly the tags not removed; no other key changes |
| `BulkMerge.Merge` | backend/open_webui/routers/models.py:213-238 | only `meta` can change; with neither `meta` nor a tag action the record is written back unchanged |
| `BulkMerge.TagsIdempotent` | backend/open_webui/routers/models.py:224-237 | applying the tag step to its own result changes nothing |
| `BulkMerge.CapabilitiesIdempotent` | backend/open_webui/routers/models.py:218-222 | applying the capabilities step to its own result changes nothing |
| `BulkMerge.MergeIdempotent` | backend/open_webui/routers/models.py:213-238 | merging an already merged record with the same updates changes nothing, so an id named twice is merged as if named once |
| `BulkMerge.ApplyTags` | backend/open_webui/routers/models.py:225-237 | the in-place tag step, with its append-if-absent loop, computes `MergeTags` |
| `BulkMerge.MergeRecord` | backend/open_webui/routers/models.py:214-237 | the step-by-step in-place merge computes `Merge` |
| `ModelTable.CountPresent` | backend/open_webui/routers/models.py:192-198 | the number of ids, counted with repetition, that name a record never exceeds the number of ids |
| `ModelTable.CountPresentAppend` | backend/open_webui/routers/models.py:193-198 | the count over two lists of ids joined is the sum of the two counts |
| `ModelTable.CountPresentAll` | backend/open_webui/routers/models.py:193-198 | the count equals the number of ids exactly when every id names a record |
| `ModelTable.CountPresentNone` | backend/open_webui/routers/models.py:193-198 | the count is zero exactly when no id names a record |
| `ModelTable.FirstFailure` | backend/open_webui/routers/models.py:212-239 | the position of the first present id whose merge raises; every earlier id merges cleanly |
| `ModelTable.MergedStore` | backend/open_webui/routers/models.py:212-239 | the table after merging a list of ids has the same keys as before |
| `ModelTable.MergedStoreRecord` | backend/open_webui/routers/models.py:213-216 | the record the loop fetches for an already-handled id merges to the same result as the original record |
| `ModelTable.MergedStoreStep` | backend/open_webui/routers/models.py:213-239 | handling one more id changes that record to its merge, or nothing when the id is absent |
| `ModelTable.Toggled` | backend/open_webui/routers/models.py:193-197 | switching the records a list of ids names keeps the table's keys |
| `ModelTable.ToggledRecords` | backend/open_webui/routers/models.py:193-197 | after switching, every record an id names has `isActive == active` and every other record is as it was |
| `ModelTable.ToggledWellKeyed` | backend/open_webui/routers/models.py:193-197 | switching keeps every record stored under its own id |
| `ModelTable.Table.BulkToggle` | backend/open_webui/routers/models.py:188-199 | every named record ends with `isActive == active`, every other record is unchanged, no record appears or disappears, missing ids are skipped, and the count is the number of ids with repetition that exist |
| `ModelTable.Table.UpdateOne` | backend/open_webui/routers/models.py:213-239 | one loop turn: reports whether the record merged and was present; on success the table is the merge of one more id, on failure unchanged |
| `ModelTable.Table.BulkUpdate` | backend/open_webui/routers/models.py:207-240 | the table becomes every record named before the first failing merge merged once, every other record unchanged; with no failure the result is the count of existing ids with repetition, otherwise `MergeFailed` |
| `Scenarios.CapabilitiesUnion` | backend/open_webui/routers/models.py:218-222 | capabilities `["x"]` merged with `["x","y"]` hold exactly `"x"` and `"y"`, once each |
| `Scenarios.MetaPairsExample` | backend/open_webui/routers/models.py:216 | a `meta` update given as two pairs for the same key writes that key with the later value |
| `Scenarios.MetaEmptyListExample` | backend/open_webui/routers/models.py:215-222 | an empty `meta` list writes nothing and the capabilities step still runs |
| `Scenarios.TagsAddExample` | backend/open_webui/routers/models.py:224-231 | a bulk merge adding `["a","b"]` to a record tagged `["a"]` leaves it tagged `["a","b"]` |
| `Scenarios.TagsAddDefaultExample` | backend/open_webui/routers/models.py:226-231 | adding `["a"]` to a record without a `tags` key starts from the empty list and gives `["a"]` |
| `Scenarios.TagsRemoveExample` | backend/open_webui/routers/models.py:224-237 | a bulk merge removing `["a"]` from a record tagged `["a","b"]` leaves it tagged `["b"]` |
| `Scenarios.TagsRemoveMissingExample` | backend/open_webui/routers/models.py:232-237 | a remove on a record without a `tags` key fails, even with an empty tag list sent |
| `Scenarios.TagsWithoutAction` | backend/open_webui/routers/models.py:224-225 | tags sent without `tag_action` leave the record as it was |
| `Scenarios.BulkToggleSkipsMissing` | backend/open_webui/routers/models.py:192-199 | toggling `[X, missing, Y]` over a table holding X and Y counts two |

## Left out

- The web framework: the router object, decorators, request parsing and response serialization. The f-string success messages are left out too: the bulk methods return the count instead.
- HTTP status codes and message strings. Each distinct failure is one constructor of `Error`.
- Authentication (`get_verified_user`, `get_admin_user`): the caller is trusted as given. The admin-only endpoints (`ListBaseModels`, `DeleteAll`, `BulkToggle`, `BulkUpdate`) take `IsAdmin(caller)` as a precondition.
- The bodies of `has_access` and `has_permission` (`open_webui.utils.access_control`): they are not part of this model. They appear as arbitrary total functions, and the permission configuration as an opaque JSON value.
- The storage layer (`open_webui.models.models`) is not part of this model. Its table is a map from id to record.
  - Storage failures of insert, single toggle, update and delete are the `persisted` parameter.
  - Which records count as base models is the `isBase` parameter.
  - Timestamps are left out.
  - Listing is taken to read the table: `Models.get_models()` returns every record, and `Models.get_models_by_user_id(user.id)` returns exactly the caller's own records (models.py:40-42).
  - The update is taken to replace name, base model id, params, meta, access control and `is_active`, keeping id and owner.
- `ModelTable.Table.BulkToggle`: every write-back is taken to succeed. The source ignores the result of `Models.update_model` and counts the id either way.
- `ModelTable.Table.BulkUpdate`: every write-back is taken to succeed, as for `BulkToggle`.
- Concurrency between requests and last-write-wins races: each call runs alone.
- Request validation: a bulk `updates` object is modelled as a map from string to JSON value. The record's `meta` is modelled as such a map as well.
- Floating-point numbers, and Python's equalities between `True`, `1` and `1.0`: JSON numbers are integers and `Value` equality is structural.
- `BulkMerge.MergeCapabilities`: Python's `extend` accepts any iterable (a string adds its characters, an object its keys). The model accepts only a list and reports `MergeFailed` for anything else.
- `BulkMerge.MergeCapabilities`: `list(set(...))` returns the elements in hash order. The model keeps first occurrences; its contract promises only the element set and the absence of duplicates.
- `BulkMerge.MergeTags`: the source raises at the first `in` test, iteration or `append` that a non-list `tags` value cannot support. A `null`, a number or a boolean is not iterable and supports no `in`. A string supports `in` only for string tags, an object only for hashable ones, and neither has `append`. With an empty tag list sent, an add never raises. A remove still iterates the stored tags, so it raises when `meta` has no `tags` or its value is not iterable. The model reports `MergeFailed` whenever either `tags` value is not a list.
- `BulkMerge.Pair`: two kinds of element that `dict.update` unpacks are not pairs here. One is an object with exactly two keys, which unpacks into its keys in an order a map does not keep. The other is a two-element list whose key is a number, a boolean or `null`, which a `meta` with string keys cannot hold.
- `BulkMerge.UpdateFields`: a list holding either kind of element from the `BulkMerge.Pair` line is rejected, although `dict.update` accepts it.
- `BulkMerge.MergeMeta`: for the same values the step reports `MergeFailed`, where the source merges them.
- Aliasing from the shallow `meta.update`: when `updates["meta"]` itself carries `capabilities` or `tags`, the source's `extend` and `append` also grow those request lists, and later records in the same loop start from the grown lists. The model works on values, so it has no such sharing. Across records this changes neither the capability set nor the resulting tag list.
- An uncaught exception in the bulk update loop becomes a server error. The model returns `Err(MergeFailed)`, with the writes made before it kept.
