# Project export engine: a Dafny model

This project models the core of a migration tool that exports one project of a
tenant from a document database into a file tree. The export:

- looks the project up in the list of known projects;
- clears the project's export folder and writes the project file;
- expands the project's resource index into nine per-type worklists;
- looks up every queued key in that type's database;
- writes every document that comes back to `<folder>/<type>/<_id>.json`.

The repository has two versions of this pipeline, and both are modelled as
one model with a `Variant` parameter:

- `Current` is `src/project.ts`. Database names carry a `service-` prefix.
  Empty lookups are skipped. Flows have their dependencies resolved and their
  training state reset. The project moves to the target organisation.
  Files go to `data/organisations/<org>/projects/<id>`.
- `Legacy` is `src/index.ts`. Database names are used verbatim, with the same
  two irregular names. The store step is called even for an empty lookup.
  Documents are written unchanged. Files go to `data/<org>/<id>`.

The model is built from these pieces:

- The database is a map from (database, collection) to the documents in their
  natural order. A lookup is an exact match on `parentId` or on `_id`.
- The file system is a `Disk` object whose `files` map (path segments to file
  body) is changed in place by `Write` and `RemoveTree`.
- The environment variables, the database and the flow dependency resolver
  are fields of an `Env` value.
- Each imperative step of the source is a method: the worklist pass, the
  nested fetch loops, the per-document write loop, the folder replacement and
  the export itself. Each method is proved equal to a specification function.
  The properties are lemmas about those functions.
- The specification functions of the fetch are:
  - `Pipeline.Lookup`: one `find(query).toArray()` on the type's database and
    collection (src/project.ts:73-74).
  - `Pipeline.Fetched`: the results of the lookups for a list of keys,
    concatenated in key order.
  - `Pipeline.Plan`: the lookups the nested loops send, worklist by worklist,
    skipping empty worklists (src/project.ts:60-74).

The modules are:

- `Interfaces`: the records.
- `Worklists`: the resource graph expander.
- `DocumentStore`: the database.
- `FileTree`: the output tree.
- `Pipeline` and `PipelineFacts`: fetching and storing.
- `Export`: the orchestrator.

Points where the code behaves in a way its names or comments do not suggest:

- A descriptor of type `settings` is pushed onto the worklist `settingss`,
  which does not exist, so the export throws (src/project.ts:113). By then the
  project file has already been written (src/project.ts:94). The model
  returns `Failed("settings")` with the files in that state.
- A descriptor of type `setting` is pushed onto `settings`, ahead of the
  settings id (src/project.ts:113, 117).
- `trained` is reset only when it is truthy, and `modelId` only when it is
  truthy (src/project.ts:44-45). Falsy values stay as they are.
- `replaceObjectIDs` and `checkFlowDependencies` are imported from
  src/helper/utils.ts (src/project.ts:2), which does not define them.
- `src/index.ts` imports `connectToMongo`, which src/helper/MongoConnection.ts
  does not export. The legacy variant is modelled from its text as written.

## Model

| member | source | states |
|---|---|---|
| `Worklists.Empty` | src/project.ts:95-105 | the nine worklists exist, keyed `flows` … `settings`, and all start empty |
| `Worklists.Fill` | src/project.ts:107-115 | pushing descriptors never creates or drops a worklist: on success the names are those it started with |
| `Worklists.Expand` | src/project.ts:95-117 | a successful expansion has exactly the nine worklist names |
| `Worklists.BuildWorklists` | src/project.ts:95-117 | the imperative forEach/switch/push pass, then the settings push, yields exactly `Expand(p)`, including the error for an unknown type |
| `Worklists.FillOutcome` | src/project.ts:107-115 | the pass fails iff some descriptor's worklist is missing, and the error names the first such descriptor's type; on success each worklist is extended by exactly the keys queued to it, in descriptor order |
| `Worklists.ExpandContents` | src/project.ts:107-117 | expansion succeeds iff every type plus "s" is one of the nine names; each worklist then holds its queued keys in order, and `settings` also gets the settings id appended once at the end |
| `Worklists.UnknownTypeFails` | src/project.ts:113 | a descriptor whose type plus "s" is not a worklist makes expansion fail |
| `Worklists.SettingsTypeFails` | src/project.ts:113 | a descriptor of type `settings` makes expansion fail, because `settingss` is not one of the nine worklists |
| `Worklists.QueuedFlows` | src/project.ts:109-110 | the `flows` worklist is the parentIds of the `flow` descriptors, in order |
| `Worklists.QueuedOthers` | src/project.ts:112-113 | for any type T other than `flow`, worklist T+"s" is the ids of the type-T descriptors, in order |
| `Worklists.SettingsWorklist` | src/project.ts:117 | `settings` is the ids of `setting` descriptors followed by the settings id; with no such descriptor it is exactly `[settingsId]` |
| `Worklists.ExpandKnown` | src/project.ts:107-115 | expansion succeeds iff every descriptor's type plus "s" is one of the nine worklist names |
| `Worklists.ExpandError` | src/project.ts:113 | a failed expansion names the type of the first descriptor whose worklist does not exist |
| `Worklists.ExpandValues` | src/project.ts:107-117 | after a successful expansion each worklist holds its queued keys in descriptor order, and `settings` ends with the settings id |
| `Worklists.ExpandTotal` | src/index.ts:132-142 | the worklists together hold one key per descriptor plus one |
| `DocumentStore.Select` | src/project.ts:74 | the result holds exactly the documents that match the filter, and is no longer than the input |
| `DocumentStore.Find` | src/project.ts:74 | a lookup returns exactly the matching documents of that database's collection, and nothing for a missing collection |
| `Pipeline.DbName` | src/project.ts:65-67 | the database name starts with the variant's prefix, and is prefix + type for every type except the two irregular ones |
| `Pipeline.DbNames` | src/index.ts:97-99 | `databaseconnections` maps to `database-connections` and `nlpconnectors` to `nlp-connectors` (both after the prefix); no two worklists share a database |
| `Pipeline.QueryFor` | src/project.ts:73 | the filter carries the queued key, and it is a parentId filter iff the worklist is `flows` |
| `Pipeline.ResetTraining` | src/project.ts:43-45 | a true `trained` becomes false and a truthy `modelId` becomes null; falsy values and every other field stay as they are; the result is never trained and has no model; a document with neither is a fixed point |
| `Pipeline.Prepare` | src/project.ts:39-46 | in the current version a written flow is untrained and has no model; in the legacy version, and for every other type, the document is written unchanged |
| `Pipeline.ResourcePath` | src/project.ts:47 | a resource file lies directly in `<root>/<type>` and is named `<id>.json` |
| `Pipeline.PathOf` | src/project.ts:47 | a document is written into its type's folder under the `_id` it has after preparation; in the legacy version, and for non-flows, that is its fetched `_id` |
| `Pipeline.BodyOf` | src/project.ts:39-47 | a written file holds the prepared document: unchanged and not normalised in the legacy version, normalised in the current one, a flow untrained and without a model id in the current one, any other type as fetched |
| `Pipeline.StoreAll` | src/project.ts:37-48 | writing the documents of one type never deletes a file |
| `Pipeline.FetchKeys` | src/project.ts:71-81 | the per-key loop never deletes a file |
| `Pipeline.FetchTypes` | src/project.ts:60-83 | the loop over the worklists never deletes a file |
| `Pipeline.StoreResources` | src/project.ts:36-49 | the per-document write loop leaves exactly `StoreAll` of the old files |
| `Pipeline.RetrieveType` | src/project.ts:71-81 | the per-key loop sends exactly `Requests(v, type, keys)` and leaves exactly `FetchKeys` of the old files |
| `Pipeline.Requests` | src/project.ts:71-74 | one lookup is built per queued key |
| `Pipeline.Block` | src/project.ts:61-74 | an empty worklist sends no lookup, and a non-empty one sends one lookup per key |
| `Pipeline.PlanAppend` | src/project.ts:60 | the lookups for the worklist names `a + b` are those for `a` followed by those for `b` |
| `Pipeline.FetchTypesAppend` | src/project.ts:60 | fetching for the names `a + b` is fetching for `a`, then for `b` on the files that result |
| `Pipeline.RetrieveResources` | src/project.ts:56-84 | the loop over the worklist names `types`, which must all be keys of the worklists object, sends exactly `Plan(v, w, types)` and leaves exactly `FetchTypes` over `types` of the old files |
| `PipelineFacts.StoreAllAt` | src/project.ts:47 | after storing, a path holds a file iff it did before or some document maps to it; the file is that of the last document with that path (later writes overwrite); other paths are untouched |
| `PipelineFacts.StoreAllElsewhere` | src/index.ts:88-90 | storing documents of a type writes nothing outside `<root>/<type>` |
| `PipelineFacts.FetchKeysStoresFetched` | src/project.ts:71-81 | the per-key loop writes the concatenated lookup results, in order, as one store step would |
| `PipelineFacts.FetchedFrom` | src/project.ts:73-74 | a fetched document is one of the type's database and collection that matches the query of some queued key, and vice versa |
| `PipelineFacts.DanglingKeyWritesNothing` | src/project.ts:77-80 | a key whose lookup returns nothing changes no file, and the loop goes on as if it had not been queued |
| `PipelineFacts.FetchTypesAt` | src/project.ts:60-83 | inside `<root>/<t>`, the whole fetch leaves what storing the documents fetched for `t` leaves there; other worklists never write into it |
| `PipelineFacts.RetrievedFile` | src/project.ts:60-83 | inside `<root>/<t>`, a path holds a file after the fetch iff it did before or a document fetched for `t` maps to it, and it holds the last such document |
| `PipelineFacts.RetrievedElsewhere` | src/project.ts:47 | the fetch changes nothing outside the project's folder |
| `PipelineFacts.FetchKeepsFlowsUntrained` | src/project.ts:39-46 | in the current version, fetching keeps every document file under `<root>/flows` untrained and without a model id |
| `PipelineFacts.PlanShape` | src/project.ts:60-74 | every lookup is for a non-empty worklist, goes to that worklist's database and collection, and is by parentId iff the worklist is `flows` |
| `PipelineFacts.PlanKeys` | src/index.ts:101-110 | for each worklist named in `types`, the lookups sent carry exactly its keys, in its order; a name not in `types` gets no lookup |
| `PipelineFacts.PlanLength` | src/index.ts:95-113 | one lookup is sent per queued key |
| `PipelineFacts.PlanOrder` | src/project.ts:60 | lookups are sent worklist by worklist, in the literal key order `flows` … `settings` |
| `PipelineFacts.ProjectLookups` | src/project.ts:107-119 | for an expanded project, the lookups number one per descriptor plus one, and each worklist's lookups carry its keys in order |
| `Export.FindProject` | src/project.ts:91 | the result is the first project with the requested id, or none when no project has it |
| `Export.ProjectRoot` | src/project.ts:19 | the current version's folder is `data/organisations/<source org>/projects/<id>` (five segments, the source org third) and the legacy one `data/<source org>/<id>` (three segments, src/index.ts:80); both end in the project id |
| `Export.ProjectRootsDisjoint` | src/project.ts:19 | the folders of two different projects share no path, so exporting one never touches another's files |
| `Export.ProjectPath` | src/project.ts:24 | the project file lies directly in the project folder and is named `<id>.json` (src/index.ts:82 likewise) |
| `Export.Stamp` | src/project.ts:23 | the current version sets `organisation` to the target org and changes nothing else; the legacy version leaves the project alone |
| `Export.StoredProject` | src/project.ts:18-24 | after storeProject the project's folder holds only `<id>.json`, which holds the (re-organised) project; nothing outside the folder changes |
| `Export.ExportSpec` | src/project.ts:90-121 | exporting an id that no project has changes nothing and reports NotFound; otherwise the project list keeps its length |
| `Export.ExportUpdatesProject` | src/project.ts:91-94 | once the project is found the outcome is not NotFound; the found entry becomes the stamped project (in the current version, its organisation set to the target org, src/project.ts:23) and every other entry of the list is unchanged |
| `Export.ExportFailsAfterProjectFile` | src/project.ts:94-113 | when expansion fails, the outcome names the unknown type, no lookup was sent, and the files are those left by storeProject, including the project file |
| `Export.StoreProject` | src/index.ts:77-84 | removing the folder, rewriting the organisation and writing the project file leave exactly `StoredProject` of the old files |
| `Export.ExportProject` | src/project.ts:90-121 | the imperative export produces exactly `ExportSpec`: files, updated project list, outcome and lookups |
| `Export.ExportStaysInFolder` | src/project.ts:19-24 | an export changes nothing outside the project's folder |
| `Export.ExportIgnoresOldFolder` | src/project.ts:19-20 | for an existing project, the export's result does not depend on what the project folder held before |
| `Export.ReExportIdempotent` | src/project.ts:18-24 | exporting the same project twice leaves exactly what one export leaves, so no stale files survive |
| `Export.ExportedResourceFile` | src/project.ts:47 | after a successful export, `<root>/<t>` holds exactly the files of the documents fetched for `t`, each with the last document fetched for its path |
| `Export.ExportedFlowsUntrained` | src/project.ts:43-45 | after a successful export by the current version, no flow file is trained or carries a model id |
| `FileTree.Disk.Write` | src/project.ts:47 | a write sets one path and leaves every other path unchanged |
| `FileTree.Disk.RemoveTree` | src/project.ts:19 | removing a folder deletes exactly the paths inside it |

## Left out

- Connecting to the database is left out (src/helper/MongoConnection.ts, src/index.ts:20-41). The database is a map given as a parameter.
- Fetching the project list (src/index.ts:32-41) is left out. The list is a parameter.
- The interactive project selection, the start banner and the process entry point are left out (src/index.ts:12-18, 43-68, 148-163). They are user interface only.
- Logging (src/helper/logger.ts) is left out, together with the progress messages.
- Folder creation (`createFolderIfNotExist`) is treated as a no-op. A file can be written at any path, so an empty type folder is not represented. This is why the legacy version's missing empty-result check cannot be seen in the files.
- `replaceObjectIDs` and `checkFlowDependencies` are not part of this model. src/helper/utils.ts does not define them.
  - replaceObjectIDs: a file body records the value it was applied to, with a `normalized` flag.
  - checkFlowDependencies: an arbitrary function `resolveDeps` of the environment. Its possible process exit is not modelled.
- The model assumes `replaceObjectIDs` does not modify the object passed to it. The source passes the project object (src/project.ts:24) and each fetched document (src/project.ts:47) to it, and reads the project's `resources`, `settingsId` and `_id` again afterwards (src/project.ts:107, 117, 47). If the call rewrote ids in place, the worklists and the paths would change.
- JSON serialisation is not modelled: a file holds the value that was serialised.
- The exporter's `async`/`await` is modelled as sequential steps.
- `process.env` values are fields of `Env`. An unset variable is whatever string the caller passes.
- Looking up a worklist name that is not a key (`Worklists.Queue`) gives an empty worklist. The source only visits the keys of the worklists object, so this default is never reached; `Pipeline.RetrieveResources` requires every name it visits to be a key.
- Object ids are strings. Path segments are opaque strings: an id containing `/` is not split.
- JavaScript truthiness covers only the values the model's types can hold:
  - `trained` is missing, null or a boolean;
  - `modelId` is missing, null or a string;
  - `newIntents` is missing or an object.
- Descriptor fields the exporter never reads are left out of `Descriptor`: `properties`, timestamps and authors.
- The project-list aliasing is captured as a value. The source rewrites `organisation` on the object held in the caller's list; the model returns the updated list.
- src/documents.ts (the flat copy of one collection) is not part of this model.
