# sqlx offline query data and `cargo sqlx prepare` planning, in Dafny

This project models the part of sqlx that supports compiling queries without a live database.

- **Package graph** (`sqlx-cli/src/metadata.rs`). The model builds `Metadata` from the output of `cargo metadata`:
  - a map from package id to package (name and target source paths);
  - the workspace members;
  - a reverse-dependency graph ("who depends on me").

  It also computes every direct and transitive dependent of a package.
- **Recompile planner** (`sqlx-cli/src/prepare.rs`). This is `minimal_project_recompile_action`. It finds every package that depends on `sqlx-macros`, directly or transitively. For those inside the workspace, it lists the source files to touch. For those outside, it lists the package names to `cargo clean -p`. The test fixture of the source is modelled too.
- **Query descriptors** (`sqlx-macros/src/query/data/mod.rs`, `offline.rs`).
  - `QueryData::from_describe` and `hash_string` (hex of SHA-256).
  - `save_in`: write to a per-call-site temporary file, then rename it to `query-<hash>.json`. Modelled on a file system whose operations may fail.
  - `load_query_from_data_file`: an in-process cache of path to shared handle. On a cache hit it checks the query text. On a miss it reads the file, parses it, checks the text (hash collision), dispatches on the backend name (enabled features only), decodes the payload and caches the result.
  - The `DynQueryData` accessors and the `to_<db>` conversions.
- **Connection-error classification** (`sqlx-cli/src/lib.rs`). This is the closure in `retry_connect_errors` that marks refused, reset and aborted I/O errors as transient and everything else as permanent.

Modules:

| module | what it holds |
|---|---|
| `Wrappers` | `Option` and `Result` |
| `Reachability` | package ids, graphs, reachability by paths of one or more edges, and the dependents closure |
| `SortedSets` | `Ascending`: the ascending enumeration of a finite set of ids, which is the iteration order of a `BTreeSet` |
| `PackageMetadata` | `Package`, `Metadata`, `FromStr`, `AllDependentsOf` |
| `Prepare` | `MinimalProjectRecompileAction`, its specification `Plan`, and the fixture |
| `Database` | the backends and their `NAME`s |
| `Hashing` | hex encoding and decoding, and `HashString` over a digest function |
| `Data` | `QueryData` and `FromDescribe` |
| `Offline` | cache paths, the file system, `SaveIn`, `LoadFromFile`, and the `OfflineDataCache` class |
| `ConnectRetry` | `Classify` and a single `Attempt` |

## Model

| member | source | states |
|---|---|---|
| PackageMetadata.PackageFrom | sqlx-cli/src/metadata.rs:34-45 | The package keeps the metadata package's name. It has exactly one source path per target, in target order. |
| PackageMetadata.PackageOf | sqlx-cli/src/metadata.rs:78-80 | `package(id)` is present exactly when `id` has a packages entry, and then it is that entry. |
| PackageMetadata.IndexPackagesKeys | sqlx-cli/src/metadata.rs:133-137 | The packages map has a key for exactly the ids of the parsed packages. |
| PackageMetadata.IndexPackagesKeepsLast | sqlx-cli/src/metadata.rs:133-137 | For a repeated id, the map holds the package built from the last occurrence. |
| PackageMetadata.AddNodeSpec | sqlx-cli/src/metadata.rs:142-150 | Processing one resolve node adds an entry for each listed dependency. It adds the node as a dependent of exactly those. Earlier entries are kept. |
| PackageMetadata.ReverseDepsOfSpec | sqlx-cli/src/metadata.rs:139-151 | `reverse_deps` has an entry for `d` iff some node lists `d`. It holds `n` in `reverse_deps[d]` iff node `n` lists a dependency on `d`. |
| PackageMetadata.FromStr | sqlx-cli/src/metadata.rs:120-163 | A parse failure gives an error. A missing resolve section gives an error, not a graph. Otherwise the result's packages and reverse-dependency graph have the properties above, and the other fields are copied. |
| PackageMetadata.AllDependentsOfHelper | sqlx-cli/src/metadata.rs:105-117 | The visited set only grows and stays inside the graph's targets. Every newly added id is reachable from `id`. The result is closed under successors for `id` and for each new id. Recursion happens only on newly inserted ids, which bounds it even on cycles. |
| PackageMetadata.AllDependentsOf | sqlx-cli/src/metadata.rs:98-103 | The result holds exactly the ids reachable from `id` by one or more reverse-dependency edges. |
| Reachability.DependentsSpec | sqlx-cli/src/metadata.rs:98-117 | The dependents of `id` are exactly the ids reachable from it. |
| Reachability.ClosedContainsReachable | sqlx-cli/src/metadata.rs:110-115 | A set holding `id`'s successors and closed under successors holds everything reachable from `id`. This is why the traversal's result is complete. |
| Reachability.NoEntryNoDependents | sqlx-cli/src/metadata.rs:110 | An id with no `reverse_deps` entry has no dependents. |
| Reachability.DependentsTransitive | sqlx-cli/src/metadata.rs:99-117 | If `x` is a dependent of `id`, every dependent of `x` is a dependent of `id`. |
| Reachability.SelfDependentIffCycle | sqlx-cli/src/metadata.rs:105-117 | `id` is its own dependent exactly when it has a self-edge or one of its dependents reaches it back (a cycle). |
| SortedSets.AscendingSpec | sqlx-cli/src/prepare.rs:208 | Iterating a `BTreeSet` lists its elements in strictly increasing order, each exactly once. |
| Prepare.MacrosIds | sqlx-cli/src/prepare.rs:194-200 | The marker ids are exactly the ids whose package entry is named `sqlx-macros`, matched by name only. |
| Prepare.MacrosDependentsIsUnion | sqlx-cli/src/prepare.rs:193-203 | The dependent set is the union of the dependents of every id whose package is named `sqlx-macros`, not just one such id. |
| Prepare.PlanWithoutMacros | sqlx-cli/src/prepare.rs:193-203 | With no package named `sqlx-macros`, nothing is cleaned and nothing is touched. |
| Prepare.WorkspaceSplit | sqlx-cli/src/prepare.rs:206-214 | Each dependent lands in exactly one of the two lists, by membership in `workspace_members`. Together the lists have as many entries as there are dependents. |
| Prepare.WorkspaceSplitKeepsOrder | sqlx-cli/src/prepare.rs:206-214 | Both lists keep the ascending id order of the dependents. |
| Prepare.FilesToTouchAppend | sqlx-cli/src/prepare.rs:218-226 | The touched files of a concatenation of id lists are the concatenation of their touched files, so paths come in id order. |
| Prepare.FilesToTouchSpec | sqlx-cli/src/prepare.rs:218-226 | A path is touched exactly when it is a source path of a listed in-workspace id that has a package entry. Ids without an entry are skipped. |
| Prepare.PackagesToCleanSpec | sqlx-cli/src/prepare.rs:227-234 | The cleaned names are exactly the names of the listed out-of-workspace ids that have a package entry. There is exactly one name for each listed position whose id has an entry, whether or not other ids lack one, so never more names than ids. |
| Prepare.PackagesToCleanCount | sqlx-cli/src/prepare.rs:227-234 | The number of cleaned names equals the number of listed positions whose id has a package entry. |
| Prepare.PlanTouchPaths | sqlx-cli/src/prepare.rs:205-226 | The plan touches exactly the source paths of the in-workspace `sqlx-macros` dependents that have a package entry. |
| Prepare.PlanCleanPackages | sqlx-cli/src/prepare.rs:205-234 | The plan cleans exactly the names of the out-of-workspace `sqlx-macros` dependents that have a package entry. |
| Prepare.MinimalProjectRecompileAction | sqlx-cli/src/prepare.rs:191-240 | It always returns `Ok`. The value is the plan: names to clean and files to touch, computed from the ascending `sqlx-macros` dependents split by workspace membership. |
| Prepare.FixtureMacrosIds | sqlx-cli/src/prepare.rs:194-200 | In the fixture, only the package named `sqlx-macros` is a marker. |
| Prepare.FixtureMacrosDependents | sqlx-cli/src/prepare.rs:249-256 | In the fixture graph, the packages depending on `sqlx-macros` are `b_in_workspace_lib`, `c_in_workspace_bin` and `sqlx`. |
| Prepare.FixturePlan | sqlx-cli/src/prepare.rs:256-266 | In the fixture, the plan cleans `["sqlx"]` and touches `b_in_workspace_lib`'s `lib.rs` followed by `c_in_workspace_bin`'s `main.rs`. |
| Prepare.MinimalProjectRecompileActionWorks | sqlx-cli/src/prepare.rs:249-269 | The planner, applied to the fixture, returns exactly the action the test expects. |
| Database.NameIdentifiesBackend | sqlx-macros/src/query/data/offline.rs:238-240 | The only backend whose `NAME` equals a given backend's `NAME` is that backend. |
| Database.NameInjective | sqlx-macros/src/query/data/offline.rs:203-216 | Distinct backends have distinct `NAME`s, so dispatching on the stored name selects at most one backend. |
| Hashing.HexRoundTrip | sqlx-macros/src/query/data/offline.rs:269 | Hex-decoding a hex encoding gives back the bytes. |
| Hashing.HexEncode | sqlx-macros/src/query/data/offline.rs:269 | `hex::encode` gives two characters per byte, all lowercase hex digits. |
| Hashing.HashString | sqlx-macros/src/query/data/offline.rs:264-270 | The hash is exactly 64 lowercase hex characters and decodes to the SHA-256 digest of the text. |
| Hashing.HashStringIdentifiesDigest | sqlx-macros/src/query/data/offline.rs:264-270 | Two texts have the same hash string exactly when they have the same digest. |
| Data.FromDescribe | sqlx-macros/src/query/data/mod.rs:33-42 | The descriptor stores the query text verbatim and the payload unchanged. Its hash is `hash_string(query)`. |
| Data.DbName | sqlx-macros/src/query/data/offline.rs:49-62 | `db_name()`, and the serialised `SerializeDbName` marker, is the backend's `NAME`. It names that backend and no other. |
| Data.SameHashIffSameDigest | sqlx-macros/src/query/data/mod.rs:38 | Descriptors of the same text have equal hashes. Descriptors have equal hashes exactly when their texts' digests are equal. |
| Offline.FinalPathIdentifiesHash | sqlx-macros/src/query/data/offline.rs:109 | Within one directory, `query-<hash>.json` names coincide exactly when the hashes do. |
| Offline.SharedFileIffSameDigest | sqlx-macros/src/query/data/offline.rs:109 | Two descriptors built by `from_describe` are saved to the same final file exactly when their texts have the same digest. |
| Offline.Renamed | sqlx-macros/src/query/data/offline.rs:117-118 | After a rename, the target holds the source's contents and the source is gone (unless the two are one path). No other path changes. |
| Offline.ResaveIsIdempotent | sqlx-macros/src/query/data/offline.rs:93-118 | Saving the same contents through the same temporary file (the same call site) twice leaves the same files as saving once. |
| Offline.OtherCallSiteResaveIsHarmless | sqlx-macros/src/query/data/offline.rs:107-118 | When another invocation, with its own temporary file, saves the same contents to the same `query-<hash>.json` afterwards, the files end up exactly as the first save left them. |
| Offline.FileSystem.CreateDirAll | sqlx-macros/src/query/data/offline.rs:85-91 | On success the directory is recorded as created. On failure no directory is added. No file ever changes. |
| Offline.FileSystem.Create | sqlx-macros/src/query/data/offline.rs:99-102 | On success the file exists and is empty. On failure nothing changes. |
| Offline.FileSystem.WriteAndFlush | sqlx-macros/src/query/data/offline.rs:103-105 | On success the file holds exactly the serialised contents. On failure it holds a prefix of them, and no other file changes. |
| Offline.FileSystem.Rename | sqlx-macros/src/query/data/offline.rs:117-118 | On success the source existed and the files are `Renamed`. On failure nothing changes. |
| Offline.SaveIn | sqlx-macros/src/query/data/offline.rs:77-121 | The temporary file is `target_dir/sqlx/query-<hash of the span>.json` and the final file is `dir/query-<hash>.json`. On success the final path holds the serialised descriptor and the temporary file is gone. On failure the final path is untouched, provided the temporary and final paths differ. No other path is ever touched. On success both directories have been created. |
| Offline.KindOfName | sqlx-macros/src/query/data/offline.rs:203-227 | The chosen backend is enabled and has the stored name. If there is none, no enabled backend has that name. |
| Offline.LoadFromFile | sqlx-macros/src/query/data/offline.rs:195-227 | An unreadable path is an error naming the path. A parsed file whose text differs is a hash collision. A loaded descriptor has the requested text, an enabled backend whose name and payload come from the file, and the empty hash. |
| Offline.LoadAfterSave | sqlx-macros/src/query/data/offline.rs:64-71 | Loading the file `save_in` wrote gives back the descriptor with its hash reset to the empty string. If the backend's feature is disabled, the result is an unknown-database error naming it. |
| Offline.ToBackend | sqlx-macros/src/query/data/offline.rs:129-163 | `to_<db>` is allowed only when the stored name is `DB::NAME`. It then returns the descriptor itself, which belongs to that backend. |
| Offline.OfflineDataCache.constructor | sqlx-macros/src/query/data/offline.rs:30-31 | The cache starts empty. |
| Offline.OfflineDataCache.LoadQueryFromDataFile | sqlx-macros/src/query/data/offline.rs:166-232 | A hit with the same text returns the very handle cached before, without reading the file. A hit with another text is a hash collision. A miss returns what `LoadFromFile` gives. Only a successful load inserts a fresh handle at the path. Every error leaves the cache unchanged, and every cached descriptor has an enabled backend and the empty hash. |
| ConnectRetry.Classify | sqlx-cli/src/lib.rs:143-157 | The error is wrapped unchanged. It is transient exactly when it is an I/O error of kind refused, reset or aborted. Any other I/O kind, and any non-I/O error, is permanent. |
| ConnectRetry.Attempt | sqlx-cli/src/lib.rs:142-158 | Each attempt connects to `opts.database_url`. A success passes through. A failure is classified as above. |
| ConnectRetry.RetryPolicy | sqlx-cli/src/lib.rs:138-141 | The retry budget is bounded and equals `connect_timeout` seconds. |

## Left out

- Subprocesses and the CLI are not modelled: `Metadata::from_current_directory`, `manifest_dir`, `prepare::run`, `check`, `run_prepare_step` and `setup_minimal_project_recompile` (which runs `filetime` and `cargo clean -p`). The same holds for the `run` command dispatch in `lib.rs` and the modules it calls.
- JSON parsing is a parameter: `cargo metadata` output (`parse: string -> Option<CargoMetadata>`) and the serde functions in `Offline.Json`. `Offline.SerdeRoundTrips` states the one property of serde that `LoadAfterSave` relies on.
- SHA-256 is a parameter: any function from texts to 32-byte digests. The UTF-8 encoding of the text is folded into that function.
- Package ids are natural numbers, whose order stands for the order of cargo's id strings. Paths are plain strings, and `Path::join` is modelled for relative components only.
- The `Mutex` and the `Lazy` global around the cache are not modelled, and neither is concurrency. The model is a single-threaded cache object. The atomicity of `rename` with respect to concurrent readers is not modelled. Only its all-or-nothing effect is.
- Directories are a set of paths created so far: `create_dir_all` adds its argument only, not its ancestors, and creating a file does not require its parent directory to exist.
- The text of error messages is not modelled. The underlying I/O error values are not carried either.
- The `procmacr2_semver_exempt` block that calls `proc_macro::tracked_path` is not modelled. It is compiler plumbing.
- `QueryData::from_db` is not modelled. It is an asynchronous database call.
- The `backoff` crate's exponential retry loop, its timing and the async futures are left out. Only one attempt, its classification and the configured budget are modelled.
- The `Describe<DB>` payload is opaque.
- The backends' `NAME` constants come from `sqlx-macros/src/database`, which is not part of this model. The values used are those of the sqlx sources.
- The `tests/assets/sample_metadata.json` fixture is not part of this model. `Prepare.FixtureMetadata` is an assumed stand-in. Four of its package names come from the source: `sqlx`, `b_in_workspace_lib` and `c_in_workspace_bin` from the test's expected action, and `sqlx-macros` from the planner's name filter. The other two packages, `a_in_workspace_lib` and `sqlx-core`, are assumed. So are the workspace members, all registry source paths and `a_in_workspace_lib`'s path. The dependency graph is also assumed: `c_in_workspace_bin` depends on `b_in_workspace_lib`, which depends on `sqlx`, which depends on `sqlx-macros`, with `sqlx-core` below both. It was chosen to match the test's expected output; the real file's edges are not known to the model. Only the two touched paths come from the test.
- `Prepare.MinimalProjectRecompileAction` returns `Result` as the source does, but no error path exists, and its contract says so.
- `Offline.LoadAfterSave`: `RawQueryData.hash` is `#[serde(skip)]`, so a loaded descriptor's hash is the empty string and a save-then-load returns the descriptor with that field reset.
- `Offline.ToBackend`: a mismatched `to_<db>` panics in the source; the model makes the match a precondition.
- Write errors, flush errors and rename errors carry no path, as in the code.
