/**
 * The offline query-data cache (sqlx-macros/src/query/data/offline.rs).
 *
 * Write side: `save_in` serialises a descriptor to a temporary file named after the
 * macro call site, then renames it to `query-<hash>.json` in the cache directory.
 * Read side: `load_query_from_data_file` looks the path up in an in-process cache and
 * otherwise reads, parses and validates the file (query text, backend name) before
 * caching it. The file system is a map from paths to contents whose operations may fail;
 * JSON (de)serialisation is a parameter.
 */
module Offline {
  import opened Wrappers
  import opened Database
  import opened Hashing
  import opened Data

  /** `RawQueryData`: a cache file as first parsed, with the payload still as JSON text. */
  datatype RawQueryData = RawQueryData(dbName: string, query: string, describe: string)

  /** The serde_json functions involved, opaque. */
  datatype Json = Json(
    toStringPretty: QueryData -> string,                         // serde_json::to_writer_pretty
    rawFromStr: string -> Option<RawQueryData>,                  // serde_json::from_str::<RawQueryData>
    describeFromStr: (DatabaseKind, string) -> Option<Describe>) // serde_json::from_str::<Describe<DB>>

  /** What serialising then deserialising a descriptor yields, as serde's derives promise. */
  ghost predicate SerdeRoundTrips(json: Json, d: QueryData)
  {
    match json.rawFromStr(json.toStringPretty(d))
    case None => false
    case Some(raw) =>
      raw.dbName == DbName(d) && raw.query == d.query && json.describeFromStr(d.db, raw.describe) == Some(d.describe)
  }

  /** `hash` is `#[serde(skip)]` in `RawQueryData`, so a loaded descriptor gets `String::default()`. */
  const SkippedHash: string := ""

  // ---------------------------------------------------------------------------------
  // Paths

  /** `Path::join` with a relative component. */
  function Join(dir: Path, name: string): Path
  {
    if dir == "" then name
    else if dir[|dir| - 1] == '/' then dir + name
    else dir + "/" + name
  }

  /** `query-<hash>.json`. */
  function QueryFileName(hash: string): string
  {
    "query-" + hash + ".json"
  }

  /** The temporary file for a call site: `<target_dir>/sqlx/query-<hash of the span>.json`. */
  function TempPath(targetDir: Path, sha: Sha256, inputSpan: string): Path
  {
    Join(Join(targetDir, "sqlx"), QueryFileName(HashString(sha, inputSpan)))
  }

  /** The final file for a descriptor: `<dir>/query-<hash>.json`. */
  function FinalPath(dir: Path, hash: string): Path
  {
    Join(dir, QueryFileName(hash))
  }

  lemma JoinInjective(dir: Path, a: string, b: string)
    ensures Join(dir, a) == Join(dir, b) <==> a == b
  {
    if Join(dir, a) == Join(dir, b) && dir != "" {
      var prefix := if dir[|dir| - 1] == '/' then dir else dir + "/";
      assert Join(dir, a) == prefix + a && Join(dir, b) == prefix + b;
      assert a == (prefix + a)[|prefix|..];
      assert b == (prefix + b)[|prefix|..];
    }
  }

  /** Within one directory, the final file names of two hashes coincide exactly when the hashes do. */
  lemma FinalPathIdentifiesHash(dir: Path, h1: string, h2: string)
    ensures FinalPath(dir, h1) == FinalPath(dir, h2) <==> h1 == h2
  {
    JoinInjective(dir, QueryFileName(h1), QueryFileName(h2));
    if QueryFileName(h1) == QueryFileName(h2) {
      var n1, n2 := QueryFileName(h1), QueryFileName(h2);
      assert h1 == n1[6..|n1| - 5];
      assert h2 == n2[6..|n2| - 5];
    }
  }

  /**
   * Descriptors of the same query text share one final file; descriptors whose texts
   * have different digests never do.
   */
  lemma SharedFileIffSameDigest(dir: Path, q1: string, d1: Describe, k1: DatabaseKind,
                                q2: string, d2: Describe, k2: DatabaseKind, sha: Sha256)
    ensures FinalPath(dir, FromDescribe(q1, d1, k1, sha).hash) == FinalPath(dir, FromDescribe(q2, d2, k2, sha).hash)
            <==> sha(q1) == sha(q2)
  {
    FinalPathIdentifiesHash(dir, FromDescribe(q1, d1, k1, sha).hash, FromDescribe(q2, d2, k2, sha).hash);
    SameHashIffSameDigest(q1, d1, k1, q2, d2, k2, sha);
  }

  // ---------------------------------------------------------------------------------
  // The file system

  /** `p` has the same presence and contents in `a` and `b`. */
  ghost predicate SameAt(a: map<Path, string>, b: map<Path, string>, p: Path)
  {
    (p in a <==> p in b) && (p in a ==> a[p] == b[p])
  }

  /** The files after renaming `from` to `to` (renaming a path onto itself changes nothing). */
  function Renamed(files: map<Path, string>, from: Path, to: Path): (r: map<Path, string>)
    requires from in files
    ensures to in r && r[to] == files[from]
    ensures from != to ==> from !in r
    ensures forall p :: p != from && p != to ==> SameAt(files, r, p)
  {
    if from == to then files else (files - {from})[to := files[from]]
  }

  /** Saving the same contents through the same temporary file twice leaves what saving once left. */
  lemma ResaveIsIdempotent(files: map<Path, string>, tmp: Path, final: Path, contents: string)
    ensures Renamed(Renamed(files[tmp := contents], tmp, final)[tmp := contents], tmp, final)
            == Renamed(files[tmp := contents], tmp, final)
  {
    var once := Renamed(files[tmp := contents], tmp, final);
    var twice := Renamed(once[tmp := contents], tmp, final);
    if tmp != final {
      assert forall p :: p in twice <==> p in once;
      forall p | p in twice
        ensures twice[p] == once[p]
      {
        if p != tmp && p != final {
          assert SameAt(once[tmp := contents], twice, p);
        }
      }
    }
  }

  /**
   * Another invocation, with its own temporary file, saving the same contents to the same
   * final file after this one leaves the files as this one left them: the race between
   * two call sites over one `query-<hash>.json` is harmless.
   */
  lemma OtherCallSiteResaveIsHarmless(files: map<Path, string>, t1: Path, t2: Path, final: Path, contents: string)
    requires t1 != t2 && t1 != final && t2 != final && t2 !in files
    ensures Renamed(Renamed(files[t1 := contents], t1, final)[t2 := contents], t2, final)
            == Renamed(files[t1 := contents], t1, final)
  {
    var once := Renamed(files[t1 := contents], t1, final);
    var twice := Renamed(once[t2 := contents], t2, final);
    assert forall p :: p in twice <==> p in once;
    forall p | p in twice
      ensures twice[p] == once[p]
    {
      if p != t2 && p != final {
        assert SameAt(once[t2 := contents], twice, p);
      }
    }
  }

  /**
   * The file system the macros write to: files and their contents, and the directories
   * created so far. Each operation may fail.
   */
  class FileSystem {
    var files: map<Path, string>
    var dirs: set<Path>

    constructor (files: map<Path, string>, dirs: set<Path>)
      ensures this.files == files && this.dirs == dirs
    {
      this.files := files;
      this.dirs := dirs;
    }

    /** `fs::create_dir_all`: on success `dir` exists (its ancestors are not tracked); no file changes. */
    method CreateDirAll(dir: Path) returns (ok: bool)
      modifies this
      ensures files == old(files)
      ensures ok ==> dirs == old(dirs) + {dir}
      ensures !ok ==> dirs == old(dirs)
    {
      ok := *;
      if ok {
        dirs := dirs + {dir};
      }
    }

    /** `File::create`: create or truncate `p`. */
    method Create(p: Path) returns (ok: bool)
      modifies this
      ensures ok ==> files == old(files)[p := ""]
      ensures !ok ==> files == old(files)
      ensures dirs == old(dirs)
    {
      ok := *;
      if ok {
        files := files[p := ""];
      }
    }

    /** Write `contents` to the newly created `p` through a buffer and flush it; a failure can leave a prefix behind. */
    method WriteAndFlush(p: Path, contents: string) returns (ok: bool)
      modifies this
      ensures ok ==> files == old(files)[p := contents]
      ensures !ok ==> p in files && files[p] <= contents && files == old(files)[p := files[p]]
      ensures dirs == old(dirs)
    {
      ok := *;
      if ok {
        files := files[p := contents];
      } else {
        var n: nat :| n <= |contents|;
        files := files[p := contents[..n]];
      }
    }

    /** `fs::rename`: atomic, so on failure nothing changes. */
    method Rename(from: Path, to: Path) returns (ok: bool)
      modifies this
      ensures ok ==> from in old(files) && files == Renamed(old(files), from, to)
      ensures !ok ==> files == old(files)
      ensures dirs == old(dirs)
    {
      if from !in files {
        ok := false;
      } else {
        ok := *;
        if ok {
          files := Renamed(files, from, to);
        }
      }
    }
  }

  // ---------------------------------------------------------------------------------
  // Write side

  datatype SaveError =
    | CreateTempDirFailed(tmpDir: Path) // "failed to create temporary offline query directory"
    | OpenFailed(tmpPath: Path)         // "failed to open path"
    | WriteFailed                       // serialisation or flush error
    | CreateDirFailed(dir: Path)        // "failed to create offline query directory"
    | RenameFailed                      // "failed to move query data to final destination"

  /**
   * `QueryData::save_in`. On success the serialised descriptor is at its final path and
   * the temporary file is gone; on failure the final path is as it was (unless the
   * temporary and the final path coincide); no other path is ever touched.
   */
  method SaveIn(fs: FileSystem, d: QueryData, dir: Path, targetDir: Path, inputSpan: string, sha: Sha256, json: Json)
    returns (r: Result<(), SaveError>)
    modifies fs
    ensures var tmp, final := TempPath(targetDir, sha, inputSpan), FinalPath(dir, d.hash);
            r.Ok? ==> fs.files == Renamed(old(fs.files)[tmp := json.toStringPretty(d)], tmp, final)
    ensures var tmp, final := TempPath(targetDir, sha, inputSpan), FinalPath(dir, d.hash);
            r.Ok? ==> final in fs.files && fs.files[final] == json.toStringPretty(d) && (tmp != final ==> tmp !in fs.files)
    ensures var tmp, final := TempPath(targetDir, sha, inputSpan), FinalPath(dir, d.hash);
            r.Err? && tmp != final ==> SameAt(old(fs.files), fs.files, final)
    ensures var tmp, final := TempPath(targetDir, sha, inputSpan), FinalPath(dir, d.hash);
            forall p :: p != tmp && p != final ==> SameAt(old(fs.files), fs.files, p)
    ensures old(fs.dirs) <= fs.dirs
    ensures r.Ok? ==> Join(targetDir, "sqlx") in fs.dirs && dir in fs.dirs
  {
    var tmpDir := Join(targetDir, "sqlx");
    var ok := fs.CreateDirAll(tmpDir);
    if !ok {
      return Err(CreateTempDirFailed(tmpDir));
    }

    // The temporary file is named after the call site, which is unique per invocation.
    var tmpPath := Join(tmpDir, QueryFileName(HashString(sha, inputSpan)));
    ok := fs.Create(tmpPath);
    if !ok {
      return Err(OpenFailed(tmpPath));
    }
    ok := fs.WriteAndFlush(tmpPath, json.toStringPretty(d));
    if !ok {
      return Err(WriteFailed);
    }

    var finalPath := FinalPath(dir, d.hash);
    ok := fs.CreateDirAll(dir);
    if !ok {
      return Err(CreateDirFailed(dir));
    }
    ok := fs.Rename(tmpPath, finalPath);
    if !ok {
      return Err(RenameFailed);
    }
    r := Ok(());
  }

  // ---------------------------------------------------------------------------------
  // Read side

  datatype LoadError =
    | ReadFailed(path: Path)        // "failed to read path"
    | MalformedFile                 // the file is not a `RawQueryData`
    | HashCollision                 // "hash collision for saved query data"
    | UnknownDatabase(name: string) // "query data from filesystem used unknown database"
    | MalformedDescribe             // the payload is not a `Describe<DB>`

  /** The `db_name` dispatch: the enabled backend whose `NAME` is `name`, if any. */
  function KindOfName(name: string, features: set<DatabaseKind>): (r: Option<DatabaseKind>)
    ensures r.Some? ==> r.value in features && Name(r.value) == name
    ensures r.None? ==> forall k :: k in features ==> Name(k) != name
  {
    if Postgres in features && name == Name(Postgres) then Some(Postgres)
    else if MySql in features && name == Name(MySql) then Some(MySql)
    else if Sqlite in features && name == Name(Sqlite) then Some(Sqlite)
    else if Mssql in features && name == Name(Mssql) then Some(Mssql)
    else None
  }

  /** Reading, parsing and validating a cache file: what a cache miss does before inserting. */
  function LoadFromFile(files: map<Path, string>, path: Path, query: string, features: set<DatabaseKind>, json: Json)
    : (r: Result<QueryData, LoadError>)
    ensures path !in files ==> r == Err(ReadFailed(path))
    ensures path in files && json.rawFromStr(files[path]).Some? && json.rawFromStr(files[path]).value.query != query
            ==> r == Err(HashCollision)
    ensures r.Ok? ==> r.value.query == query && r.value.hash == SkippedHash && r.value.db in features
    ensures r.Ok? ==> path in files && json.rawFromStr(files[path]).Some? &&
                      DbName(r.value) == json.rawFromStr(files[path]).value.dbName &&
                      json.describeFromStr(r.value.db, json.rawFromStr(files[path]).value.describe) == Some(r.value.describe)
  {
    if path !in files then Err(ReadFailed(path))
    else match json.rawFromStr(files[path])
      case None => Err(MalformedFile)
      case Some(raw) =>
        if query != raw.query then Err(HashCollision)
        else match KindOfName(raw.dbName, features)
          case None => Err(UnknownDatabase(raw.dbName))
          case Some(kind) =>
            match json.describeFromStr(kind, raw.describe)
            case None => Err(MalformedDescribe)
            case Some(describe) => Ok(QueryData(raw.query, describe, SkippedHash, kind))
  }

  /**
   * Loading what `save_in` wrote gives the descriptor back, except that its hash is the
   * skipped field's default; a backend whose feature is disabled is reported by name.
   */
  lemma LoadAfterSave(files: map<Path, string>, dir: Path, d: QueryData, features: set<DatabaseKind>, json: Json)
    requires FinalPath(dir, d.hash) in files && files[FinalPath(dir, d.hash)] == json.toStringPretty(d)
    requires SerdeRoundTrips(json, d)
    ensures d.db in features ==> LoadFromFile(files, FinalPath(dir, d.hash), d.query, features, json) == Ok(d.(hash := SkippedHash))
    ensures d.db !in features ==> LoadFromFile(files, FinalPath(dir, d.hash), d.query, features, json) == Err(UnknownDatabase(DbName(d)))
  {
    var raw := json.rawFromStr(json.toStringPretty(d)).value;
    if d.db in features {
      assert KindOfName(raw.dbName, features).Some?;
      NameInjective(KindOfName(raw.dbName, features).value, d.db);
    } else {
      forall k | k in features
        ensures Name(k) != raw.dbName
      {
        NameInjective(k, d.db);
      }
    }
  }

  /**
   * `to_postgres`, `to_mysql`, ...: the descriptor itself, asked for by its own backend's
   * name (every other combination panics, so callers must not make it).
   */
  function ToBackend(d: QueryData, kind: DatabaseKind): (r: QueryData)
    requires DbName(d) == Name(kind)
    ensures r == d && r.db == kind
  {
    NameInjective(d.db, kind);
    d
  }

  /** A shared, immutable descriptor: the `Arc<dyn DynQueryData>` handed out by the cache. */
  class QueryHandle {
    const data: QueryData

    constructor (data: QueryData)
      ensures this.data == data
    {
      this.data := data;
    }
  }

  /** The in-process cache from cache-file paths to loaded descriptors, for one build run. */
  class OfflineDataCache {
    /** The backends whose features this build has enabled. */
    const features: set<DatabaseKind>
    var entries: map<Path, QueryHandle>

    /** Only successfully loaded descriptors are cached: an enabled backend, the skipped hash. */
    ghost predicate Valid()
      reads this
    {
      forall p :: p in entries ==> entries[p].data.db in features && entries[p].data.hash == SkippedHash
    }

    constructor (features: set<DatabaseKind>)
      ensures this.features == features && entries == map[] && Valid()
    {
      this.features := features;
      entries := map[];
    }

    /**
     * `load_query_from_data_file`. A hit returns the very handle cached before, without
     * reading the file, provided the texts agree; a miss loads and validates the file and
     * caches the result only when everything succeeds. A text mismatch is a hash collision
     * either way, and an error never changes the cache.
     */
    method LoadQueryFromDataFile(fs: FileSystem, path: Path, query: string, json: Json)
      returns (r: Result<QueryHandle, LoadError>)
      requires Valid()
      modifies this
      ensures Valid()
      ensures path in old(entries) ==>
                entries == old(entries) &&
                r == (if query == old(entries)[path].data.query then Ok(old(entries)[path]) else Err(HashCollision))
      ensures path !in old(entries) && LoadFromFile(fs.files, path, query, features, json).Err? ==>
                entries == old(entries) && r == Err(LoadFromFile(fs.files, path, query, features, json).error)
      ensures path !in old(entries) && LoadFromFile(fs.files, path, query, features, json).Ok? ==>
                r.Ok? && fresh(r.value) && r.value.data == LoadFromFile(fs.files, path, query, features, json).value &&
                entries == old(entries)[path := r.value]
    {
      if path in entries {
        var cached := entries[path];
        if query != cached.data.query {
          return Err(HashCollision);
        }
        return Ok(cached);
      }

      var loaded := LoadFromFile(fs.files, path, query, features, json);
      if loaded.Err? {
        return Err(loaded.error);
      }
      var dynData := new QueryHandle(loaded.value);
      entries := entries[path := dynData];
      r := Ok(dynData);
    }
  }
}
