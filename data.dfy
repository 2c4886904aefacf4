/**
 * `QueryData` (sqlx-macros/src/query/data/mod.rs): a query's text, its described shape,
 * the hash that names its cache file, and the backend it was described against. The
 * generic `DB` parameter of the source becomes the `db` field.
 */
module Data {
  import opened Database
  import opened Hashing

  /** `Describe<DB>`: the column and parameter description, opaque here. */
  type Describe(==)

  datatype QueryData = QueryData(query: string, describe: Describe, hash: string, db: DatabaseKind)

  /** `QueryData::from_describe`: keep the text and payload, hash the text. */
  function FromDescribe(query: string, describe: Describe, db: DatabaseKind, sha: Sha256): (d: QueryData)
    ensures d.query == query && d.describe == describe && d.db == db
    ensures d.hash == HashString(sha, query)
  {
    QueryData(query, describe, HashString(sha, query), db)
  }

  /** The `db_name` marker: serialised as the backend's `NAME`. */
  function DbName(d: QueryData): (name: string)
    ensures name == Name(d.db)
    ensures forall k :: name == Name(k) <==> k == d.db
  {
    NameIdentifiesBackend(d.db);
    Name(d.db)
  }

  /**
   * Descriptors built from the same text carry the same hash (and so share one cache
   * file), and descriptors built from texts with different digests never do.
   */
  lemma SameHashIffSameDigest(q1: string, d1: Describe, k1: DatabaseKind,
                              q2: string, d2: Describe, k2: DatabaseKind, sha: Sha256)
    ensures FromDescribe(q1, d1, k1, sha).hash == FromDescribe(q2, d2, k2, sha).hash <==> sha(q1) == sha(q2)
    ensures q1 == q2 ==> FromDescribe(q1, d1, k1, sha).hash == FromDescribe(q2, d2, k2, sha).hash
  {
    HashStringIdentifiesDigest(sha, q1, q2);
  }
}
