/**
 * The database backends a query descriptor can belong to, each with the `NAME` constant
 * its `DatabaseExt` implementation declares and which `db_name` is serialised as.
 */
module Database {

  datatype DatabaseKind = Postgres | MySql | Sqlite | Mssql

  /** `<DB as DatabaseExt>::NAME`. */
  function Name(kind: DatabaseKind): string
  {
    match kind
    case Postgres => "PostgreSQL"
    case MySql => "MySQL"
    case Sqlite => "SQLite"
    case Mssql => "MSSQL"
  }

  /** Distinct backends have distinct names, so a name identifies its backend. */
  lemma NameInjective(a: DatabaseKind, b: DatabaseKind)
    ensures Name(a) == Name(b) <==> a == b
  {
    if a != b {
      // The second letters differ: 'o', 'y', 'Q', 'S'.
      assert Name(a)[1] != Name(b)[1];
    }
  }

  /** A backend's name is the name of no other backend. */
  lemma NameIdentifiesBackend(kind: DatabaseKind)
    ensures forall k :: Name(k) == Name(kind) <==> k == kind
  {
    forall k
      ensures Name(k) == Name(kind) <==> k == kind
    {
      NameInjective(k, kind);
    }
  }
}
