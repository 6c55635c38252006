/**
 * database.py: the connection URL, the engine's connect arguments, the
 * `users` table's row object and the session that stores rows.
 */
module Database {
  import opened Common
  import opened Strings
  import opened FaceEngine
  import Json

  /** The URL used when the environment has no DATABASE_URL. */
  const DefaultDatabaseUrl := "sqlite:///./face_db.sqlite"

  /** `os.getenv("DATABASE_URL", default)`: a set variable wins, even when it is empty. */
  function EnvOrDefault(env: Option<string>): (url: string)
    ensures env.None? ==> url == DefaultDatabaseUrl
    ensures env.Some? ==> url == env.value
  {
    match env
    case None => DefaultDatabaseUrl
    case Some(v) => v
  }

  /** Rewrites the `postgres://` scheme that SQLAlchemy no longer accepts. */
  function NormalizeUrl(url: string): (r: string)
    ensures StartsWith(url, "postgres://") ==> r == "postgresql://" + url[|"postgres://"|..]
    ensures !StartsWith(url, "postgres://") ==> r == url
  {
    if StartsWith(url, "postgres://") then
      ReplaceFirstAtStart(url, "postgres://", "postgresql://");
      ReplaceFirst(url, "postgres://", "postgresql://")
    else url
  }

  /**
   * The module-level DATABASE_URL after its one rebinding: the SQLite default
   * when the variable is unset, the variable's value with a leading
   * `postgres://` rewritten when it is set, and so never a URL with the
   * `postgres://` scheme.
   */
  function DatabaseUrl(env: Option<string>): (url: string)
    ensures env.None? ==> url == DefaultDatabaseUrl
    ensures env.Some? ==> url == NormalizeUrl(env.value)
    ensures !StartsWith(url, "postgres://")
  {
    var raw := EnvOrDefault(env);
    assert env.None? ==> !StartsWith(raw, "postgres://") by {
      assert DefaultDatabaseUrl[0] == 's';
    }
    assert StartsWith(raw, "postgres://") ==> !StartsWith(NormalizeUrl(raw), "postgres://") by {
      assert "postgresql://"[8] == 'q' && "postgres://"[8] == ':';
    }
    NormalizeUrl(raw)
  }

  /** A rewritten URL no longer starts with `postgres://`, so rewriting twice changes nothing. */
  lemma NormalizeUrlIdempotent(url: string)
    ensures NormalizeUrl(NormalizeUrl(url)) == NormalizeUrl(url)
  {
    if StartsWith(url, "postgres://") {
      var r := NormalizeUrl(url);
      assert r[8] == 'q';
      assert !StartsWith(r, "postgres://") by {
        assert "postgres://"[8] == ':';
      }
    }
  }

  /** With no DATABASE_URL the service uses the local SQLite file and SQLite's thread flag. */
  lemma DefaultIsLocalSqlite()
    ensures DatabaseUrl(None) == DefaultDatabaseUrl
    ensures ConnectArgsFor(DatabaseUrl(None)) == CheckSameThread(false)
  {
    assert !StartsWith(DefaultDatabaseUrl, "postgres://") by {
      assert DefaultDatabaseUrl[0] == 's';
    }
    assert OccursAt(DefaultDatabaseUrl, "sqlite", 0) by {
      assert DefaultDatabaseUrl[..6] == "sqlite";
    }
  }

  /** The `connect_args` given to `create_engine`. */
  datatype ConnectArgs = NoArgs | CheckSameThread(value: bool)

  /** `{"check_same_thread": False}` exactly when "sqlite" occurs anywhere in the URL. */
  function ConnectArgsFor(url: string): (a: ConnectArgs)
    ensures a == CheckSameThread(false) <==> exists k: nat :: OccursAt(url, "sqlite", k)
    ensures a != CheckSameThread(false) ==> a == NoArgs
  {
    if Contains(url, "sqlite") then CheckSameThread(false) else NoArgs
  }

  /**
   * `User.get_embedding_list` on the value of the `embedding_json` column:
   * a missing (NULL) or empty text is the empty list, anything else is
   * decoded, and None is the decoding error `json.loads` raises.
   */
  function StoredEmbedding(json: Option<string>): (r: Option<Embedding>)
    ensures json == None || json == Some("") ==> r == Some([])
  {
    match json
    case None => Some([])
    case Some(text) => if text == "" then Some([]) else Json.Loads(text)
  }

  /** The stored text of an embedding list is never empty and reads back as that list. */
  lemma StoredRoundTrip(l: Embedding)
    ensures Json.Dumps(l) != ""
    ensures StoredEmbedding(Some(Json.Dumps(l))) == Some(l)
  {
    Json.LoadsDumps(l);
  }

  /** A row of the `users` table as the session holds it. */
  class User {
    /** The primary key; None until the row is committed. */
    var id: Option<nat>
    const name: string
    /** The embedding as JSON text; NULL until it is set. */
    var embeddingJson: Option<string>

    /** `User(name=name)`. */
    constructor (name: string)
      ensures this.name == name && id == None && embeddingJson == None
    {
      this.name := name;
      id := None;
      embeddingJson := None;
    }

    /** `get_embedding_list()`. */
    function GetEmbeddingList(): (r: Option<Embedding>)
      reads this
      ensures embeddingJson == None || embeddingJson == Some("") ==> r == Some([])
    {
      StoredEmbedding(embeddingJson)
    }

    /** `set_embedding_list(l)`: stores the JSON text of `l`, which reads back as `l`. */
    method SetEmbeddingList(l: Embedding)
      modifies this
      ensures embeddingJson == Some(Json.Dumps(l)) && id == old(id)
      ensures GetEmbeddingList() == Some(l)
    {
      embeddingJson := Some(Json.Dumps(l));
      StoredRoundTrip(l);
    }
  }

  /** The two columns of a row that the service reads back. */
  datatype Row = Row(name: string, embeddingJson: Option<string>)

  /** The rows `users` hold now, as values (what `db.query(User).all()` yields). */
  function RowsOf(users: seq<User>): (rs: seq<Row>)
    reads users
  {
    seq(|users|, i reads users requires 0 <= i < |users| => Row(users[i].name, users[i].embeddingJson))
  }

  /**
   * A database session over the `users` table. Rows are kept in insertion
   * order, and each commit gives the new row the next free primary key;
   * as in SQLite and PostgreSQL, the first key is 1.
   */
  class Session {
    var rows: seq<User>
    var nextId: nat

    /** Every committed row has a key from 1 up to below `nextId`, and no two rows share a key. */
    ghost predicate Valid()
      reads this, rows
    {
      && nextId >= 1
      && (forall i :: 0 <= i < |rows| ==> rows[i].id.Some? && 1 <= rows[i].id.value < nextId)
      && (forall i, j :: 0 <= i < j < |rows| ==> rows[i].id != rows[j].id)
    }

    /** A session on an empty table. */
    constructor ()
      ensures Valid() && rows == [] && nextId == 1
    {
      rows := [];
      nextId := 1;
    }

    /** `db.add(u); db.commit(); db.refresh(u)`: appends `u` and gives it a fresh key. */
    method AddAndCommit(u: User)
      requires Valid() && u !in rows
      modifies this, u
      ensures Valid()
      ensures rows == old(rows) + [u] && nextId == old(nextId) + 1
      ensures u.id == Some(old(nextId)) && u.embeddingJson == old(u.embeddingJson)
    {
      u.id := Some(nextId);
      rows := rows + [u];
      nextId := nextId + 1;
    }
  }
}
