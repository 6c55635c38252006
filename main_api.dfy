/**
 * main.py: the SQL-backed variant of the service. `/register` appends a
 * user row (names need not be unique); `/verify` identifies a face against
 * every stored user (1:N): the stored embedding most similar to the query
 * wins, the first one on ties, and it is a match when its score reaches
 * the threshold.
 */
module MainApi {
  import opened Common
  import opened Strings
  import opened FaceEngine
  import opened Http
  import opened Database

  /** The fixed match threshold of `verify_face`; a score equal to it is a match. */
  const Threshold: real := 0.5
  /** `highest_similarity` before any user is compared. */
  const NoScore: real := -1.0

  const RegisterNoFace := "No face detected. Please look directly at the camera."
  const VerifyNoFace := "No face detected. Please adjust lighting or position."
  const VerifyNoFeatures := "Could not extract features from face."
  const UnknownPerson := "Unknown"
  const EmptyDatabasePerson := "Unknown (Database Empty)"

  // ---------------------------------------------------------------- /health

  datatype Health = Health(status: string, database: string)

  /** `url.split("://")[0]`: the text before the first "://", or all of it when there is none. */
  function Scheme(url: string): (r: string)
    ensures StartsWith(url, r)
    ensures Contains(url, "://") ==>
      OccursAt(url, "://", |r|) && forall j: nat :: j < |r| ==> !OccursAt(url, "://", j)
    ensures !Contains(url, "://") ==> r == url
  {
    match Find(url, "://")
    case None => url
    case Some(k) => url[..k]
  }

  /** `health_check`: reports liveness and the scheme of the configured database URL. */
  function HealthCheck(databaseUrl: string): (h: Health)
    ensures h.status == "System is running"
    ensures h.database == Scheme(databaseUrl)
    ensures StartsWith(databaseUrl, h.database) && !Contains(h.database, "://")
  {
    var scheme := Scheme(databaseUrl);
    assert !Contains(scheme, "://") by {
      forall j: nat | OccursAt(scheme, "://", j) ensures false {
        assert OccursAt(databaseUrl, "://", j);
      }
    }
    Health("System is running", scheme)
  }

  // ---------------------------------------------------------------- /verify

  /** The body of a `/verify` answer (its "status" is always "success"). */
  datatype Identification = Identification(matched: bool, person: string, similarity: real)

  /** The answer for an empty table. */
  const EmptySentinel := Identification(false, EmptyDatabasePerson, 0.0)

  /** The loop's running state: `highest_similarity` and the position of `best_match`. */
  datatype Best = Best(highest: real, index: Option<nat>)

  /**
   * The best-match loop run over `scores` in order: a score replaces the best
   * only when it is strictly greater. The result is the maximum of -1.0 and
   * all scores, and the position of the first score equal to it (none when
   * no score exceeds -1.0).
   */
  function Scan(scores: seq<real>): (b: Best)
    ensures forall i :: 0 <= i < |scores| ==> scores[i] <= b.highest
    ensures b.index.None? <==> b.highest == NoScore
    ensures b.index.None? ==> forall i :: 0 <= i < |scores| ==> scores[i] <= NoScore
    ensures b.index.Some? ==>
      && b.index.value < |scores|
      && scores[b.index.value] == b.highest
      && b.highest > NoScore
      && forall j :: 0 <= j < b.index.value ==> scores[j] < b.highest
    decreases |scores|
  {
    if |scores| == 0 then Best(NoScore, None)
    else
      var last := |scores| - 1;
      var prev := Scan(scores[..last]);
      if scores[last] > prev.highest then Best(scores[last], Some(last)) else prev
  }

  /** Each stored embedding's similarity to the query (`calculate_similarity(current, stored)`). */
  function Scores(embs: seq<Embedding>, query: Embedding, similarity: (Embedding, Embedding) -> real): (s: seq<real>) {
    seq(|embs|, i requires 0 <= i < |embs| => similarity(query, embs[i]))
  }

  /** Every row's `get_embedding_list()`, in order. */
  function StoredEmbeddings(rows: seq<Row>): (r: seq<Option<Embedding>>) {
    seq(|rows|, i requires 0 <= i < |rows| => StoredEmbedding(rows[i].embeddingJson))
  }

  /** All the values, when none is missing; None as soon as one is. */
  function AllPresent<T>(xs: seq<Option<T>>): (r: Option<seq<T>>)
    ensures r.Some? <==> forall i :: 0 <= i < |xs| ==> xs[i].Some?
    ensures r.Some? ==> |r.value| == |xs| && forall i :: 0 <= i < |xs| ==> xs[i] == Some(r.value[i])
    decreases |xs|
  {
    if |xs| == 0 then Some([])
    else
      var last := |xs| - 1;
      match AllPresent(xs[..last])
      case None => None
      case Some(prefix) =>
        match xs[last]
        case None => None
        case Some(x) => Some(prefix + [x])
  }

  /** Every row's name, in order. */
  function Names(rows: seq<Row>): (names: seq<string>) {
    seq(|rows|, i requires 0 <= i < |rows| => rows[i].name)
  }

  /**
   * The decision after the loop. It is a match exactly when some score
   * reaches the threshold; the person is then the first user with the top
   * score, and otherwise "Unknown", so the closest name below the threshold
   * is never revealed. The top score is reported either way.
   */
  function Decide(names: seq<string>, scores: seq<real>): (r: Identification)
    requires |names| == |scores|
    ensures r.matched <==> exists i :: 0 <= i < |scores| && scores[i] >= Threshold
    ensures r.matched ==>
      exists k :: 0 <= k < |scores| && r.person == names[k] && scores[k] == r.similarity &&
        forall j :: 0 <= j < k ==> scores[j] < r.similarity
    ensures !r.matched ==> r.person == UnknownPerson
    ensures forall i :: 0 <= i < |scores| ==> scores[i] <= r.similarity
    ensures r.similarity == NoScore || exists i :: 0 <= i < |scores| && scores[i] == r.similarity
    ensures (forall i :: 0 <= i < |scores| ==> scores[i] <= NoScore) ==> r == Identification(false, UnknownPerson, NoScore)
    ensures r != EmptySentinel
  {
    var b := Scan(scores);
    if b.index.Some? && b.highest >= Threshold then
      Identification(true, names[b.index.value], b.highest)
    else
      assert |UnknownPerson| != |EmptyDatabasePerson|;
      Identification(false, UnknownPerson, b.highest)
  }

  /**
   * What the body of `verify_face` returns or raises, given the table's rows:
   * it returns exactly when both face checks pass and every stored embedding
   * decodes (vacuously so for an empty table), and its own HTTP errors are 400s.
   */
  function Identify(rows: seq<Row>, image: Bytes, models: FaceModels): (o: Outcome<Identification>)
    ensures o.Returned? <==>
      models.detect(image) && models.embed(image).Some? && (rows == [] || AllPresent(StoredEmbeddings(rows)).Some?)
    ensures o.Raised? && o.exc.HttpException? ==> o.exc.status == 400
  {
    if !models.detect(image) then Raised(HttpException(400, VerifyNoFace))
    else
      match models.embed(image)
      case None => Raised(HttpException(400, VerifyNoFeatures))
      case Some(query) =>
        if |rows| == 0 then Returned(EmptySentinel)
        else
          match AllPresent(StoredEmbeddings(rows))
          case None => Raised(Other(Json.DecodeErrorMessage))
          case Some(embs) => Returned(Decide(Names(rows), Scores(embs, query, models.similarity)))
  }

  /**
   * With a face found and no users stored, the answer is the empty-table
   * sentinel whatever the similarity function, so no similarity is computed;
   * a non-empty table never produces the sentinel.
   */
  lemma EmptyTableSentinel(rows: seq<Row>, image: Bytes, models: FaceModels, other: (Embedding, Embedding) -> real)
    requires models.detect(image) && models.embed(image).Some?
    ensures (Identify(rows, image, models) == Returned(EmptySentinel)) <==> rows == []
    ensures rows == [] ==> Identify(rows, image, models.(similarity := other)) == Identify(rows, image, models)
    ensures rows == [] ==> CatchAll(Identify(rows, image, models)) == Ok(EmptySentinel)
  {
  }

  /**
   * What a client of `/verify` receives: both "no face" 400s arrive as 500s
   * carrying the rendered 400; with a face found and a non-empty table, an
   * undecodable stored embedding is a 500 and otherwise the answer is the
   * decision over every stored user (`EmptyTableSentinel` gives the answer
   * for an empty table).
   */
  lemma VerifyAnswers(rows: seq<Row>, image: Bytes, models: FaceModels)
    ensures !models.detect(image) ==>
      CatchAll(Identify(rows, image, models)) == Failed(500, "400: " + VerifyNoFace)
    ensures models.detect(image) && models.embed(image).None? ==>
      CatchAll(Identify(rows, image, models)) == Failed(500, "400: " + VerifyNoFeatures)
    ensures (models.detect(image) && models.embed(image).Some? && rows != [] &&
             AllPresent(StoredEmbeddings(rows)).None?) ==>
      CatchAll(Identify(rows, image, models)) == Failed(500, Json.DecodeErrorMessage)
    ensures (models.detect(image) && models.embed(image).Some? && rows != [] &&
             AllPresent(StoredEmbeddings(rows)).Some?) ==>
      CatchAll(Identify(rows, image, models)) ==
        Ok(Decide(Names(rows), Scores(AllPresent(StoredEmbeddings(rows)).value, models.embed(image).value, models.similarity)))
  {
    ClientErrorBecomesServerError<Identification>(VerifyNoFace);
    ClientErrorBecomesServerError<Identification>(VerifyNoFeatures);
  }

  /** One more score: it becomes the best exactly when it beats the best so far. */
  lemma ScanStep(scores: seq<real>, score: real)
    ensures Scan(scores + [score]) ==
      if score > Scan(scores).highest then Best(score, Some(|scores|)) else Scan(scores)
  {
    assert (scores + [score])[..|scores|] == scores;
  }

  lemma ScoresStep(embs: seq<Embedding>, e: Embedding, query: Embedding, similarity: (Embedding, Embedding) -> real)
    ensures Scores(embs + [e], query, similarity) == Scores(embs, query, similarity) + [similarity(query, e)]
  {
  }

  lemma AllPresentStep<T>(xs: seq<Option<T>>, i: nat, prefix: seq<T>, x: T)
    requires i < |xs| && AllPresent(xs[..i]) == Some(prefix) && xs[i] == Some(x)
    ensures AllPresent(xs[..i + 1]) == Some(prefix + [x])
  {
    assert xs[..i + 1][..i] == xs[..i];
  }

  /**
   * The loop of `verify_face` over the users in query order. It stops with
   * `decoded` false when a row's embedding text cannot be decoded; otherwise
   * `highest` and `bestMatch` are the best score and the first user
   * holding it, as `Scan` defines them.
   */
  method BestMatch(users: seq<User>, query: Embedding, similarity: (Embedding, Embedding) -> real)
    returns (decoded: bool, highest: real, bestMatch: User?)
    ensures decoded <==> AllPresent(StoredEmbeddings(RowsOf(users))).Some?
    ensures decoded ==>
      var best := Scan(Scores(AllPresent(StoredEmbeddings(RowsOf(users))).value, query, similarity));
      && highest == best.highest
      && (best.index.None? ==> bestMatch == null)
      && (best.index.Some? ==> bestMatch == users[best.index.value])
  {
    ghost var stored := StoredEmbeddings(RowsOf(users));
    bestMatch := null;
    highest := NoScore;
    ghost var embs: seq<Embedding> := [];
    ghost var best := Scan([]);
    var i := 0;
    while i < |users|
      invariant 0 <= i <= |users| && |embs| == i
      invariant AllPresent(stored[..i]) == Some(embs)
      invariant best == Scan(Scores(embs, query, similarity))
      invariant highest == best.highest
      invariant best.index.None? ==> bestMatch == null
      invariant best.index.Some? ==> best.index.value < i && bestMatch == users[best.index.value]
    {
      var e := users[i].GetEmbeddingList();
      assert stored[i] == e;
      if e.None? {
        return false, highest, bestMatch;
      }
      var sim := similarity(query, e.value);
      AllPresentStep(stored, i, embs, e.value);
      ScoresStep(embs, e.value, query, similarity);
      ScanStep(Scores(embs, query, similarity), sim);
      if sim > highest {
        highest := sim;
        bestMatch := users[i];
      }
      embs := embs + [e.value];
      best := Scan(Scores(embs, query, similarity));
      i := i + 1;
    }
    assert stored[..i] == stored;
    decoded := true;
  }

  /**
   * `/verify` in full: every failure, the "no face" 400s included, reaches
   * the client as a 500; a success is the decision over all stored users.
   */
  method VerifyFace(db: Session, image: Bytes, models: FaceModels) returns (r: Response<Identification>)
    ensures r == CatchAll(Identify(RowsOf(db.rows), image, models))
  {
    if !models.detect(image) {
      return CatchAll(Raised(HttpException(400, VerifyNoFace)));
    }
    var current := models.embed(image);
    if current.None? {
      return CatchAll(Raised(HttpException(400, VerifyNoFeatures)));
    }
    var users := db.rows;
    if |users| == 0 {
      return Ok(EmptySentinel);
    }
    var decoded, highest, bestMatch := BestMatch(users, current.value, models.similarity);
    if !decoded {
      return CatchAll(Raised(Other(Json.DecodeErrorMessage)));
    }
    if bestMatch != null && highest >= Threshold {
      r := Ok(Identification(true, bestMatch.name, highest));
    } else {
      r := Ok(Identification(false, UnknownPerson, highest));
    }
  }

  // ---------------------------------------------------------------- /register

  /** The body of a successful `/register` answer. */
  datatype Registered = Registered(message: string, userId: nat)

  /**
   * `/register`: a face and an embedding are required before anything is
   * stored; both failures are 400s that reach the client as 500s. There is
   * no check on the name, so every success appends exactly one new row with
   * the given name and embedding and a key no other row has.
   */
  method RegisterFace(db: Session, name: string, image: Bytes, models: FaceModels) returns (r: Response<Registered>)
    requires db.Valid()
    modifies db
    ensures db.Valid()
    ensures !models.detect(image) ==>
      r == Failed(500, "400: " + RegisterNoFace) && db.rows == old(db.rows) && db.nextId == old(db.nextId)
    ensures models.detect(image) && models.embed(image).None? ==>
      r == Failed(500, "400: " + NoEmbeddingMessage) && db.rows == old(db.rows) && db.nextId == old(db.nextId)
    ensures models.detect(image) && models.embed(image).Some? ==>
      && |db.rows| == |old(db.rows)| + 1
      && db.rows[..|old(db.rows)|] == old(db.rows)
      && fresh(db.rows[|old(db.rows)|])
      && db.rows[|old(db.rows)|].name == name
      && db.rows[|old(db.rows)|].GetEmbeddingList() == models.embed(image)
      && db.rows[|old(db.rows)|].id == Some(old(db.nextId))
      && (forall k :: 0 <= k < |old(db.rows)| ==> db.rows[k].id != Some(old(db.nextId)))
      && r == Ok(Registered("User " + name + " registered successfully", old(db.nextId)))
    ensures r.Ok? ==> r.body.userId >= 1
  {
    if !models.detect(image) {
      ClientErrorBecomesServerError<Registered>(RegisterNoFace);
      return CatchAll(Raised(HttpException(400, RegisterNoFace)));
    }
    var embedding := models.embed(image);
    if embedding.None? {
      ClientErrorBecomesServerError<Registered>(NoEmbeddingMessage);
      return CatchAll(Raised(HttpException(400, NoEmbeddingMessage)));
    }
    var user := new User(name);
    user.SetEmbeddingList(embedding.value);
    db.AddAndCommit(user);
    var id := user.id.value;
    r := Ok(Registered("User " + name + " registered successfully", id));
  }
}
