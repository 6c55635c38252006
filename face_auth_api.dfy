/**
 * face_auth_api.py: the file-backed variant of the service. Enrolled
 * faces are a map from username to embedding, kept in a JSON file.
 * `/register` enrols a new username (a taken one is refused) and `/verify`
 * checks a face against one claimed username (1:1).
 */
module FaceAuthApi {
  import opened Common
  import opened FaceEngine
  import opened Http

  /** `SIMILARITY_THRESHOLD`; a score equal to it is a match. */
  const SimilarityThreshold: real := 0.5

  /** The enrolled faces: username to embedding. */
  type Db = map<string, Embedding>

  const NoFaceByMtcnn := "No face detected by MTCNN."
  const NoFaceByArcFace := "No face detected by ArcFace."
  const UsernameTaken := "Username already exists."
  const UserNotFound := "User not found. Please register first."
  const NoFaceInVerification := "No face detected in verification image."
  const IdentityVerified := "\U{2705} Identity Verified"
  const IdentityMismatch := "\U{274C} Identity Mismatch"

  /** `load_db()` on the file's state: None is a missing file, which reads as no users. */
  function LoadDb(file: Option<Db>): (db: Db)
    ensures file.None? ==> db == map[]
    ensures file.Some? ==> db == file.value
  {
    match file
    case None => map[]
    case Some(m) => m
  }

  /** The body of a successful `/register` answer (its "status" is "success"). */
  datatype Enrolled = Enrolled(message: string)

  /**
   * The body of `register_user` on the file's state: what it returns or
   * raises, and the file afterwards. Face checks come first and read no
   * store; a refused registration writes nothing; a successful one saves
   * the old map with exactly one entry added.
   */
  function Register(file: Option<Db>, username: string, image: Bytes, models: FaceModels): (r: (Outcome<Enrolled>, Option<Db>))
    ensures r.0.Returned? ==> r.0.value == Enrolled("User '" + username + "' registered successfully.")
    ensures r.0.Returned? <==> models.detect(image) && models.embed(image).Some? && username !in LoadDb(file)
    ensures r.0.Raised? ==> r.1 == file && r.0.exc.HttpException? && r.0.exc.status == 400
    ensures !models.detect(image) ==> r.0 == Raised(HttpException(400, NoFaceByMtcnn))
    ensures models.detect(image) && models.embed(image).None? ==> r.0 == Raised(HttpException(400, NoFaceByArcFace))
    ensures models.detect(image) && models.embed(image).Some? && username in LoadDb(file) ==>
      r.0 == Raised(HttpException(400, UsernameTaken))
    ensures r.0.Returned? ==>
      && r.1.Some?
      && r.1.value.Keys == LoadDb(file).Keys + {username}
      && |r.1.value| == |LoadDb(file)| + 1
      && r.1.value[username] == models.embed(image).value
      && forall u :: u in LoadDb(file) ==> r.1.value[u] == LoadDb(file)[u]
  {
    if !models.detect(image) then (Raised(HttpException(400, NoFaceByMtcnn)), file)
    else
      match models.embed(image)
      case None => (Raised(HttpException(400, NoFaceByArcFace)), file)
      case Some(embedding) =>
        var db := LoadDb(file);
        if username in db then (Raised(HttpException(400, UsernameTaken)), file)
        else (Returned(Enrolled("User '" + username + "' registered successfully.")), Some(db[username := embedding]))
  }

  /** The JSON file `face_embeddings.json`; `contents` is None while it does not exist. */
  class EmbeddingsFile {
    var contents: Option<Db>

    constructor (contents: Option<Db>)
      ensures this.contents == contents
    {
      this.contents := contents;
    }

    /** `save_db(db)`: the file now holds exactly `db`. */
    method SaveDb(db: Db)
      modifies this
      ensures contents == Some(db)
    {
      contents := Some(db);
    }

    /** `/register`: the HTTP answer and the file afterwards are those `Register` gives. */
    method RegisterUser(username: string, image: Bytes, models: FaceModels) returns (r: Response<Enrolled>)
      modifies this
      ensures r == PassHttpErrors(Register(old(contents), username, image, models).0)
      ensures contents == Register(old(contents), username, image, models).1
    {
      if !models.detect(image) {
        return PassHttpErrors(Raised(HttpException(400, NoFaceByMtcnn)));
      }
      var embedding := models.embed(image);
      if embedding.None? {
        return PassHttpErrors(Raised(HttpException(400, NoFaceByArcFace)));
      }
      var db := LoadDb(contents);
      if username in db {
        return PassHttpErrors(Raised(HttpException(400, UsernameTaken)));
      }
      db := db[username := embedding.value];
      SaveDb(db);
      r := Ok(Enrolled("User '" + username + "' registered successfully."));
    }
  }

  /** The body of a `/verify` answer (its "status" is "success"). */
  datatype Verification = Verification(username: string, similarityScore: real, matched: bool, message: string)

  /**
   * `/verify`: the claimed username is looked up first and an unknown one
   * is a 404 whatever the image; then the face is checked and compared with
   * the stored embedding, and it is a match exactly when the score reaches
   * the threshold. The answer echoes the username and the score, and its
   * message depends on the match flag alone.
   */
  function VerifyUser(file: Option<Db>, username: string, image: Bytes, models: FaceModels): (r: Response<Verification>)
    ensures r == Failed(404, UserNotFound) <==> username !in LoadDb(file)
    ensures username in LoadDb(file) && !models.detect(image) ==> r == Failed(400, NoFaceInVerification)
    ensures username in LoadDb(file) && models.detect(image) && models.embed(image).None? ==>
      r == Failed(400, NoFaceByArcFace)
    ensures r.Ok? <==> username in LoadDb(file) && models.detect(image) && models.embed(image).Some?
    ensures r.Ok? ==>
      && r.body.username == username
      && r.body.similarityScore == models.similarity(LoadDb(file)[username], models.embed(image).value)
      && (r.body.matched <==> r.body.similarityScore >= SimilarityThreshold)
      && r.body.message == (if r.body.matched then IdentityVerified else IdentityMismatch)
  {
    assert UserNotFound != NoFaceInVerification && UserNotFound != NoFaceByArcFace by {
      assert UserNotFound[0] != NoFaceInVerification[0] && UserNotFound[0] != NoFaceByArcFace[0];
    }
    PassHttpErrors(VerifyOutcome(file, username, image, models))
  }

  /**
   * The body of `verify_user`: what it returns or raises. Everything it raises
   * is an HTTPException, a 404 for an unknown username and a 400 otherwise.
   */
  function VerifyOutcome(file: Option<Db>, username: string, image: Bytes, models: FaceModels): (o: Outcome<Verification>)
    ensures o.Raised? ==> o.exc.HttpException?
    ensures o.Raised? ==> (o.exc.status == 404 <==> username !in LoadDb(file))
    ensures o.Raised? && username in LoadDb(file) ==> o.exc.status == 400
  {
    var db := LoadDb(file);
    if username !in db then Raised(HttpException(404, UserNotFound))
    else if !models.detect(image) then Raised(HttpException(400, NoFaceInVerification))
    else
      match models.embed(image)
      case None => Raised(HttpException(400, NoFaceByArcFace))
      case Some(embedding) =>
        var similarity := models.similarity(db[username], embedding);
        var isMatch := similarity >= SimilarityThreshold;
        Returned(Verification(username, similarity, isMatch, if isMatch then IdentityVerified else IdentityMismatch))
  }

  /** An unknown username gets the same 404 whatever the image and whatever the models do. */
  lemma UnknownUserIgnoresFace(file: Option<Db>, username: string, image: Bytes, models: FaceModels, image': Bytes, models': FaceModels)
    requires username !in LoadDb(file)
    ensures VerifyUser(file, username, image, models) == VerifyUser(file, username, image', models')
  {
  }

  /** A failed face check answers the same whatever the file holds: the store is not read. */
  lemma FaceFailureIgnoresStore(file: Option<Db>, file': Option<Db>, username: string, image: Bytes, models: FaceModels)
    requires !models.detect(image) || models.embed(image).None?
    ensures Register(file, username, image, models).0 == Register(file', username, image, models).0
  {
  }

  /**
   * Right after enrolling a username with an image, verifying that username
   * with the same image compares the embedding with itself; every other
   * username verifies exactly as before.
   */
  lemma RegisterThenVerify(file: Option<Db>, username: string, image: Bytes, models: FaceModels, other: string, image': Bytes)
    requires Register(file, username, image, models).0.Returned?
    ensures var after := Register(file, username, image, models).1;
      var e := models.embed(image).value;
      var s := models.similarity(e, e);
      && VerifyUser(after, username, image, models)
         == Ok(Verification(username, s, s >= SimilarityThreshold, if s >= SimilarityThreshold then IdentityVerified else IdentityMismatch))
      && (other != username ==> VerifyUser(after, other, image', models) == VerifyUser(file, other, image', models))
  {
  }
}
