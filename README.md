# Face verification service: a verified model of its decision logic

The repository is a small face verification web service in two variants.

- **`main.py`, the SQL-backed variant.**
  - `/register` stores a user row holding a name and the JSON text of the face's embedding.
  - `/verify` identifies a face against every stored user (1:N).
  - The loop keeps the best similarity seen so far, starting at -1.0. It replaces the best only on a strictly greater score.
  - The fixed threshold 0.5 then decides match or no match.
  - An empty table gets a dedicated "Unknown (Database Empty)" answer.
  - `/health` reports the scheme of the configured database URL.
- **`face_auth_api.py`, the file-backed variant.**
  - It keeps a username-to-embedding map in a JSON file.
  - `/register` refuses a taken username and otherwise adds exactly one entry.
  - `/verify` looks up the claimed username first, so an unknown username is a 404 before any face work.
  - It then compares against the same inclusive 0.5 threshold (1:1).
- **`database.py`.**
  - It chooses the database URL: the environment variable or a local SQLite default, with `postgres://` rewritten to `postgresql://`.
  - It chooses SQLite's connect arguments.
  - It converts the embedding list to and from the JSON text of the `embedding_json` column.

The model is written in Dafny.

- **Face models.** The three pretrained capabilities, face detection, embedding extraction and cosine similarity, are function-valued fields of `FaceEngine.FaceModels`. Every handler is proved for every choice of them.
- **Embeddings.** An embedding is a sequence of decimal numbers (`Num(mantissa, exponent)`, the value `mantissa * 10^exponent`).
- **JSON text.** `Json.Dumps` and `Json.Loads` are a concrete writer and reader, with a proved round trip.
- **Handler results.** A handler body returns or raises (`Http.Outcome`). Two boundaries turn that into the HTTP response:
  - `main.py` catches every exception and re-raises it as a 500 (`Http.CatchAll`);
  - `face_auth_api.py` lets an `HTTPException` through and turns anything else into a 500 (`Http.PassHttpErrors`).
- **Imperative parts.** These follow the code's own form:
  - the 1:N loop is the method `MainApi.BestMatch`, proved against the function `MainApi.Scan`;
  - the SQL session is the class `Database.Session`, with an append-only row sequence and a key counter;
  - a table row is the class `Database.User`, whose `embeddingJson` field `SetEmbeddingList` overwrites;
  - the JSON file is the class `FaceAuthApi.EmbeddingsFile`, proved against the function `FaceAuthApi.Register`.

`Str` renders an `HTTPException` as `"<status>: <detail>"`, which is what Starlette's `HTTPException.__str__` gives. So in `main.py` a 400 raised inside the `try` reaches the client as status 500 with detail `"400: <detail>"`.

Files: `common.dfy` (Option), `strings.dfy` (prefix, search, replace, decimal text), `face_engine.dfy` (embeddings and face models), `json.dfy` (embedding JSON text), `http.dfy` (exceptions and responses), `database.dfy`, `main_api.dfy`, `face_auth_api.dfy`.

## Model

| member | source | states |
|---|---|---|
| Database.EnvOrDefault | database.py:9 | With no `DATABASE_URL` the URL is `sqlite:///./face_db.sqlite`. A set variable wins, even an empty one. |
| Database.NormalizeUrl | database.py:10-11 | A URL starting with `postgres://` becomes `postgresql://` followed by the unchanged remainder. Any other URL is unchanged. |
| Database.NormalizeUrlIdempotent | database.py:10-11 | Rewriting twice gives the same URL as rewriting once. |
| Database.DatabaseUrl | database.py:9-11 | The module-level `DATABASE_URL` after its rebinding. With no variable it is the SQLite default. A set variable is used as given, with a leading `postgres://` rewritten by `NormalizeUrl`. The result never has the `postgres://` scheme. `DefaultIsLocalSqlite` states the default case together with its connect arguments. |
| Database.DefaultIsLocalSqlite | database.py:9-14 | With no environment variable the URL is the SQLite default and the engine gets `check_same_thread=False`. |
| Database.ConnectArgsFor | database.py:14 | `check_same_thread=False` exactly when "sqlite" occurs somewhere in the URL, and no connect arguments otherwise. |
| Database.StoredEmbedding | database.py:31-34 | A NULL or empty `embedding_json` reads as the empty list (the empty-string guard). How other text reads back is stated by `StoredRoundTrip`. |
| Database.StoredRoundTrip | database.py:30-38 | The stored text of a list is never empty, so the empty guard never swallows it. It reads back as the same list. |
| Database.User.constructor | main.py:55 | A new user has the given name, no key yet and no embedding text. |
| Database.User.GetEmbeddingList | database.py:31-34 | The user's stored embedding, with NULL or empty text read as the empty list. |
| Database.User.SetEmbeddingList | database.py:37-38 | The column now holds the JSON text of the list, the key is untouched, and `get_embedding_list` then returns exactly that list. |
| Database.Session.constructor | database.py:40-41 | A fresh table has no rows, and its first key is 1, as SQLite and PostgreSQL integer keys start at 1. The key invariant holds. |
| Database.Session.AddAndCommit | main.py:59-61 | Add and commit append the user as the last row and give it the next key. Every key stays distinct, at least 1 and below the counter. |
| Json.Dumps | database.py:37-38 | The JSON array text of an embedding. It starts with "[" and ends with "]", so it is never empty. |
| Json.Loads | database.py:33 | `json.loads` on a stored text, with None the decoding error. Only a text starting with "[" decodes. `LoadsDumps` states what it reads back, and the "Json.Loads:" line under "## Left out" says how it differs from Python's reader. |
| Json.LoadsDumps | database.py:30-38 | Decoding the text `Dumps` writes gives back the same list, for every list. |
| Http.CatchAll | main.py:66-68 | A returned body is a 200 with that body. Every exception, an HTTPException included, is a 500 whose detail is `str(e)`. |
| Http.PassHttpErrors | face_auth_api.py:101-105 | An HTTPException keeps its own status and detail. Any other exception is a 500 with its message. A returned body passes unchanged. |
| Http.ClientErrorBecomesServerError | main.py:45-68 | A 400 raised inside a `main.py` handler reaches the client as a 500 with detail `"400: " + detail`. |
| MainApi.Scheme | main.py:30 | `split("://")[0]`: a prefix of the URL that ends right before the first "://", or the whole URL when it has none. |
| MainApi.HealthCheck | main.py:28-30 | The status is "System is running". The database field is `Scheme` of the URL, the text before its first "://": a prefix of the URL containing no "://". |
| MainApi.Scan | main.py:93-104 | The loop result. `highest` is at least every score and is -1.0 exactly when no best exists. Otherwise `highest` is the score at the best index, above -1.0 and strictly above every earlier score, so the first maximum wins. |
| MainApi.AllPresent | main.py:97-99 | The loop gets a decoded list exactly when every row's text decodes. That list agrees position by position with the rows. |
| MainApi.Decide | main.py:106-121 | A match exactly when some score reaches 0.5. Then the person is the first user holding the top score. Otherwise the person is "Unknown" and the top score is still reported. The similarity is the maximum of -1.0 and all scores. With no score above -1.0 the answer is (no match, "Unknown", -1.0). It is never the empty-table answer. |
| MainApi.Identify | main.py:75-121 | The try-body of `verify_face`. It returns exactly when both face checks pass and every stored embedding decodes, vacuously so for an empty table, and each HTTPException it raises is a 400. The answer itself is stated by `Decide`, `VerifyAnswers` and `EmptyTableSentinel`. |
| MainApi.EmptyTableSentinel | main.py:88-91 | With a face found, the answer is (no match, "Unknown (Database Empty)", 0.0) exactly when the table is empty, and the client receives it as a 200. It then does not depend on the similarity function, so no similarity is computed. |
| MainApi.VerifyAnswers | main.py:75-125 | What a client receives. Both no-face 400s arrive as 500s with detail `"400: …"`. For a non-empty table, an undecodable stored embedding is a 500, and otherwise the answer is the decision over every stored user. `EmptyTableSentinel` gives the answer for an empty table. |
| MainApi.BestMatch | main.py:93-104 | The loop stops exactly when some row's text fails to decode. Otherwise `highest_similarity` and `best_match` are `Scan`'s best score and the user at its index, or null when no best exists. |
| MainApi.VerifyFace | main.py:70-125 | The `/verify` response is the catch-all rendering of `Identify` over the session's rows. |
| MainApi.RegisterFace | main.py:32-68 | A missing face or embedding answers 500 with the rendered 400 and leaves the session untouched. A success appends exactly one fresh row with the given name, embedding and a new key, keeps earlier rows, and answers with the message and that key, which is at least 1. No name check is made. The key invariant is kept. |
| FaceAuthApi.LoadDb | face_auth_api.py:39-43 | A missing file reads as the empty map. An existing one reads as its contents. |
| FaceAuthApi.Register | face_auth_api.py:78-99 | It succeeds exactly when both face checks pass and the username is new. Each 400 has its own detail. A refusal raises a 400 and leaves the file as it was. A success writes the old map plus exactly one entry, username to the new embedding, with every other entry unchanged. |
| FaceAuthApi.EmbeddingsFile.SaveDb | face_auth_api.py:45-47 | The file now holds exactly the given map. |
| FaceAuthApi.EmbeddingsFile.RegisterUser | face_auth_api.py:78-105 | The response and the file afterwards are those `Register` gives, with HTTPExceptions passed through. |
| FaceAuthApi.VerifyUser | face_auth_api.py:107-141 | A 404 exactly when the username is not stored, whatever the image. The 400s are for no face and for no embedding. It succeeds exactly when the user exists and both face checks pass. Then the username is echoed, the score is the similarity of the stored and the new embedding, it is a match exactly when the score is at least 0.5, and the message is chosen by the match flag alone. |
| FaceAuthApi.VerifyOutcome | face_auth_api.py:109-135 | The try-body of `verify_user`. Everything it raises is an HTTPException: a 404 exactly when the username is unknown, and a 400 otherwise. The full answer is stated by `VerifyUser`. |
| FaceAuthApi.UnknownUserIgnoresFace | face_auth_api.py:111-113 | For an unknown username the answer depends neither on the image nor on the models. |
| FaceAuthApi.FaceFailureIgnoresStore | face_auth_api.py:82-92 | A failed face check gives the same outcome whatever the file holds, so the store is not read. |
| FaceAuthApi.RegisterThenVerify | face_auth_api.py:96-134 | After a successful registration, verifying that username with the same image compares the new embedding with itself. Every other username verifies exactly as before. |

## Left out

- Face detection, embedding extraction and cosine similarity (ml_engine.py:35-71, face_auth_api.py:60-66 and 126): pretrained models and floating-point numerics. They are parameters of every handler, and nothing is assumed about them, not even the symmetry or self-similarity of cosine similarity.
- Image decoding with PIL and cv2, and the exceptions it raises on bad input (ml_engine.py:20-33, face_auth_api.py:50-58): library calls. An image is an opaque byte sequence.
- Embedding normalisation by its norm (ml_engine.py:58, face_auth_api.py:65): float division, part of the abstract embedding function.
- Float values in embeddings and scores: components are exact decimals and scores are reals, so NaN, infinities and rounding are not modelled.
- Similarity of embeddings of different lengths: the source raises here, and the model gives a score instead. `calculate_similarity` raises at ml_engine.py:71 (numpy's `np.dot`), and `cosine_similarity` raises at face_auth_api.py:126 (sklearn). One visible path: a main.py row whose `embedding_json` is NULL or "" reads as `[]` (database.py:32-34). The source then fails on that row and answers 500 (main.py:123-125), while `MainApi.Identify` scores the row with the abstract similarity function.
- Json.Dumps: writes each number as `<mantissa>e<exponent>` rather than Python's shortest float text, and separates items with "," where `json.dumps` writes ", ". Only the round trip of the written text is modelled.
- Json.Loads: reads back every text `Dumps` writes, but is not Python's JSON reader. It also accepts some texts Python rejects, such as a leading zero (`[01e0]`). It rejects texts Python reads, such as whitespace, fractions and the ", " separator. Its failures all carry the message "Expecting value" instead of `json.loads`' own message, which varies with the failure ("Expecting ',' delimiter", "Extra data", …).
- face_auth_api.py's JSON file: read and write failures, and a file whose contents are not a map of lists, are not modelled (face_auth_api.py:42-47). The file is either missing or holds a map.
- SQLAlchemy engine, session lifetime and close (database.py:14-17, 40-48): library plumbing. Key generation is a counter in `Database.Session` that starts at 1.
- The query order of `db.query(User).all()`: no ORDER BY is given, so the model takes insertion order.
- A failing commit or query is not modelled.
- The constant field `"status": "success"` is left out of the body datatypes. It appears in all three `/verify` answers of main.py (main.py:91, 109-114, 116-121) and in both answers of face_auth_api.py (face_auth_api.py:99, 129-135). main.py's `/register` answer has no such field (main.py:64).
- Concurrent requests: each handler is modelled as running alone. face_auth_api.py's `load_db` then `save_db` is a read-modify-write that two workers could interleave, losing one registration (face_auth_api.py:92-97). Concurrent commits to the SQL session are not modelled either.
- FastAPI routing, form parsing, CORS, `FileResponse` for `/`, async file reading, uvicorn startup and `print` logging: framework glue and I/O.
