/**
 * The server side of profile completion, and the two credential updates of the same
 * controller.
 *
 * `CompleteProfile` checks, in order, the caller's identity, the presence of every
 * field, the preference and every interest; then it uploads the profile picture and
 * each gallery picture; only then does it open a transaction, write the user row, the
 * picture rows and the interest associations, and commit. Any exception on the way
 * (a failed upload or a failing statement) leads to `ROLLBACK` and a generic 500.
 */
module UserController {
  import opened Wrappers
  import opened Database
  import opened Media

  // ---------------------------------------------------------------------------
  // Requests and responses
  // ---------------------------------------------------------------------------

  /**
   * The body of a completion request, as the controller reads it. The controller reads
   * the longitude under the key `longtitude`.
   */
  datatype CompletionRequest = CompletionRequest(
    biography: Option<string>,
    interests: Option<seq<string>>,
    latitude: Option<real>,
    longtitude: Option<real>,
    preferences: Option<string>,
    pictures: Option<seq<string>>,
    profilePicture: Option<string>,
    city: Option<string>,
    country: Option<string>)

  datatype Body =
    | Message(success: bool, message: string)
    | InvalidInterestsError(error: string, invalidInterests: seq<string>)

  datatype Response = Response(status: int, body: Body)

  /** `isValidPreference` and `isValidInterest`: membership in a closed set of values and in the tag vocabulary. */
  datatype Rules = Rules(preferences: set<string>, vocabulary: set<string>)

  const Unauthorized := Response(401, Message(false, "Unauthorized: User ID not found"))
  const FieldsRequired := Response(400, Message(false, "All fields are required"))
  const InvalidPreference := Response(400, Message(false, "invalid preference"))
  const ProfileCompleted := Response(200, Message(true, "Profile completed successfully"))
  const CompletionFailed := Response(500, Message(false, "An error occurred while completing the profile"))

  // ---------------------------------------------------------------------------
  // The guards of completeProfile
  // ---------------------------------------------------------------------------

  /** JavaScript truthiness of a string: defined and not empty. */
  predicate Truthy(s: Option<string>)
  {
    s.Some? && s.value != ""
  }

  /** JavaScript truthiness of a number: defined and not zero. */
  predicate NonZero(x: Option<real>)
  {
    x.Some? && x.value != 0.0
  }

  /**
   * The presence check: every string non-empty, both coordinates non-zero, and both
   * arrays defined; an array is truthy even when empty.
   */
  predicate FieldsPresent(req: CompletionRequest)
  {
    && Truthy(req.biography)
    && req.interests.Some?
    && NonZero(req.latitude)
    && NonZero(req.longtitude)
    && Truthy(req.preferences)
    && req.pictures.Some?
    && Truthy(req.profilePicture)
    && Truthy(req.city)
    && Truthy(req.country)
  }

  /** `interests.filter((interest) => !isValidInterest(interest))`. */
  function InvalidInterests(interests: seq<string>, vocabulary: set<string>): (r: seq<string>)
    ensures |r| <= |interests|
    ensures forall x :: x in r <==> x in interests && x !in vocabulary
  {
    if interests == [] then []
    else (if interests[0] in vocabulary then [] else [interests[0]]) + InvalidInterests(interests[1..], vocabulary)
  }

  /** The filter works element by element, so it keeps input order and every repetition. */
  lemma {:induction false} InvalidInterestsAppend(a: seq<string>, b: seq<string>, vocabulary: set<string>)
    ensures InvalidInterests(a + b, vocabulary) == InvalidInterests(a, vocabulary) + InvalidInterests(b, vocabulary)
  {
    if a == [] {
      assert a + b == b;
    } else {
      assert (a + b)[0] == a[0] && (a + b)[1..] == a[1..] + b;
      InvalidInterestsAppend(a[1..], b, vocabulary);
    }
  }

  /** The reply of the first guard that fails, or `None` when all of them pass. */
  function Rejection(userId: Option<string>, req: CompletionRequest, rules: Rules): Option<Response>
  {
    if !Truthy(userId) then Some(Unauthorized)
    else if !FieldsPresent(req) then Some(FieldsRequired)
    else if req.preferences.value !in rules.preferences then Some(InvalidPreference)
    else
      var invalid := InvalidInterests(req.interests.value, rules.vocabulary);
      if |invalid| > 0 then Some(Response(400, InvalidInterestsError("Invalid interests", invalid))) else None
  }

  /**
   * The guards in their order: a missing identity is a 401 whatever the body; then a
   * missing field is the one aggregate 400; then an invalid preference; then all the
   * invalid interests in one 400. The request goes on exactly when the identity is
   * there, every field is present, the preference is valid and every interest is in the
   * vocabulary.
   */
  lemma GuardOrder(userId: Option<string>, req: CompletionRequest, rules: Rules)
    ensures !Truthy(userId) ==> Rejection(userId, req, rules) == Some(Unauthorized)
    ensures Truthy(userId) && !FieldsPresent(req) ==> Rejection(userId, req, rules) == Some(FieldsRequired)
    ensures Truthy(userId) && FieldsPresent(req) && req.preferences.value !in rules.preferences ==>
      Rejection(userId, req, rules) == Some(InvalidPreference)
    ensures Truthy(userId) && FieldsPresent(req) && req.preferences.value in rules.preferences
            && (exists x :: x in req.interests.value && x !in rules.vocabulary) ==>
      Rejection(userId, req, rules) ==
        Some(Response(400, InvalidInterestsError("Invalid interests", InvalidInterests(req.interests.value, rules.vocabulary))))
    ensures Rejection(userId, req, rules).None? <==>
      && Truthy(userId) && FieldsPresent(req) && req.preferences.value in rules.preferences
      && (forall x :: x in req.interests.value ==> x in rules.vocabulary)
  {
    if Truthy(userId) && FieldsPresent(req) && req.preferences.value in rules.preferences {
      var invalid := InvalidInterests(req.interests.value, rules.vocabulary);
      if exists x :: x in req.interests.value && x !in rules.vocabulary {
        var x :| x in req.interests.value && x !in rules.vocabulary;
        assert x in invalid;
      }
      if |invalid| > 0 {
        assert invalid[0] in invalid;
      }
    }
  }

  /**
   * Truthiness as written: a latitude or longitude of 0, or a body without the key
   * `longtitude` (one that sends `longitude` instead), is rejected as a missing field.
   */
  lemma CoordinatesAsWritten(userId: Option<string>, req: CompletionRequest, rules: Rules)
    requires Truthy(userId)
    requires req.latitude == Some(0.0) || req.longtitude == Some(0.0) || req.longtitude.None?
    ensures Rejection(userId, req, rules) == Some(FieldsRequired)
  {
    assert !NonZero(req.latitude) || !NonZero(req.longtitude);
  }

  /** The controller checks presence only: empty picture and interest arrays pass every guard. */
  lemma EmptyArraysPassGuards(userId: Option<string>, req: CompletionRequest, rules: Rules)
    requires Truthy(userId) && FieldsPresent(req) && req.preferences.value in rules.preferences
    requires req.pictures == Some([]) && req.interests == Some([])
    ensures Rejection(userId, req, rules).None?
  {
  }

  /** Submitting `["hiking", "bogus1", "bogus2"]` against a vocabulary with `hiking` reports both bogus tags at once. */
  lemma InvalidInterestsExample(userId: Option<string>, req: CompletionRequest, rules: Rules)
    requires Truthy(userId) && FieldsPresent(req) && req.preferences.value in rules.preferences
    requires req.interests == Some(["hiking", "bogus1", "bogus2"])
    requires rules.vocabulary == {"hiking"}
    ensures Rejection(userId, req, rules) ==
      Some(Response(400, InvalidInterestsError("Invalid interests", ["bogus1", "bogus2"])))
  {
    var v := rules.vocabulary;
    var tags: seq<string> := ["hiking", "bogus1", "bogus2"];
    assert tags[1..] == ["bogus1", "bogus2"] && tags[1..][1..] == ["bogus2"] && tags[1..][1..][1..] == [];
    assert InvalidInterests(tags[1..][1..], v) == ["bogus2"] + InvalidInterests([], v);
    assert InvalidInterests(tags[1..], v) == ["bogus1"] + InvalidInterests(tags[1..][1..], v);
    assert InvalidInterests(tags, v) == InvalidInterests(tags[1..], v);
    assert ["bogus1"] + (["bogus2"] + []) == ["bogus1", "bogus2"];
    assert Rejection(userId, req, rules) == Some(Response(400, InvalidInterestsError("Invalid interests", InvalidInterests(tags, v))));
  }

  // ---------------------------------------------------------------------------
  // The transaction of completeProfile
  // ---------------------------------------------------------------------------

  /** The images to upload, profile picture first, then the gallery in order. */
  function Images(req: CompletionRequest): seq<string>
    requires FieldsPresent(req)
  {
    [req.profilePicture.value] + req.pictures.value
  }

  function ProfileUpdate(user: UserId, req: CompletionRequest, profileUrl: string): Stmt
    requires FieldsPresent(req)
  {
    UpdateUserInfo(req.biography.value, req.latitude.value, req.longtitude.value, req.preferences.value,
                   profileUrl, req.city.value, req.country.value, user)
  }

  /** The statements of the transaction, in the order they are issued. */
  function TransactionStatements(user: UserId, req: CompletionRequest, profileUrl: string, urls: seq<string>): seq<Stmt>
    requires FieldsPresent(req)
  {
    [Begin, ProfileUpdate(user, req, profileUrl), InsertPictures(user, urls), InsertInterests(user, req.interests.value), Commit]
  }

  /** The state a committed completion leaves. */
  function Completed(db: Db, user: UserId, req: CompletionRequest, profileUrl: string, urls: seq<string>): Db
    requires FieldsPresent(req)
  {
    Write(Write(Write(db, ProfileUpdate(user, req, profileUrl)), InsertPictures(user, urls)),
          InsertInterests(user, req.interests.value))
  }

  /** The position of the first statement that throws, or the length when none does. */
  function FirstThrowing(stmts: seq<Stmt>, throws: Stmt -> bool): (k: nat)
    ensures k <= |stmts|
    ensures forall i :: 0 <= i < k ==> !throws(stmts[i])
    ensures k < |stmts| ==> throws(stmts[k])
  {
    if stmts == [] then 0
    else if throws(stmts[0]) then 0
    else 1 + FirstThrowing(stmts[1..], throws)
  }

  /** `FirstThrowing` is the one position where every earlier statement succeeds and that one throws. */
  lemma {:induction false} FirstThrowingAt(stmts: seq<Stmt>, throws: Stmt -> bool, k: nat)
    requires k <= |stmts|
    requires forall i :: 0 <= i < k ==> !throws(stmts[i])
    requires k < |stmts| ==> throws(stmts[k])
    ensures FirstThrowing(stmts, throws) == k
  {
    if stmts != [] && k > 0 {
      assert !throws(stmts[0]);
      forall i | 0 <= i < k - 1
        ensures !throws(stmts[1..][i])
      {
        assert stmts[1..][i] == stmts[i + 1];
      }
      FirstThrowingAt(stmts[1..], throws, k - 1);
    }
  }

  /**
   * What a commit writes: the user's row gets the submitted fields, the uploaded profile
   * URL and `profile_completed`; no other row changes; one picture row per uploaded URL
   * is appended in order; and associations are added for exactly the tags of the
   * vocabulary table named in the request, leaving every existing one in place.
   */
  lemma CompletedRows(db: Db, user: UserId, req: CompletionRequest, profileUrl: string, urls: seq<string>)
    requires FieldsPresent(req)
    ensures var r := Completed(db, user, req, profileUrl, urls);
      && r.users.Keys == db.users.Keys
      && (user in db.users ==> r.users[user] == db.users[user].(
            biography := req.biography, latitude := req.latitude, longtitude := req.longtitude,
            profileCompleted := true, sexualPreferences := req.preferences,
            profilePicture := Some(profileUrl), city := req.city, country := req.country))
      && (forall u :: u in db.users && u != user ==> r.users[u] == db.users[u])
      && r.pictures == db.pictures + PictureRows(user, urls)
      && |r.pictures| == |db.pictures| + |urls|
      && r.interestTags == db.interestTags
      && db.interests <= r.interests
      && (forall a :: a in r.interests && a !in db.interests ==>
            a.0 == user && exists t :: t in db.interestTags && t in req.interests.value && a.1 == db.interestTags[t])
      && (forall t :: t in db.interestTags && t in req.interests.value ==> (user, db.interestTags[t]) in r.interests)
  {
  }

  /**
   * Committing the same completion twice adds no interest association the first did
   * not, and changes no user row further, but appends the picture rows a second time.
   */
  lemma ResubmissionAsymmetry(db: Db, user: UserId, req: CompletionRequest, profileUrl: string, urls: seq<string>)
    requires FieldsPresent(req)
    ensures var once := Completed(db, user, req, profileUrl, urls);
      var twice := Completed(once, user, req, profileUrl, urls);
      && twice.interests == once.interests
      && twice.users == once.users
      && twice.pictures == once.pictures + PictureRows(user, urls)
      && |twice.pictures| == |db.pictures| + 2 * |urls|
  {
    var once := Completed(db, user, req, profileUrl, urls);
    var twice := Completed(once, user, req, profileUrl, urls);
    CompletedRows(db, user, req, profileUrl, urls);
    CompletedRows(once, user, req, profileUrl, urls);
    assert TaggedWith(once, user, req.interests.value) == TaggedWith(db, user, req.interests.value);
  }

  /**
   * The transaction is all or nothing: stopping after any proper prefix of its
   * statements and rolling back leaves the session as it was, and running all of them
   * leaves the completed state with no transaction open.
   */
  lemma TransactionAllOrNothing(db: Db, user: UserId, req: CompletionRequest, profileUrl: string, urls: seq<string>, k: nat)
    requires FieldsPresent(req)
    requires k < 5
    ensures var stmts := TransactionStatements(user, req, profileUrl, urls);
      Exec(ExecAll(Session(db, None), stmts[..k]), Rollback) == Session(db, None)
    ensures ExecAll(Session(db, None), TransactionStatements(user, req, profileUrl, urls)) ==
      Session(Completed(db, user, req, profileUrl, urls), None)
  {
    var stmts := TransactionStatements(user, req, profileUrl, urls);
    var writes := stmts[1..4];
    assert stmts == [Begin] + writes + [Commit];
    CommitKeepsWrites(Session(db, None), writes);
    assert ExecAll(Session(db, None), writes).db == Completed(db, user, req, profileUrl, urls) by {
      var s0 := Session(db, None);
      var s1 := Exec(s0, writes[0]);
      var s2 := Exec(s1, writes[1]);
      var s3 := Exec(s2, writes[2]);
      assert writes[1..][1..][1..] == [];
      assert ExecAll(s0, writes) == ExecAll(s1, writes[1..]);
      assert ExecAll(s1, writes[1..]) == ExecAll(s2, writes[1..][1..]);
      assert ExecAll(s2, writes[1..][1..]) == ExecAll(s3, []);
    }
    if k == 0 {
      assert stmts[..k] == [];
    } else {
      var done := stmts[1..k];
      assert stmts[..k] == [Begin] + done;
      assert forall i :: 0 <= i < |done| ==> IsWrite(done[i]);
      RollbackUndoesWrites(Session(db, None), done);
      ExecAllAppend(Session(db, None), [Begin] + done, [Rollback]);
      ExecAllAppend(ExecAll(Session(db, None), [Begin] + done), [Rollback], []);
    }
  }

  // ---------------------------------------------------------------------------
  // completeProfile
  // ---------------------------------------------------------------------------

  /** The catch block: `ROLLBACK`, then the generic failure. */
  method Abort(conn: Connection) returns (resp: Response)
    requires !conn.throws(Rollback)
    modifies conn
    ensures resp == CompletionFailed
    ensures conn.log == old(conn.log) + [Rollback]
    ensures conn.snapshot.None?
    ensures conn.db == if old(conn.snapshot).Some? then old(conn.snapshot).value else old(conn.db)
  {
    var _ := conn.Execute(Rollback);
    resp := CompletionFailed;
  }

  /** The gallery loop: each picture uploaded in order, its URL pushed, until one throws. */
  method UploadGallery(uploader: Uploader, pictures: seq<string>) returns (urls: seq<string>)
    modifies uploader
    ensures urls == UploadPrefix(uploader.service, |old(uploader.calls)|, pictures)
    ensures uploader.calls ==
      old(uploader.calls) + pictures[..UploadCalls(uploader.service, |old(uploader.calls)|, pictures)]
  {
    ghost var start := |uploader.calls|;
    urls := [];
    var i := 0;
    while i < |pictures|
      invariant 0 <= i <= |pictures|
      invariant |urls| == i
      invariant uploader.calls == old(uploader.calls) + pictures[..i]
      invariant forall j :: 0 <= j < i ==> uploader.service(start + j, pictures[j]) == Some(urls[j])
    {
      var url := uploader.Upload(pictures[i]);
      assert pictures[..i + 1] == pictures[..i] + [pictures[i]];
      if url.None? {
        assert Collected(uploader.service, start, pictures, urls);
        UploadPrefixUnique(uploader.service, start, pictures, urls);
        return;
      }
      urls := urls + [url.value];
      i := i + 1;
    }
    assert pictures[..i] == pictures;
    assert Collected(uploader.service, start, pictures, urls);
    UploadPrefixUnique(uploader.service, start, pictures, urls);
  }

  /**
   * The statements of the try block, from `BEGIN` to `COMMIT`, issued in order until one
   * throws. `ok` says that none did; otherwise a transaction may be open, holding the
   * state from before `BEGIN`.
   */
  method RunTransaction(conn: Connection, user: UserId, req: CompletionRequest, profileUrl: string,
                        urls: seq<string>) returns (ok: bool)
    requires FieldsPresent(req)
    requires conn.snapshot.None?
    modifies conn
    ensures var stmts := TransactionStatements(user, req, profileUrl, urls);
      var k := FirstThrowing(stmts, conn.throws);
      && ok == (k == |stmts|)
      && conn.log == old(conn.log) + stmts[..if ok then k else k + 1]
      && (ok ==> conn.snapshot.None? && conn.db == Completed(old(conn.db), user, req, profileUrl, urls))
      && (!ok ==> conn.snapshot == Some(old(conn.db)) || (conn.snapshot.None? && conn.db == old(conn.db)))
  {
    ghost var stmts := TransactionStatements(user, req, profileUrl, urls);
    ghost var db0 := conn.db;
    // The number of statements that succeeded; when `ok` is false, `stmts[done]` threw.
    ghost var done := 0;

    ok := conn.Execute(Begin);
    if ok {
      done := 1;
      assert conn.snapshot == Some(db0) && conn.db == db0;
      ok := conn.Execute(ProfileUpdate(user, req, profileUrl));
      if ok {
        done := 2;
        assert conn.snapshot == Some(db0) && conn.db == Write(db0, stmts[1]);
        ok := conn.Execute(InsertPictures(user, urls));
        if ok {
          done := 3;
          ok := conn.Execute(InsertInterests(user, req.interests.value));
          if ok {
            done := 4;
            ok := conn.Execute(Commit);
            if ok {
              done := 5;
            }
          }
        }
      }
    }
    assert conn.log == old(conn.log) + stmts[..if ok then done else done + 1];
    FirstThrowingAt(stmts, conn.throws, done);
  }

  /** The try block and its catch: on any failure, `ROLLBACK` restores the state before `BEGIN`. */
  method CommitProfile(conn: Connection, user: UserId, req: CompletionRequest, profileUrl: string,
                       urls: seq<string>) returns (resp: Response)
    requires FieldsPresent(req)
    requires conn.snapshot.None? && !conn.throws(Rollback)
    modifies conn
    ensures conn.snapshot.None?
    ensures var stmts := TransactionStatements(user, req, profileUrl, urls);
      var k := FirstThrowing(stmts, conn.throws);
      && (k == |stmts| ==>
            && resp == ProfileCompleted
            && conn.log == old(conn.log) + stmts
            && conn.db == Completed(old(conn.db), user, req, profileUrl, urls))
      && (k < |stmts| ==>
            && resp == CompletionFailed
            && conn.log == old(conn.log) + stmts[..k + 1] + [Rollback]
            && conn.db == old(conn.db))
  {
    var ok := RunTransaction(conn, user, req, profileUrl, urls);
    if ok {
      assert TransactionStatements(user, req, profileUrl, urls)[..5] == TransactionStatements(user, req, profileUrl, urls);
      resp := ProfileCompleted;
    } else {
      resp := Abort(conn);
    }
  }

  /** When the profile picture's upload fails, nothing is collected and that one call was made. */
  lemma FirstUploadFails(service: (nat, string) -> Option<string>, start: nat, req: CompletionRequest)
    requires FieldsPresent(req)
    requires service(start, req.profilePicture.value).None?
    ensures UploadPrefix(service, start, Images(req)) == []
    ensures UploadCalls(service, start, Images(req)) == 1
    ensures Images(req)[..1] == [req.profilePicture.value]
  {
    assert Images(req)[0] == req.profilePicture.value;
  }

  /**
   * When it succeeds, uploading the profile picture and then the gallery is one
   * sequential upload of `Images`.
   */
  lemma FirstUploadSucceeds(service: (nat, string) -> Option<string>, start: nat, req: CompletionRequest)
    requires FieldsPresent(req)
    requires service(start, req.profilePicture.value).Some?
    ensures UploadPrefix(service, start, Images(req)) ==
      [service(start, req.profilePicture.value).value] + UploadPrefix(service, start + 1, req.pictures.value)
    ensures var n := UploadCalls(service, start + 1, req.pictures.value);
      && UploadCalls(service, start, Images(req)) == 1 + n
      && Images(req)[..1 + n] == [req.profilePicture.value] + req.pictures.value[..n]
  {
    assert Images(req)[0] == req.profilePicture.value && Images(req)[1..] == req.pictures.value;
  }

  /**
   * The upload phase: the profile picture, then the gallery loop; a failure of the
   * first upload skips the loop. The URLs are those of the images uploaded before the
   * first failure.
   */
  method UploadImages(uploader: Uploader, req: CompletionRequest) returns (urls: seq<string>)
    requires FieldsPresent(req)
    modifies uploader
    ensures urls == UploadPrefix(uploader.service, |old(uploader.calls)|, Images(req))
    ensures uploader.calls ==
      old(uploader.calls) + Images(req)[..UploadCalls(uploader.service, |old(uploader.calls)|, Images(req))]
  {
    ghost var start := |uploader.calls|;
    var profile := uploader.Upload(req.profilePicture.value);
    if profile.None? {
      FirstUploadFails(uploader.service, start, req);
      return [];
    }
    ghost var afterProfile := uploader.calls;
    var picturesUrls := UploadGallery(uploader, req.pictures.value);
    urls := [profile.value] + picturesUrls;
    ghost var n := UploadCalls(uploader.service, start + 1, req.pictures.value);
    assert uploader.calls == old(uploader.calls) + Images(req)[..1 + n] by {
      FirstUploadSucceeds(uploader.service, start, req);
      assert afterProfile == old(uploader.calls) + [req.profilePicture.value];
      assert uploader.calls == afterProfile + req.pictures.value[..n];
    }
    assert urls == UploadPrefix(uploader.service, start, Images(req)) by {
      FirstUploadSucceeds(uploader.service, start, req);
    }
    FirstUploadSucceeds(uploader.service, start, req);
  }

  /**
   * `completeProfile`. `userId` is `req.user?.id`; the fault oracle of `conn` never
   * fails a `ROLLBACK`, and the request starts outside any transaction.
   */
  method CompleteProfile(conn: Connection, uploader: Uploader, userId: Option<string>,
                         req: CompletionRequest, rules: Rules) returns (resp: Response)
    requires conn.snapshot.None? && !conn.throws(Rollback)
    modifies conn, uploader
    ensures conn.snapshot.None?
    // A failed guard replies before any upload or statement.
    ensures Rejection(userId, req, rules).Some? ==>
      && resp == Rejection(userId, req, rules).value
      && uploader.calls == old(uploader.calls)
      && conn.log == old(conn.log) && conn.db == old(conn.db)
    // Uploads come next, profile picture first, stopping at the first failure.
    ensures Rejection(userId, req, rules).None? ==>
      var start := |old(uploader.calls)|;
      && uploader.calls == old(uploader.calls) + Images(req)[..UploadCalls(uploader.service, start, Images(req))]
      && (!AllUploaded(uploader.service, start, Images(req)) ==>
            && resp == CompletionFailed
            && conn.log == old(conn.log) + [Rollback]
            && conn.db == old(conn.db))
      && (AllUploaded(uploader.service, start, Images(req)) ==>
            var urls := UploadPrefix(uploader.service, start, Images(req));
            var stmts := TransactionStatements(userId.value, req, urls[0], urls[1..]);
            var k := FirstThrowing(stmts, conn.throws);
            && (k == |stmts| ==>
                  && resp == ProfileCompleted
                  && conn.log == old(conn.log) + stmts
                  && conn.db == Completed(old(conn.db), userId.value, req, urls[0], urls[1..]))
            && (k < |stmts| ==>
                  && resp == CompletionFailed
                  && conn.log == old(conn.log) + stmts[..k + 1] + [Rollback]
                  && conn.db == old(conn.db)))
    // No statement but the catch block's ROLLBACK runs unless every upload succeeded, and BEGIN comes first.
    ensures |conn.log| > |old(conn.log)| + 1 ==>
      && Rejection(userId, req, rules).None?
      && AllUploaded(uploader.service, |old(uploader.calls)|, Images(req))
      && conn.log[|old(conn.log)|] == Begin
  {
    var rejected := Rejection(userId, req, rules);
    if rejected.Some? {
      GuardOrder(userId, req, rules);
      return rejected.value;
    }
    var urls := UploadImages(uploader, req);
    if |urls| < |Images(req)| {
      resp := Abort(conn);
      return;
    }
    resp := CommitProfile(conn, userId.value, req, urls[0], urls[1..]);
  }

  // ---------------------------------------------------------------------------
  // updateEmail and updatePassword
  // ---------------------------------------------------------------------------

  const EmailFieldsRequired := Response(400, Message(false, "Email and password are required"))
  const EmailInUse := Response(400, Message(false, "Email already in use"))
  const UserNotFound := Response(400, Message(false, "User not found"))
  const InvalidPassword := Response(400, Message(false, "Invalid password"))
  const EmailUpdated := Response(200, Message(true, "Email updated successfully"))
  const EmailUpdateFailed := Response(500, Message(false, "An error occurred while updating the email"))
  const PasswordUpdated := Response(200, Message(true, "Password updated successfully"))
  const PasswordUpdateFailed := Response(500, Message(false, "An error occurred while updating the password"))

  /**
   * The stored password checks out: the user's row exists, its password is not NULL
   * (`bcrypt.compare` throws on a NULL hash) and `compare` accepts the given password.
   */
  predicate PasswordMatches(db: Db, compare: (string, string) -> bool, userId: Option<string>, password: string)
  {
    && userId.Some? && userId.value in db.users
    && db.users[userId.value].password.Some?
    && compare(password, db.users[userId.value].password.value)
  }

  /** Every guard of `updateEmail` passes: both fields present, no row has that email, the password checks out. */
  predicate EmailChangeAllowed(db: Db, compare: (string, string) -> bool, userId: Option<string>,
                               email: Option<string>, password: Option<string>)
  {
    && Truthy(email) && Truthy(password)
    && UsersWithEmail(db, email.value) == {}
    && PasswordMatches(db, compare, userId, password.value)
  }

  /** Every guard of `updatePassword` passes: both fields present and the old password checks out. */
  predicate PasswordChangeAllowed(db: Db, compare: (string, string) -> bool, userId: Option<string>,
                                  oldPassword: Option<string>, newPassword: Option<string>)
  {
    && Truthy(oldPassword) && Truthy(newPassword)
    && PasswordMatches(db, compare, userId, oldPassword.value)
  }

  /**
   * `updateEmail`. `compare` is `bcrypt.compare`. Every reply of the handler is one of
   * its guards in order, and the row changes only when every guard passed and no
   * statement threw; there is no transaction, so nothing is rolled back.
   */
  method UpdateEmail(conn: Connection, compare: (string, string) -> bool, userId: Option<string>,
                     email: Option<string>, password: Option<string>) returns (resp: Response)
    modifies conn
    ensures conn.snapshot == old(conn.snapshot)
    ensures !Truthy(email) || !Truthy(password) ==> resp == EmailFieldsRequired && conn.log == old(conn.log)
    ensures Truthy(email) && Truthy(password) ==>
      var check := SelectIdByEmail(email.value);
      var lookup := SelectPassword(userId);
      var db := old(conn.db);
      if conn.throws(check) then
        resp == EmailUpdateFailed && conn.log == old(conn.log) + [check]
      else if UsersWithEmail(db, email.value) != {} then
        resp == EmailInUse && conn.log == old(conn.log) + [check]
      else if conn.throws(lookup) then
        resp == EmailUpdateFailed && conn.log == old(conn.log) + [check, lookup]
      else if userId.None? || userId.value !in db.users then
        resp == UserNotFound && conn.log == old(conn.log) + [check, lookup]
      else if db.users[userId.value].password.None? then
        resp == EmailUpdateFailed && conn.log == old(conn.log) + [check, lookup]
      else if !compare(password.value, db.users[userId.value].password.value) then
        resp == InvalidPassword && conn.log == old(conn.log) + [check, lookup]
      else
        var write := SetEmail(email.value, userId.value);
        && resp == (if conn.throws(write) then EmailUpdateFailed else EmailUpdated)
        && conn.log == old(conn.log) + [check, lookup, write]
    // The one write happens exactly on success, and only when every guard passed.
    ensures resp == EmailUpdated <==>
      && EmailChangeAllowed(old(conn.db), compare, userId, email, password)
      && !conn.throws(SelectIdByEmail(email.value)) && !conn.throws(SelectPassword(userId))
      && !conn.throws(SetEmail(email.value, userId.value))
    ensures conn.db == if resp == EmailUpdated then Write(old(conn.db), SetEmail(email.value, userId.value)) else old(conn.db)
  {
    if !Truthy(email) || !Truthy(password) {
      return EmailFieldsRequired;
    }
    var ok, ids := conn.SelectIdsByEmail(email.value);
    if !ok {
      return EmailUpdateFailed;
    }
    if |ids| > 0 {
      return EmailInUse;
    }
    assert ids == {};
    var rows;
    ok, rows := conn.SelectPasswordOf(userId);
    if !ok {
      return EmailUpdateFailed;
    }
    if |rows| == 0 {
      return UserNotFound;
    }
    var stored := rows[0];
    if stored.None? {
      // `bcrypt.compare` rejects a NULL hash.
      return EmailUpdateFailed;
    }
    if !compare(password.value, stored.value) {
      return InvalidPassword;
    }
    ok := conn.Execute(SetEmail(email.value, userId.value));
    resp := if ok then EmailUpdated else EmailUpdateFailed;
  }

  /**
   * `updatePassword`. `compare` is `bcrypt.compare` and `hash` is `bcrypt.hash` with its
   * salt rounds; as for the email, only a reply of success changes the row.
   */
  method UpdatePassword(conn: Connection, compare: (string, string) -> bool, hash: string -> string,
                        userId: Option<string>, oldPassword: Option<string>, newPassword: Option<string>)
    returns (resp: Response)
    modifies conn
    ensures conn.snapshot == old(conn.snapshot)
    ensures !Truthy(oldPassword) || !Truthy(newPassword) ==> resp == FieldsRequired && conn.log == old(conn.log)
    ensures Truthy(oldPassword) && Truthy(newPassword) ==>
      var lookup := SelectPassword(userId);
      var db := old(conn.db);
      if conn.throws(lookup) then
        resp == PasswordUpdateFailed && conn.log == old(conn.log) + [lookup]
      else if userId.None? || userId.value !in db.users then
        resp == UserNotFound && conn.log == old(conn.log) + [lookup]
      else if db.users[userId.value].password.None? then
        resp == PasswordUpdateFailed && conn.log == old(conn.log) + [lookup]
      else if !compare(oldPassword.value, db.users[userId.value].password.value) then
        resp == InvalidPassword && conn.log == old(conn.log) + [lookup]
      else
        var write := SetPassword(hash(newPassword.value), userId.value);
        && resp == (if conn.throws(write) then PasswordUpdateFailed else PasswordUpdated)
        && conn.log == old(conn.log) + [lookup, write]
    ensures resp == PasswordUpdated <==>
      && PasswordChangeAllowed(old(conn.db), compare, userId, oldPassword, newPassword)
      && !conn.throws(SelectPassword(userId)) && !conn.throws(SetPassword(hash(newPassword.value), userId.value))
    ensures conn.db ==
      if resp == PasswordUpdated then Write(old(conn.db), SetPassword(hash(newPassword.value), userId.value)) else old(conn.db)
  {
    if !Truthy(oldPassword) || !Truthy(newPassword) {
      return FieldsRequired;
    }
    var ok, rows := conn.SelectPasswordOf(userId);
    if !ok {
      return PasswordUpdateFailed;
    }
    if |rows| == 0 {
      return UserNotFound;
    }
    var stored := rows[0];
    if stored.None? {
      return PasswordUpdateFailed;
    }
    if !compare(oldPassword.value, stored.value) {
      return InvalidPassword;
    }
    var hashed := hash(newPassword.value);
    ok := conn.Execute(SetPassword(hashed, userId.value));
    resp := if ok then PasswordUpdated else PasswordUpdateFailed;
  }

  /** No two users share an email. */
  predicate EmailsUnique(db: Db)
  {
    forall u, v :: u in db.users && v in db.users && db.users[u].email == db.users[v].email ==> u == v
  }

  /**
   * An allowed email change keeps emails unique, and afterwards the user is the one row
   * with the new email.
   */
  lemma EmailChangeKeepsEmailsUnique(db: Db, compare: (string, string) -> bool, userId: Option<string>,
                                     email: Option<string>, password: Option<string>)
    requires EmailsUnique(db)
    requires EmailChangeAllowed(db, compare, userId, email, password)
    ensures var after := Write(db, SetEmail(email.value, userId.value));
      EmailsUnique(after) && UsersWithEmail(after, email.value) == {userId.value}
  {
    var user := userId.value;
    var after := Write(db, SetEmail(email.value, user));
    CredentialWritesTouchOneColumn(db, SetEmail(email.value, user));
    forall w | w in db.users && w != user
      ensures after.users[w].email != email.value
    {
      assert w !in UsersWithEmail(db, email.value);
    }
  }

  /** The uniqueness check does not exclude the caller's own row: re-submitting one's current email is refused. */
  lemma CurrentEmailRefused(db: Db, compare: (string, string) -> bool, user: UserId, password: Option<string>)
    requires user in db.users
    ensures !EmailChangeAllowed(db, compare, Some(user), Some(db.users[user].email), password)
  {
    assert user in UsersWithEmail(db, db.users[user].email);
  }

  /**
   * An allowed password change stores the new hash and nothing else; when `compare`
   * accepts every password against its own hash, the new password then checks out.
   */
  lemma PasswordChangeStoresHash(db: Db, compare: (string, string) -> bool, hash: string -> string,
                                 userId: Option<string>, oldPassword: Option<string>, newPassword: Option<string>)
    requires PasswordChangeAllowed(db, compare, userId, oldPassword, newPassword)
    requires forall p :: compare(p, hash(p))
    ensures var after := Write(db, SetPassword(hash(newPassword.value), userId.value));
      && after.users[userId.value] == db.users[userId.value].(password := Some(hash(newPassword.value)))
      && PasswordMatches(after, compare, userId, newPassword.value)
  {
    CredentialWritesTouchOneColumn(db, SetPassword(hash(newPassword.value), userId.value));
  }
}
