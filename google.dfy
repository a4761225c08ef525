/** GET /auth/google/callback: exchange the code, then, inside one database transaction, find
    the account linked to the Google identity or create an account and its `google` provider
    row; any failure inside the transaction rolls both inserts back. */
module GoogleCallback {
  import opened Common
  import opened Db

  datatype GoogleResult =
    | SignedIn(userId: UserId)   // redirect to the frontend with a signed token
    | MissingCode                // 400 Missing code from Google OAuth
    | TokenExchangeFailed        // 500 Google OAuth token exchange failed
    | OAuthFailed                // redirect with error=oauth_failed after ROLLBACK

  /** The fields of Google's userinfo response the handler reads. */
  datatype Profile = Profile(email: string, name: string, googleId: string)

  /** Which statement inside the transaction throws. */
  datatype Fault = NoFault | UserInsertFails | LinkInsertFails

  /** The committed result of a first sign-in: the new account and its provider row. */
  function Created(t: Tables, userId: UserId, p: Profile): Tables {
    t.(users := t.users[userId := ProvisionedAccount(p.name, p.email)],
       links := t.links + [AuthLink(userId, Google, p.googleId, None)])
  }

  /** `exchanged` is whether the token request succeeded; `userId` is the fresh UUID, and an id
      already in use makes the user insert fail on its primary key. */
  method Callback(db: Database, code: string, exchanged: bool, p: Profile, userId: UserId, fault: Fault)
    returns (r: GoogleResult)
    modifies db
    ensures code == [] ==> r == MissingCode
    ensures code != [] && !exchanged ==> r == TokenExchangeFailed
    ensures code != [] && exchanged && Linked(old(db.users), old(db.links), Google, p.googleId) ==>
              && r.SignedIn?
              && exists i :: 0 <= i < |old(db.links)| && LinkMatches(old(db.users), old(db.links)[i], Google, p.googleId)
                             && old(db.links)[i].userId == r.userId
    ensures code != [] && exchanged && !Linked(old(db.users), old(db.links), Google, p.googleId) ==>
              (r == SignedIn(userId) <==> userId !in old(db.users) && fault == NoFault)
              && (r != SignedIn(userId) ==> r == OAuthFailed)
    ensures r.SignedIn? && Linked(old(db.users), old(db.links), Google, p.googleId) ==> db.Snapshot() == old(db.Snapshot())
    ensures r.SignedIn? && !Linked(old(db.users), old(db.links), Google, p.googleId) ==>
              db.Snapshot() == Created(old(db.Snapshot()), userId, p)
    ensures !r.SignedIn? ==> db.Snapshot() == old(db.Snapshot())
  {
    if code == [] {
      return MissingCode;
    }
    if !exchanged {
      return TokenExchangeFailed;
    }
    // BEGIN: remember the tables for ROLLBACK.
    var users0, links0 := db.users, db.links;
    var existing := FindLinkedUser(db.users, db.links, Google, p.googleId);
    var id: UserId;
    var failed := false;
    if existing.Some? {
      id := existing.value;
    } else {
      id := userId;
      if userId in db.users || fault == UserInsertFails {
        failed := true;
      } else {
        db.users := db.users[userId := Account(p.name, p.email, 25, false, false, None, None)];
        if fault == LinkInsertFails {
          failed := true;
        } else {
          db.links := db.links + [AuthLink(userId, Google, p.googleId, None)];
        }
      }
    }
    if failed {
      db.users, db.links := users0, links0;
      return OAuthFailed;
    }
    // COMMIT
    return SignedIn(id);
  }

  /** After a first sign-in commits, the Google identity is linked, so every later callback for
      it takes the lookup branch and writes nothing. */
  lemma SecondSignInWritesNothing(t: Tables, userId: UserId, p: Profile)
    ensures var t' := Created(t, userId, p);
      Linked(t'.users, t'.links, Google, p.googleId)
  {
    var t' := Created(t, userId, p);
    assert LinkMatches(t'.users, t'.links[|t.links|], Google, p.googleId);
  }

  /** The callback never looks accounts up by email: a first Google sign-in whose email already
      belongs to another account creates a second account with that email. */
  lemma NoLinkingByEmail(t: Tables, other: UserId, userId: UserId, p: Profile)
    requires other in t.users && t.users[other].email == p.email && userId != other
    ensures var t' := Created(t, userId, p);
      other in t'.users && userId in t'.users && t'.users[other].email == t'.users[userId].email
  {
  }
}
