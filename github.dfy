/** GET /auth/github/callback: pick an email from GitHub's list, then find the account linked
    to the GitHub identity, else link the account that has that email, else create an account,
    and in the last two cases insert the `github` provider row. The statements run without a
    transaction, so a failing link insert leaves a created account behind. */
module GithubCallback {
  import opened Common
  import opened Db

  datatype GithubResult =
    | SignedIn(userId: UserId)   // redirect to the frontend with a signed token
    | OAuthFailed                // redirect to /login?error=oauth_failed

  /** One entry of GET /user/emails; an absent email is `None`. */
  datatype EmailEntry = EmailEntry(email: Option<string>, primary: bool, verified: bool)

  /** What the two GitHub reads return: `String(id)`, `name`, `login` and the email list. */
  datatype Profile = Profile(githubId: string, name: Option<string>, login: string, emails: seq<EmailEntry>)

  /** Which insert throws. */
  datatype Fault = NoFault | UserInsertFails | LinkInsertFails

  predicate PrimaryVerified(e: EmailEntry) {
    e.primary && e.verified
  }

  /** Index of the first primary and verified entry (`Array.find`), or `|es|` when none is. */
  function FirstPrimaryVerified(es: seq<EmailEntry>): (k: nat)
    ensures k <= |es|
    ensures k < |es| ==> PrimaryVerified(es[k])
    ensures forall j :: 0 <= j < k ==> !PrimaryVerified(es[j])
  {
    if es == [] then 0 else if PrimaryVerified(es[0]) then 0 else 1 + FirstPrimaryVerified(es[1..])
  }

  /** `find(primary && verified)?.email || data[0].email`; `None` when the list is empty, where
      `data[0].email` throws. */
  function ChooseEmail(es: seq<EmailEntry>): (c: Option<Option<string>>)
    ensures c.None? <==> es == []
    ensures c.Some? && Truthy(c.value) ==> exists k :: 0 <= k < |es| && es[k].email == c.value
    ensures var k := FirstPrimaryVerified(es);
      k < |es| && Truthy(es[k].email) ==> c == Some(es[k].email)
    ensures var k := FirstPrimaryVerified(es);
      es != [] && !(k < |es| && Truthy(es[k].email)) ==> c == Some(es[0].email)
  {
    var k := FirstPrimaryVerified(es);
    if k < |es| && Truthy(es[k].email) then Some(es[k].email)
    else if es == [] then None
    else Some(es[0].email)
  }

  /** `name || login`. */
  function UsernameOf(p: Profile): (u: string)
    ensures Truthy(p.name) ==> u == p.name.value
    ensures !Truthy(p.name) ==> u == p.login
  {
    if p.name.Some? && p.name.value != [] then p.name.value else p.login
  }

  /** `SELECT id FROM users WHERE email = ?`: some account with that email; a NULL email
      equals no row. */
  predicate EmailOwner(users: map<UserId, Account>, email: Option<string>, u: UserId) {
    email.Some? && u in users && users[u].email == email.value
  }

  function EmailIsQ(email: string): Account -> bool {
    (a: Account) => a.email == email
  }

  /** The `github` provider row for an account. */
  function WithLink(t: Tables, u: UserId, githubId: string): Tables {
    t.(links := t.links + [AuthLink(u, Github, githubId, None)])
  }

  /** The created account; a NULL email is stored as the empty string. */
  function WithAccount(t: Tables, userId: UserId, username: string, email: Option<string>): Tables {
    t.(users := t.users[userId := ProvisionedAccount(username, if email.Some? then email.value else "")])
  }

  /** `profile` is `None` when the token exchange or a GitHub read throws; `userId` is the fresh
      UUID, and an id already in use makes the user insert fail on its primary key. */
  method Callback(db: Database, profile: Option<Profile>, userId: UserId, fault: Fault)
    returns (r: GithubResult, ghost owner: Option<UserId>)
    modifies db
    ensures profile.None? || profile.value.emails == [] ==> r == OAuthFailed && db.Snapshot() == old(db.Snapshot())
    ensures profile.Some? && profile.value.emails != [] && Linked(old(db.users), old(db.links), Github, profile.value.githubId) ==>
              && r.SignedIn? && db.Snapshot() == old(db.Snapshot())
              && exists i :: 0 <= i < |old(db.links)|
                   && LinkMatches(old(db.users), old(db.links)[i], Github, profile.value.githubId)
                   && old(db.links)[i].userId == r.userId
    // Linking an existing account found by email.
    ensures owner.Some? <==>
              profile.Some? && profile.value.emails != [] && !Linked(old(db.users), old(db.links), Github, profile.value.githubId)
              && exists u :: EmailOwner(old(db.users), ChooseEmail(profile.value.emails).value, u)
    ensures owner.Some? ==>
              && EmailOwner(old(db.users), ChooseEmail(profile.value.emails).value, owner.value)
              && (fault == LinkInsertFails ==> r == OAuthFailed && db.Snapshot() == old(db.Snapshot()))
              && (fault != LinkInsertFails ==>
                    r == SignedIn(owner.value)
                    && db.Snapshot() == WithLink(old(db.Snapshot()), owner.value, profile.value.githubId))
    // Creating an account.
    ensures profile.Some? && profile.value.emails != [] && !Linked(old(db.users), old(db.links), Github, profile.value.githubId)
            && owner.None? ==>
              var p := profile.value;
              var created := WithAccount(old(db.Snapshot()), userId, UsernameOf(p), ChooseEmail(p.emails).value);
              && (r == SignedIn(userId) <==> userId !in old(db.users) && fault == NoFault)
              && (r != SignedIn(userId) ==> r == OAuthFailed)
              && (userId in old(db.users) || fault == UserInsertFails ==> db.Snapshot() == old(db.Snapshot()))
              && (userId !in old(db.users) && fault == LinkInsertFails ==> db.Snapshot() == created)
              && (r.SignedIn? ==> db.Snapshot() == WithLink(created, userId, p.githubId))
  {
    owner := None;
    if profile.None? {
      return OAuthFailed, owner;
    }
    var p := profile.value;
    var choice := ChooseEmail(p.emails);
    if choice.None? {
      return OAuthFailed, owner;
    }
    var email := choice.value;
    var username := if p.name.Some? && p.name.value != [] then p.name.value else p.login;
    var existing := FindLinkedUser(db.users, db.links, Github, p.githubId);
    if existing.Some? {
      return SignedIn(existing.value), owner;
    }
    var emailUser: Option<UserId> := None;
    if email.Some? {
      emailUser := FindUser(db.users, EmailIsQ(email.value));
    }
    ghost var noOwner := forall u :: !EmailOwner(db.users, email, u);
    assert emailUser.None? ==> noOwner;
    var id: UserId;
    if emailUser.Some? {
      id := emailUser.value;
      owner := emailUser;
      assert EmailOwner(db.users, email, id);
    } else {
      id := userId;
      assert noOwner;
      if userId in db.users || fault == UserInsertFails {
        return OAuthFailed, owner;
      }
      db.users := db.users[userId := Account(username, if email.Some? then email.value else "", 25, false, false, None, None)];
    }
    if fault == LinkInsertFails {
      return OAuthFailed, owner;
    }
    db.links := db.links + [AuthLink(id, Github, p.githubId, None)];
    return SignedIn(id), owner;
  }

  /** After either successful write path the GitHub identity is linked, so later callbacks for
      it take the lookup branch and write nothing. */
  lemma LinkedAfterSignIn(t: Tables, u: UserId, userId: UserId, username: string, email: Option<string>, githubId: string)
    ensures u in t.users ==>
      var t' := WithLink(t, u, githubId);
      Linked(t'.users, t'.links, Github, githubId)
    ensures var t' := WithLink(WithAccount(t, userId, username, email), userId, githubId);
      Linked(t'.users, t'.links, Github, githubId)
  {
    if u in t.users {
      var t' := WithLink(t, u, githubId);
      assert LinkMatches(t'.users, t'.links[|t.links|], Github, githubId);
    }
    var t' := WithLink(WithAccount(t, userId, username, email), userId, githubId);
    assert LinkMatches(t'.users, t'.links[|t.links|], Github, githubId);
  }

  /** When the link insert fails after the account insert, the new account has no provider row
      (given that every existing row points at an existing account), so the identity stays
      unlinked; a retry with a truthy email then finds that account by email and links it. */
  lemma OrphanAccountAfterLinkFailure(t: Tables, userId: UserId, username: string, email: Option<string>, githubId: string)
    requires userId !in t.users
    requires forall i :: 0 <= i < |t.links| ==> t.links[i].userId in t.users
    requires !Linked(t.users, t.links, Github, githubId)
    ensures var t' := WithAccount(t, userId, username, email);
      && (forall i :: 0 <= i < |t'.links| ==> t'.links[i].userId != userId)
      && !Linked(t'.users, t'.links, Github, githubId)
      && (email.Some? ==> EmailOwner(t'.users, email, userId))
  {
    var t' := WithAccount(t, userId, username, email);
    forall i | 0 <= i < |t'.links|
      ensures !LinkMatches(t'.users, t'.links[i], Github, githubId)
    {
      assert !LinkMatches(t.users, t.links[i], Github, githubId);
    }
  }

  /** The first primary verified email wins when it is present; an empty one falls back to the
      first entry's email, even when a later entry is primary and verified. */
  lemma EmailChoiceExamples(a: string, b: string)
    requires a != []
    ensures ChooseEmail([EmailEntry(Some(b), false, false), EmailEntry(Some(a), true, true)]) == Some(Some(a))
    ensures ChooseEmail([EmailEntry(Some(b), false, true), EmailEntry(Some(""), true, true), EmailEntry(Some(a), true, true)])
            == Some(Some(b))
  {
    var es1 := [EmailEntry(Some(b), false, false), EmailEntry(Some(a), true, true)];
    assert FirstPrimaryVerified(es1) == 1 by { assert es1[1..] == [EmailEntry(Some(a), true, true)]; }
    var es2 := [EmailEntry(Some(b), false, true), EmailEntry(Some(""), true, true), EmailEntry(Some(a), true, true)];
    assert FirstPrimaryVerified(es2) == 1 by { assert es2[1..][0] == EmailEntry(Some(""), true, true); }
  }
}
