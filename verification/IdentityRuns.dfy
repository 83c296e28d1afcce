/** Safety of sessions, one-time tokens and ownership over whole runs of the identity transactions. */
module IdentityRuns {
  import opened Basics
  import opened Identity
  import opened IdentityGuarantees

  // --------------------------------------------------- what time only adds to

  /** Sessions of tokens drawn before are old sessions, at most revoked meanwhile. */
  ghost predicate SessionsEvolve(a: Db, b: Db) {
    forall t :: t in b.sessions && t in a.issued ==>
      && t in a.sessions && a.sessions[t].expires == b.sessions[t].expires
      && a.sessions[t].user == b.sessions[t].user && (a.sessions[t].revoked ==> b.sessions[t].revoked)
  }

  ghost predicate InvitationsEvolve(a: Db, b: Db) {
    forall t :: t in b.invitations && t in a.issued ==>
      t in a.invitations && (a.invitations[t].accepted ==> b.invitations[t].accepted)
  }

  ghost predicate ResetsEvolve(a: Db, b: Db) {
    forall t :: t in b.resets && t in a.issued ==> t in a.resets && (a.resets[t].used ==> b.resets[t].used)
  }

  /** A recovery code drawn before is still its user's, or nobody's. */
  ghost predicate CodesEvolve(a: Db, b: Db) {
    forall u :: u in b.codes && b.codes[u] in a.drawn ==> u in a.codes && a.codes[u] == b.codes[u]
  }

  ghost predicate Evolves(a: Db, b: Db) {
    && a.issued <= b.issued && a.drawn <= b.drawn && a.now <= b.now
    && SessionsEvolve(a, b) && InvitationsEvolve(a, b) && ResetsEvolve(a, b) && CodesEvolve(a, b)
  }

  lemma EvolvesOnward(a: Db, b: Db, c: Db)
    requires Evolves(a, b) && Evolves(b, c)
    ensures Evolves(a, c)
  {
  }

  // -- the edits

  lemma NewSessionEvolves(db: Db, token: Token, user: UserId)
    requires token !in db.issued
    ensures Evolves(db, AddSession(db, token, user))
  {
  }

  lemma NewCodeEvolves(db: Db, user: UserId, code: string)
    requires code !in db.drawn
    ensures Evolves(db, SetCode(db, user, code))
  {
  }

  lemma RevocationEvolves(db: Db, user: UserId)
    ensures Evolves(db, db.(sessions := RevokeAll(db.sessions, user)))
  {
  }

  lemma DeletionEvolves(db: Db, gone: set<UserId>)
    ensures Evolves(db, DeleteUsers(db, gone))
  {
  }

  lemma NewInvitationEvolves(db: Db, token: Token, user: UserId)
    requires token !in db.issued
    ensures Evolves(db, AddInvitation(db, token, user))
  {
  }

  lemma NewResetEvolves(db: Db, token: Token, user: UserId)
    requires token !in db.issued
    ensures Evolves(db, AddReset(db.(resets := UseAll(db.resets, user)), token, user))
  {
  }

  lemma UsersDoNotMatter(a: Db, b: Db, c: Db)
    requires Evolves(a, b) && c == b.(users := c.users, known := c.known)
    ensures Evolves(a, c)
  {
  }

  // -- the transactions

  lemma CreateOwnerEvolves(db: Db, username: string, email: string, password: string, user: UserId, token: Token, code: string)
    requires token !in db.issued && code !in db.drawn
    ensures Evolves(db, CreateOwner(db, username, email, password, user, token, code).0)
  {
    var db1 := AddUser(db, user, User(username, Lower(email), Some(password), Owner, true));
    NewCodeEvolves(db1, user, code);
    NewSessionEvolves(SetCode(db1, user, code), token, user);
    EvolvesOnward(db1, SetCode(db1, user, code), AddSession(SetCode(db1, user, code), token, user));
  }

  lemma RecoverEvolves(db: Db, email: string, code: string, password: string, pick: UserId, newCode: string, token: Token)
    requires token !in db.issued && newCode !in db.drawn
    ensures Evolves(db, RecoverOwner(db, email, code, password, pick, newCode, token).0)
  {
    if pick in RecoveryCandidates(db, email) {
      var db1 := SetUser(db, pick, db.users[pick].(password := Some(password)));
      var db2 := db1.(sessions := RevokeAll(db1.sessions, pick));
      var db3 := SetCode(db2, pick, newCode);
      RevocationEvolves(db1, pick);
      NewCodeEvolves(db2, pick, newCode);
      NewSessionEvolves(db3, token, pick);
      EvolvesOnward(db1, db2, db3);
      EvolvesOnward(db1, db3, AddSession(db3, token, pick));
    }
  }

  lemma InviteEvolves(db: Db, smtp: bool, username: string, email: string, role: Role, user: UserId, token: Token)
    requires token !in db.issued
    ensures Evolves(db, Invite(db, smtp, username, email, role, user, token).0)
  {
    var db1 := DeleteUsers(db, Existing(db.users, username, email));
    var db2 := AddUser(db1, user, User(username, Lower(email), None, role, false));
    DeletionEvolves(db, Existing(db.users, username, email));
    UsersDoNotMatter(db, db1, db2);
    NewInvitationEvolves(db2, token, user);
    EvolvesOnward(db, db2, AddInvitation(db2, token, user));
  }

  lemma AcceptEvolves(db: Db, token: Token, password: string)
    ensures Evolves(db, AcceptInvitation(db, token, password).0)
  {
  }

  lemma UpdateEvolves(db: Db, user: UserId, role: Role, enabled: bool)
    ensures Evolves(db, UpdateUser(db, user, role, enabled).0)
  {
    var (after, reply) := UpdateUser(db, user, role, enabled);
    var revoked := db.(sessions := RevokeAll(db.sessions, user));
    RevocationEvolves(db, user);
    if reply.Accepted? && !enabled {
      UsersDoNotMatter(db, revoked, after);
    } else {
      assert Evolves(db, db);
      UsersDoNotMatter(db, db, after);
    }
  }

  lemma CompleteResetEvolves(db: Db, token: Token, password: string)
    ensures Evolves(db, CompleteReset(db, token, password).0)
  {
  }

  lemma LogoutEvolves(db: Db, token: Token)
    ensures Evolves(db, Logout(db, token)) && Evolves(db, Cleanup(db))
  {
  }

  lemma SessionOpEvolves(db: Db, op: Op)
    requires Drawn(db, op) && OfSessions(op)
    ensures Evolves(db, Apply(db, op).0)
  {
    match op
    case CreatingOwner(username, email, password, user, token, code) =>
      CreateOwnerEvolves(db, username, email, password, user, token, code);
    case LoggingIn(identifier, password, pick, token) => NewSessionEvolves(db, token, pick);
    case LoggingOut(token) => LogoutEvolves(db, token);
    case Recovering(email, code, password, pick, newCode, token) =>
      RecoverEvolves(db, email, code, password, pick, newCode, token);
    case Revoking(user) => RevocationEvolves(db, user);
    case CleaningUp => LogoutEvolves(db, 0);
  }

  lemma UserOpEvolves(db: Db, op: Op)
    requires Drawn(db, op) && !OfSessions(op)
    ensures Evolves(db, Apply(db, op).0)
  {
    match op
    case Inviting(smtp, username, email, role, user, token) =>
      InviteEvolves(db, smtp, username, email, role, user, token);
    case MailFailing(user) => DeletionEvolves(db, {user});
    case Accepting(token, password) => AcceptEvolves(db, token, password);
    case Updating(user, role, enabled) => UpdateEvolves(db, user, role, enabled);
    case RequestingReset(smtp, email, pick, token) => NewResetEvolves(db, token, pick);
    case CompletingReset(token, password) => CompleteResetEvolves(db, token, password);
  }

  lemma StepEvolves(db: Db, call: Call)
    requires Possible(db, call)
    ensures Evolves(db, Step(db, call).0)
  {
    var start := db.(now := call.at);
    assert Evolves(db, start);
    if OfSessions(call.op) {
      SessionOpEvolves(start, call.op);
    } else {
      UserOpEvolves(start, call.op);
    }
    EvolvesOnward(db, start, Step(db, call).0);
  }

  lemma {:induction false} RunEvolves(db: Db, calls: seq<Call>)
    requires PossibleRun(db, calls)
    ensures Evolves(db, Run(db, calls))
    decreases |calls|
  {
    if calls != [] {
      StepEvolves(db, calls[0]);
      RunEvolves(Step(db, calls[0]).0, calls[1..]);
      EvolvesOnward(db, Step(db, calls[0]).0, Run(db, calls));
    }
  }

  // -------------------------------------------------------------- sessions

  /**
   Session validity is a one-way gate: once `current_user` rejects a token that was issued, it
   rejects it in every later state and at every later reading, whatever happens to its user.
   */
  lemma RejectedForever(db: Db, token: Token, calls: seq<Call>, later: int)
    requires Inv(db) && PossibleRun(db, calls) && later >= Run(db, calls).now
    requires token in db.issued && CurrentUser(db, token, db.now).None?
    ensures CurrentUser(Run(db, calls), token, later).None?
  {
    RunEvolves(db, calls);
  }

  /** No session of `user` is valid at any reading, except perhaps that of `except`. */
  ghost predicate SessionsEnded(db: Db, user: UserId, except: set<Token>) {
    forall t :: t in db.sessions && db.sessions[t].user == user && t !in except ==> db.sessions[t].revoked
  }

  /** The transactions that end a user's sessions. */
  ghost predicate EndsSessions(db: Db, op: Op, user: UserId, except: set<Token>) {
    match op
    case Revoking(u) => u == user && except == {}
    case Updating(u, _, enabled) => u == user && !enabled && except == {}
    case CompletingReset(t, _) => t in db.resets && db.resets[t].user == user && except == {}
    case Recovering(_, _, _, pick, _, t) => pick == user && except == {t}
    case _ => false
  }

  lemma EndingTransaction(db: Db, call: Call, user: UserId, except: set<Token>)
    requires EndsSessions(db, call.op, user, except) && Step(db, call).1.Accepted?
    ensures SessionsEnded(Step(db, call).0, user, except)
  {
  }

  /**
   Right after revocation, disabling or reset completion no earlier session of the user is valid,
   after recovery only the new one is, and the earlier ones never become valid again.
   */
  lemma EarlierSessionsEndForGood(db: Db, call: Call, user: UserId, except: set<Token>,
                                  token: Token, calls: seq<Call>, later: int)
    requires Inv(db) && Possible(db, call) && Step(db, call).1.Accepted?
    requires EndsSessions(db, call.op, user, except)
    requires PossibleRun(Step(db, call).0, calls) && later >= Run(Step(db, call).0, calls).now
    requires token in db.sessions && db.sessions[token].user == user
    ensures CurrentUser(Run(Step(db, call).0, calls), token, later).None?
  {
    var after := Step(db, call).0;
    StepKeepsInv(db, call);
    StepEvolves(db, call);
    EndingTransaction(db, call, user, except);
    assert token !in except;
    RejectedForever(after, token, calls, later);
  }

  /** Logging out ends that session for good and no other. */
  lemma LogoutEndsSession(db: Db, call: Call, calls: seq<Call>, later: int, other: Token, at: int)
    requires Inv(db) && Possible(db, call) && call.op.LoggingOut? && call.op.token in db.issued
    requires PossibleRun(Step(db, call).0, calls) && later >= Run(Step(db, call).0, calls).now
    ensures CurrentUser(Run(Step(db, call).0, calls), call.op.token, later).None?
    ensures other != call.op.token ==> CurrentUser(Step(db, call).0, other, at) == CurrentUser(db, other, at)
  {
    var after := Step(db, call).0;
    StepKeepsInv(db, call);
    StepEvolves(db, call);
    RejectedForever(after, call.op.token, calls, later);
  }

  /** The user whom a transaction signs in. */
  ghost predicate SignsIn(op: Op, user: UserId, token: Token) {
    match op
    case CreatingOwner(_, _, _, u, t, _) => u == user && t == token
    case LoggingIn(_, _, pick, t) => pick == user && t == token
    case Recovering(_, _, _, pick, _, t) => pick == user && t == token
    case _ => false
  }

  /** The new session of a sign-in, and what it leaves of others' sessions. */
  lemma SignInOpens(db: Db, op: Op, user: UserId, token: Token)
    requires Inv(db) && Drawn(db, op) && SignsIn(op, user, token) && Apply(db, op).1.Accepted?
    ensures var after := Apply(db, op).0;
      && token in after.sessions && after.sessions[token] == Session(user, db.now + db.lifetime, false)
      && user in after.users && after.users[user].enabled
      && (forall other :: other in db.sessions && db.sessions[other].user != user ==>
            other in after.sessions && after.sessions[other] == db.sessions[other]
            && db.sessions[other].user in after.users
            && after.users[db.sessions[other].user] == db.users[db.sessions[other].user])
  {
    match op
    case CreatingOwner(username, email, password, u, t, code) =>
    case LoggingIn(identifier, password, pick, t) =>
    case Recovering(email, code, password, pick, newCode, t) =>
  }

  /** Signing in opens a session of that user for exactly the session lifetime; no one else's changes. */
  lemma SessionOpens(db: Db, call: Call, user: UserId, token: Token, later: int, other: Token)
    requires Inv(db) && Possible(db, call) && SignsIn(call.op, user, token) && Step(db, call).1.Accepted?
    ensures var after := Step(db, call).0;
      && (CurrentUser(after, token, later).Some? <==> later < call.at + db.lifetime)
      && (CurrentUser(after, token, later).Some? ==> CurrentUser(after, token, later).value.id == user)
      && (other in db.sessions && db.sessions[other].user != user ==>
            CurrentUser(after, other, later) == CurrentUser(db, other, later))
  {
    SignInOpens(db.(now := call.at), call.op, user, token);
  }

  // ------------------------------------------------------- one-time tokens

  /** Each invitation is accepted at most once, and never by a user who already has a password. */
  lemma InvitationWorksOnce(db: Db, call: Call, calls: seq<Call>, again: Call)
    requires Inv(db) && Possible(db, call) && call.op.Accepting? && Step(db, call).1.Accepted?
    requires PossibleRun(Step(db, call).0, calls)
    requires again.op.Accepting? && again.op.token == call.op.token
    ensures Pending(db.users[db.invitations[call.op.token].user])
    ensures Step(Run(Step(db, call).0, calls), again).1 == Refused(InvalidToken)
  {
    StepEvolves(db, call);
    RunEvolves(Step(db, call).0, calls);
  }

  lemma UsedForGood(db: Db, token: Token, calls: seq<Call>, again: Call)
    requires PossibleRun(db, calls) && token in db.issued && (token in db.resets ==> db.resets[token].used)
    requires again.op.CompletingReset? && again.op.token == token
    ensures Step(Run(db, calls), again).1 == Refused(InvalidToken)
  {
    RunEvolves(db, calls);
    UsedIsRefused(Run(db, calls), again);
  }

  lemma UsedIsRefused(db: Db, again: Call)
    requires again.op.CompletingReset? && (again.op.token in db.resets ==> db.resets[again.op.token].used)
    ensures Step(db, again).1 == Refused(InvalidToken)
  {
  }

  /** Each reset token completes at most once. */
  lemma ResetWorksOnce(db: Db, call: Call, calls: seq<Call>, again: Call)
    requires Inv(db) && Possible(db, call) && call.op.CompletingReset? && Step(db, call).1.Accepted?
    requires PossibleRun(Step(db, call).0, calls)
    requires again.op.CompletingReset? && again.op.token == call.op.token
    ensures Step(Run(Step(db, call).0, calls), again).1 == Refused(InvalidToken)
  {
    UsedForGood(Step(db, call).0, call.op.token, calls, again);
  }

  lemma RequestVoids(db: Db, smtp: bool, email: string, pick: UserId, drawn: Token, token: Token)
    requires drawn !in db.resets && drawn in RequestReset(db, smtp, email, pick, drawn).resets
    requires token in db.resets && db.resets[token].user == pick
    ensures var after := RequestReset(db, smtp, email, pick, drawn);
      token in after.resets && after.resets[token].used && db.issued <= after.issued
  {
  }

  /** A new request voids the user's earlier reset tokens for good. */
  lemma NewResetVoidsOld(db: Db, call: Call, token: Token, calls: seq<Call>, again: Call)
    requires Inv(db) && Possible(db, call) && call.op.RequestingReset?
    requires call.op.token in Step(db, call).0.resets
    requires token in db.resets && db.resets[token].user == call.op.pick
    requires PossibleRun(Step(db, call).0, calls)
    requires again.op.CompletingReset? && again.op.token == token
    ensures Step(Run(Step(db, call).0, calls), again).1 == Refused(InvalidToken)
  {
    RequestVoids(db.(now := call.at), call.op.smtp, call.op.email, call.op.pick, call.op.token, token);
    UsedForGood(Step(db, call).0, token, calls, again);
  }

  /** The token is gone, used or expired. */
  ghost predicate ResetDead(db: Db, token: Token) {
    token !in db.resets || db.resets[token].used || db.resets[token].expires <= db.now
  }

  /** In every later state and at every later reading the token is refused. */
  ghost predicate RefusedFromNowOn(db: Db, token: Token) {
    forall calls: seq<Call>, at: int, password: string ::
      PossibleRun(db, calls) && at >= Run(db, calls).now ==> ResetRefused(Run(db, calls), at, token, password)
  }

  ghost predicate ResetRefused(db: Db, at: int, token: Token, password: string) {
    Step(db, Call(at, CompletingReset(token, password))).1 == Refused(InvalidToken)
  }

  /** Expiry instants of reset tokens do not move. */
  ghost predicate ExpiriesStay(a: Db, b: Db) {
    forall t :: t in b.resets && t in a.issued && t in a.resets ==> b.resets[t].expires == a.resets[t].expires
  }

  lemma ApplyKeepsExpiries(db: Db, op: Op)
    requires Drawn(db, op)
    ensures ExpiriesStay(db, Apply(db, op).0)
  {
    match op
    case Inviting(smtp, username, email, role, user, token) =>
    case MailFailing(user) =>
    case RequestingReset(smtp, email, pick, token) =>
    case CompletingReset(token, password) =>
    case _ => assert Apply(db, op).0.resets == db.resets;
  }

  lemma {:induction false} DeadStaysDead(db: Db, token: Token, calls: seq<Call>)
    requires PossibleRun(db, calls) && token in db.issued && ResetDead(db, token)
    ensures token in Run(db, calls).issued && ResetDead(Run(db, calls), token)
    decreases |calls|
  {
    if calls != [] {
      StepEvolves(db, calls[0]);
      ApplyKeepsExpiries(db.(now := calls[0].at), calls[0].op);
      DeadStaysDead(Step(db, calls[0]).0, token, calls[1..]);
    }
  }

  lemma DeadIsRefused(db: Db, at: int, token: Token, password: string)
    requires ResetDead(db, token) && at >= db.now
    ensures ResetRefused(db, at, token, password)
  {
  }

  /** A live token of a disabled user comes back with the user: one update re-enables both. */
  lemma LiveResetComesBack(db: Db, token: Token, password: string) returns (calls: seq<Call>)
    requires Inv(db) && token in db.resets && !ResetDead(db, token)
    ensures PossibleRun(db, calls) && Run(db, calls).now == db.now
    ensures Step(Run(db, calls), Call(db.now, CompletingReset(token, password))).1.Accepted?
  {
    var user := db.resets[token].user;
    if db.users[user].enabled {
      calls := [];
    } else {
      var enable := Call(db.now, Updating(user, db.users[user].role, true));
      calls := [enable];
      assert calls[1..] == [] && PossibleRun(Step(db, enable).0, []);
      assert Run(db, calls) == Step(db, enable).0;
    }
  }

  /**
   Reset tokens, unlike sessions, are not a one-way gate: a refused token stays refused in every
   later state and at every later reading if and only if it is gone, used or expired. Refusal
   because the user is disabled is not final.
   */
  lemma ResetRefusedForGoodIff(db: Db, token: Token)
    requires Inv(db) && token in db.issued
    ensures RefusedFromNowOn(db, token) <==> ResetDead(db, token)
  {
    if ResetDead(db, token) {
      forall calls: seq<Call>, at: int, password: string | PossibleRun(db, calls) && at >= Run(db, calls).now
        ensures ResetRefused(Run(db, calls), at, token, password)
      {
        DeadStaysDead(db, token, calls);
        DeadIsRefused(Run(db, calls), at, token, password);
      }
    } else {
      var calls := LiveResetComesBack(db, token, "");
      assert !ResetRefused(Run(db, calls), db.now, token, "");
    }
  }

  /** The failing input: disabled, the token is refused; re-enabled in time, it is accepted. */
  lemma ResetRevivesWithUser(db: Db, token: Token, password: string, disable: Call, enable: Call)
    requires Inv(db) && Possible(db, disable) && disable.at <= enable.at
    requires token in db.resets && !db.resets[token].used && db.resets[token].expires > enable.at
    requires var u := db.resets[token].user;
      && db.users[u].enabled && db.users[u].role != Owner
      && disable.op == Updating(u, db.users[u].role, false) && enable.op == Updating(u, db.users[u].role, true)
    ensures var off := Step(db, disable).0;
      var on := Step(off, enable).0;
      && Step(off, Call(disable.at, CompletingReset(token, password))).1 == Refused(InvalidToken)
      && Step(on, Call(enable.at, CompletingReset(token, password))).1.Accepted?
  {
  }

  // -------------------------------------------------------------- passwords

  /** The transactions that set a password. */
  ghost predicate SetsPassword(db: Db, op: Op, user: UserId, password: string) {
    match op
    case CreatingOwner(_, _, pw, u, _, _) => u == user && pw == password
    case Accepting(t, pw) => t in db.invitations && db.invitations[t].user == user && pw == password
    case CompletingReset(t, pw) => t in db.resets && db.resets[t].user == user && pw == password
    case Recovering(_, _, pw, pick, _, _) => pick == user && pw == password
    case _ => false
  }

  lemma PasswordIsSet(db: Db, op: Op, user: UserId, password: string)
    requires Inv(db) && Drawn(db, op) && Apply(db, op).1.Accepted? && SetsPassword(db, op, user, password)
    ensures var users := Apply(db, op).0.users;
      user in users && users[user].enabled && users[user].password == Some(password)
  {
    match op
    case CreatingOwner(username, email, pw, u, t, code) =>
    case Accepting(t, pw) =>
    case CompletingReset(t, pw) =>
    case Recovering(email, code, pw, pick, newCode, t) =>
  }

  /** Nobody's code any more, and drawn, so it will not be anybody's again. */
  ghost predicate CodeSpent(db: Db, code: string) {
    code in db.drawn && forall u :: u in db.codes ==> db.codes[u] != code
  }

  lemma RecoverySpendsCode(db: Db, op: Op)
    requires Inv(db) && Drawn(db, op) && op.Recovering? && Apply(db, op).1.Accepted?
    ensures CodeSpent(Apply(db, op).0, op.code)
  {
  }

  /** Each recovery code works at most once in any run. */
  lemma RecoveryCodeWorksOnce(db: Db, call: Call, calls: seq<Call>, again: Call)
    requires Inv(db) && Possible(db, call) && call.op.Recovering? && Step(db, call).1.Accepted?
    requires PossibleRun(Step(db, call).0, calls)
    requires again.op.Recovering? && again.op.code == call.op.code
    ensures Step(Run(Step(db, call).0, calls), again).1 == Refused(InvalidCredentials)
  {
    RecoverySpendsCode(db.(now := call.at), call.op);
    RunEvolves(Step(db, call).0, calls);
    SpentIsRefused(Run(Step(db, call).0, calls), again);
  }

  lemma SpentIsRefused(db: Db, again: Call)
    requires again.op.Recovering? && CodeSpent(db, again.op.code)
    ensures Step(db, again).1 == Refused(InvalidCredentials)
  {
  }

  // ---------------------------------------------------------------- owners

  ghost predicate HasEnabledOwner(db: Db) {
    exists u :: u in db.users && db.users[u].role == Owner && db.users[u].enabled
  }

  lemma OneOfTwo(owners: set<UserId>, u: UserId) returns (other: UserId)
    requires |owners| > 1
    ensures other in owners && other != u
  {
    var rest := owners - {u};
    assert owners == rest || owners == rest + {u};
    other :| other in rest;
  }

  /** The row of an enabled user is still there, enabled and with its role. */
  ghost predicate RowKept(a: Db, b: Db, u: UserId) {
    u in a.users && u in b.users && b.users[u].enabled && b.users[u].role == a.users[u].role
  }

  lemma InviteKeepsRow(db: Db, smtp: bool, username: string, email: string, role: Role, user: UserId, token: Token, u: UserId)
    requires Inv(db) && user !in db.known && u in db.users && db.users[u].enabled
    ensures RowKept(db, Invite(db, smtp, username, email, role, user, token).0, u)
  {
  }

  lemma SessionOpKeepsRow(db: Db, op: Op, u: UserId)
    requires Inv(db) && Drawn(db, op) && OfSessions(op) && u in db.users && db.users[u].enabled
    ensures RowKept(db, Apply(db, op).0, u)
  {
    match op
    case CreatingOwner(username, email, password, user, token, code) =>
      assert u != user;
    case LoggingIn(identifier, password, pick, token) =>
    case LoggingOut(token) =>
    case Recovering(email, code, password, pick, newCode, token) =>
    case Revoking(user) =>
    case CleaningUp =>
  }

  lemma UserOpKeepsRow(db: Db, op: Op, u: UserId)
    requires Inv(db) && Drawn(db, op) && !OfSessions(op) && u in db.users && db.users[u].enabled
    requires !(op.Updating? && op.user == u)
    ensures RowKept(db, Apply(db, op).0, u)
  {
    match op
    case Inviting(smtp, username, email, role, user, token) =>
      InviteKeepsRow(db, smtp, username, email, role, user, token, u);
    case MailFailing(user) =>
    case Accepting(token, password) =>
    case Updating(user, role, enabled) =>
    case RequestingReset(smtp, email, pick, token) =>
    case CompletingReset(token, password) =>
  }

  /** Nothing but an update of the row itself changes the role of an enabled user or disables it. */
  lemma EnabledRowSurvives(db: Db, call: Call, u: UserId)
    requires Inv(db) && Possible(db, call) && u in db.users && db.users[u].enabled
    requires !(call.op.Updating? && call.op.user == u)
    ensures RowKept(db, Step(db, call).0, u)
  {
    if OfSessions(call.op) {
      SessionOpKeepsRow(db.(now := call.at), call.op, u);
    } else {
      UserOpKeepsRow(db.(now := call.at), call.op, u);
    }
  }

  /** No transaction removes the last enabled owner. */
  lemma StepKeepsOwner(db: Db, call: Call)
    requires Inv(db) && Possible(db, call) && HasEnabledOwner(db)
    ensures HasEnabledOwner(Step(db, call).0)
  {
    var u :| u in db.users && db.users[u].role == Owner && db.users[u].enabled;
    if call.op.Updating? && call.op.user == u {
      UpdateKeepsOwner(db.(now := call.at), u, call.op.role, call.op.enabled);
    } else {
      EnabledRowSurvives(db, call, u);
    }
  }

  lemma UpdateKeepsOwner(db: Db, u: UserId, role: Role, enabled: bool)
    requires u in db.users && db.users[u].role == Owner && db.users[u].enabled
    ensures HasEnabledOwner(UpdateUser(db, u, role, enabled).0)
  {
    var (after, reply) := UpdateUser(db, u, role, enabled);
    if reply.Accepted? && (role != Owner || !enabled) {
      var other := OneOfTwo(EnabledOwners(db.users), u);
      assert after.users[other] == db.users[other];
    } else {
      assert after.users[u].role == Owner && after.users[u].enabled;
    }
  }

  /** Once there is an enabled owner there is one in every reachable state. */
  lemma {:induction false} RunKeepsOwner(db: Db, calls: seq<Call>)
    requires Inv(db) && PossibleRun(db, calls) && HasEnabledOwner(db)
    ensures HasEnabledOwner(Run(db, calls))
    decreases |calls|
  {
    if calls != [] {
      StepKeepsOwner(db, calls[0]);
      StepKeepsInv(db, calls[0]);
      RunKeepsOwner(Step(db, calls[0]).0, calls[1..]);
    }
  }

  /** Setup succeeds at most once in any run. */
  lemma OwnerCreatedOnce(db: Db, call: Call, calls: seq<Call>, again: Call)
    requires Inv(db) && Possible(db, call) && call.op.CreatingOwner? && Step(db, call).1.Accepted?
    requires PossibleRun(Step(db, call).0, calls) && again.op.CreatingOwner?
    ensures Step(Run(Step(db, call).0, calls), again).1 == Refused(SetupCompleted)
    ensures HasEnabledOwner(Run(Step(db, call).0, calls))
  {
    var after := Step(db, call).0;
    StepKeepsInv(db, call);
    assert call.op.user in after.users && after.users[call.op.user].role == Owner && after.users[call.op.user].enabled;
    RunKeepsOwner(after, calls);
    var end := Run(after, calls);
    var u :| u in end.users && end.users[u].role == Owner && end.users[u].enabled;
  }

  // -------------------------------------------------------------- clean-up

  /** `b` is `a` without some sessions that have expired. */
  ghost predicate LacksOnlyExpired(a: Db, b: Db) {
    && b == a.(sessions := b.sessions)
    && (forall t :: t in b.sessions ==> t in a.sessions && b.sessions[t] == a.sessions[t])
    && (forall t :: t in a.sessions && t !in b.sessions ==> a.sessions[t].expires < a.now)
  }

  lemma AddIgnoresExpired(a: Db, b: Db, token: Token, user: UserId)
    requires LacksOnlyExpired(a, b) && token !in a.sessions
    ensures LacksOnlyExpired(AddSession(a, token, user), AddSession(b, token, user))
  {
  }

  lemma RevokeIgnoresExpired(a: Db, b: Db, user: UserId)
    requires LacksOnlyExpired(a, b)
    ensures LacksOnlyExpired(a.(sessions := RevokeAll(a.sessions, user)), b.(sessions := RevokeAll(b.sessions, user)))
  {
  }

  lemma DeleteIgnoresExpired(a: Db, b: Db, gone: set<UserId>)
    requires LacksOnlyExpired(a, b)
    ensures LacksOnlyExpired(DeleteUsers(a, gone), DeleteUsers(b, gone))
  {
  }

  lemma RecoverIgnoresExpired(a: Db, b: Db, email: string, code: string, password: string, pick: UserId,
                              newCode: string, token: Token)
    requires LacksOnlyExpired(a, b) && token !in a.sessions
    ensures RecoverOwner(a, email, code, password, pick, newCode, token).1
         == RecoverOwner(b, email, code, password, pick, newCode, token).1
    ensures LacksOnlyExpired(RecoverOwner(a, email, code, password, pick, newCode, token).0,
                             RecoverOwner(b, email, code, password, pick, newCode, token).0)
  {
    assert RecoveryCandidates(a, email) == RecoveryCandidates(b, email);
    if pick in RecoveryCandidates(a, email) {
      var row := a.users[pick].(password := Some(password));
      var a1, b1 := SetUser(a, pick, row), SetUser(b, pick, row);
      RevokeIgnoresExpired(a1, b1, pick);
      var a2 := SetCode(a1.(sessions := RevokeAll(a1.sessions, pick)), pick, newCode);
      var b2 := SetCode(b1.(sessions := RevokeAll(b1.sessions, pick)), pick, newCode);
      AddIgnoresExpired(a2, b2, token, pick);
    }
  }

  lemma CreateIgnoresExpired(a: Db, b: Db, username: string, email: string, password: string,
                             user: UserId, token: Token, code: string)
    requires LacksOnlyExpired(a, b) && token !in a.sessions
    ensures CreateOwner(a, username, email, password, user, token, code).1
         == CreateOwner(b, username, email, password, user, token, code).1
    ensures LacksOnlyExpired(CreateOwner(a, username, email, password, user, token, code).0,
                             CreateOwner(b, username, email, password, user, token, code).0)
  {
    var row := User(username, Lower(email), Some(password), Owner, true);
    AddIgnoresExpired(SetCode(AddUser(a, user, row), user, code), SetCode(AddUser(b, user, row), user, code), token, user);
  }

  lemma InviteIgnoresExpired(a: Db, b: Db, smtp: bool, username: string, email: string, role: Role,
                             user: UserId, token: Token)
    requires LacksOnlyExpired(a, b)
    ensures Invite(a, smtp, username, email, role, user, token).1 == Invite(b, smtp, username, email, role, user, token).1
    ensures LacksOnlyExpired(Invite(a, smtp, username, email, role, user, token).0,
                             Invite(b, smtp, username, email, role, user, token).0)
  {
    DeleteIgnoresExpired(a, b, Existing(a.users, username, email));
  }

  lemma UpdateIgnoresExpired(a: Db, b: Db, user: UserId, role: Role, enabled: bool)
    requires LacksOnlyExpired(a, b)
    ensures UpdateUser(a, user, role, enabled).1 == UpdateUser(b, user, role, enabled).1
    ensures LacksOnlyExpired(UpdateUser(a, user, role, enabled).0, UpdateUser(b, user, role, enabled).0)
  {
    if user in a.users {
      var row := a.users[user].(role := role, enabled := enabled);
      RevokeIgnoresExpired(SetUser(a, user, row), SetUser(b, user, row), user);
    }
  }

  lemma ResetIgnoresExpired(a: Db, b: Db, token: Token, password: string)
    requires LacksOnlyExpired(a, b)
    ensures CompleteReset(a, token, password).1 == CompleteReset(b, token, password).1
    ensures LacksOnlyExpired(CompleteReset(a, token, password).0, CompleteReset(b, token, password).0)
  {
    if token in a.resets && a.resets[token].user in a.users {
      var user := a.resets[token].user;
      var row := a.users[user].(password := Some(password));
      RevokeIgnoresExpired(SetUser(a, user, row), SetUser(b, user, row), user);
    }
  }

  lemma LoginIgnoresExpired(a: Db, b: Db, identifier: string, password: string, pick: UserId, token: Token)
    requires LacksOnlyExpired(a, b) && token !in a.sessions
    ensures Login(a, identifier, password, pick, token).1 == Login(b, identifier, password, pick, token).1
    ensures LacksOnlyExpired(Login(a, identifier, password, pick, token).0, Login(b, identifier, password, pick, token).0)
  {
    AddIgnoresExpired(a, b, token, pick);
  }

  lemma LogoutIgnoresExpired(a: Db, b: Db, token: Token)
    requires LacksOnlyExpired(a, b)
    ensures LacksOnlyExpired(Logout(a, token), Logout(b, token))
    ensures LacksOnlyExpired(Cleanup(a), Cleanup(b))
  {
  }

  lemma TokensIgnoreExpired(a: Db, b: Db, smtp: bool, email: string, pick: UserId, token: Token, password: string)
    requires LacksOnlyExpired(a, b)
    ensures LacksOnlyExpired(RequestReset(a, smtp, email, pick, token), RequestReset(b, smtp, email, pick, token))
    ensures AcceptInvitation(a, token, password).1 == AcceptInvitation(b, token, password).1
    ensures LacksOnlyExpired(AcceptInvitation(a, token, password).0, AcceptInvitation(b, token, password).0)
  {
  }

  lemma ApplyIgnoresExpired(a: Db, b: Db, op: Op)
    requires a.sessions.Keys <= a.issued && LacksOnlyExpired(a, b) && Drawn(a, op)
    ensures Apply(a, op).1 == Apply(b, op).1 && LacksOnlyExpired(Apply(a, op).0, Apply(b, op).0)
  {
    match op
    case CreatingOwner(username, email, password, user, token, code) =>
      CreateIgnoresExpired(a, b, username, email, password, user, token, code);
    case LoggingIn(identifier, password, pick, token) => LoginIgnoresExpired(a, b, identifier, password, pick, token);
    case LoggingOut(token) => LogoutIgnoresExpired(a, b, token);
    case Recovering(email, code, password, pick, newCode, token) =>
      RecoverIgnoresExpired(a, b, email, code, password, pick, newCode, token);
    case Inviting(smtp, username, email, role, user, token) =>
      InviteIgnoresExpired(a, b, smtp, username, email, role, user, token);
    case MailFailing(user) => DeleteIgnoresExpired(a, b, {user});
    case Accepting(token, password) => TokensIgnoreExpired(a, b, false, "", 0, token, password);
    case Updating(user, role, enabled) => UpdateIgnoresExpired(a, b, user, role, enabled);
    case Revoking(user) => RevokeIgnoresExpired(a, b, user);
    case RequestingReset(smtp, email, pick, token) => TokensIgnoreExpired(a, b, smtp, email, pick, token, "");
    case CompletingReset(token, password) => ResetIgnoresExpired(a, b, token, password);
    case CleaningUp => LogoutIgnoresExpired(a, b, 0);
  }

  /** Every transaction answers alike with and without those sessions and keeps the two alike. */
  lemma StepIgnoresExpired(a: Db, b: Db, call: Call)
    requires Inv(a) && LacksOnlyExpired(a, b) && Possible(a, call)
    ensures Step(a, call).1 == Step(b, call).1
    ensures LacksOnlyExpired(Step(a, call).0, Step(b, call).0)
  {
    var a', b' := a.(now := call.at), b.(now := call.at);
    ApplyIgnoresExpired(a', b', call.op);
  }

  lemma PossibleIgnoresExpired(a: Db, b: Db, call: Call)
    requires LacksOnlyExpired(a, b) && Possible(a, call)
    ensures Possible(b, call)
  {
    if call.op.Recovering? {
      assert RecoveryCandidates(a, call.op.email) == RecoveryCandidates(b, call.op.email);
    }
  }

  lemma {:induction false} RunIgnoresExpired(a: Db, b: Db, calls: seq<Call>)
    requires Inv(a) && LacksOnlyExpired(a, b) && PossibleRun(a, calls)
    ensures LacksOnlyExpired(Run(a, calls), Run(b, calls)) && PossibleRun(b, calls)
    decreases |calls|
  {
    if calls != [] {
      StepIgnoresExpired(a, b, calls[0]);
      PossibleIgnoresExpired(a, b, calls[0]);
      StepKeepsInv(a, calls[0]);
      RunIgnoresExpired(Step(a, calls[0]).0, Step(b, calls[0]).0, calls[1..]);
    }
  }

  /**
   Retention never changes an answer: had the clean-up not run, every later transaction would have
   replied the same and `current_user` would say the same of every token at every later reading.
   */
  lemma CleanupIsUnobservable(db: Db, calls: seq<Call>, next: Call, token: Token, later: int)
    requires Inv(db) && PossibleRun(db, calls) && Possible(Run(db, calls), next)
    requires later >= Run(db, calls).now
    ensures PossibleRun(Cleanup(db), calls)
    ensures CurrentUser(Run(Cleanup(db), calls), token, later) == CurrentUser(Run(db, calls), token, later)
    ensures Step(Run(Cleanup(db), calls), next).1 == Step(Run(db, calls), next).1
  {
    RunIgnoresExpired(db, Cleanup(db), calls);
    RunKeepsInv(db, calls);
    StepIgnoresExpired(Run(db, calls), Run(Cleanup(db), calls), next);
  }
}
