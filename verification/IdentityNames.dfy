/**
 Names over whole runs. The routes (app/web/auth_routes.py, app/web/identity_routes.py) let no '@'
 into a user name, want one in an address and let only a signed-in owner invite. Then names stay
 unique whatever their case, and a login identifier never means two users.
 */
module IdentityNames {
  import opened Basics
  import opened Identity
  import opened IdentityGuarantees
  import opened IdentityRuns

  /** What the routes let through to the services. */
  ghost predicate Routed(db: Db, op: Op) {
    match op
    case CreatingOwner(username, email, _, _, _, _) => '@' !in username && '@' in email
    case Inviting(_, username, email, _, _, _) => '@' !in username && '@' in email && HasEnabledOwner(db)
    case _ => true
  }

  ghost predicate RoutedRun(db: Db, calls: seq<Call>)
    decreases |calls|
  {
    calls == []
    || (Possible(db, calls[0]) && Routed(db, calls[0].op) && RoutedRun(Step(db, calls[0]).0, calls[1..]))
  }

  // ------------------------------------------------------------------ folding

  lemma {:induction false} LowerTwice(s: string)
    ensures Lower(Lower(s)) == Lower(s)
  {
    if s != "" {
      LowerTwice(s[1..]);
      assert Lower(s)[1..] == Lower(s[1..]);
    }
  }

  lemma {:induction false} LowerKeepsAt(s: string)
    ensures '@' in Lower(s) <==> '@' in s
  {
    if s != "" {
      LowerKeepsAt(s[1..]);
      assert s == [s[0]] + s[1..];
    }
  }

  /** Folding makes capital ASCII letters small, each in its place, and nothing else. */
  lemma {:induction false} LowerLetter(s: string, i: nat)
    requires i < |s|
    ensures |Lower(s)| == |s|
    ensures Lower(s)[i] as int == if 65 <= s[i] as int <= 90 then s[i] as int + 32 else s[i] as int
  {
    if |s| > 1 {
      LowerLetter(s[1..], if i == 0 then 0 else i - 1);
    }
  }

  // ---------------------------------------------------------------- invariant

  predicate Apart(a: User, b: User) {
    Lower(a.username) != Lower(b.username) && Lower(a.email) != Lower(b.email)
  }

  /** No '@' in a folded user name, one in a folded address, and no two users alike in either. */
  ghost predicate NamesOk(users: map<UserId, User>) {
    && (forall u :: u in users ==> '@' !in Lower(users[u].username) && '@' in Lower(users[u].email))
    && (forall u, v :: u in users && v in users && u != v ==> Apart(users[u], users[v]))
  }

  /** Nobody, or an enabled owner among them. */
  ghost predicate Owned(db: Db) {
    db.users == map[] || HasEnabledOwner(db)
  }

  /** Users may go and their rows may change, but not their names. */
  ghost predicate NamesFrom(before: map<UserId, User>, after: map<UserId, User>) {
    forall u :: u in after ==>
      u in before && after[u].username == before[u].username && after[u].email == before[u].email
  }

  lemma NamesStayOk(before: map<UserId, User>, after: map<UserId, User>)
    requires NamesOk(before) && NamesFrom(before, after)
    ensures NamesOk(after)
  {
  }

  lemma NewNameIsOk(users: map<UserId, User>, user: UserId, row: User)
    requires NamesOk(users) && '@' !in Lower(row.username) && '@' in Lower(row.email)
    requires forall u :: u in users ==> Apart(users[u], row)
    ensures NamesOk(users[user := row])
  {
  }

  lemma SessionOpKeepsNames(db: Db, op: Op)
    requires OfSessions(op) && !op.CreatingOwner?
    ensures NamesFrom(db.users, Apply(db, op).0.users)
  {
    match op
    case LoggingIn(identifier, password, pick, token) =>
    case LoggingOut(token) =>
    case Recovering(email, code, password, pick, newCode, token) =>
    case Revoking(user) =>
    case CleaningUp =>
  }

  lemma UserOpKeepsNames(db: Db, op: Op)
    requires !OfSessions(op) && !op.Inviting?
    ensures NamesFrom(db.users, Apply(db, op).0.users)
  {
    match op
    case MailFailing(user) =>
    case Accepting(token, password) =>
    case Updating(user, role, enabled) => UpdateKeepsNames(db, user, role, enabled);
    case RequestingReset(smtp, email, pick, token) =>
    case CompletingReset(token, password) => CompleteKeepsNames(db, token, password);
  }

  lemma UpdateKeepsNames(db: Db, user: UserId, role: Role, enabled: bool)
    ensures NamesFrom(db.users, UpdateUser(db, user, role, enabled).0.users)
  {
  }

  lemma CompleteKeepsNames(db: Db, token: Token, password: string)
    ensures NamesFrom(db.users, CompleteReset(db, token, password).0.users)
  {
  }

  lemma InviteKeepsNames(db: Db, smtp: bool, username: string, email: string, role: Role, user: UserId, token: Token)
    requires NamesOk(db.users) && '@' !in username && '@' in email
    ensures NamesOk(Invite(db, smtp, username, email, role, user, token).0.users)
  {
    var (after, reply) := Invite(db, smtp, username, email, role, user, token);
    if reply.Accepted? {
      var rest := DeleteUsers(db, Existing(db.users, username, email)).users;
      var row := User(username, Lower(email), None, role, false);
      NamesStayOk(db.users, rest);
      LowerTwice(email);
      LowerKeepsAt(username);
      LowerKeepsAt(email);
      forall u | u in rest ensures Apart(rest[u], row) {
        assert u in db.users && u !in Existing(db.users, username, email);
      }
      NewNameIsOk(rest, user, row);
    }
  }

  lemma CreateKeepsNames(db: Db, username: string, email: string, password: string, user: UserId, token: Token, code: string)
    requires NamesOk(db.users) && Owned(db) && '@' !in username && '@' in email
    ensures NamesOk(CreateOwner(db, username, email, password, user, token, code).0.users)
  {
    if db.users == map[] {
      LowerTwice(email);
      LowerKeepsAt(username);
      LowerKeepsAt(email);
      NewNameIsOk(db.users, user, User(username, Lower(email), Some(password), Owner, true));
    }
  }

  lemma ApplyKeepsNames(db: Db, op: Op)
    requires NamesOk(db.users) && Owned(db) && Routed(db, op)
    ensures NamesOk(Apply(db, op).0.users)
  {
    match op
    case CreatingOwner(username, email, password, user, token, code) =>
      CreateKeepsNames(db, username, email, password, user, token, code);
    case Inviting(smtp, username, email, role, user, token) =>
      InviteKeepsNames(db, smtp, username, email, role, user, token);
    case _ =>
      if OfSessions(op) {
        SessionOpKeepsNames(db, op);
      } else {
        UserOpKeepsNames(db, op);
      }
      NamesStayOk(db.users, Apply(db, op).0.users);
  }

  lemma FirstUserIsOwner(db: Db, op: Op)
    requires db.users == map[] && Routed(db, op)
    ensures Owned(Apply(db, op).0)
  {
    if op.CreatingOwner? {
      var after := Apply(db, op).0;
      assert op.user in after.users && after.users[op.user].role == Owner && after.users[op.user].enabled;
    } else if OfSessions(op) {
      SessionOpKeepsNames(db, op);
    } else {
      UserOpKeepsNames(db, op);
    }
  }

  lemma StepKeepsOwned(db: Db, call: Call)
    requires Inv(db) && Owned(db) && Possible(db, call) && Routed(db, call.op)
    ensures Owned(Step(db, call).0)
  {
    if db.users == map[] {
      FirstUserIsOwner(db.(now := call.at), call.op);
    } else {
      StepKeepsOwner(db, call);
    }
  }

  ghost predicate Reachable(db: Db) {
    Inv(db) && NamesOk(db.users) && Owned(db)
  }

  lemma {:induction false} RunKeepsNames(db: Db, calls: seq<Call>)
    requires Reachable(db) && RoutedRun(db, calls)
    ensures Reachable(Run(db, calls))
    decreases |calls|
  {
    if calls != [] {
      var call := calls[0];
      StepKeepsInv(db, call);
      ApplyKeepsNames(db.(now := call.at), call.op);
      StepKeepsOwned(db, call);
      RunKeepsNames(Step(db, call).0, calls[1..]);
    }
  }

  // ------------------------------------------------------------- main results

  lemma NamedOnce(users: map<UserId, User>, identifier: string, u: UserId, v: UserId)
    requires NamesOk(users) && u in LoginCandidates(users, identifier) && v in LoginCandidates(users, identifier)
    ensures u == v
  {
    if '@' in Lower(identifier) {
      assert Lower(users[u].email) == Lower(identifier) == Lower(users[v].email);
    } else {
      assert Lower(users[u].username) == Lower(identifier) == Lower(users[v].username);
    }
  }

  /**
   In every state that the routes can reach from the tables before setup, a login identifier and
   an address for reset or recovery mean at most one user, whatever row the query returns first.
   */
  lemma IdentifierMeansOneUser(lifetime: nat, now: int, calls: seq<Call>, identifier: string, u: UserId, v: UserId)
    requires RoutedRun(EmptyDb(lifetime, now), calls)
    ensures var db := Run(EmptyDb(lifetime, now), calls);
      && (u in LoginCandidates(db.users, identifier) && v in LoginCandidates(db.users, identifier) ==> u == v)
      && (u in EnabledByEmail(db.users, identifier) && v in EnabledByEmail(db.users, identifier) ==> u == v)
      && (u in RecoveryCandidates(db, identifier) && v in RecoveryCandidates(db, identifier) ==> u == v)
  {
    RunKeepsNames(EmptyDb(lifetime, now), calls);
    var users := Run(EmptyDb(lifetime, now), calls).users;
    if u in LoginCandidates(users, identifier) && v in LoginCandidates(users, identifier) {
      NamedOnce(users, identifier, u, v);
    }
  }

  lemma LoginByName(db: Db, user: UserId, identifier: string, tried: string, pick: UserId, token: Token)
    requires NamesOk(db.users) && user in db.users && db.users[user].enabled
    requires identifier in {db.users[user].username, db.users[user].email}
    requires Drawn(db, LoggingIn(identifier, tried, pick, token))
    ensures Login(db, identifier, tried, pick, token).1
         == if db.users[user].password == Some(tried) then Accepted else Refused(InvalidCredentials)
  {
    assert user in LoginCandidates(db.users, identifier);
    NamedOnce(db.users, identifier, user, pick);
  }

  /**
   After any run and a transaction that sets a user's password, logging in by user name or address
   succeeds with the new password and with no other, whatever row the query returns first.
   */
  lemma PasswordTakesEffect(lifetime: nat, now: int, calls: seq<Call>, call: Call, user: UserId, password: string,
                            login: Call)
    requires RoutedRun(EmptyDb(lifetime, now), calls)
    requires var db := Run(EmptyDb(lifetime, now), calls);
      && Possible(db, call) && Routed(db, call.op) && Step(db, call).1.Accepted?
      && SetsPassword(db, call.op, user, password) && Possible(Step(db, call).0, login)
    requires login.op.LoggingIn?
    ensures var after := Step(Run(EmptyDb(lifetime, now), calls), call).0;
      && user in after.users
      && (login.op.identifier in {after.users[user].username, after.users[user].email} ==>
            Step(after, login).1 == if login.op.password == password then Accepted else Refused(InvalidCredentials))
  {
    RunKeepsNames(EmptyDb(lifetime, now), calls);
    PasswordLogsIn(Run(EmptyDb(lifetime, now), calls), call, user, password, login);
  }

  lemma PasswordLogsIn(db: Db, call: Call, user: UserId, password: string, login: Call)
    requires Reachable(db) && Possible(db, call) && Routed(db, call.op) && Step(db, call).1.Accepted?
    requires SetsPassword(db, call.op, user, password)
    requires login.op.LoggingIn? && Possible(Step(db, call).0, login)
    ensures var after := Step(db, call).0;
      && user in after.users
      && (login.op.identifier in {after.users[user].username, after.users[user].email} ==>
            Step(after, login).1 == if login.op.password == password then Accepted else Refused(InvalidCredentials))
  {
    PasswordIsSet(db.(now := call.at), call.op, user, password);
    ApplyKeepsNames(db.(now := call.at), call.op);
    LoginAfterwards(Step(db, call).0, user, login);
  }

  lemma LoginAfterwards(db: Db, user: UserId, login: Call)
    requires NamesOk(db.users) && user in db.users && db.users[user].enabled
    requires login.op.LoggingIn? && Possible(db, login)
    ensures login.op.identifier in {db.users[user].username, db.users[user].email} ==>
      Step(db, login).1
      == if db.users[user].password == Some(login.op.password) then Accepted else Refused(InvalidCredentials)
  {
    if login.op.identifier in {db.users[user].username, db.users[user].email} {
      LoginByName(db.(now := login.at), user, login.op.identifier, login.op.password, login.op.pick, login.op.token);
    }
  }
}
