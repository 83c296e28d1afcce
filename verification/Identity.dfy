/**
 Users, sessions, invitations, reset tokens and recovery codes as one database, and the
 transactions on it (app/application/auth_service.py, app/application/identity_service.py and the
 session clean-up of app/application/observability_service.py). Each transaction is one step.
 Hashes are taken as injective, so a stored hash is modelled by what was hashed.
 */
module Identity {
  import opened Basics

  type UserId = nat
  type Token = nat

  datatype Role = Owner | Administrator | Operator

  datatype User = User(username: string, email: string, password: Option<string>, role: Role, enabled: bool)
  datatype Session = Session(user: UserId, expires: int, revoked: bool)
  datatype Invitation = Invitation(user: UserId, expires: int, accepted: bool)
  datatype Reset = Reset(user: UserId, expires: int, used: bool)

  /** `issued`, `known` and `drawn` are all tokens, user ids and recovery codes ever drawn; `now` is the last reading. */
  datatype Db = Db(users: map<UserId, User>, sessions: map<Token, Session>,
                   invitations: map<Token, Invitation>, resets: map<Token, Reset>, codes: map<UserId, string>,
                   issued: set<Token>, known: set<UserId>, drawn: set<string>, lifetime: nat, now: int)

  /** The tables before setup. */
  function EmptyDb(lifetime: nat, now: int): Db {
    Db(map[], map[], map[], map[], map[], {}, {}, {}, lifetime, now)
  }

  datatype Error = SetupCompleted | InvalidCredentials | NotFound | Conflict | LastOwner
                 | InvalidToken | NotAccepted | SmtpNotConfigured | ConstraintViolated

  datatype Reply = Accepted | Refused(error: Error)

  const INVITATION_LIFETIME := 24 * 60 * 60
  const RESET_LIFETIME := 30 * 60

  // ------------------------------------------------------------- name lookup

  function LowerChar(c: char): char {
    if 'A' <= c <= 'Z' then (c as int + 32) as char else c
  }

  function Lower(s: string): string {
    if s == "" then "" else [LowerChar(s[0])] + Lower(s[1..])
  }

  predicate Named(user: User, username: string, email: string) {
    Lower(user.username) == username || Lower(user.email) == email
  }

  /** The enabled users a login identifier may mean. */
  function LoginCandidates(users: map<UserId, User>, identifier: string): set<UserId> {
    set u | u in users && users[u].enabled && Named(users[u], Lower(identifier), Lower(identifier))
  }

  function EnabledByEmail(users: map<UserId, User>, email: string): set<UserId> {
    set u | u in users && users[u].enabled && Lower(users[u].email) == Lower(email)
  }

  /** The enabled owners with a recovery code and this address. */
  function RecoveryCandidates(db: Db, email: string): set<UserId> {
    set u | u in EnabledByEmail(db.users, email) && db.users[u].role == Owner && u in db.codes
  }

  predicate NameTaken(users: map<UserId, User>, username: string, email: string) {
    exists u | u in users :: users[u].username == username || users[u].email == email
  }

  // ------------------------------------------------------------ table edits

  function RevokeAll(sessions: map<Token, Session>, user: UserId): map<Token, Session> {
    map t | t in sessions :: if sessions[t].user == user then sessions[t].(revoked := true) else sessions[t]
  }

  function UseAll(resets: map<Token, Reset>, user: UserId): map<Token, Reset> {
    map t | t in resets :: if resets[t].user == user then resets[t].(used := true) else resets[t]
  }

  function AddSession(db: Db, token: Token, user: UserId): Db {
    db.(sessions := db.sessions[token := Session(user, db.now + db.lifetime, false)], issued := db.issued + {token})
  }

  /** Deleting users deletes what refers to them. */
  function DeleteUsers(db: Db, gone: set<UserId>): Db {
    db.(users := map u | u in db.users && u !in gone :: db.users[u],
        sessions := map t | t in db.sessions && db.sessions[t].user !in gone :: db.sessions[t],
        invitations := map t | t in db.invitations && db.invitations[t].user !in gone :: db.invitations[t],
        resets := map t | t in db.resets && db.resets[t].user !in gone :: db.resets[t],
        codes := map u | u in db.codes && u !in gone :: db.codes[u])
  }

  function SetUser(db: Db, user: UserId, row: User): Db {
    db.(users := db.users[user := row])
  }

  function AddUser(db: Db, user: UserId, row: User): Db {
    SetUser(db, user, row).(known := db.known + {user})
  }

  function SetCode(db: Db, user: UserId, code: string): Db {
    db.(codes := db.codes[user := code], drawn := db.drawn + {code})
  }

  function AddInvitation(db: Db, token: Token, user: UserId): Db {
    db.(invitations := db.invitations[token := Invitation(user, db.now + INVITATION_LIFETIME, false)],
        issued := db.issued + {token})
  }

  function AddReset(db: Db, token: Token, user: UserId): Db {
    db.(resets := db.resets[token := Reset(user, db.now + RESET_LIFETIME, false)], issued := db.issued + {token})
  }

  function EnabledOwners(users: map<UserId, User>): set<UserId> {
    set u | u in users && users[u].role == Owner && users[u].enabled
  }

  // ----------------------------------------------------------- AuthService

  function CreateOwner(db: Db, username: string, email: string, password: string,
                       user: UserId, token: Token, code: string): (Db, Reply) {
    if exists u | u in db.users :: db.users[u].role == Owner then (db, Refused(SetupCompleted))
    else if NameTaken(db.users, username, Lower(email)) then (db, Refused(ConstraintViolated))
    else
      var row := User(username, Lower(email), Some(password), Owner, true);
      (AddSession(SetCode(AddUser(db, user, row), user, code), token, user), Accepted)
  }

  /** `pick` is the row the database returns first. */
  function Login(db: Db, identifier: string, password: string, pick: UserId, token: Token): (Db, Reply) {
    if pick !in LoginCandidates(db.users, identifier) || db.users[pick].password != Some(password) then
      (db, Refused(InvalidCredentials))
    else (AddSession(db, token, pick), Accepted)
  }

  datatype PublicUser = PublicUser(id: UserId, username: string, email: string, role: Role)

  function CurrentUser(db: Db, token: Token, now: int): Option<PublicUser> {
    if token in db.sessions && !db.sessions[token].revoked && db.sessions[token].expires > now
       && db.sessions[token].user in db.users && db.users[db.sessions[token].user].enabled
    then
      var u := db.sessions[token].user;
      Some(PublicUser(u, db.users[u].username, db.users[u].email, db.users[u].role))
    else None
  }

  function Logout(db: Db, token: Token): Db {
    if token in db.sessions then
      db.(sessions := db.sessions[token := db.sessions[token].(revoked := true)])
    else db
  }

  function RecoverOwner(db: Db, email: string, code: string, password: string, pick: UserId,
                        newCode: string, token: Token): (Db, Reply) {
    if pick !in RecoveryCandidates(db, email) || db.codes[pick] != code then (db, Refused(InvalidCredentials))
    else
      var db1 := SetUser(db, pick, db.users[pick].(password := Some(password)));
      var db2 := SetCode(db1.(sessions := RevokeAll(db1.sessions, pick)), pick, newCode);
      (AddSession(db2, token, pick), Accepted)
  }

  // ------------------------------------------------------- IdentityService

  /** The users that stand in the way of an invitation. */
  function Existing(users: map<UserId, User>, username: string, email: string): set<UserId> {
    set u | u in users && Named(users[u], Lower(username), Lower(email))
  }

  function Invite(db: Db, smtp: bool, username: string, email: string, role: Role,
                  user: UserId, token: Token): (Db, Reply) {
    var existing := Existing(db.users, username, email);
    if !smtp then (db, Refused(SmtpNotConfigured))
    else if exists u | u in existing :: db.users[u].password.Some? || db.users[u].enabled then (db, Refused(Conflict))
    else if NameTaken(DeleteUsers(db, existing).users, username, Lower(email)) then (db, Refused(Conflict))
    else
      var db1 := AddUser(DeleteUsers(db, existing), user, User(username, Lower(email), None, role, false));
      (AddInvitation(db1, token, user), Accepted)
  }

  /** The second transaction of an invitation whose mail could not be sent. */
  function MailFailed(db: Db, user: UserId): Db {
    if user in db.users && !db.users[user].enabled then DeleteUsers(db, {user}) else db
  }

  function AcceptInvitation(db: Db, token: Token, password: string): (Db, Reply) {
    if token !in db.invitations || db.invitations[token].accepted || db.invitations[token].expires <= db.now
       || db.invitations[token].user !in db.users
    then (db, Refused(InvalidToken))
    else
      var invitation := db.invitations[token];
      var db1 := SetUser(db, invitation.user, db.users[invitation.user].(password := Some(password), enabled := true));
      (db1.(invitations := db1.invitations[token := invitation.(accepted := true)]), Accepted)
  }

  function UpdateUser(db: Db, user: UserId, role: Role, enabled: bool): (Db, Reply) {
    if user !in db.users then (db, Refused(NotFound))
    else if enabled && db.users[user].password.None? then (db, Refused(NotAccepted))
    else if db.users[user].role == Owner && (role != Owner || !enabled) && |EnabledOwners(db.users)| <= 1 then
      (db, Refused(LastOwner))
    else
      var db1 := SetUser(db, user, db.users[user].(role := role, enabled := enabled));
      (if enabled then db1 else db1.(sessions := RevokeAll(db1.sessions, user)), Accepted)
  }

  function RevokeSessions(db: Db, user: UserId): (Db, Reply) {
    if user !in db.users then (db, Refused(NotFound))
    else (db.(sessions := RevokeAll(db.sessions, user)), Accepted)
  }

  /** The answer is the same whether or not a token was made. */
  function RequestReset(db: Db, smtp: bool, email: string, pick: UserId, token: Token): Db {
    if !smtp || pick !in EnabledByEmail(db.users, email) || db.users[pick].password.None? then db
    else AddReset(db.(resets := UseAll(db.resets, pick)), token, pick)
  }

  function CompleteReset(db: Db, token: Token, password: string): (Db, Reply) {
    if token !in db.resets || db.resets[token].used || db.resets[token].expires <= db.now
       || db.resets[token].user !in db.users || !db.users[db.resets[token].user].enabled
    then (db, Refused(InvalidToken))
    else
      var reset := db.resets[token];
      var db1 := SetUser(db, reset.user, db.users[reset.user].(password := Some(password)));
      (db1.(resets := db1.resets[token := reset.(used := true)], sessions := RevokeAll(db1.sessions, reset.user)), Accepted)
  }

  // ------------------------------------------------------ RetentionService

  function Cleanup(db: Db): Db {
    db.(sessions := map t | t in db.sessions && db.sessions[t].expires >= db.now :: db.sessions[t])
  }

  // ------------------------------------------------------------------ runs

  datatype Op =
    | CreatingOwner(username: string, email: string, password: string, user: UserId, token: Token, code: string)
    | LoggingIn(identifier: string, password: string, pick: UserId, token: Token)
    | LoggingOut(token: Token)
    | Recovering(email: string, code: string, password: string, pick: UserId, newCode: string, token: Token)
    | Inviting(smtp: bool, username: string, email: string, role: Role, user: UserId, token: Token)
    | MailFailing(user: UserId)
    | Accepting(token: Token, password: string)
    | Updating(user: UserId, role: Role, enabled: bool)
    | Revoking(user: UserId)
    | RequestingReset(smtp: bool, email: string, pick: UserId, token: Token)
    | CompletingReset(token: Token, password: string)
    | CleaningUp

  datatype Call = Call(at: int, op: Op)

  function Apply(db: Db, op: Op): (Db, Reply) {
    match op
    case CreatingOwner(username, email, password, user, token, code) =>
      CreateOwner(db, username, email, password, user, token, code)
    case LoggingIn(identifier, password, pick, token) => Login(db, identifier, password, pick, token)
    case LoggingOut(token) => (Logout(db, token), Accepted)
    case Recovering(email, code, password, pick, newCode, token) =>
      RecoverOwner(db, email, code, password, pick, newCode, token)
    case Inviting(smtp, username, email, role, user, token) => Invite(db, smtp, username, email, role, user, token)
    case MailFailing(user) => (MailFailed(db, user), Accepted)
    case Accepting(token, password) => AcceptInvitation(db, token, password)
    case Updating(user, role, enabled) => UpdateUser(db, user, role, enabled)
    case Revoking(user) => RevokeSessions(db, user)
    case RequestingReset(smtp, email, pick, token) => (RequestReset(db, smtp, email, pick, token), Accepted)
    case CompletingReset(token, password) => CompleteReset(db, token, password)
    case CleaningUp => (Cleanup(db), Accepted)
  }

  function Step(db: Db, call: Call): (Db, Reply) {
    Apply(db.(now := call.at), call.op)
  }

  /** Tokens, ids and recovery codes are fresh, a picked row is one the query selects if it selects any. */
  ghost predicate Drawn(db: Db, op: Op) {
    match op
    case CreatingOwner(_, _, _, user, token, code) => user !in db.known && token !in db.issued && code !in db.drawn
    case LoggingIn(identifier, _, pick, token) =>
      && token !in db.issued
      && (LoginCandidates(db.users, identifier) != {} ==> pick in LoginCandidates(db.users, identifier))
    case Recovering(email, _, _, pick, newCode, token) =>
      && token !in db.issued && newCode !in db.drawn
      && (RecoveryCandidates(db, email) != {} ==> pick in RecoveryCandidates(db, email))
    case Inviting(_, _, _, _, user, token) => user !in db.known && token !in db.issued
    case RequestingReset(_, email, pick, token) =>
      && token !in db.issued
      && (EnabledByEmail(db.users, email) != {} ==> pick in EnabledByEmail(db.users, email))
    case _ => true
  }

  ghost predicate Possible(db: Db, call: Call) {
    call.at >= db.now && Drawn(db, call.op)
  }

  function Run(db: Db, calls: seq<Call>): Db
    decreases |calls|
  {
    if calls == [] then db else Run(Step(db, calls[0]).0, calls[1..])
  }

  ghost predicate PossibleRun(db: Db, calls: seq<Call>)
    decreases |calls|
  {
    calls == [] || (Possible(db, calls[0]) && PossibleRun(Step(db, calls[0]).0, calls[1..]))
  }
}
