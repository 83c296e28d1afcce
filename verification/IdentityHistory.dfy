/**
 The identity services said of their history alone. A transcript is what a caller sees: the calls
 with their clock readings and the replies. From it one can tell every user's row, every session,
 invitation, reset token and recovery code, and so every answer.
 */
module IdentityHistory {
  import opened Basics
  import opened Identity
  import opened IdentityGuarantees
  import opened IdentityNames

  datatype Answered = Answered(call: Call, reply: Reply)

  function Transcript(db: Db, calls: seq<Call>): seq<Answered>
    decreases |calls|
  {
    if calls == [] then []
    else
      var (next, reply) := Step(db, calls[0]);
      [Answered(calls[0], reply)] + Transcript(next, calls[1..])
  }

  // ------------------------------------------- what one answered call says of a key

  /** The user's row; `invitee` and `requester` are the users that the call's token stands for. */
  function NextRow(row: Option<User>, a: Answered, u: UserId, invitee: Option<UserId>, requester: Option<UserId>):
    Option<User>
  {
    if a.reply.Refused? then row
    else match a.call.op
      case CreatingOwner(username, email, password, user, _, _) =>
        if user == u then Some(User(username, Lower(email), Some(password), Owner, true)) else row
      case Inviting(_, username, email, role, user, _) =>
        if user == u then Some(User(username, Lower(email), None, role, false))
        else if row.Some? && Named(row.value, Lower(username), Lower(email)) then None
        else row
      case MailFailing(user) => if user == u && row.Some? && !row.value.enabled then None else row
      case Accepting(_, password) =>
        if row.Some? && invitee == Some(u) then Some(row.value.(password := Some(password), enabled := true)) else row
      case Updating(user, role, enabled) =>
        if row.Some? && user == u then Some(row.value.(role := role, enabled := enabled)) else row
      case CompletingReset(_, password) =>
        if row.Some? && requester == Some(u) then Some(row.value.(password := Some(password))) else row
      case Recovering(_, _, password, pick, _, _) =>
        if row.Some? && pick == u then Some(row.value.(password := Some(password))) else row
      case _ => row
  }

  /** The session opened with a token. */
  function NextSession(session: Option<Session>, a: Answered, token: Token, lifetime: nat, requester: Option<UserId>):
    Option<Session>
  {
    if a.reply.Refused? then session
    else if Opens(a.call.op, token).Some? then
      Some(Session(Opens(a.call.op, token).value, a.call.at + lifetime, false))
    else if session.Some? && Ends(a.call.op, token, session.value.user, requester) then
      Some(session.value.(revoked := true))
    else session
  }

  /** The user whom the operation signs in with this token. */
  function Opens(op: Op, token: Token): Option<UserId> {
    match op
    case CreatingOwner(_, _, _, user, t, _) => if t == token then Some(user) else None
    case LoggingIn(_, _, pick, t) => if t == token then Some(pick) else None
    case Recovering(_, _, _, pick, _, t) => if t == token then Some(pick) else None
    case _ => None
  }

  /** The operation ends this session of this user. */
  predicate Ends(op: Op, token: Token, user: UserId, requester: Option<UserId>) {
    match op
    case LoggingOut(t) => t == token
    case Revoking(u) => u == user
    case Updating(u, _, enabled) => u == user && !enabled
    case CompletingReset(_, _) => requester == Some(user)
    case Recovering(_, _, _, pick, _, _) => pick == user
    case _ => false
  }

  /** The invitation sent with a token: it is good for a day, and once. */
  function NextInvitation(invitation: Option<Invitation>, a: Answered, token: Token): Option<Invitation> {
    if a.reply.Refused? then invitation
    else match a.call.op
      case Inviting(_, _, _, _, user, t) =>
        if t == token then Some(Invitation(user, a.call.at + 86400, false)) else invitation
      case Accepting(t, _) =>
        if t == token && invitation.Some? then Some(invitation.value.(accepted := true)) else invitation
      case _ => invitation
  }

  /** A reset token is made for an enabled user with a password and this address. */
  predicate Makes(op: Op, row: Option<User>) {
    && op.RequestingReset? && op.smtp
    && row.Some? && row.value.enabled && row.value.password.Some? && Lower(row.value.email) == Lower(op.email)
  }

  /** The reset made with a token: it is good for half an hour, once, and until the next one; `row` is the picked user's. */
  function NextReset(reset: Option<Reset>, a: Answered, token: Token, row: Option<User>): Option<Reset> {
    if a.reply.Refused? then reset
    else match a.call.op
      case RequestingReset(_, _, pick, t) =>
        if !Makes(a.call.op, row) then reset
        else if t == token then Some(Reset(pick, a.call.at + 1800, false))
        else if reset.Some? && reset.value.user == pick then Some(reset.value.(used := true))
        else reset
      case CompletingReset(t, _) => if t == token && reset.Some? then Some(reset.value.(used := true)) else reset
      case _ => reset
  }

  function NextCode(code: Option<string>, a: Answered, u: UserId): Option<string> {
    if a.reply.Refused? then code
    else match a.call.op
      case CreatingOwner(_, _, _, user, _, c) => if user == u then Some(c) else code
      case Recovering(_, _, _, pick, newCode, _) => if pick == u then Some(newCode) else code
      case _ => code
  }

  // --------------------------------------------------- what a transcript tells

  function TokenOf(op: Op): Token {
    match op
    case Accepting(token, _) => token
    case CompletingReset(token, _) => token
    case _ => 0
  }

  function PickOf(op: Op): UserId {
    if op.RequestingReset? then op.pick else 0
  }

  function InvitationTold(t: seq<Answered>, token: Token): Option<Invitation> {
    if t == [] then None else NextInvitation(InvitationTold(t[..|t| - 1], token), t[|t| - 1], token)
  }

  function Invitee(t: seq<Answered>, token: Token): Option<UserId> {
    var invitation := InvitationTold(t, token);
    if invitation.Some? then Some(invitation.value.user) else None
  }

  function ResetTold(t: seq<Answered>, token: Token): Option<Reset>
    decreases |t|, 0
  {
    if t == [] then None
    else
      var front, last := t[..|t| - 1], t[|t| - 1];
      NextReset(ResetTold(front, token), last, token, RowTold(front, PickOf(last.call.op)))
  }

  function Requester(t: seq<Answered>, token: Token): Option<UserId>
    decreases |t|, 1
  {
    var reset := ResetTold(t, token);
    if reset.Some? then Some(reset.value.user) else None
  }

  function RowTold(t: seq<Answered>, u: UserId): Option<User>
    decreases |t|, 0
  {
    if t == [] then None
    else
      var front, last := t[..|t| - 1], t[|t| - 1];
      NextRow(RowTold(front, u), last, u, Invitee(front, TokenOf(last.call.op)), Requester(front, TokenOf(last.call.op)))
  }

  function SessionTold(t: seq<Answered>, token: Token, lifetime: nat): Option<Session> {
    if t == [] then None
    else
      var front, last := t[..|t| - 1], t[|t| - 1];
      NextSession(SessionTold(front, token, lifetime), last, token, lifetime, Requester(front, TokenOf(last.call.op)))
  }

  function CodeTold(t: seq<Answered>, u: UserId): Option<string> {
    if t == [] then None else NextCode(CodeTold(t[..|t| - 1], u), t[|t| - 1], u)
  }

  // ------------------------------------------------------------------- agreement

  ghost predicate RowAgrees(db: Db, row: Option<User>, u: UserId) {
    row == if u in db.users then Some(db.users[u]) else None
  }

  /** A session told but not stored any more has ended. */
  ghost predicate SessionAgrees(db: Db, session: Option<Session>, token: Token) {
    && (token in db.sessions ==> session == Some(db.sessions[token]))
    && (session.Some? ==> token in db.issued)
    && (session.Some? && token !in db.sessions ==> session.value.revoked || session.value.expires < db.now)
  }

  /** What is told of a token but not stored any more went with its user, for good. */
  ghost predicate InvitationAgrees(db: Db, invitation: Option<Invitation>, token: Token) {
    && (token in db.invitations ==> invitation == Some(db.invitations[token]))
    && (invitation.Some? ==> token in db.issued && invitation.value.user in db.known)
    && (invitation.Some? && token !in db.invitations ==> invitation.value.user !in db.users)
  }

  ghost predicate ResetAgrees(db: Db, reset: Option<Reset>, token: Token) {
    && (token in db.resets ==> reset == Some(db.resets[token]))
    && (reset.Some? ==> token in db.issued && reset.value.user in db.known)
    && (reset.Some? && token !in db.resets ==> reset.value.user !in db.users)
  }

  ghost predicate CodeAgrees(db: Db, code: Option<string>, u: UserId) {
    && (u in db.codes ==> code == Some(db.codes[u]))
    && (code.Some? ==> u in db.known)
    && (code.Some? && u !in db.codes ==> u !in db.users)
  }

  // -- rows

  lemma RecoverTellsRow(db: Db, op: Op, row: Option<User>, u: UserId, invitee: Option<UserId>, requester: Option<UserId>)
    requires Inv(db) && Drawn(db, op) && op.Recovering?
    requires RowAgrees(db, row, u)
    ensures var (after, reply) := Apply(db, op);
      RowAgrees(after, NextRow(row, Answered(Call(db.now, op), reply), u, invitee, requester), u)
  {
  }

  lemma SessionOpTellsRow(db: Db, op: Op, row: Option<User>, u: UserId, invitee: Option<UserId>, requester: Option<UserId>)
    requires Inv(db) && Drawn(db, op) && OfSessions(op)
    requires RowAgrees(db, row, u)
    ensures var (after, reply) := Apply(db, op);
      RowAgrees(after, NextRow(row, Answered(Call(db.now, op), reply), u, invitee, requester), u)
  {
    match op
    case CreatingOwner(username, email, password, user, token, code) =>
    case LoggingIn(identifier, password, pick, token) =>
    case LoggingOut(token) =>
    case Recovering(email, code, password, pick, newCode, token) => RecoverTellsRow(db, op, row, u, invitee, requester);
    case Revoking(user) =>
    case CleaningUp =>
  }

  /** What is told of the token that an operation uses. */
  ghost predicate KnowsToken(db: Db, op: Op, invitee: Option<UserId>, requester: Option<UserId>) {
    && (op.Accepting? && op.token in db.invitations ==> invitee == Some(db.invitations[op.token].user))
    && (op.CompletingReset? && op.token in db.resets ==> requester == Some(db.resets[op.token].user))
  }

  lemma InviteTellsRow(db: Db, op: Op, row: Option<User>, u: UserId, invitee: Option<UserId>, requester: Option<UserId>)
    requires Inv(db) && Drawn(db, op) && op.Inviting?
    requires RowAgrees(db, row, u) && KnowsToken(db, op, invitee, requester)
    ensures var (after, reply) := Apply(db, op);
      RowAgrees(after, NextRow(row, Answered(Call(db.now, op), reply), u, invitee, requester), u)
  {
  }

  lemma CompleteTellsRow(db: Db, op: Op, row: Option<User>, u: UserId, invitee: Option<UserId>, requester: Option<UserId>)
    requires Inv(db) && Drawn(db, op) && op.CompletingReset?
    requires RowAgrees(db, row, u) && KnowsToken(db, op, invitee, requester)
    ensures var (after, reply) := Apply(db, op);
      RowAgrees(after, NextRow(row, Answered(Call(db.now, op), reply), u, invitee, requester), u)
  {
  }

  lemma UserOpTellsRow(db: Db, op: Op, row: Option<User>, u: UserId, invitee: Option<UserId>, requester: Option<UserId>)
    requires Inv(db) && Drawn(db, op) && !OfSessions(op)
    requires RowAgrees(db, row, u) && KnowsToken(db, op, invitee, requester)
    ensures var (after, reply) := Apply(db, op);
      RowAgrees(after, NextRow(row, Answered(Call(db.now, op), reply), u, invitee, requester), u)
  {
    match op
    case Inviting(smtp, username, email, role, user, token) => InviteTellsRow(db, op, row, u, invitee, requester);
    case MailFailing(user) =>
    case Accepting(token, password) =>
    case Updating(user, role, enabled) =>
    case RequestingReset(smtp, email, pick, token) =>
    case CompletingReset(token, password) => CompleteTellsRow(db, op, row, u, invitee, requester);
  }

  // -- sessions

  lemma RecoverTellsSession(db: Db, op: Op, session: Option<Session>, token: Token, requester: Option<UserId>)
    requires Inv(db) && Drawn(db, op) && op.Recovering?
    requires SessionAgrees(db, session, token)
    ensures var (after, reply) := Apply(db, op);
      SessionAgrees(after, NextSession(session, Answered(Call(db.now, op), reply), token, db.lifetime, requester), token)
  {
  }

  lemma CreateTellsSession(db: Db, op: Op, session: Option<Session>, token: Token, requester: Option<UserId>)
    requires Inv(db) && Drawn(db, op) && op.CreatingOwner?
    requires SessionAgrees(db, session, token)
    ensures var (after, reply) := Apply(db, op);
      SessionAgrees(after, NextSession(session, Answered(Call(db.now, op), reply), token, db.lifetime, requester), token)
  {
  }

  lemma LoginTellsSession(db: Db, op: Op, session: Option<Session>, token: Token, requester: Option<UserId>)
    requires Inv(db) && Drawn(db, op) && op.LoggingIn?
    requires SessionAgrees(db, session, token)
    ensures var (after, reply) := Apply(db, op);
      SessionAgrees(after, NextSession(session, Answered(Call(db.now, op), reply), token, db.lifetime, requester), token)
  {
  }

  lemma SessionOpTellsSession(db: Db, op: Op, session: Option<Session>, token: Token, requester: Option<UserId>)
    requires Inv(db) && Drawn(db, op) && OfSessions(op)
    requires SessionAgrees(db, session, token)
    ensures var (after, reply) := Apply(db, op);
      SessionAgrees(after, NextSession(session, Answered(Call(db.now, op), reply), token, db.lifetime, requester), token)
  {
    match op
    case CreatingOwner(username, email, password, user, t, code) => CreateTellsSession(db, op, session, token, requester);
    case LoggingIn(identifier, password, pick, t) => LoginTellsSession(db, op, session, token, requester);
    case LoggingOut(t) =>
    case Recovering(email, code, password, pick, newCode, t) => RecoverTellsSession(db, op, session, token, requester);
    case Revoking(user) =>
    case CleaningUp =>
  }

  lemma InviteTellsSession(db: Db, op: Op, session: Option<Session>, token: Token, requester: Option<UserId>)
    requires Inv(db) && Drawn(db, op) && op.Inviting?
    requires SessionAgrees(db, session, token)
    requires op.CompletingReset? && op.token in db.resets ==> requester == Some(db.resets[op.token].user)
    ensures var (after, reply) := Apply(db, op);
      SessionAgrees(after, NextSession(session, Answered(Call(db.now, op), reply), token, db.lifetime, requester), token)
  {
  }

  lemma CompleteTellsSession(db: Db, op: Op, session: Option<Session>, token: Token, requester: Option<UserId>)
    requires Inv(db) && Drawn(db, op) && op.CompletingReset?
    requires SessionAgrees(db, session, token)
    requires op.CompletingReset? && op.token in db.resets ==> requester == Some(db.resets[op.token].user)
    ensures var (after, reply) := Apply(db, op);
      SessionAgrees(after, NextSession(session, Answered(Call(db.now, op), reply), token, db.lifetime, requester), token)
  {
  }

  lemma UpdateTellsSession(db: Db, op: Op, session: Option<Session>, token: Token, requester: Option<UserId>)
    requires Inv(db) && Drawn(db, op) && op.Updating?
    requires SessionAgrees(db, session, token)
    requires op.CompletingReset? && op.token in db.resets ==> requester == Some(db.resets[op.token].user)
    ensures var (after, reply) := Apply(db, op);
      SessionAgrees(after, NextSession(session, Answered(Call(db.now, op), reply), token, db.lifetime, requester), token)
  {
  }

  lemma UserOpTellsSession(db: Db, op: Op, session: Option<Session>, token: Token, requester: Option<UserId>)
    requires Inv(db) && Drawn(db, op) && !OfSessions(op)
    requires SessionAgrees(db, session, token)
    requires op.CompletingReset? && op.token in db.resets ==> requester == Some(db.resets[op.token].user)
    ensures var (after, reply) := Apply(db, op);
      SessionAgrees(after, NextSession(session, Answered(Call(db.now, op), reply), token, db.lifetime, requester), token)
  {
    match op
    case Inviting(smtp, username, email, role, user, t) => InviteTellsSession(db, op, session, token, requester);
    case MailFailing(user) =>
    case Accepting(t, password) =>
    case Updating(user, role, enabled) => UpdateTellsSession(db, op, session, token, requester);
    case RequestingReset(smtp, email, pick, t) =>
    case CompletingReset(t, password) => CompleteTellsSession(db, op, session, token, requester);
  }

  // -- one-time tokens and codes

  lemma SessionOpTellsInvitation(db: Db, op: Op, invitation: Option<Invitation>, token: Token)
    requires Inv(db) && Drawn(db, op) && OfSessions(op)
    requires InvitationAgrees(db, invitation, token)
    ensures var (after, reply) := Apply(db, op);
      InvitationAgrees(after, NextInvitation(invitation, Answered(Call(db.now, op), reply), token), token)
  {
    match op
    case CreatingOwner(username, email, password, user, t, code) =>
    case LoggingIn(identifier, password, pick, t) =>
    case LoggingOut(t) =>
    case Recovering(email, code, password, pick, newCode, t) =>
    case Revoking(user) =>
    case CleaningUp =>
  }

  lemma InviteTellsInvitation(db: Db, op: Op, invitation: Option<Invitation>, token: Token)
    requires Inv(db) && Drawn(db, op) && op.Inviting?
    requires InvitationAgrees(db, invitation, token)
    ensures var (after, reply) := Apply(db, op);
      InvitationAgrees(after, NextInvitation(invitation, Answered(Call(db.now, op), reply), token), token)
  {
  }

  lemma UserOpTellsInvitation(db: Db, op: Op, invitation: Option<Invitation>, token: Token)
    requires Inv(db) && Drawn(db, op) && !OfSessions(op)
    requires InvitationAgrees(db, invitation, token)
    ensures var (after, reply) := Apply(db, op);
      InvitationAgrees(after, NextInvitation(invitation, Answered(Call(db.now, op), reply), token), token)
  {
    match op
    case Inviting(smtp, username, email, role, user, t) => InviteTellsInvitation(db, op, invitation, token);
    case MailFailing(user) =>
    case Accepting(t, password) =>
    case Updating(user, role, enabled) =>
    case RequestingReset(smtp, email, pick, t) =>
    case CompletingReset(t, password) =>
  }

  lemma SessionOpTellsReset(db: Db, op: Op, reset: Option<Reset>, token: Token, row: Option<User>)
    requires Inv(db) && Drawn(db, op) && OfSessions(op)
    requires ResetAgrees(db, reset, token) && (op.RequestingReset? ==> RowAgrees(db, row, op.pick))
    ensures var (after, reply) := Apply(db, op);
      ResetAgrees(after, NextReset(reset, Answered(Call(db.now, op), reply), token, row), token)
  {
    match op
    case CreatingOwner(username, email, password, user, t, code) =>
    case LoggingIn(identifier, password, pick, t) =>
    case LoggingOut(t) =>
    case Recovering(email, code, password, pick, newCode, t) =>
    case Revoking(user) =>
    case CleaningUp =>
  }

  lemma RequestTellsReset(db: Db, op: Op, reset: Option<Reset>, token: Token, row: Option<User>)
    requires Inv(db) && Drawn(db, op) && op.RequestingReset?
    requires ResetAgrees(db, reset, token) && (op.RequestingReset? ==> RowAgrees(db, row, op.pick))
    ensures var (after, reply) := Apply(db, op);
      ResetAgrees(after, NextReset(reset, Answered(Call(db.now, op), reply), token, row), token)
  {
  }

  lemma InviteTellsReset(db: Db, op: Op, reset: Option<Reset>, token: Token, row: Option<User>)
    requires Inv(db) && Drawn(db, op) && op.Inviting?
    requires ResetAgrees(db, reset, token) && (op.RequestingReset? ==> RowAgrees(db, row, op.pick))
    ensures var (after, reply) := Apply(db, op);
      ResetAgrees(after, NextReset(reset, Answered(Call(db.now, op), reply), token, row), token)
  {
  }

  lemma UserOpTellsReset(db: Db, op: Op, reset: Option<Reset>, token: Token, row: Option<User>)
    requires Inv(db) && Drawn(db, op) && !OfSessions(op)
    requires ResetAgrees(db, reset, token) && (op.RequestingReset? ==> RowAgrees(db, row, op.pick))
    ensures var (after, reply) := Apply(db, op);
      ResetAgrees(after, NextReset(reset, Answered(Call(db.now, op), reply), token, row), token)
  {
    match op
    case Inviting(smtp, username, email, role, user, t) => InviteTellsReset(db, op, reset, token, row);
    case MailFailing(user) =>
    case Accepting(t, password) =>
    case Updating(user, role, enabled) =>
    case RequestingReset(smtp, email, pick, t) => RequestTellsReset(db, op, reset, token, row);
    case CompletingReset(t, password) =>
  }

  lemma RecoverTellsCode(db: Db, op: Op, code: Option<string>, u: UserId)
    requires Inv(db) && Drawn(db, op) && op.Recovering?
    requires CodeAgrees(db, code, u)
    ensures var (after, reply) := Apply(db, op);
      CodeAgrees(after, NextCode(code, Answered(Call(db.now, op), reply), u), u)
  {
  }

  lemma CreateTellsCode(db: Db, op: Op, code: Option<string>, u: UserId)
    requires Inv(db) && Drawn(db, op) && op.CreatingOwner?
    requires CodeAgrees(db, code, u)
    ensures var (after, reply) := Apply(db, op);
      CodeAgrees(after, NextCode(code, Answered(Call(db.now, op), reply), u), u)
  {
  }

  lemma SessionOpTellsCode(db: Db, op: Op, code: Option<string>, u: UserId)
    requires Inv(db) && Drawn(db, op) && OfSessions(op)
    requires CodeAgrees(db, code, u)
    ensures var (after, reply) := Apply(db, op);
      CodeAgrees(after, NextCode(code, Answered(Call(db.now, op), reply), u), u)
  {
    match op
    case CreatingOwner(username, email, password, user, token, drawn) => CreateTellsCode(db, op, code, u);
    case LoggingIn(identifier, password, pick, token) =>
    case LoggingOut(token) =>
    case Recovering(email, used, password, pick, newCode, token) => RecoverTellsCode(db, op, code, u);
    case Revoking(user) =>
    case CleaningUp =>
  }

  lemma UserOpTellsCode(db: Db, op: Op, code: Option<string>, u: UserId)
    requires Inv(db) && Drawn(db, op) && !OfSessions(op)
    requires CodeAgrees(db, code, u)
    ensures var (after, reply) := Apply(db, op);
      CodeAgrees(after, NextCode(code, Answered(Call(db.now, op), reply), u), u)
  {
    match op
    case Inviting(smtp, username, email, role, user, token) =>
    case MailFailing(user) =>
    case Accepting(token, password) =>
    case Updating(user, role, enabled) =>
    case RequestingReset(smtp, email, pick, token) =>
    case CompletingReset(token, password) =>
  }

  // -- all together

  ghost predicate Agrees(db: Db, t: seq<Answered>) {
    && (forall u :: RowAgrees(db, RowTold(t, u), u)) && (forall u :: CodeAgrees(db, CodeTold(t, u), u))
    && (forall token :: SessionAgrees(db, SessionTold(t, token, db.lifetime), token))
    && (forall token :: InvitationAgrees(db, InvitationTold(t, token), token))
    && (forall token :: ResetAgrees(db, ResetTold(t, token), token))
  }

  lemma TimePasses(db: Db, t: seq<Answered>, at: int)
    requires Agrees(db, t) && at >= db.now
    ensures Agrees(db.(now := at), t)
  {
    var later := db.(now := at);
    forall u ensures RowAgrees(later, RowTold(t, u), u) && CodeAgrees(later, CodeTold(t, u), u) {
      assert RowAgrees(db, RowTold(t, u), u) && CodeAgrees(db, CodeTold(t, u), u);
    }
    forall token ensures SessionAgrees(later, SessionTold(t, token, db.lifetime), token) {
      assert SessionAgrees(db, SessionTold(t, token, db.lifetime), token);
    }
    forall token
      ensures InvitationAgrees(later, InvitationTold(t, token), token) && ResetAgrees(later, ResetTold(t, token), token)
    {
      assert InvitationAgrees(db, InvitationTold(t, token), token) && ResetAgrees(db, ResetTold(t, token), token);
    }
  }

  lemma TokenIsKnown(db: Db, t: seq<Answered>, op: Op)
    requires Agrees(db, t)
    ensures KnowsToken(db, op, Invitee(t, TokenOf(op)), Requester(t, TokenOf(op)))
  {
    assert InvitationAgrees(db, InvitationTold(t, TokenOf(op)), TokenOf(op));
    assert ResetAgrees(db, ResetTold(t, TokenOf(op)), TokenOf(op));
  }

  /** One more answered call. */
  lemma Told(t: seq<Answered>, a: Answered, u: UserId, token: Token, lifetime: nat)
    ensures var op := a.call.op;
      && RowTold(t + [a], u) == NextRow(RowTold(t, u), a, u, Invitee(t, TokenOf(op)), Requester(t, TokenOf(op)))
      && CodeTold(t + [a], u) == NextCode(CodeTold(t, u), a, u)
      && SessionTold(t + [a], token, lifetime)
         == NextSession(SessionTold(t, token, lifetime), a, token, lifetime, Requester(t, TokenOf(op)))
      && InvitationTold(t + [a], token) == NextInvitation(InvitationTold(t, token), a, token)
      && ResetTold(t + [a], token) == NextReset(ResetTold(t, token), a, token, RowTold(t, PickOf(op)))
  {
    assert (t + [a])[..|t|] == t;
  }

  lemma UserAgrees(db: Db, t: seq<Answered>, op: Op, u: UserId)
    requires Inv(db) && Agrees(db, t) && Drawn(db, op)
    ensures var (after, reply) := Apply(db, op);
      var told := t + [Answered(Call(db.now, op), reply)];
      RowAgrees(after, RowTold(told, u), u) && CodeAgrees(after, CodeTold(told, u), u)
  {
    var invitee, requester := Invitee(t, TokenOf(op)), Requester(t, TokenOf(op));
    Told(t, Answered(Call(db.now, op), Apply(db, op).1), u, 0, db.lifetime);
    TokenIsKnown(db, t, op);
    assert RowAgrees(db, RowTold(t, u), u) && CodeAgrees(db, CodeTold(t, u), u);
    if OfSessions(op) {
      SessionOpTellsRow(db, op, RowTold(t, u), u, invitee, requester);
      SessionOpTellsCode(db, op, CodeTold(t, u), u);
    } else {
      UserOpTellsRow(db, op, RowTold(t, u), u, invitee, requester);
      UserOpTellsCode(db, op, CodeTold(t, u), u);
    }
  }

  lemma TokenAgrees(db: Db, t: seq<Answered>, op: Op, token: Token)
    requires Inv(db) && Agrees(db, t) && Drawn(db, op)
    ensures var (after, reply) := Apply(db, op);
      var told := t + [Answered(Call(db.now, op), reply)];
      && SessionAgrees(after, SessionTold(told, token, db.lifetime), token)
      && InvitationAgrees(after, InvitationTold(told, token), token) && ResetAgrees(after, ResetTold(told, token), token)
  {
    var requester, row := Requester(t, TokenOf(op)), RowTold(t, PickOf(op));
    Told(t, Answered(Call(db.now, op), Apply(db, op).1), 0, token, db.lifetime);
    TokenIsKnown(db, t, op);
    assert SessionAgrees(db, SessionTold(t, token, db.lifetime), token) && RowAgrees(db, row, PickOf(op));
    assert InvitationAgrees(db, InvitationTold(t, token), token) && ResetAgrees(db, ResetTold(t, token), token);
    if OfSessions(op) {
      SessionOpTellsSession(db, op, SessionTold(t, token, db.lifetime), token, requester);
      SessionOpTellsInvitation(db, op, InvitationTold(t, token), token);
      SessionOpTellsReset(db, op, ResetTold(t, token), token, row);
    } else {
      UserOpTellsSession(db, op, SessionTold(t, token, db.lifetime), token, requester);
      UserOpTellsInvitation(db, op, InvitationTold(t, token), token);
      UserOpTellsReset(db, op, ResetTold(t, token), token, row);
    }
  }

  lemma LifetimeStays(db: Db, op: Op)
    ensures Apply(db, op).0.lifetime == db.lifetime
  {
  }

  lemma StepAgrees(db: Db, t: seq<Answered>, call: Call)
    requires Inv(db) && Agrees(db, t) && Possible(db, call)
    ensures Agrees(Step(db, call).0, t + [Answered(call, Step(db, call).1)])
  {
    var start := db.(now := call.at);
    TimePasses(db, t, call.at);
    LifetimeStays(start, call.op);
    assert call == Call(start.now, call.op);
    var after, told := Step(db, call).0, t + [Answered(call, Step(db, call).1)];
    forall u ensures RowAgrees(after, RowTold(told, u), u) && CodeAgrees(after, CodeTold(told, u), u) {
      UserAgrees(start, t, call.op, u);
    }
    forall token
      ensures SessionAgrees(after, SessionTold(told, token, db.lifetime), token)
      ensures InvitationAgrees(after, InvitationTold(told, token), token)
      ensures ResetAgrees(after, ResetTold(told, token), token)
    {
      TokenAgrees(start, t, call.op, token);
    }
  }

  lemma {:induction false} RunAgrees(db: Db, t: seq<Answered>, calls: seq<Call>)
    requires Inv(db) && Agrees(db, t) && PossibleRun(db, calls)
    ensures Agrees(Run(db, calls), t + Transcript(db, calls))
    decreases |calls|
  {
    if calls == [] {
      assert t + [] == t;
    } else {
      var (next, reply) := Step(db, calls[0]);
      StepAgrees(db, t, calls[0]);
      StepKeepsInv(db, calls[0]);
      RunAgrees(next, t + [Answered(calls[0], reply)], calls[1..]);
      assert t + [Answered(calls[0], reply)] + Transcript(next, calls[1..]) == t + Transcript(db, calls);
    }
  }

  lemma HistoryAgrees(lifetime: nat, now: int, calls: seq<Call>)
    requires PossibleRun(EmptyDb(lifetime, now), calls)
    ensures Agrees(Run(EmptyDb(lifetime, now), calls), Transcript(EmptyDb(lifetime, now), calls))
    ensures Inv(Run(EmptyDb(lifetime, now), calls)) && Run(EmptyDb(lifetime, now), calls).lifetime == lifetime
  {
    var db := EmptyDb(lifetime, now);
    RunAgrees(db, [], calls);
    RunKeepsInv(db, calls);
    LifetimeKept(db, calls);
    assert [] + Transcript(db, calls) == Transcript(db, calls);
  }

  lemma {:induction false} LifetimeKept(db: Db, calls: seq<Call>)
    ensures Run(db, calls).lifetime == db.lifetime
    decreases |calls|
  {
    if calls != [] {
      LifetimeStays(db.(now := calls[0].at), calls[0].op);
      LifetimeKept(Step(db, calls[0]).0, calls[1..]);
    }
  }

  // ---------------------------------------------------------------- main results

  /** The user a token stands for at a reading: its session was opened, has not expired and was not ended. */
  function UserTold(t: seq<Answered>, token: Token, lifetime: nat, at: int): Option<PublicUser> {
    var session := SessionTold(t, token, lifetime);
    if session.None? || session.value.revoked || session.value.expires <= at then None
    else
      var row := RowTold(t, session.value.user);
      if row.None? then None
      else Some(PublicUser(session.value.user, row.value.username, row.value.email, row.value.role))
  }

  lemma UserIsTold(db: Db, t: seq<Answered>, token: Token, at: int)
    requires Inv(db) && Agrees(db, t) && at >= db.now
    ensures CurrentUser(db, token, at) == UserTold(t, token, db.lifetime, at)
  {
    var session := SessionTold(t, token, db.lifetime);
    assert SessionAgrees(db, session, token);
    if session.Some? {
      assert RowAgrees(db, RowTold(t, session.value.user), session.value.user);
    }
  }

  /**
   After any run from the tables before setup, `current_user` answers for exactly the sessions
   that were opened and neither expired nor ended since, with the name and address the user was
   created with and the role the user was last given.
   */
  lemma CurrentUserIsTold(lifetime: nat, now: int, calls: seq<Call>, token: Token, at: int)
    requires PossibleRun(EmptyDb(lifetime, now), calls) && at >= Run(EmptyDb(lifetime, now), calls).now
    ensures CurrentUser(Run(EmptyDb(lifetime, now), calls), token, at)
         == UserTold(Transcript(EmptyDb(lifetime, now), calls), token, lifetime, at)
  {
    HistoryAgrees(lifetime, now, calls);
    UserIsTold(Run(EmptyDb(lifetime, now), calls), Transcript(EmptyDb(lifetime, now), calls), token, at);
  }

  // -- replies

  ghost predicate OwnerTold(t: seq<Answered>, u: UserId) {
    RowTold(t, u).Some? && RowTold(t, u).value.role == Owner
  }

  ghost predicate EnabledOwnerTold(t: seq<Answered>, u: UserId) {
    OwnerTold(t, u) && RowTold(t, u).value.enabled
  }

  /** A user who has this name or address, whatever the case, and is more than invited. */
  ghost predicate ActiveTold(t: seq<Answered>, u: UserId, username: string, email: string) {
    && RowTold(t, u).Some? && Named(RowTold(t, u).value, Lower(username), Lower(email))
    && (RowTold(t, u).value.password.Some? || RowTold(t, u).value.enabled)
  }

  ghost predicate ExactNameTold(t: seq<Answered>, u: UserId, username: string, email: string) {
    RowTold(t, u).Some? && (RowTold(t, u).value.username == username || RowTold(t, u).value.email == Lower(email))
  }

  /** The reply to a call, from the transcript so far. */
  ghost function ReplyTold(t: seq<Answered>, call: Call): Reply {
    match call.op
    case CreatingOwner(username, email, _, _, _, _) =>
      if exists u :: OwnerTold(t, u) then Refused(SetupCompleted)
      else if exists u :: ExactNameTold(t, u, username, email) then Refused(ConstraintViolated)
      else Accepted
    case LoggingIn(identifier, password, pick, _) =>
      var row := RowTold(t, pick);
      if row.Some? && row.value.enabled && Named(row.value, Lower(identifier), Lower(identifier))
         && row.value.password == Some(password)
      then Accepted else Refused(InvalidCredentials)
    case Recovering(email, code, _, pick, _, _) =>
      if EnabledOwnerTold(t, pick) && Lower(RowTold(t, pick).value.email) == Lower(email) && CodeTold(t, pick) == Some(code)
      then Accepted else Refused(InvalidCredentials)
    case Inviting(smtp, username, email, _, _, _) =>
      if !smtp then Refused(SmtpNotConfigured)
      else if exists u :: ActiveTold(t, u, username, email) then Refused(Conflict)
      else Accepted
    case Accepting(token, _) =>
      var invitation := InvitationTold(t, token);
      if invitation.Some? && !invitation.value.accepted && call.at < invitation.value.expires
         && RowTold(t, invitation.value.user).Some?
      then Accepted else Refused(InvalidToken)
    case Updating(user, role, enabled) =>
      var row := RowTold(t, user);
      if row.None? then Refused(NotFound)
      else if enabled && row.value.password.None? then Refused(NotAccepted)
      else if row.value.role == Owner && (role != Owner || !enabled)
              && (forall u, v :: EnabledOwnerTold(t, u) && EnabledOwnerTold(t, v) ==> u == v)
      then Refused(LastOwner) else Accepted
    case Revoking(user) => if RowTold(t, user).None? then Refused(NotFound) else Accepted
    case CompletingReset(token, _) =>
      var reset := ResetTold(t, token);
      if reset.Some? && !reset.value.used && call.at < reset.value.expires
         && RowTold(t, reset.value.user).Some? && RowTold(t, reset.value.user).value.enabled
      then Accepted else Refused(InvalidToken)
    case _ => Accepted
  }

  lemma CreateIsTold(db: Db, t: seq<Answered>, op: Op)
    requires Agrees(db, t) && op.CreatingOwner?
    ensures Apply(db, op).1 == ReplyTold(t, Call(db.now, op))
  {
    forall u ensures RowAgrees(db, RowTold(t, u), u) { }
    if u :| u in db.users && db.users[u].role == Owner {
      assert OwnerTold(t, u);
    }
    if u :| u in db.users && (db.users[u].username == op.username || db.users[u].email == Lower(op.email)) {
      assert ExactNameTold(t, u, op.username, op.email);
    }
  }

  lemma InviteIsTold(db: Db, t: seq<Answered>, op: Op)
    requires Agrees(db, t) && op.Inviting?
    ensures Apply(db, op).1 == ReplyTold(t, Call(db.now, op))
  {
    var existing := Existing(db.users, op.username, op.email);
    forall u ensures RowAgrees(db, RowTold(t, u), u) { }
    if u :| u in existing && (db.users[u].password.Some? || db.users[u].enabled) {
      assert ActiveTold(t, u, op.username, op.email);
    }
    LowerTwice(op.email);
    assert !NameTaken(DeleteUsers(db, existing).users, op.username, Lower(op.email));
  }

  lemma AtMostOne(s: set<UserId>)
    ensures |s| <= 1 <==> forall u, v :: u in s && v in s ==> u == v
  {
    if u, v :| u in s && v in s && u != v {
      assert {u, v} <= s;
      assert s == {u, v} + (s - {u, v});
    } else if s != {} {
      var u :| u in s;
      assert s == {u};
    }
  }

  lemma UpdateIsTold(db: Db, t: seq<Answered>, op: Op)
    requires Agrees(db, t) && op.Updating?
    ensures Apply(db, op).1 == ReplyTold(t, Call(db.now, op))
  {
    forall u ensures EnabledOwnerTold(t, u) <==> u in EnabledOwners(db.users) {
      assert RowAgrees(db, RowTold(t, u), u);
    }
    assert RowAgrees(db, RowTold(t, op.user), op.user);
    AtMostOne(EnabledOwners(db.users));
  }

  lemma SignInIsTold(db: Db, t: seq<Answered>, op: Op)
    requires Agrees(db, t) && (op.LoggingIn? || op.Recovering?)
    ensures Apply(db, op).1 == ReplyTold(t, Call(db.now, op))
  {
    assert RowAgrees(db, RowTold(t, op.pick), op.pick) && CodeAgrees(db, CodeTold(t, op.pick), op.pick);
  }

  lemma TokenUseIsTold(db: Db, t: seq<Answered>, op: Op)
    requires Inv(db) && Agrees(db, t) && (op.Accepting? || op.CompletingReset?)
    ensures Apply(db, op).1 == ReplyTold(t, Call(db.now, op))
  {
    var invitation, reset := InvitationTold(t, op.token), ResetTold(t, op.token);
    assert InvitationAgrees(db, invitation, op.token) && ResetAgrees(db, reset, op.token);
    if invitation.Some? {
      assert RowAgrees(db, RowTold(t, invitation.value.user), invitation.value.user);
    }
    if reset.Some? {
      assert RowAgrees(db, RowTold(t, reset.value.user), reset.value.user);
    }
  }

  lemma ReplyIsTold(db: Db, t: seq<Answered>, op: Op)
    requires Inv(db) && Agrees(db, t)
    ensures Apply(db, op).1 == ReplyTold(t, Call(db.now, op))
  {
    match op
    case CreatingOwner(_, _, _, _, _, _) => CreateIsTold(db, t, op);
    case LoggingIn(_, _, _, _) => SignInIsTold(db, t, op);
    case Recovering(_, _, _, _, _, _) => SignInIsTold(db, t, op);
    case Inviting(_, _, _, _, _, _) => InviteIsTold(db, t, op);
    case Accepting(_, _) => TokenUseIsTold(db, t, op);
    case Updating(_, _, _) => UpdateIsTold(db, t, op);
    case Revoking(user) => assert RowAgrees(db, RowTold(t, user), user);
    case CompletingReset(_, _) => TokenUseIsTold(db, t, op);
    case LoggingOut(_) =>
    case MailFailing(_) =>
    case RequestingReset(_, _, _, _) =>
    case CleaningUp =>
  }

  /**
   After any run from the tables before setup, the reply to every call follows from the transcript:
   who may sign in and with what, which one-time tokens still work, who may be invited or changed.
   */
  lemma RepliesAreTold(lifetime: nat, now: int, calls: seq<Call>, call: Call)
    requires PossibleRun(EmptyDb(lifetime, now), calls) && Possible(Run(EmptyDb(lifetime, now), calls), call)
    ensures Step(Run(EmptyDb(lifetime, now), calls), call).1
         == ReplyTold(Transcript(EmptyDb(lifetime, now), calls), call)
  {
    var db, t := Run(EmptyDb(lifetime, now), calls), Transcript(EmptyDb(lifetime, now), calls);
    HistoryAgrees(lifetime, now, calls);
    TimePasses(db, t, call.at);
    ReplyIsTold(db.(now := call.at), t, call.op);
    assert call == Call(call.at, call.op);
  }
}
