/**
 The identity transactions as methods that change the tables in place, row by row where the source
 updates, deletes or counts rows. Each is tied to the function on databases that
 IdentityGuarantees and IdentityRuns reason about.
 */
module AccountTables {
  import opened Basics
  import opened Identity

  class Accounts {
    var users: map<UserId, User>
    var sessions: map<Token, Session>
    var invitations: map<Token, Invitation>
    var resets: map<Token, Reset>
    var codes: map<UserId, string>
    var issued: set<Token>
    var known: set<UserId>
    var drawn: set<string>
    const lifetime: nat
    var now: int

    function State(): Db
      reads this
    {
      Db(users, sessions, invitations, resets, codes, issued, known, drawn, lifetime, now)
    }

    constructor (lifetime: nat, now: int)
      ensures State() == EmptyDb(lifetime, now)
    {
      this.lifetime, this.now := lifetime, now;
      users, sessions, invitations, resets, codes := map[], map[], map[], map[], map[];
      issued, known, drawn := {}, {}, {};
    }

    /** One transaction at one clock reading. */
    method Perform(call: Call) returns (r: Reply)
      modifies this
      ensures (State(), r) == Step(old(State()), call)
    {
      now := call.at;
      r := Accepted;
      match call.op {
        case CreatingOwner(username, email, password, user, token, code) =>
          r := CreateOwner(username, email, password, user, token, code);
        case LoggingIn(identifier, password, pick, token) => r := Login(identifier, password, pick, token);
        case LoggingOut(token) => Logout(token);
        case Recovering(email, code, password, pick, newCode, token) =>
          r := RecoverOwner(email, code, password, pick, newCode, token);
        case Inviting(smtp, username, email, role, user, token) =>
          r := Invite(smtp, username, email, role, user, token);
        case MailFailing(user) => MailFailed(user);
        case Accepting(token, password) => r := AcceptInvitation(token, password);
        case Updating(user, role, enabled) => r := UpdateUser(user, role, enabled);
        case Revoking(user) => r := RevokeSessions(user);
        case RequestingReset(smtp, email, pick, token) => RequestReset(smtp, email, pick, token);
        case CompletingReset(token, password) => r := CompleteReset(token, password);
        case CleaningUp => Cleanup();
      }
    }

    method NewSession(token: Token, user: UserId)
      modifies this`sessions, this`issued
      ensures State() == AddSession(old(State()), token, user)
    {
      sessions := sessions[token := Session(user, now + lifetime, false)];
      issued := issued + {token};
    }

    // -- statements over many rows

    /** Mark every session of the user that is not revoked yet. */
    method RevokeWhere(user: UserId)
      modifies this`sessions
      ensures sessions == RevokeAll(old(sessions), user)
    {
      var rest := sessions.Keys;
      while rest != {}
        invariant rest <= old(sessions).Keys && sessions.Keys == old(sessions).Keys
        invariant forall t :: t in rest ==> sessions[t] == old(sessions)[t]
        invariant forall t :: t in sessions && t !in rest ==> sessions[t] == RevokeAll(old(sessions), user)[t]
        decreases |rest|
      {
        var t :| t in rest;
        if sessions[t].user == user && !sessions[t].revoked {
          sessions := sessions[t := sessions[t].(revoked := true)];
        }
        rest := rest - {t};
      }
    }

    /** Mark every unused reset token of the user as used. */
    method VoidResets(user: UserId)
      modifies this`resets
      ensures resets == UseAll(old(resets), user)
    {
      var rest := resets.Keys;
      while rest != {}
        invariant rest <= old(resets).Keys && resets.Keys == old(resets).Keys
        invariant forall t :: t in rest ==> resets[t] == old(resets)[t]
        invariant forall t :: t in resets && t !in rest ==> resets[t] == UseAll(old(resets), user)[t]
        decreases |rest|
      {
        var t :| t in rest;
        if resets[t].user == user && !resets[t].used {
          resets := resets[t := resets[t].(used := true)];
        }
        rest := rest - {t};
      }
    }

    /** Delete one user; the foreign keys delete what refers to it. */
    method DeleteOne(user: UserId)
      modifies this`users, this`sessions, this`invitations, this`resets, this`codes
      ensures State() == DeleteUsers(old(State()), {user})
    {
      var gone := {user};
      users := map u | u in users && u !in gone :: users[u];
      sessions := map t | t in sessions && sessions[t].user !in gone :: sessions[t];
      invitations := map t | t in invitations && invitations[t].user !in gone :: invitations[t];
      resets := map t | t in resets && resets[t].user !in gone :: resets[t];
      codes := map u | u in codes && u !in gone :: codes[u];
    }

    /** Delete the pending users one after the other. */
    method DeleteAll(gone: set<UserId>)
      modifies this`users, this`sessions, this`invitations, this`resets, this`codes
      ensures State() == DeleteUsers(old(State()), gone)
    {
      var done: set<UserId> := {};
      DeleteNone(State());
      while done != gone
        invariant done <= gone && State() == DeleteUsers(old(State()), done)
        decreases |gone - done|
      {
        var user :| user in gone - done;
        DeleteOne(user);
        DeleteOneMore(old(State()), done, user);
        assert gone - (done + {user}) < gone - done;
        done := done + {user};
      }
    }

    static lemma DeleteNone(db: Db)
      ensures DeleteUsers(db, {}) == db
    {
    }

    static lemma DeleteOneMore(db: Db, done: set<UserId>, user: UserId)
      ensures DeleteUsers(DeleteUsers(db, done), {user}) == DeleteUsers(db, done + {user})
    {
    }

    /** SELECT count(*) of the enabled owners. */
    method CountEnabledOwners() returns (count: nat)
      ensures count == |EnabledOwners(users)|
    {
      count := 0;
      var rest := users.Keys;
      ghost var seen: set<UserId> := {};
      while rest != {}
        invariant rest <= users.Keys && count == |seen|
        invariant seen == set u | u in users && u !in rest && users[u].role == Owner && users[u].enabled
        decreases |rest|
      {
        var u :| u in rest;
        rest := rest - {u};
        if users[u].role == Owner && users[u].enabled {
          count := count + 1;
          seen := seen + {u};
        }
      }
      assert seen == EnabledOwners(users);
    }

    /** Is one of these users more than pending? */
    method AnyActive(existing: set<UserId>) returns (found: bool)
      requires existing <= users.Keys
      ensures found <==> exists u | u in existing :: users[u].password.Some? || users[u].enabled
    {
      var rest := existing;
      while rest != {}
        invariant rest <= existing
        invariant forall u :: u in existing && u !in rest ==> users[u].password.None? && !users[u].enabled
        decreases |rest|
      {
        var u :| u in rest;
        if users[u].password.Some? || users[u].enabled {
          return true;
        }
        rest := rest - {u};
      }
      return false;
    }

    // -- transactions

    method CreateOwner(username: string, email: string, password: string, user: UserId, token: Token, code: string)
      returns (r: Reply)
      modifies this
      ensures (State(), r) == Identity.CreateOwner(old(State()), username, email, password, user, token, code)
    {
      if exists u | u in users :: users[u].role == Owner {
        return Refused(SetupCompleted);
      }
      if NameTaken(users, username, Lower(email)) {
        return Refused(ConstraintViolated);
      }
      users := users[user := User(username, Lower(email), Some(password), Owner, true)];
      known := known + {user};
      codes := codes[user := code];
      drawn := drawn + {code};
      NewSession(token, user);
      return Accepted;
    }

    method Login(identifier: string, password: string, pick: UserId, token: Token) returns (r: Reply)
      modifies this`sessions, this`issued
      ensures (State(), r) == Identity.Login(old(State()), identifier, password, pick, token)
    {
      if pick !in LoginCandidates(users, identifier) || users[pick].password != Some(password) {
        return Refused(InvalidCredentials);
      }
      NewSession(token, pick);
      return Accepted;
    }

    method CurrentUser(token: Token, at: int) returns (user: Option<PublicUser>)
      ensures user == Identity.CurrentUser(State(), token, at)
    {
      if token !in sessions || sessions[token].revoked || sessions[token].expires <= at {
        return None;
      }
      var u := sessions[token].user;
      if u !in users || !users[u].enabled {
        return None;
      }
      return Some(PublicUser(u, users[u].username, users[u].email, users[u].role));
    }

    method Logout(token: Token)
      modifies this`sessions
      ensures State() == Identity.Logout(old(State()), token)
    {
      if token in sessions {
        sessions := sessions[token := sessions[token].(revoked := true)];
      }
    }

    method RecoverOwner(email: string, code: string, password: string, pick: UserId, newCode: string, token: Token)
      returns (r: Reply)
      modifies this
      ensures (State(), r) == Identity.RecoverOwner(old(State()), email, code, password, pick, newCode, token)
    {
      if pick !in RecoveryCandidates(State(), email) || codes[pick] != code {
        return Refused(InvalidCredentials);
      }
      users := users[pick := users[pick].(password := Some(password))];
      RevokeWhere(pick);
      codes := codes[pick := newCode];
      drawn := drawn + {newCode};
      NewSession(token, pick);
      return Accepted;
    }

    method Invite(smtp: bool, username: string, email: string, role: Role, user: UserId, token: Token)
      returns (r: Reply)
      modifies this
      ensures (State(), r) == Identity.Invite(old(State()), smtp, username, email, role, user, token)
    {
      if !smtp {
        return Refused(SmtpNotConfigured);
      }
      var existing := Existing(users, username, email);
      var active := AnyActive(existing);
      if active {
        return Refused(Conflict);
      }
      if NameTaken(DeleteUsers(State(), existing).users, username, Lower(email)) {
        return Refused(Conflict);
      }
      DeleteAll(existing);
      users := users[user := User(username, Lower(email), None, role, false)];
      invitations := invitations[token := Invitation(user, now + INVITATION_LIFETIME, false)];
      issued := issued + {token};
      known := known + {user};
      return Accepted;
    }

    method MailFailed(user: UserId)
      modifies this
      ensures State() == Identity.MailFailed(old(State()), user)
    {
      if user in users && !users[user].enabled {
        DeleteOne(user);
      }
    }

    method AcceptInvitation(token: Token, password: string) returns (r: Reply)
      modifies this`users, this`invitations
      ensures (State(), r) == Identity.AcceptInvitation(old(State()), token, password)
    {
      if token !in invitations || invitations[token].accepted || invitations[token].expires <= now {
        return Refused(InvalidToken);
      }
      var user := invitations[token].user;
      if user !in users {
        return Refused(InvalidToken);
      }
      users := users[user := users[user].(password := Some(password), enabled := true)];
      invitations := invitations[token := invitations[token].(accepted := true)];
      return Accepted;
    }

    method UpdateUser(user: UserId, role: Role, enabled: bool) returns (r: Reply)
      modifies this`users, this`sessions
      ensures (State(), r) == Identity.UpdateUser(old(State()), user, role, enabled)
    {
      if user !in users {
        return Refused(NotFound);
      }
      if enabled && users[user].password.None? {
        return Refused(NotAccepted);
      }
      if users[user].role == Owner && (role != Owner || !enabled) {
        var owners := CountEnabledOwners();
        if owners <= 1 {
          return Refused(LastOwner);
        }
      }
      users := users[user := users[user].(role := role, enabled := enabled)];
      if !enabled {
        RevokeWhere(user);
      }
      return Accepted;
    }

    method RevokeSessions(user: UserId) returns (r: Reply)
      modifies this`sessions
      ensures (State(), r) == Identity.RevokeSessions(old(State()), user)
    {
      if user !in users {
        return Refused(NotFound);
      }
      RevokeWhere(user);
      return Accepted;
    }

    method RequestReset(smtp: bool, email: string, pick: UserId, token: Token)
      modifies this`resets, this`issued
      ensures State() == Identity.RequestReset(old(State()), smtp, email, pick, token)
    {
      if !smtp || pick !in EnabledByEmail(users, email) || users[pick].password.None? {
        return;
      }
      VoidResets(pick);
      resets := resets[token := Reset(pick, now + RESET_LIFETIME, false)];
      issued := issued + {token};
    }

    method CompleteReset(token: Token, password: string) returns (r: Reply)
      modifies this`users, this`resets, this`sessions
      ensures (State(), r) == Identity.CompleteReset(old(State()), token, password)
    {
      if token !in resets || resets[token].used || resets[token].expires <= now {
        return Refused(InvalidToken);
      }
      var user := resets[token].user;
      if user !in users || !users[user].enabled {
        return Refused(InvalidToken);
      }
      users := users[user := users[user].(password := Some(password))];
      resets := resets[token := resets[token].(used := true)];
      RevokeWhere(user);
      return Accepted;
    }

    method Cleanup()
      modifies this`sessions
      ensures State() == Identity.Cleanup(old(State()))
    {
      var rest := sessions.Keys;
      while rest != {}
        invariant rest <= sessions.Keys <= old(sessions).Keys
        invariant forall t :: t in sessions ==> sessions[t] == old(sessions)[t]
        invariant forall t :: t in old(sessions) && t !in rest ==> (t in sessions <==> old(sessions)[t].expires >= now)
        decreases |rest|
      {
        var t :| t in rest;
        rest := rest - {t};
        if sessions[t].expires < now {
          sessions := sessions - {t};
        }
      }
      assert sessions == Identity.Cleanup(old(State())).sessions;
    }
  }
}
