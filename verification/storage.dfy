/** The four tables, the queries over them and the repositories (internal/auth/postgres, internal/platform/db). */
module Storage {
  import opened Domain

  datatype AuditEvent = AuditEvent(actor: string, account: nat, challenge: nat, createdAt: int)

  /** The tables; a row's id is its position, and no statement deletes a row. */
  datatype Db = Db(
    accounts: seq<Account>,
    challenges: seq<Challenge>,
    sessions: seq<Session>,
    audit: seq<AuditEvent>)

  const EMPTY := Db([], [], [], [])

  // --- Verification queries ---

  /** What a row contributes to a sum over the rows of a phone last sent at or after `since`. */
  datatype Measure =
    | Sends(phone: string, since: int)   // sends_in_window
    | Active(phone: string, since: int)  // one for each row
    | Blank(phone: string)               // one for each row without counted sends, whenever sent
    | Band(phone: string, since: int, to: int)  // one for each row last sent in a closed window
    | Failures(phone: string, since: int)       // failed_attempts
    | Traced(phone: string, since: int)         // sends that cannot lie before `since`
    | Excess(phone: string)                     // wrong guesses beyond the limit, or owed to a lifted lock

  /** How many of a row's at most five sends, ten minutes apart at most, cannot lie before an instant that is `span`
      before the last of them. */
  function SendsWithin(span: int): nat {
    if span < 0 then 0
    else if span < OTP_TTL then 1
    else if span < 2 * OTP_TTL then 2
    else if span < 3 * OTP_TTL then 3
    else if span < 4 * OTP_TTL then 4
    else MAX_SENDS_PER_WINDOW
  }

  function Share(row: Challenge, m: Measure): nat {
    match m
    case Sends(phone, since) => if row.phone == phone && row.sentAt >= since then row.sendsInWindow else 0
    case Active(phone, since) => if row.phone == phone && row.sentAt >= since then 1 else 0
    case Blank(phone) => if row.phone == phone && row.sendsInWindow == 0 then 1 else 0
    case Band(phone, since, to) => if row.phone == phone && since <= row.sentAt <= to then 1 else 0
    case Failures(phone, since) => if row.phone == phone && row.sentAt >= since then row.failedAttempts else 0
    case Traced(phone, since) =>
      if row.phone != phone then 0
      else if row.sendsInWindow < SendsWithin(row.sentAt - since) then row.sendsInWindow
      else SendsWithin(row.sentAt - since)
    case Excess(phone) =>
      if row.phone != phone || row.failedAttempts < MAX_FAILED_ATTEMPTS then 0
      else row.failedAttempts - MAX_FAILED_ATTEMPTS + if row.lockedUntil.Some? then 0 else 1
  }

  function Sum(rows: seq<Challenge>, m: Measure): nat {
    if rows == [] then 0 else Sum(rows[..|rows| - 1], m) + Share(rows[|rows| - 1], m)
  }

  function CountSendsSince(rows: seq<Challenge>, phone: string, since: int): nat {
    Sum(rows, Sends(phone, since))
  }

  /** Row `i` is among the most recently sent challenges of `phone`. */
  ghost predicate IsLatest(rows: seq<Challenge>, phone: string, i: nat) {
    && i < |rows| && rows[i].phone == phone
    && forall j | 0 <= j < |rows| && rows[j].phone == phone :: rows[j].sentAt <= rows[i].sentAt
  }

  /** Row `l` is the only most recently sent challenge of `phone`. */
  ghost predicate StrictlyLatest(rows: seq<Challenge>, phone: string, l: nat) {
    && l < |rows| && rows[l].phone == phone
    && forall j | 0 <= j < |rows| && j != l && rows[j].phone == phone :: rows[j].sentAt < rows[l].sentAt
  }

  /** Any answer the latest-challenge query may give: its order leaves ties open. */
  ghost predicate LatestOk(rows: seq<Challenge>, phone: string, pick: Option<nat>) {
    match pick
    case None => forall j | 0 <= j < |rows| :: rows[j].phone != phone
    case Some(i) => IsLatest(rows, phone, i)
  }

  /** The update statement: seven columns of one row; phone, intent and the pending signup stay. */
  function Overwritten(row: Challenge, v: Challenge): Challenge {
    row.(codeHash := v.codeHash, sentAt := v.sentAt, expiresAt := v.expiresAt, failedAttempts := v.failedAttempts,
         sendsInWindow := v.sendsInWindow, lockedUntil := v.lockedUntil, status := v.status)
  }

  // --- Account and session queries ---

  function FindByPhone(accounts: seq<Account>, phone: string): (r: Option<nat>)
    ensures r.Some? ==> r.value < |accounts| && accounts[r.value].phone == phone
    ensures r.None? ==> forall k | 0 <= k < |accounts| :: accounts[k].phone != phone
  {
    if accounts == [] then None
    else
      var n := |accounts| - 1;
      var r := FindByPhone(accounts[..n], phone);
      if r.None? && accounts[n].phone == phone then Some(n) else r
  }

  predicate HasSubject(a: Account, subject: string) {
    a.google.Some? && a.google.value.subject == subject
  }

  function FindByGoogleSubject(accounts: seq<Account>, subject: string): (r: Option<nat>)
    ensures r.Some? ==> r.value < |accounts| && HasSubject(accounts[r.value], subject)
    ensures r.None? ==> forall k | 0 <= k < |accounts| :: !HasSubject(accounts[k], subject)
  {
    if accounts == [] then None
    else
      var n := |accounts| - 1;
      var r := FindByGoogleSubject(accounts[..n], subject);
      if r.None? && HasSubject(accounts[n], subject) then Some(n) else r
  }

  /** A unique index rejects the account: its phone or its Google subject is taken. */
  predicate Conflicts(accounts: seq<Account>, a: Account) {
    || FindByPhone(accounts, a.phone).Some?
    || (a.google.Some? && FindByGoogleSubject(accounts, a.google.value.subject).Some?)
  }

  function FindByTokenHash(sessions: seq<Session>, hash: TokenHash): (r: Option<nat>)
    ensures r.Some? ==> r.value < |sessions| && sessions[r.value].tokenHash == hash
    ensures r.None? ==> forall k | 0 <= k < |sessions| :: sessions[k].tokenHash != hash
  {
    if sessions == [] then None
    else
      var n := |sessions| - 1;
      var r := FindByTokenHash(sessions[..n], hash);
      if r.None? && sessions[n].tokenHash == hash then Some(n) else r
  }

  /** The revoke statement: only matching rows that are not revoked yet. */
  function RevokeOne(s: Session, hash: TokenHash, at: int): Session {
    if s.tokenHash == hash && s.revokedAt.None? then s.(revokedAt := Some(at)) else s
  }

  function RevokeByTokenHash(sessions: seq<Session>, hash: TokenHash, at: int): (r: seq<Session>)
    ensures |r| == |sessions|
    ensures forall k | 0 <= k < |sessions| :: r[k] == RevokeOne(sessions[k], hash, at)
  {
    if sessions == [] then []
    else
      var n := |sessions| - 1;
      RevokeByTokenHash(sessions[..n], hash, at) + [RevokeOne(sessions[n], hash, at)]
  }

  /** The session update statement writes the two idle-expiry columns and leaves revoked_at alone. */
  function UpdateSession(sessions: seq<Session>, id: nat, lastActiveAt: int, expiresAt: int): seq<Session>
    requires id < |sessions|
  {
    sessions[id := sessions[id].(lastActiveAt := lastActiveAt, expiresAt := expiresAt)]
  }

  // --- Repositories ---

  /** The fallible steps of a use case; `Store.fails` says which of them fail in the current call. */
  datatype Op =
    | FindAccountOp | CreateAccountOp | ListAccountsOp
    | GetChallengeOp | FindLatestOp | CountSendsOp | CreateChallengeOp | UpdateChallengeOp | LockedPhonesOp
    | FindSessionOp | CreateSessionOp | UpdateSessionOp | RevokeSessionOp
    | CreateAuditOp | BeginOp | CommitOp | EntropyOp

  class Store {
    var accounts: seq<Account>
    var challenges: seq<Challenge>
    var sessions: seq<Session>
    var audit: seq<AuditEvent>
    var saved: Option<Db>  // the state an open transaction rolls back to
    var fails: set<Op>  // chosen by the environment before each call

    function Tables(): Db
      reads this
    {
      Db(accounts, challenges, sessions, audit)
    }

    constructor (tables: Db, fails: set<Op>)
      ensures Tables() == tables && saved == None && this.fails == fails
    {
      accounts, challenges, sessions, audit := tables.accounts, tables.challenges, tables.sessions, tables.audit;
      saved, this.fails := None, fails;
    }

    // Unit of work

    method Begin() returns (ok: bool)
      requires saved.None?
      modifies this`saved
      ensures ok == (BeginOp !in fails)
      ensures saved == if ok then Some(Tables()) else None
    {
      if BeginOp in fails {
        return false;
      }
      saved := Some(Tables());
      return true;
    }

    method Rollback()
      requires saved.Some?
      modifies `accounts, `challenges, `sessions, `audit, `saved
      ensures saved.None? && Tables() == old(saved).value
    {
      accounts, challenges, sessions, audit :=
        saved.value.accounts, saved.value.challenges, saved.value.sessions, saved.value.audit;
      saved := None;
    }

    /** A commit that fails leaves nothing of the transaction behind. */
    method Commit() returns (ok: bool)
      requires saved.Some?
      modifies `accounts, `challenges, `sessions, `audit, `saved
      ensures ok == (CommitOp !in fails) && saved.None?
      ensures Tables() == if ok then old(Tables()) else old(saved).value
    {
      if CommitOp in fails {
        Rollback();
        return false;
      }
      saved := None;
      return true;
    }

    // Accounts

    method FindAccountByPhone(phone: string) returns (r: Result<nat>)
      ensures r == if FindAccountOp in fails then Err(StorageFailure) else
                   match FindByPhone(accounts, phone) case Some(k) => Ok(k) case None => Err(NotFound)
    {
      if FindAccountOp in fails {
        return Err(StorageFailure);
      }
      var k := FindByPhone(accounts, phone);
      return if k.Some? then Ok(k.value) else Err(NotFound);
    }

    method FindAccountByGoogleSubject(subject: string) returns (r: Result<nat>)
      ensures r == if FindAccountOp in fails then Err(StorageFailure) else
                   match FindByGoogleSubject(accounts, subject) case Some(k) => Ok(k) case None => Err(NotFound)
    {
      if FindAccountOp in fails {
        return Err(StorageFailure);
      }
      var k := FindByGoogleSubject(accounts, subject);
      return if k.Some? then Ok(k.value) else Err(NotFound);
    }

    method FindAccountByID(id: nat) returns (r: Result<Account>)
      ensures r == if FindAccountOp in fails then Err(StorageFailure)
                   else if id < |accounts| then Ok(accounts[id]) else Err(NotFound)
    {
      if FindAccountOp in fails {
        return Err(StorageFailure);
      }
      return if id < |accounts| then Ok(accounts[id]) else Err(NotFound);
    }

    method CreateAccount(a: Account) returns (r: Result<nat>)
      modifies this`accounts
      ensures r == if CreateAccountOp in fails then Err(StorageFailure)
                   else if Conflicts(old(accounts), a) then Err(AccountExists) else Ok(|old(accounts)|)
      ensures accounts == if r.Ok? then old(accounts) + [a] else old(accounts)
    {
      if CreateAccountOp in fails {
        return Err(StorageFailure);
      }
      if Conflicts(accounts, a) {
        return Err(AccountExists);
      }
      accounts := accounts + [a];
      return Ok(|accounts| - 1);
    }

    // Challenges

    method GetChallenge(id: nat) returns (r: Result<Verification>)
      ensures GetChallengeOp in fails ==> r == Err(StorageFailure)
      ensures GetChallengeOp !in fails && id >= |challenges| ==> r == Err(NotFound)
      ensures GetChallengeOp !in fails && id < |challenges| ==>
                r.Ok? && fresh(r.value) && r.value.id == id && r.value.Row() == challenges[id]
    {
      if GetChallengeOp in fails {
        return Err(StorageFailure);
      }
      if id >= |challenges| {
        return Err(NotFound);
      }
      var v := new Verification(id, challenges[id]);
      return Ok(v);
    }

    /** The latest-challenge query as a scan; of two rows sent at one instant it may settle on either. */
    method ScanLatest(phone: string) returns (best: Option<nat>)
      ensures LatestOk(challenges, phone, best)
    {
      best := None;
      for i := 0 to |challenges|
        invariant LatestOk(challenges[..i], phone, best)
      {
        var row := challenges[i];
        if row.phone == phone {
          if best.None? || challenges[best.value].sentAt < row.sentAt {
            best := Some(i);
          } else if challenges[best.value].sentAt == row.sentAt {
            if * {
              best := Some(i);
            }
          }
        }
      }
      assert challenges[..|challenges|] == challenges;
    }

    method FindLatestByPhone(phone: string) returns (r: Result<Verification>)
      ensures FindLatestOp in fails <==> r == Err(StorageFailure)
      ensures r.Ok? ==> fresh(r.value) && IsLatest(challenges, phone, r.value.id)
      ensures r.Ok? ==> r.value.Row() == challenges[r.value.id]
      ensures r.Err? && FindLatestOp !in fails ==> r.error == NotFound && LatestOk(challenges, phone, None)
    {
      if FindLatestOp in fails {
        return Err(StorageFailure);
      }
      var best := ScanLatest(phone);
      if best.None? {
        return Err(NotFound);
      }
      var v := new Verification(best.value, challenges[best.value]);
      return Ok(v);
    }

    method CountSends(phone: string, since: int) returns (r: Result<nat>)
      ensures r == if CountSendsOp in fails then Err(StorageFailure)
                   else Ok(CountSendsSince(challenges, phone, since))
    {
      if CountSendsOp in fails {
        return Err(StorageFailure);
      }
      return Ok(CountSendsSince(challenges, phone, since));
    }

    method CreateChallenge(row: Challenge) returns (ok: bool)
      modifies this`challenges
      ensures ok == (CreateChallengeOp !in fails)
      ensures challenges == if ok then old(challenges) + [row] else old(challenges)
    {
      if CreateChallengeOp in fails {
        return false;
      }
      challenges := challenges + [row];
      return true;
    }

    method UpdateChallenge(v: Verification) returns (ok: bool)
      modifies this`challenges
      ensures ok == (UpdateChallengeOp !in fails && v.id < |old(challenges)|)
      ensures challenges ==
        if ok then old(challenges)[v.id := Overwritten(old(challenges)[v.id], v.Row())] else old(challenges)
    {
      if UpdateChallengeOp in fails || v.id >= |challenges| {
        return false;
      }
      challenges := challenges[v.id := Overwritten(challenges[v.id], v.Row())];
      return true;
    }

    // Sessions

    method CreateSession(s: Session) returns (ok: bool)
      modifies this`sessions
      ensures ok == (CreateSessionOp !in fails && FindByTokenHash(old(sessions), s.tokenHash).None?)
      ensures sessions == if ok then old(sessions) + [s] else old(sessions)
    {
      if CreateSessionOp in fails || FindByTokenHash(sessions, s.tokenHash).Some? {
        return false;
      }
      sessions := sessions + [s];
      return true;
    }

    method FindSession(hash: TokenHash) returns (r: Result<SessionRecord>)
      ensures FindSessionOp in fails ==> r == Err(StorageFailure)
      ensures FindSessionOp !in fails ==>
                match FindByTokenHash(sessions, hash)
                case None => r == Err(NotFound)
                case Some(k) => r.Ok? && fresh(r.value) && r.value.id == k && r.value.Row() == sessions[k]
    {
      if FindSessionOp in fails {
        return Err(StorageFailure);
      }
      var k := FindByTokenHash(sessions, hash);
      if k.None? {
        return Err(NotFound);
      }
      var s := new SessionRecord(k.value, sessions[k.value]);
      return Ok(s);
    }

    method ExtendSession(s: SessionRecord) returns (ok: bool)
      modifies this`sessions
      ensures ok == (UpdateSessionOp !in fails && s.id < |old(sessions)|)
      ensures sessions ==
        if ok then UpdateSession(old(sessions), s.id, s.lastActiveAt, s.expiresAt) else old(sessions)
    {
      if UpdateSessionOp in fails || s.id >= |sessions| {
        return false;
      }
      sessions := UpdateSession(sessions, s.id, s.lastActiveAt, s.expiresAt);
      return true;
    }

    method RevokeSessions(hash: TokenHash, at: int) returns (ok: bool)
      modifies this`sessions
      ensures ok == (RevokeSessionOp !in fails)
      ensures sessions == if ok then RevokeByTokenHash(old(sessions), hash, at) else old(sessions)
    {
      if RevokeSessionOp in fails {
        return false;
      }
      sessions := RevokeByTokenHash(sessions, hash, at);
      return true;
    }

    // Audit events

    method CreateAuditEvent(e: AuditEvent) returns (ok: bool)
      modifies this`audit
      ensures ok == (CreateAuditOp !in fails)
      ensures audit == if ok then old(audit) + [e] else old(audit)
    {
      if CreateAuditOp in fails {
        return false;
      }
      audit := audit + [e];
      return true;
    }
  }
}
