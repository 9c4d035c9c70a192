/** The use cases as decisions (internal/auth/service.go): what a call answers, and the one entry it adds to history. */
module Protocol {
  import opened Domain
  import opened Storage
  import opened Phone

  /** A call, with all the service takes from its surroundings: the clock, the database's choice among rows sent
      at one instant, fresh codes and tokens, whether the provider delivered, and which fallible steps fail. */
  datatype Call =
    | Request(now: int, intent: Intent, rawPhone: string, role: string, language: string, link: Option<LinkToken>,
              pick: Option<nat>, code: string, sent: bool, fails: set<Op>)
    | Resend(now: int, id: nat, code: string, sent: bool, fails: set<Op>)
    | Confirm(now: int, id: nat, code: string, token: string, fails: set<Op>)
    | ClearLockout(now: int, actor: string, account: nat, pick: Option<nat>, stamp: int, fails: set<Op>)
    | GoogleExchange(now: int, proven: Option<Identity>, token: string, fails: set<Op>)
    | ValidateSession(now: int, token: string, fails: set<Op>)
    | RevokeSession(now: int, token: string, fails: set<Op>)

  datatype Reply =
    | Failed(error: Error)
    | Challenged(id: nat)
    | SignedIn(token: string, account: nat, home: bool)
    | LockoutCleared(cleared: bool)
    | PhoneNeeded(link: LinkToken)
    | Principal(account: nat)
    | SignedOut

  /** What happened in a call. `Lost` and `Slipped` are a delivery and a wrong guess the store failed to record. */
  datatype Entry =
    | Opened(id: nat, row: Challenge, link: Option<LinkToken>, at: int)
    | Resent(id: nat, phone: string, code: string, at: int)
    | Lost(phone: string, code: string, signin: bool, via: Option<nat>, at: int)
    | Missed(id: nat, phone: string, at: int)
    | Slipped(id: nat, phone: string, at: int)
    | CapLocked(id: nat, phone: string, at: int)
    | Confirmed(id: nat, phone: string, signup: bool, code: string, account: nat, token: string, at: int)
    | Cleared(id: nat, phone: string, account: nat, forgiven: nat, actor: string, stamp: int, at: int)
    | Proven(identity: Identity, minted: LinkToken, at: int)
    | Resumed(identity: Identity, account: nat, token: string, at: int)
    | Extended(id: nat, at: int)
    | Revoked(hash: TokenHash, at: int)
    | Quiet(at: int)

  datatype Decision = Decision(reply: Reply, entry: Entry)

  function NewChallenge(phone: string, intent: Intent, role: string, language: string, google: Option<Identity>,
                        code: string, now: int): Challenge
  {
    Challenge(phone, intent, Bcrypt(code), role, language, google, now, now + OTP_TTL, 0, 1, None, Pending)
  }

  /** The account a confirmed signup challenge stands for. */
  function PendingAccount(row: Challenge, now: int): Account {
    Account(row.role, row.phone, row.google, row.language, now)
  }

  /** The rows an entry speaks of exist. */
  predicate InRange(db: Db, e: Entry) {
    match e
    case Resent(id, _, _, _) => id < |db.challenges|
    case Missed(id, _, _) => id < |db.challenges|
    case CapLocked(id, _, _) => id < |db.challenges|
    case Confirmed(id, _, _, _, _, _, _) => id < |db.challenges|
    case Cleared(id, _, _, _, _, _, _) => id < |db.challenges|
    case Extended(id, _) => id < |db.sessions|
    case _ => true
  }

  // --- What a call decides ---

  function Refuse(error: Error, now: int): (d: Decision) {
    Decision(Failed(error), Quiet(now))
  }

  function DecideRequest(key: string, db: Db, c: Call): (d: Decision)
    requires c.Request?
    requires c.pick.Some? ==> c.pick.value < |db.challenges|
    ensures InRange(db, d.entry) && d.entry.at == c.now
  {
    var phone := Canonical(c.rawPhone);
    if c.intent.OtherIntent? then Refuse(UnsupportedIntent, c.now)
    else if phone.None? then Refuse(InvalidPhone, c.now)
    else if FindAccountOp in c.fails then Refuse(StorageFailure, c.now)
    else
      var registered := FindByPhone(db.accounts, phone.value).Some?;
      if registered && c.intent.Signup? then Refuse(AccountExists, c.now)
      else if !registered && c.intent.Signin? then Refuse(NoAccount, c.now)
      else if c.intent.Signup? && c.link.Some? && VerifyPendingGoogleLink(key, c.link.value, c.now).None? then
        Refuse(GoogleFailed, c.now)
      else DecideFreshCode(db, c, phone.value)
  }

  /** The half of Request that consults the phone's earlier challenges. */
  function DecideFreshCode(db: Db, c: Call, phone: string): (d: Decision)
    requires c.Request?
    requires c.pick.Some? ==> c.pick.value < |db.challenges|
    ensures InRange(db, d.entry) && d.entry.at == c.now
  {
    var now, rows := c.now, db.challenges;
    if FindLatestOp in c.fails then Refuse(StorageFailure, now)
    else if c.pick.Some? && rows[c.pick.value].IsLocked(now) then
      Refuse(LockedOut(rows[c.pick.value].lockedUntil.value), now)
    else if c.pick.Some? && !rows[c.pick.value].ResendReady(now) then Refuse(CooldownActive, now)
    else if CountSendsOp in c.fails then Refuse(StorageFailure, now)
    else if CountSendsSince(rows, phone, now - SEND_CAP_WINDOW) >= MAX_SENDS_PER_WINDOW then
      if c.pick.None? then Refuse(LockedOut(now + LOCKOUT_DURATION), now)
      else if UpdateChallengeOp in c.fails then Refuse(StorageFailure, now)
      else Decision(Failed(LockedOut(now + LOCKOUT_DURATION)), CapLocked(c.pick.value, phone, now))
    else if EntropyOp in c.fails then Refuse(StorageFailure, now)
    else if !c.sent then Refuse(SendFailed, now)
    else if CreateChallengeOp in c.fails then Decision(Failed(StorageFailure), Lost(phone, c.code, c.intent.Signin?, None, now))
    else
      var link := if c.intent.Signup? then c.link else None;
      var row :=
        if c.intent.Signup? then
          NewChallenge(phone, Signup, c.role, c.language, if link.Some? then Some(link.value.identity) else None,
                       c.code, now)
        else NewChallenge(phone, c.intent, "", "", None, c.code, now);
      Decision(Challenged(|rows|), Opened(|rows|, row, link, now))
  }

  function DecideResend(db: Db, c: Call): (d: Decision)
    requires c.Resend?
    ensures InRange(db, d.entry) && d.entry.at == c.now
  {
    var now := c.now;
    if GetChallengeOp in c.fails then Refuse(StorageFailure, now)
    else if c.id >= |db.challenges| then Refuse(NotFound, now)
    else
      var row := db.challenges[c.id];
      if row.IsLocked(now) then Refuse(LockedOut(row.lockedUntil.value), now)
      else if row.status == Verified || row.IsExpired(now) then Refuse(CodeExpired, now)
      else if !row.ResendReady(now) then Refuse(CooldownActive, now)
      else if row.SendCapReached() then
        if UpdateChallengeOp in c.fails then Refuse(StorageFailure, now)
        else Decision(Failed(LockedOut(now + LOCKOUT_DURATION)), CapLocked(c.id, row.phone, now))
      else if EntropyOp in c.fails then Refuse(StorageFailure, now)
      else if !c.sent then Refuse(SendFailed, now)
      else if UpdateChallengeOp in c.fails then
        Decision(Failed(StorageFailure), Lost(row.phone, c.code, row.intent.Signin?, Some(c.id), now))
      else Decision(Challenged(c.id), Resent(c.id, row.phone, c.code, now))
  }

  function DecideConfirm(db: Db, c: Call): (d: Decision)
    requires c.Confirm?
    ensures InRange(db, d.entry) && d.entry.at == c.now
  {
    var now := c.now;
    if GetChallengeOp in c.fails then Refuse(StorageFailure, now)
    else if c.id >= |db.challenges| then Refuse(NotFound, now)
    else
      var row := db.challenges[c.id];
      if row.IsLocked(now) then Refuse(LockedOut(row.lockedUntil.value), now)
      else if row.status == Verified then Refuse(IncorrectCode(None), now)
      else if row.IsExpired(now) then Refuse(CodeExpired, now)
      else if row.codeHash != Bcrypt(c.code) then
        if UpdateChallengeOp in c.fails then Decision(Failed(StorageFailure), Slipped(c.id, row.phone, now))
        else if row.failedAttempts + 1 >= MAX_FAILED_ATTEMPTS then
          Decision(Failed(LockedOut(now + LOCKOUT_DURATION)), Missed(c.id, row.phone, now))
        else
          Decision(Failed(IncorrectCode(Some(MAX_FAILED_ATTEMPTS - row.failedAttempts - 1))),
                   Missed(c.id, row.phone, now))
      else if EntropyOp in c.fails || BeginOp in c.fails then Refuse(StorageFailure, now)
      else DecideConfirmWrites(db, c, row)
  }

  /** The transaction of a correct confirm, for the challenge as it was read. */
  function DecideConfirmWrites(db: Db, c: Call, row: Challenge): (d: Decision)
    requires c.Confirm? && c.id < |db.challenges|
    ensures InRange(db, d.entry) && d.entry.at == c.now
  {
    var now := c.now;
    var signin := row.intent.Signin?;
    var found := FindByPhone(db.accounts, row.phone);
    if signin && FindAccountOp in c.fails then Refuse(StorageFailure, now)
    else if signin && found.None? then Refuse(NoAccount, now)
    else if !signin && CreateAccountOp in c.fails then Refuse(StorageFailure, now)
    else if !signin && Conflicts(db.accounts, PendingAccount(row, now)) then Refuse(AccountExists, now)
    else if CreateSessionOp in c.fails || FindByTokenHash(db.sessions, Sha256(c.token)).Some? then
      Refuse(StorageFailure, now)
    else if UpdateChallengeOp in c.fails || CommitOp in c.fails then Refuse(StorageFailure, now)
    else
      var account := if signin then found.value else |db.accounts|;
      Decision(SignedIn(c.token, account, signin),
               Confirmed(c.id, row.phone, !signin, c.code, account, c.token, now))
  }

  function DecideClear(db: Db, c: Call): (d: Decision)
    requires c.ClearLockout?
    requires c.pick.Some? ==> c.pick.value < |db.challenges|
    ensures InRange(db, d.entry) && d.entry.at == c.now
  {
    var now := c.now;
    if FindAccountOp in c.fails then Refuse(StorageFailure, now)
    else if c.account >= |db.accounts| then Refuse(NotFound, now)
    else if FindLatestOp in c.fails then Refuse(StorageFailure, now)
    else if c.pick.None? || !db.challenges[c.pick.value].IsLocked(now) then
      Decision(LockoutCleared(false), Quiet(now))
    else if BeginOp in c.fails || UpdateChallengeOp in c.fails || CreateAuditOp in c.fails || CommitOp in c.fails then
      Refuse(StorageFailure, now)
    else
      Decision(LockoutCleared(true),
               Cleared(c.pick.value, db.accounts[c.account].phone, c.account,
                       db.challenges[c.pick.value].sendsInWindow, c.actor, c.stamp, now))
  }

  function DecideGoogle(key: string, db: Db, c: Call): (d: Decision)
    requires c.GoogleExchange?
    ensures InRange(db, d.entry) && d.entry.at == c.now
  {
    var now := c.now;
    if c.proven.None? then Refuse(GoogleFailed, now)
    else if FindAccountOp in c.fails then Refuse(StorageFailure, now)
    else
      var identity := c.proven.value;
      var found := FindByGoogleSubject(db.accounts, identity.subject);
      if found.None? then
        var link := SignPendingGoogleLink(key, identity, now);
        Decision(PhoneNeeded(link), Proven(identity, link, now))
      else if EntropyOp in c.fails || BeginOp in c.fails || CreateSessionOp in c.fails || CommitOp in c.fails
              || FindByTokenHash(db.sessions, Sha256(c.token)).Some? then
        Refuse(StorageFailure, now)
      else Decision(SignedIn(c.token, found.value, true), Resumed(identity, found.value, c.token, now))
  }

  function DecideValidate(db: Db, c: Call): (d: Decision)
    requires c.ValidateSession?
    ensures InRange(db, d.entry) && d.entry.at == c.now
  {
    var now := c.now;
    var found := FindByTokenHash(db.sessions, Sha256(c.token));
    if FindSessionOp in c.fails then Refuse(StorageFailure, now)
    else if found.None? then Refuse(NoSession, now)
    else
      var s := db.sessions[found.value];
      if !s.IsValid(now) then Refuse(NoSession, now)
      else if FindAccountOp in c.fails || s.account >= |db.accounts| then Refuse(StorageFailure, now)
      else if !s.NeedsExtension(now) then Decision(Principal(s.account), Quiet(now))
      else if UpdateSessionOp in c.fails then Refuse(StorageFailure, now)
      else Decision(Principal(s.account), Extended(found.value, now))
  }

  function DecideRevoke(c: Call): (d: Decision)
    requires c.RevokeSession?
    ensures d.entry.at == c.now
  {
    if RevokeSessionOp in c.fails then Refuse(StorageFailure, c.now)
    else Decision(SignedOut, Revoked(Sha256(c.token), c.now))
  }

  /** The database's choices fit the tables. */
  predicate PicksInRange(db: Db, c: Call) {
    (c.Request? || c.ClearLockout?) && c.pick.Some? ==> c.pick.value < |db.challenges|
  }

  /** The database chose among the most recently sent rows of the phone in question. */
  ghost predicate PicksOk(db: Db, c: Call) {
    && (c.Request? ==>
          match Canonical(c.rawPhone)
          case Some(phone) => LatestOk(db.challenges, phone, c.pick)
          case None => c.pick.None?)
    && (c.ClearLockout? ==>
          if c.account < |db.accounts| then LatestOk(db.challenges, db.accounts[c.account].phone, c.pick)
          else c.pick.None?)
  }

  function Decide(key: string, db: Db, c: Call): (d: Decision)
    requires PicksInRange(db, c)
    ensures InRange(db, d.entry) && d.entry.at == c.now
  {
    match c
    case Request(_, _, _, _, _, _, _, _, _, _) => DecideRequest(key, db, c)
    case Resend(_, _, _, _, _) => DecideResend(db, c)
    case Confirm(_, _, _, _, _) => DecideConfirm(db, c)
    case ClearLockout(_, _, _, _, _, _) => DecideClear(db, c)
    case GoogleExchange(_, _, _, _) => DecideGoogle(key, db, c)
    case ValidateSession(_, _, _) => DecideValidate(db, c)
    case RevokeSession(_, _, _) => DecideRevoke(c)
  }

  // --- What an entry does to the tables ---

  /** The entry changes one challenge. */
  predicate ChangesRow(e: Entry) {
    e.Resent? || e.Missed? || e.CapLocked? || e.Confirmed? || e.Cleared?
  }

  function RowAfter(row: Challenge, e: Entry): Challenge
    requires ChangesRow(e)
  {
    match e
    case Resent(_, _, code, at) => row.AfterSend(code, at)
    case Missed(_, _, at) => row.AfterFailure(at)
    case CapLocked(_, _, at) => row.AfterLock(at)
    case Confirmed(_, _, _, _, _, _, _) => row.(status := Verified)
    case Cleared(_, _, _, _, _, _, _) => row.AfterClear()
  }

  function ChallengesAfter(rows: seq<Challenge>, e: Entry): seq<Challenge>
    requires ChangesRow(e) ==> e.id < |rows|
  {
    if e.Opened? then rows + [e.row]
    else if ChangesRow(e) then rows[e.id := RowAfter(rows[e.id], e)]
    else rows
  }

  function Effect(db: Db, e: Entry): Db
    requires InRange(db, e)
  {
    var rows := db.challenges;
    match e
    case Opened(_, row, _, _) => db.(challenges := rows + [row])
    case Resent(id, _, _, _) => db.(challenges := rows[id := RowAfter(rows[id], e)])
    case Missed(id, _, _) => db.(challenges := rows[id := RowAfter(rows[id], e)])
    case CapLocked(id, _, _) => db.(challenges := rows[id := RowAfter(rows[id], e)])
    case Confirmed(id, _, signup, _, account, token, at) =>
      Db(if signup then db.accounts + [PendingAccount(rows[id], at)] else db.accounts,
         rows[id := RowAfter(rows[id], e)],
         db.sessions + [NewSession(account, token, at)],
         db.audit)
    case Cleared(id, _, account, _, actor, stamp, _) =>
      db.(challenges := rows[id := RowAfter(rows[id], e)], audit := db.audit + [AuditEvent(actor, account, id, stamp)])
    case Resumed(_, account, token, at) => db.(sessions := db.sessions + [NewSession(account, token, at)])
    case Extended(id, at) => db.(sessions := db.sessions[id := db.sessions[id].AfterExtend(at)])
    case Revoked(hash, at) => db.(sessions := RevokeByTokenHash(db.sessions, hash, at))
    case _ => db
  }

  lemma ChallengesOfEffect(db: Db, e: Entry)
    requires InRange(db, e)
    ensures Effect(db, e).challenges == ChallengesAfter(db.challenges, e)
  {
  }

  /** The code an entry put on a phone, if any. */
  function Message(e: Entry): seq<(string, string)> {
    match e
    case Opened(_, row, _, _) => [(row.phone, row.codeHash.code)]
    case Resent(_, phone, code, _) => [(phone, code)]
    case Lost(phone, code, _, _, _) => [(phone, code)]
    case _ => []
  }
}
