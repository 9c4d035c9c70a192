/** Entities and timed rules (internal/auth/domain.go). Instants and durations are whole seconds. */
module Domain {

  datatype Option<+T> = None | Some(value: T)

  datatype Result<+T> = Ok(value: T) | Err(error: Error)

  /** The errors a use case answers with; StorageFailure stands for every wrapped repository or entropy error. */
  datatype Error =
    | AccountExists
    | NoAccount
    | LockedOut(until: int)
    | IncorrectCode(remaining: Option<nat>)
    | CodeExpired
    | SendFailed
    | InvalidPhone
    | CooldownActive
    | NotFound
    | UnsupportedIntent
    | GoogleFailed
    | NoSession
    | StorageFailure

  const MINUTE := 60
  const DAY := 24 * 60 * MINUTE

  const OTP_TTL := 10 * MINUTE
  const LOCKOUT_DURATION := 30 * MINUTE
  const RESEND_COOLDOWN := 60
  const MAX_FAILED_ATTEMPTS := 5
  const MAX_SENDS_PER_WINDOW := 5
  const SEND_CAP_WINDOW := 30 * MINUTE
  const SESSION_IDLE_WINDOW := 60 * DAY
  const SESSION_EXTEND_INTERVAL := DAY

  datatype Intent = Signup | Signin | OtherIntent(name: string)

  datatype Status = Pending | Verified | Expired | Locked

  /** An ideal hash: equal hashes come from equal codes. */
  datatype CodeHash = Bcrypt(code: string)

  /** An ideal hash of a session token. */
  datatype TokenHash = Sha256(token: string)

  datatype Identity = Identity(subject: string, email: string)

  datatype Account = Account(
    role: string,
    phone: string,
    google: Option<Identity>,
    language: string,
    createdAt: int)

  /** A row of the verification table; its id is its position in that table. */
  datatype Challenge = Challenge(
    phone: string,
    intent: Intent,
    codeHash: CodeHash,
    role: string,
    language: string,
    google: Option<Identity>,
    sentAt: int,
    expiresAt: int,
    failedAttempts: nat,
    sendsInWindow: nat,
    lockedUntil: Option<int>,
    status: Status)
  {
    predicate IsExpired(now: int) {
      now > expiresAt
    }

    predicate IsLocked(now: int) {
      lockedUntil.Some? && now < lockedUntil.value
    }

    predicate ResendReady(now: int) {
      now >= sentAt + RESEND_COOLDOWN
    }

    predicate SendCapReached() {
      sendsInWindow >= MAX_SENDS_PER_WINDOW
    }

    function RemainingAttempts(): nat {
      if MAX_FAILED_ATTEMPTS - failedAttempts < 0 then 0 else MAX_FAILED_ATTEMPTS - failedAttempts
    }

    /** The challenge after one more code was delivered at `now`. */
    function AfterSend(code: string, now: int): Challenge {
      this.(codeHash := Bcrypt(code), sendsInWindow := sendsInWindow + 1, sentAt := now, expiresAt := now + OTP_TTL)
    }

    function AfterLock(now: int): Challenge {
      this.(lockedUntil := Some(now + LOCKOUT_DURATION), status := Locked)
    }

    function AfterFailure(now: int): Challenge {
      var counted := this.(failedAttempts := failedAttempts + 1);
      if counted.failedAttempts >= MAX_FAILED_ATTEMPTS then counted.AfterLock(now) else counted
    }

    /** The challenge an administrator's clear leaves behind: failedAttempts is kept. */
    function AfterClear(): Challenge {
      this.(lockedUntil := None, sendsInWindow := 0, status := Pending)
    }

    /** No guess is compared against this challenge and no code is resent for it at `now`. */
    predicate Dead(now: int) {
      IsLocked(now) || status == Verified || IsExpired(now)
    }
  }

  /** The in-memory challenge a use case loads, mutates and writes back. */
  class Verification {
    const id: nat
    var phone: string
    var intent: Intent
    var codeHash: CodeHash
    var role: string
    var language: string
    var google: Option<Identity>
    var sentAt: int
    var expiresAt: int
    var failedAttempts: nat
    var sendsInWindow: nat
    var lockedUntil: Option<int>
    var status: Status

    function Row(): Challenge
      reads this
    {
      Challenge(phone, intent, codeHash, role, language, google,
                sentAt, expiresAt, failedAttempts, sendsInWindow, lockedUntil, status)
    }

    constructor (id: nat, row: Challenge)
      ensures this.id == id && Row() == row
    {
      this.id := id;
      phone, intent, codeHash, role := row.phone, row.intent, row.codeHash, row.role;
      language, google, sentAt, expiresAt := row.language, row.google, row.sentAt, row.expiresAt;
      failedAttempts, sendsInWindow := row.failedAttempts, row.sendsInWindow;
      lockedUntil, status := row.lockedUntil, row.status;
    }

    /** Counts a delivered code and restarts the expiry window. */
    method RegisterSend(now: int)
      modifies this
      ensures Row() == old(Row()).(sendsInWindow := old(sendsInWindow) + 1, sentAt := now, expiresAt := now + OTP_TTL)
    {
      sendsInWindow := sendsInWindow + 1;
      sentAt := now;
      expiresAt := now + OTP_TTL;
    }

    /** Counts a wrong code; the attempt that reaches the limit locks. */
    method RegisterFailure(now: int) returns (locked: bool)
      modifies this
      ensures Row() == old(Row()).AfterFailure(now)
      ensures locked == (old(failedAttempts) + 1 >= MAX_FAILED_ATTEMPTS)
    {
      failedAttempts := failedAttempts + 1;
      if failedAttempts >= MAX_FAILED_ATTEMPTS {
        Lock(now);
        return true;
      }
      return false;
    }

    method Lock(now: int)
      modifies this
      ensures Row() == old(Row()).AfterLock(now)
    {
      lockedUntil := Some(now + LOCKOUT_DURATION);
      status := Locked;
    }

    method MarkVerified()
      modifies this
      ensures Row() == old(Row()).(status := Verified)
    {
      status := Verified;
    }
  }

  /** A row of the session table; its id is its position in that table. */
  datatype Session = Session(
    account: nat,
    tokenHash: TokenHash,
    createdAt: int,
    lastActiveAt: int,
    expiresAt: int,
    revokedAt: Option<int>)
  {
    predicate IsValid(now: int) {
      revokedAt.None? && now < expiresAt
    }

    predicate NeedsExtension(now: int) {
      now >= lastActiveAt + SESSION_EXTEND_INTERVAL
    }

    function AfterExtend(now: int): Session {
      this.(lastActiveAt := now, expiresAt := now + SESSION_IDLE_WINDOW)
    }
  }

  function NewSession(account: nat, token: string, now: int): Session {
    Session(account, Sha256(token), now, now, now + SESSION_IDLE_WINDOW, None)
  }

  /** The in-memory session ValidateSession loads, extends and writes back. */
  class SessionRecord {
    const id: nat
    const account: nat
    const tokenHash: TokenHash
    const createdAt: int
    var lastActiveAt: int
    var expiresAt: int
    const revokedAt: Option<int>

    function Row(): Session
      reads this
    {
      Session(account, tokenHash, createdAt, lastActiveAt, expiresAt, revokedAt)
    }

    constructor (id: nat, row: Session)
      ensures this.id == id && Row() == row
    {
      this.id, account, tokenHash, createdAt := id, row.account, row.tokenHash, row.createdAt;
      lastActiveAt, expiresAt, revokedAt := row.lastActiveAt, row.expiresAt, row.revokedAt;
    }

    method Extend(now: int)
      modifies this
      ensures Row() == old(Row()).AfterExtend(now)
    {
      lastActiveAt := now;
      expiresAt := now + SESSION_IDLE_WINDOW;
    }
  }

  /** A short-lived proof of a Google identity, as an ideal MAC: only a holder of the key can make one. */
  datatype LinkToken = LinkToken(key: string, identity: Identity, expiresAt: int)

  const PENDING_GOOGLE_LINK_TTL := OTP_TTL

  function SignPendingGoogleLink(key: string, identity: Identity, now: int): LinkToken {
    LinkToken(key, identity, now + PENDING_GOOGLE_LINK_TTL)
  }

  /** The identity a token proves at `now`; a token is spent at its expiry instant. */
  function VerifyPendingGoogleLink(key: string, token: LinkToken, now: int): Option<Identity> {
    if token.key == key && now < token.expiresAt then Some(token.identity) else None
  }
}
