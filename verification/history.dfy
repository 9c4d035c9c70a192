/** What happened, newest entry last, and what the documents promise about it without looking at any table. */
module History {
  import opened Domain
  import opened Storage
  import opened Protocol

  datatype History = Start | Then(past: History, last: Entry)

  /** The entry put a code on the phone, whether or not the store recorded it. */
  predicate Delivers(e: Entry, phone: string) {
    match e
    case Opened(_, row, _, _) => row.phone == phone
    case Resent(_, p, _, _) => p == phone
    case Lost(p, _, _, _, _) => p == phone
    case _ => false
  }

  datatype Query =
    | Deliveries(phone: string, since: int)
    | Within(phone: string, from: int, to: int)  // deliveries in a closed window
    | LostTo(phone: string)
    | ActivityOf(phone: string)  // codes delivered and guesses compared
    | ClearsOf(phone: string)
    | ForgivenTo(phone: string)  // counted sends that clears erased
    | SignupsOf(phone: string)
    | SentOn(id: nat)            // recorded deliveries of a challenge
    | ClearsOn(id: nat)
    | ForgivenOn(id: nat)
    | MissesOn(id: nat)          // recorded wrong guesses
    | SlipsOn(id: nat)           // wrong guesses the store failed to record
    | GuessesOn(id: nat)         // wrong guesses, recorded or not
    | GuessesAt(phone: string, from: int, to: int)  // wrong guesses on the phone in a closed window
    | SlipsOf(phone: string)
    | MissesIn(id: nat, from: int, to: int)         // recorded wrong guesses in a closed window
    | MissedAt(phone: string, from: int, to: int)
    | Recorded(phone: string, since: int)  // deliveries the store recorded
    | SessionsIssued
    | Openings
    | SignOutsOf(hash: TokenHash)
    | SuccessesOn(id: nat)
    | UsesOf(id: nat)            // resends, guesses and confirms of a challenge, recorded or not

  function Weight(e: Entry, q: Query): nat {
    match q
    case Deliveries(phone, since) => if Delivers(e, phone) && since <= e.at then 1 else 0
    case Within(phone, from, to) => if Delivers(e, phone) && from <= e.at <= to then 1 else 0
    case LostTo(phone) => if e.Lost? && e.phone == phone then 1 else 0
    case ActivityOf(phone) =>
      if Delivers(e, phone) || ((e.Missed? || e.Slipped? || e.Confirmed?) && e.phone == phone) then 1 else 0
    case ClearsOf(phone) => if e.Cleared? && e.phone == phone then 1 else 0
    case ForgivenTo(phone) => if e.Cleared? && e.phone == phone then e.forgiven else 0
    case SignupsOf(phone) => if e.Confirmed? && e.signup && e.phone == phone then 1 else 0
    case SentOn(id) => if (e.Opened? || e.Resent?) && e.id == id then 1 else 0
    case ClearsOn(id) => if e.Cleared? && e.id == id then 1 else 0
    case ForgivenOn(id) => if e.Cleared? && e.id == id then e.forgiven else 0
    case MissesOn(id) => if e.Missed? && e.id == id then 1 else 0
    case SlipsOn(id) => if e.Slipped? && e.id == id then 1 else 0
    case GuessesOn(id) => if (e.Missed? || e.Slipped?) && e.id == id then 1 else 0
    case GuessesAt(phone, from, to) =>
      if (e.Missed? || e.Slipped?) && e.phone == phone && from <= e.at <= to then 1 else 0
    case SlipsOf(phone) => if e.Slipped? && e.phone == phone then 1 else 0
    case MissesIn(id, from, to) => if e.Missed? && e.id == id && from <= e.at <= to then 1 else 0
    case MissedAt(phone, from, to) => if e.Missed? && e.phone == phone && from <= e.at <= to then 1 else 0
    case Recorded(phone, since) => if Delivers(e, phone) && !e.Lost? && since <= e.at then 1 else 0
    case Openings => if e.Opened? then 1 else 0
    case SignOutsOf(hash) => if e.Revoked? && e.hash == hash then 1 else 0
    case SessionsIssued => if e.Confirmed? || e.Resumed? then 1 else 0
    case UsesOf(id) =>
      if ((e.Resent? || e.Missed? || e.Slipped? || e.Confirmed?) && e.id == id) || (e.Lost? && e.via == Some(id)) then 1
      else 0
    case SuccessesOn(id) => if e.Confirmed? && e.id == id then 1 else 0
  }

  function Total(h: History, q: Query): nat {
    match h
    case Start => 0
    case Then(past, e) => Total(past, q) + Weight(e, q)
  }

  datatype Code = Code(code: string, phone: string, at: int)

  /** The most recently recorded code of a challenge, and the phone it was put on. */
  function CodeOn(h: History, id: nat): Option<Code> {
    match h
    case Start => None
    case Then(past, e) =>
      if e.Opened? && e.id == id then Some(Code(e.row.codeHash.code, e.row.phone, e.at))
      else if e.Resent? && e.id == id then Some(Code(e.code, e.phone, e.at))
      else CodeOn(past, id)
  }

  /** The entry that opened a challenge. */
  function OpeningOf(h: History, id: nat): (o: Option<Entry>)
    ensures o.Some? ==> o.value.Opened? && o.value.id == id
  {
    match h
    case Start => None
    case Then(past, e) => if e.Opened? && e.id == id then Some(e) else OpeningOf(past, id)
  }

  /** The most recent opening of a challenge for a phone. */
  function LastOpening(h: History, phone: string): (o: Option<Entry>)
    ensures o.Some? ==> o.value.Opened? && o.value.row.phone == phone
  {
    match h
    case Start => None
    case Then(past, e) => if e.Opened? && e.row.phone == phone then Some(e) else LastOpening(past, phone)
  }

  /** When the last lock of a challenge ends, by wrong guesses or by the cap, unless an administrator cleared it. */
  function LockEnd(h: History, id: nat): Option<int> {
    match h
    case Start => None
    case Then(past, e) =>
      if e.Cleared? && e.id == id then None
      else if (e.CapLocked? && e.id == id)
              || (e.Missed? && e.id == id && Total(h, MissesOn(id)) >= MAX_FAILED_ATTEMPTS) then
        Some(e.at + LOCKOUT_DURATION)
      else LockEnd(past, id)
  }

  /** The challenge was locked and no administrator has cleared it since, even if the lock has ended. */
  predicate Barred(h: History, id: nat) {
    LockEnd(h, id).Some?
  }

  /** The challenge was confirmed and no administrator has cleared it since. */
  predicate Consumed(h: History, id: nat) {
    match h
    case Start => false
    case Then(past, e) =>
      if e.Confirmed? && e.id == id then true else if e.Cleared? && e.id == id then false else Consumed(past, id)
  }

  /** The clears that met a consumed challenge, and made it pending again. */
  function Reopenings(h: History, id: nat): nat {
    match h
    case Start => 0
    case Then(past, e) => Reopenings(past, id) + if e.Cleared? && e.id == id && Consumed(past, id) then 1 else 0
  }

  /** The link token was minted for an identity the identity verifier had just returned. */
  predicate Minted(h: History, link: LinkToken) {
    match h
    case Start => false
    case Then(past, e) =>
      || Minted(past, link)
      || (e.Proven? && e.minted == link && link.identity == e.identity
          && link.expiresAt == e.at + PENDING_GOOGLE_LINK_TTL)
  }

  /** The confirm that created an account. */
  function FoundingOf(h: History, account: nat): (f: Option<Entry>)
    ensures f.Some? ==> f.value.Confirmed? && f.value.signup && f.value.account == account
  {
    match h
    case Start => None
    case Then(past, e) =>
      if e.Confirmed? && e.signup && e.account == account then Some(e) else FoundingOf(past, account)
  }

  /** The account was created by a signup that carried this Google subject. */
  predicate LinkedTo(h: History, account: nat, subject: string) {
    && FoundingOf(h, account).Some?
    && OpeningOf(h, FoundingOf(h, account).value.id).Some?
    && var google := OpeningOf(h, FoundingOf(h, account).value.id).value.row.google;
       google.Some? && google.value.subject == subject
  }

  /** No signup so far carried this Google subject. */
  predicate NoneLinked(h: History, subject: string) {
    match h
    case Start => true
    case Then(past, e) =>
      && NoneLinked(past, subject)
      && (e.Confirmed? && e.signup && OpeningOf(past, e.id).Some? ==>
            var google := OpeningOf(past, e.id).value.row.google;
            google.Some? ==> google.value.subject != subject)
  }

  /** The entry issues a session. */
  predicate Issues(e: Entry) {
    e.Confirmed? || e.Resumed?
  }

  predicate Issued(h: History, token: string) {
    h.Then? && ((Issues(h.last) && h.last.token == token) || Issued(h.past, token))
  }

  /** The entry that issued the session of this number; sessions are numbered in the order they were issued. */
  function IssueOf(h: History, id: nat): (issue: Option<Entry>)
    ensures issue.Some? ==> issue.value.Confirmed? || issue.value.Resumed?
  {
    match h
    case Start => None
    case Then(past, e) => if Issues(e) && Total(past, SessionsIssued) == id then Some(e) else IssueOf(past, id)
  }

  /** The last extension of a session, or else its issue. */
  function ActivityOn(h: History, id: nat): Option<int> {
    match h
    case Start => None
    case Then(past, e) =>
      if (e.Extended? && e.id == id) || (Issues(e) && Total(past, SessionsIssued) == id) then Some(e.at)
      else ActivityOn(past, id)
  }

  /** The first sign-out with a session's token since it was issued. */
  function RevocationOn(h: History, id: nat): Option<int> {
    match h
    case Start => None
    case Then(past, e) =>
      if RevocationOn(past, id).Some? then RevocationOn(past, id)
      else if e.Revoked? && IssueOf(past, id).Some? && e.hash == Sha256(IssueOf(past, id).value.token) then Some(e.at)
      else None
  }

  /** The audit events that the clears of a history call for, in order. */
  function AuditTrail(h: History): seq<AuditEvent> {
    match h
    case Start => []
    case Then(past, e) =>
      AuditTrail(past) + if e.Cleared? then [AuditEvent(e.actor, e.account, e.id, e.stamp)] else []
  }

  /** Every recorded delivery to the phone happened at or before `bound`. */
  predicate SettledBy(h: History, phone: string, bound: int) {
    match h
    case Start => true
    case Then(past, e) => SettledBy(past, phone, bound) && (Delivers(e, phone) && !e.Lost? ==> e.at <= bound)
  }

  /** Nothing in the history lies after `now`. */
  predicate EndsBy(h: History, now: int) {
    match h
    case Start => true
    case Then(past, e) => EndsBy(past, now) && e.at <= now
  }

  /** Codes, guesses and confirms on a challenge all need a recorded, unexpired code, no uncleared lock and no
      uncleared confirm. */
  predicate CodeUsable(past: History, id: nat, at: int) {
    && CodeOn(past, id).Some?
    && CodeOn(past, id).value.at <= at <= CodeOn(past, id).value.at + OTP_TTL
    && !Barred(past, id)
    && !Consumed(past, id)
  }

  /** The latest instant at which a confirm on the challenge can succeed. */
  function Deadline(past: History, id: nat): int
    requires OpeningOf(past, id).Some?
  {
    OpeningOf(past, id).value.at + OTP_TTL * MAX_SENDS_PER_WINDOW * (1 + Total(past, ClearsOn(id)))
  }

  /** A signin needs an account of the phone, a signup needs that there is none. */
  predicate AccountFits(past: History, phone: string, signin: bool) {
    Total(past, SignupsOf(phone)) == if signin then 1 else 0
  }

  /** A fresh request may send: the cooldown since every recorded delivery is over and the cap is not reached. */
  predicate RequestMaySend(past: History, phone: string, at: int) {
    && SettledBy(past, phone, at - RESEND_COOLDOWN)
    && Total(past, Deliveries(phone, at - SEND_CAP_WINDOW))
       < MAX_SENDS_PER_WINDOW + Total(past, ForgivenTo(phone)) + Total(past, LostTo(phone))
  }

  /** A code of the challenge can still be resent, but for the cap. */
  predicate ResendDue(past: History, id: nat, at: int) {
    CodeUsable(past, id, at) && CodeOn(past, id).value.at + RESEND_COOLDOWN <= at
  }

  /** A resend may send: the code can still be confirmed, its cooldown is over and the challenge has sends left. */
  predicate ResendMaySend(past: History, id: nat, phone: string, at: int) {
    && ResendDue(past, id, at)
    && CodeOn(past, id).value.phone == phone
    && Total(past, SentOn(id)) < MAX_SENDS_PER_WINDOW + Total(past, ForgivenOn(id))
  }

  /** A challenge of the phone holds its last recorded code. */
  predicate HoldsLastCode(past: History, id: nat, phone: string) {
    && CodeOn(past, id).Some? && CodeOn(past, id).value.phone == phone
    && SettledBy(past, phone, CodeOn(past, id).value.at)
  }

  /** The window sum counts challenges sent in the window with all their sends, which lie ten minutes apart at most. */
  const CAP_REACH := SEND_CAP_WINDOW + OTP_TTL * (MAX_SENDS_PER_WINDOW - 1)

  /** A fresh request may find the cap reached. */
  predicate RequestCapped(past: History, id: nat, phone: string, at: int) {
    HoldsLastCode(past, id, phone) && SettledBy(past, phone, at - RESEND_COOLDOWN)
  }

  /** A resend met the cap of its challenge. */
  predicate ResendCapped(past: History, id: nat, at: int) {
    && ResendDue(past, id, at)
    && Total(past, SentOn(id)) >= MAX_SENDS_PER_WINDOW + Total(past, ForgivenOn(id))
  }

  /** A session that is issued belongs to an account that exists by then, under a token never issued before. */
  predicate MayIssue(past: History, account: nat, token: string, signup: bool) {
    !Issued(past, token) && FoundingOf(past, account).Some? == !signup
  }

  /** The rules of the protocol, read off the past alone. A sign-out needs nothing: anyone may present any token. */
  predicate Justified(past: History, e: Entry) {
    && EndsBy(past, e.at)
    && match e
       case Opened(id, row, link, at) =>
         && OpeningOf(past, id).None?
         && AccountFits(past, row.phone, row.intent.Signin?)
         && RequestMaySend(past, row.phone, at)
         && (row.google.Some? <==> link.Some?)
         && (link.Some? ==> link.value.identity == row.google.value && Minted(past, link.value)
                            && at < link.value.expiresAt)
       case Resent(id, phone, _, at) => ResendMaySend(past, id, phone, at)
       case Lost(phone, _, signin, via, at) =>
         if via.None? then AccountFits(past, phone, signin) && RequestMaySend(past, phone, at)
         else ResendMaySend(past, via.value, phone, at)
       case Missed(id, phone, at) =>
         && CodeUsable(past, id, at) && CodeOn(past, id).value.phone == phone
         && Total(past, MissesOn(id)) < MAX_FAILED_ATTEMPTS + Total(past, ClearsOn(id))
       case Slipped(id, phone, at) => CodeUsable(past, id, at) && CodeOn(past, id).value.phone == phone
       case CapLocked(id, phone, at) =>
         && CodeOn(past, id).Some? && CodeOn(past, id).value.phone == phone
         && (Barred(past, id) ==> LockEnd(past, id).value <= at)
         && Total(past, Recorded(phone, at - CAP_REACH)) >= MAX_SENDS_PER_WINDOW
         && (RequestCapped(past, id, phone, at) || ResendCapped(past, id, at))
       case Confirmed(id, phone, signup, code, account, token, at) =>
         && CodeUsable(past, id, at)
         && CodeOn(past, id).value.code == code && CodeOn(past, id).value.phone == phone
         && OpeningOf(past, id).Some? && OpeningOf(past, id).value.row.phone == phone
         && at <= Deadline(past, id)
         && (signup ==> Total(past, SignupsOf(phone)) == 0)
         && MayIssue(past, account, token, signup)
         && (!signup ==> FoundingOf(past, account).value.phone == phone)
       case Cleared(id, phone, account, forgiven, _, _, at) =>
         && HoldsLastCode(past, id, phone)
         && Barred(past, id) && at < LockEnd(past, id).value
         && FoundingOf(past, account).Some? && FoundingOf(past, account).value.phone == phone
         && forgiven + Total(past, ForgivenOn(id)) == Total(past, SentOn(id))
       case Proven(identity, minted, at) =>
         && minted.identity == identity && minted.expiresAt == at + PENDING_GOOGLE_LINK_TTL
         && NoneLinked(past, identity.subject)
       case Resumed(identity, account, token, _) =>
         LinkedTo(past, account, identity.subject) && MayIssue(past, account, token, false)
       case Extended(id, at) =>
         && IssueOf(past, id).Some? && RevocationOn(past, id).None?
         && ActivityOn(past, id).Some?
         && ActivityOn(past, id).value + SESSION_EXTEND_INTERVAL <= at < ActivityOn(past, id).value + SESSION_IDLE_WINDOW
       case _ => true
  }

  /** Every entry obeyed the rules when it was made. */
  predicate WellFormed(h: History) {
    match h
    case Start => true
    case Then(past, e) => WellFormed(past) && Justified(past, e)
  }

  /** The entry was made after exactly this past. */
  predicate Happened(h: History, past: History, e: Entry) {
    h.Then? && ((h.past == past && h.last == e) || Happened(h.past, past, e))
  }

  lemma {:induction false} HappenedJustified(h: History, past: History, e: Entry)
    requires WellFormed(h) && Happened(h, past, e)
    ensures WellFormed(past) && Justified(past, e)
  {
    if !(h.past == past && h.last == e) {
      HappenedJustified(h.past, past, e);
    }
  }
}
