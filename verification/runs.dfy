/** Runs of the service: what each entry may rely on, and how calls move the state. */
module Runs {
  import opened Domain
  import opened Storage
  import opened Phone
  import opened Protocol
  import opened History

  datatype State = State(key: string, db: Db, now: int, history: History)

  function Init(key: string, start: int): State {
    State(key, EMPTY, start, Start)
  }

  /** The clock does not run backwards, the database picks a latest row, and only the service signs link tokens. */
  ghost predicate Legal(s: State, c: Call) {
    && s.now <= c.now
    && PicksOk(s.db, c)
    && (c.Request? && c.link.Some? && c.link.value.key == s.key ==> Minted(s.history, c.link.value))
  }

  function Next(s: State, e: Entry): State
    requires InRange(s.db, e)
  {
    State(s.key, Effect(s.db, e), e.at, Then(s.history, e))
  }

  function Step(s: State, c: Call): State
    requires PicksInRange(s.db, c)
  {
    Next(s, Decide(s.key, s.db, c).entry)
  }

  ghost predicate Follows(s: State, c: Call, s': State) {
    Legal(s, c) && s' == Step(s, c)
  }

  /** The states a sequence of calls goes through. */
  datatype Run = Run(states: seq<State>, calls: seq<Call>) {
    ghost predicate Valid() {
      && |states| == |calls| + 1
      && forall i {:trigger calls[i]} | 0 <= i < |calls| :: Follows(states[i], calls[i], states[i + 1])
    }

    function First(): State
      requires states != []
    {
      states[0]
    }

    function Last(): State
      requires states != []
    {
      states[|states| - 1]
    }
  }

  ghost predicate Reachable(s: State) {
    exists run: Run, key, start :: run.Valid() && run.First() == Init(key, start) && run.Last() == s
  }

  // --- What the decisions check before an entry is made ---

  /** The phone's latest challenge, whichever the database picks, allows a fresh request. */
  ghost predicate PhoneOpen(rows: seq<Challenge>, phone: string, at: int) {
    exists pick: Option<nat> ::
      LatestOk(rows, phone, pick) && (pick.Some? ==> !rows[pick.value].IsLocked(at) && rows[pick.value].ResendReady(at))
  }

  predicate MayResend(row: Challenge, phone: string, at: int) {
    row.phone == phone && !row.Dead(at) && row.ResendReady(at) && !row.SendCapReached()
  }

  /** The challenge can be locked by a cap: its phone's, met by a request, or its own, met by a resend. */
  ghost predicate MayCapLock(rows: seq<Challenge>, i: nat, phone: string, at: int) {
    && i < |rows| && rows[i].phone == phone && rows[i].ResendReady(at) && !rows[i].IsLocked(at)
    && ((IsLatest(rows, phone, i) && CountSendsSince(rows, phone, at - SEND_CAP_WINDOW) >= MAX_SENDS_PER_WINDOW)
        || (!rows[i].Dead(at) && rows[i].SendCapReached()))
  }

  /** What the changed challenge must be like. */
  predicate RowGuard(row: Challenge, e: Entry)
    requires ChangesRow(e)
  {
    && row.phone == e.phone
    && match e
       case Resent(_, phone, _, at) => MayResend(row, phone, at)
       case Missed(_, _, at) => !row.Dead(at)
       case CapLocked(_, _, at) => !row.IsLocked(at)
       case Confirmed(_, _, signup, code, _, _, at) =>
         !row.Dead(at) && row.codeHash == Bcrypt(code) && signup == !row.intent.Signin?
       case Cleared(_, _, _, forgiven, _, _, at) => row.IsLocked(at) && forgiven == row.sendsInWindow
  }

  ghost predicate Guard(key: string, db: Db, e: Entry) {
    var rows := db.challenges;
    && InRange(db, e)
    && (ChangesRow(e) ==> RowGuard(rows[e.id], e))
    && match e
       case Opened(id, row, link, at) =>
         && id == |rows| && !row.intent.OtherIntent?
         && (row.intent.Signin? <==> FindByPhone(db.accounts, row.phone).Some?)
         && row == NewChallenge(row.phone, row.intent, row.role, row.language, row.google, row.codeHash.code, at)
         && PhoneOpen(rows, row.phone, at)
         && CountSendsSince(rows, row.phone, at - SEND_CAP_WINDOW) < MAX_SENDS_PER_WINDOW
         && row.google == (if link.Some? then Some(link.value.identity) else None)
         && (link.Some? ==> link.value.key == key && at < link.value.expiresAt)
       case Lost(phone, _, signin, via, at) =>
         if via.Some? then via.value < |rows| && MayResend(rows[via.value], phone, at)
         else
           && (signin <==> FindByPhone(db.accounts, phone).Some?)
           && PhoneOpen(rows, phone, at)
           && CountSendsSince(rows, phone, at - SEND_CAP_WINDOW) < MAX_SENDS_PER_WINDOW
       case Slipped(id, phone, at) => id < |rows| && rows[id].phone == phone && !rows[id].Dead(at)
       case CapLocked(id, phone, at) => MayCapLock(rows, id, phone, at)
       case Confirmed(id, phone, signup, _, account, token, at) =>
         && (if signup then account == |db.accounts| && !Conflicts(db.accounts, PendingAccount(rows[id], at))
             else FindByPhone(db.accounts, phone) == Some(account))
         && FindByTokenHash(db.sessions, Sha256(token)).None?
       case Cleared(id, phone, account, _, _, _, _) =>
         && IsLatest(rows, phone, id)
         && account < |db.accounts| && db.accounts[account].phone == phone
       case Proven(identity, minted, at) =>
         minted == SignPendingGoogleLink(key, identity, at) && FindByGoogleSubject(db.accounts, identity.subject).None?
       case Resumed(identity, account, token, _) =>
         && FindByGoogleSubject(db.accounts, identity.subject) == Some(account)
         && FindByTokenHash(db.sessions, Sha256(token)).None?
       case Extended(id, at) => db.sessions[id].IsValid(at) && db.sessions[id].NeedsExtension(at)
       case _ => true
  }

  lemma FreshCodeGuarded(key: string, db: Db, c: Call, phone: string)
    requires c.Request? && LatestOk(db.challenges, phone, c.pick) && !c.intent.OtherIntent?
    requires c.intent.Signin? <==> FindByPhone(db.accounts, phone).Some?
    requires c.intent.Signup? && c.link.Some? ==> VerifyPendingGoogleLink(key, c.link.value, c.now).Some?
    ensures Guard(key, db, DecideFreshCode(db, c, phone).entry)
  {
    var e := DecideFreshCode(db, c, phone).entry;
    if e.Opened? || e.Lost? {
      assert PhoneOpen(db.challenges, phone, c.now) by {
        assert LatestOk(db.challenges, phone, c.pick);
      }
    }
  }

  lemma RequestGuarded(key: string, db: Db, c: Call)
    requires c.Request? && PicksOk(db, c)
    ensures Guard(key, db, DecideRequest(key, db, c).entry)
  {
    var phone := Canonical(c.rawPhone);
    var e := DecideRequest(key, db, c).entry;
    if !e.Quiet? {
      FreshCodeGuarded(key, db, c, phone.value);
    }
  }

  lemma ResendGuarded(key: string, db: Db, c: Call)
    requires c.Resend?
    ensures Guard(key, db, DecideResend(db, c).entry)
  {
  }

  lemma ConfirmGuarded(key: string, db: Db, c: Call)
    requires c.Confirm?
    ensures Guard(key, db, DecideConfirm(db, c).entry)
  {
  }

  lemma ClearGuarded(key: string, db: Db, c: Call)
    requires c.ClearLockout? && PicksOk(db, c)
    ensures Guard(key, db, DecideClear(db, c).entry)
  {
  }

  lemma SessionCallsGuarded(key: string, db: Db, c: Call)
    ensures c.GoogleExchange? ==> Guard(key, db, DecideGoogle(key, db, c).entry)
    ensures c.ValidateSession? ==> Guard(key, db, DecideValidate(db, c).entry)
    ensures c.RevokeSession? ==> Guard(key, db, DecideRevoke(c).entry)
  {
  }

  /** Every entry the service makes meets its guard. */
  lemma DecisionGuarded(key: string, db: Db, c: Call)
    requires PicksOk(db, c)
    ensures Guard(key, db, Decide(key, db, c).entry)
  {
    match c
    case Request(_, _, _, _, _, _, _, _, _, _) => RequestGuarded(key, db, c);
    case Resend(_, _, _, _, _) => ResendGuarded(key, db, c);
    case Confirm(_, _, _, _, _) => ConfirmGuarded(key, db, c);
    case ClearLockout(_, _, _, _, _, _) => ClearGuarded(key, db, c);
    case _ => SessionCallsGuarded(key, db, c);
  }
}
