/** No run wedges a phone: half an hour after its challenges last changed, a request is served again. */
module RecoveryTheorems {
  import opened Domain
  import opened Storage
  import opened Phone
  import opened Protocol
  import opened History
  import opened Counting
  import opened Runs
  import opened Invariants
  import opened Phones
  import opened ReachableStates
  import opened ClearTheorems

  /** Nothing about the phone's challenges reaches further than `at`: no send is later, no lock ends later than one
      imposed then. */
  predicate SettledAt(rows: seq<Challenge>, phone: string, at: int) {
    forall i | 0 <= i < |rows| && rows[i].phone == phone ::
      rows[i].sentAt <= at && (rows[i].lockedUntil.Some? ==> rows[i].lockedUntil.value <= at + LOCKOUT_DURATION)
  }

  /** The phone's challenges are as its last change left them. */
  ghost predicate Settled(s: State, phone: string) {
    match LastTouch(s.history, phone)
    case None => forall i | 0 <= i < |s.db.challenges| :: s.db.challenges[i].phone != phone
    case Some(e) => SettledAt(s.db.challenges, phone, e.at)
  }

  lemma UntouchedRows(s: State, e: Entry, phone: string, j: nat)
    requires RowsInv(s) && Guard(s.key, s.db, e) && s.now <= e.at && !Touches(e, phone)
    requires j < |ChallengesAfter(s.db.challenges, e)| && ChallengesAfter(s.db.challenges, e)[j].phone == phone
    ensures j < |s.db.challenges| && ChallengesAfter(s.db.challenges, e)[j] == s.db.challenges[j]
  {
    if ChangesRow(e) {
      RowChange(s.db.challenges[e.id], e, s.now);
    }
  }

  lemma SettledStep(s: State, e: Entry, s': State, phone: string)
    requires Moves(s, e, s') && Settled(s, phone)
    ensures Settled(s', phone)
  {
    ChallengesOfEffect(s.db, e);
    var rows' := s'.db.challenges;
    forall j: nat | j < |rows'| && rows'[j].phone == phone
      ensures RowOk(rows'[j], e.at)
      ensures !Touches(e, phone) ==> j < |s.db.challenges| && rows'[j] == s.db.challenges[j]
    {
      if !Touches(e, phone) {
        UntouchedRows(s, e, phone, j);
      }
    }
  }

  lemma ReachableSettled(s: State, phone: string)
    requires Reachable(s)
    ensures Settled(s, phone)
  {
    var run: Run, key, start :| run.Valid() && run.First() == Init(key, start) && run.Last() == s;
    InitKeeps(key, start);
    var P := (s: State) => Settled(s, phone);
    forall s: State, e, s': State | Moves(s, e, s') && P(s)
      ensures P(s')
    {
      SettledStep(s, e, s', phone);
    }
    RunInduction(run, |run.calls|, P);
  }

  /** A faultless request whose phone, intent and link token are in order. */
  predicate Eligible(key: string, db: Db, c: Call, phone: string) {
    && c.Request? && c.sent && c.fails == {} && Canonical(c.rawPhone) == Some(phone)
    && (c.intent.Signin? || c.intent.Signup?)
    && (c.intent.Signin? <==> FindByPhone(db.accounts, phone).Some?)
    && (c.intent.Signup? && c.link.Some? ==> VerifyPendingGoogleLink(key, c.link.value, c.now).Some?)
  }

  lemma EligibleDecides(key: string, db: Db, c: Call, phone: string)
    requires Eligible(key, db, c, phone) && PicksOk(db, c)
    requires c.pick.Some? ==> !db.challenges[c.pick.value].IsLocked(c.now) && db.challenges[c.pick.value].ResendReady(c.now)
    requires CountSendsSince(db.challenges, phone, c.now - SEND_CAP_WINDOW) < MAX_SENDS_PER_WINDOW
    ensures DecideRequest(key, db, c).reply.Challenged?
  {
    assert DecideRequest(key, db, c) == DecideFreshCode(db, c, phone);
  }

  lemma SettledAllows(rows: seq<Challenge>, phone: string, at: int, now: int)
    requires SettledAt(rows, phone, at) && now > at + LOCKOUT_DURATION
    ensures CountSendsSince(rows, phone, now - SEND_CAP_WINDOW) == 0
    ensures forall i | 0 <= i < |rows| && rows[i].phone == phone :: !rows[i].IsLocked(now) && rows[i].ResendReady(now)
  {
    NoRowsNoSum(rows, Sends(phone, now - SEND_CAP_WINDOW));
  }

  /** Whatever was sent, guessed, locked or cleared before, an eligible request is served once more than 30 minutes
      have passed since the last change of one of the phone's challenges, and at once if it never had one. */
  lemma NoPhoneIsWedged(s: State, c: Call, phone: string)
    requires Reachable(s) && Eligible(s.key, s.db, c, phone) && PicksOk(s.db, c)
    requires LastTouch(s.history, phone).Some? ==> c.now > LastTouch(s.history, phone).value.at + LOCKOUT_DURATION
    ensures DecideRequest(s.key, s.db, c).reply.Challenged?
  {
    ReachableSettled(s, phone);
    var rows := s.db.challenges;
    assert LatestOk(rows, phone, c.pick);
    match LastTouch(s.history, phone)
    case None => NoRowsNoSum(rows, Sends(phone, c.now - SEND_CAP_WINDOW));
    case Some(e) => SettledAllows(rows, phone, e.at, c.now);
    EligibleDecides(s.key, s.db, c, phone);
  }
}
