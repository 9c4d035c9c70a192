/** When a call sends a code, and when it locks instead. */
module SendTheorems {
  import opened Domain
  import opened Storage
  import opened Phone
  import opened Protocol
  import opened History
  import opened Runs
  import opened Invariants
  import opened ReachableStates
  import opened Answers

  // --- The account ---

  /** In every run a signin code went only to a phone that had signed up, and a signup code only to one that had not,
      also where the store then lost the challenge. */
  lemma CodesFitAccounts(s: State, past: History, e: Entry)
    requires Reachable(s) && Happened(s.history, past, e)
    ensures e.Opened? ==> Total(past, SignupsOf(e.row.phone)) == if e.row.intent.Signin? then 1 else 0
    ensures e.Lost? && e.via.None? ==> Total(past, SignupsOf(e.phone)) == if e.signin then 1 else 0
  {
    HistoryObeysRules(s, past, e);
  }

  /** A signup for a registered phone and a signin for an unregistered one send nothing and change nothing, whatever
      fails, and say so unless the account cannot be looked up. */
  lemma WrongAccountSendsNothing(s: State, c: Call, phone: string)
    requires Reachable(s) && c.Request? && PicksOk(s.db, c) && !c.intent.OtherIntent?
    requires Canonical(c.rawPhone) == Some(phone) && !AccountFits(s.history, phone, c.intent.Signin?)
    ensures DecideRequest(s.key, s.db, c)
         == Decision(Failed(if FindAccountOp in c.fails then StorageFailure
                            else if c.intent.Signin? then NoAccount else AccountExists), Quiet(c.now))
    ensures Message(Quiet(c.now)) == [] && Effect(s.db, Quiet(c.now)) == s.db
  {
    AccountsAreSignups(s, phone);
  }

  // --- Resend ---

  /** A resend that is due but capped locks the challenge for half an hour and sends nothing. */
  lemma CappedResendLocks(s: State, c: Call)
    requires Reachable(s) && c.Resend? && c.fails == {} && ResendDue(s.history, c.id, c.now)
    requires Total(s.history, SentOn(c.id)) >= 5 + Total(s.history, ForgivenOn(c.id))
    ensures var d := DecideResend(s.db, c);
            d.reply == Failed(LockedOut(c.now + 30 * MINUTE)) && LocksForHalfAnHour(s.history, s.db, d.entry)
            && d.entry.id == c.id
  {
    OpenedHasCode(s, c.id);
    NoRowNoOpening(s, c.id);
    ResendAnswered(s, c);
    CapLockEffect(s.history, s.db, DecideResend(s.db, c).entry);
  }

  /** The entry locks its challenge for half an hour, in the history and in the table, and puts no code on a phone. */
  predicate LocksForHalfAnHour(h: History, db: Db, e: Entry) {
    && e.CapLocked? && InRange(db, e) && Message(e) == []
    && LockEnd(Then(h, e), e.id) == Some(e.at + 30 * MINUTE)
    && Effect(db, e).challenges[e.id].lockedUntil == Some(e.at + 30 * MINUTE)
    && Effect(db, e).challenges[e.id].status == Locked
  }

  lemma CapLockEffect(h: History, db: Db, e: Entry)
    requires e.CapLocked? && InRange(db, e)
    ensures LocksForHalfAnHour(h, db, e)
  {
  }

  lemma OpenedHasCode(s: State, id: nat)
    requires Reachable(s)
    ensures OpeningOf(s.history, id).Some? <==> CodeOn(s.history, id).Some?
    ensures CodeOn(s.history, id).Some? ==> CodeOn(s.history, id).value.at <= s.now
  {
    ReachableInv(s);
    assert Tally(s.history, s.db.challenges, id);
    if id < |s.db.challenges| {
      assert RowOk(s.db.challenges[id], s.now);
    }
  }

  /** A faultless resend delivers its code to the challenge's phone if and only if the history allows it to send and
      the provider takes the code. */
  lemma ResendDeliversIff(s: State, c: Call)
    requires Reachable(s) && s.now <= c.now && c.Resend? && c.fails == {}
    ensures var d, h := DecideResend(s.db, c), s.history;
            && (Message(d.entry) != [] <==>
                  CodeOn(h, c.id).Some? && ResendMaySend(h, c.id, CodeOn(h, c.id).value.phone, c.now) && c.sent)
            && (Message(d.entry) != [] ==> Message(d.entry) == [(CodeOn(h, c.id).value.phone, c.code)])
            && (d.reply.Challenged? <==> Message(d.entry) != [])
  {
    OpenedHasCode(s, c.id);
    ResendAnswered(s, c);
    if CodeOn(s.history, c.id).Some? {
      NoRowNoOpening(s, c.id);
      RowIsHistory(s, c.id, c.now);
    }
  }

  // --- Request ---

  /** Phone, intent, account and link token of a request are in order. */
  predicate InOrder(key: string, h: History, c: Call, phone: string) {
    && c.Request? && !c.intent.OtherIntent? && Canonical(c.rawPhone) == Some(phone)
    && AccountFits(h, phone, c.intent.Signin?)
    && (c.intent.Signup? && c.link.Some? ==> c.link.value.key == key && c.now < c.link.value.expiresAt)
  }

  /** The challenge the lookup settled on is neither locked nor just sent. */
  predicate Open(h: History, c: Call)
    requires c.Request?
  {
    c.pick.Some? ==> !InForce(h, c.pick.value, c.now) && !CoolingDown(h, c.pick.value, c.now)
  }

  lemma InOrderAnswer(s: State, c: Call, phone: string)
    requires Reachable(s) && InOrder(s.key, s.history, c, phone) && c.fails == {} && PicksOk(s.db, c)
    ensures FreshCodeAnswer(s.history, c, phone, DecideRequest(s.key, s.db, c))
  {
    RequestAnswered(s, c);
  }

  /** A faultless request in order delivers its code if and only if the latest challenge is open, the window sum is
      below five and the provider takes the code. */
  lemma RequestDeliversIff(s: State, c: Call, phone: string)
    requires Reachable(s) && InOrder(s.key, s.history, c, phone) && c.fails == {} && PicksOk(s.db, c)
    ensures var d := DecideRequest(s.key, s.db, c);
            && (Message(d.entry) != [] <==>
                  Open(s.history, c) && WindowSum(s.history, phone, c.now - 30 * MINUTE) < 5 && c.sent)
            && (Message(d.entry) != [] ==> Message(d.entry) == [(phone, c.code)])
            && (d.reply.Challenged? <==> Message(d.entry) != [])
  {
    InOrderAnswer(s, c, phone);
  }

  /** One that is not in order delivers nothing. */
  lemma OutOfOrderSendsNothing(s: State, c: Call)
    requires Reachable(s) && c.Request? && c.fails == {} && PicksOk(s.db, c)
    requires forall phone: string :: !InOrder(s.key, s.history, c, phone)
    ensures Message(DecideRequest(s.key, s.db, c).entry) == []
    ensures Effect(s.db, DecideRequest(s.key, s.db, c).entry) == s.db
  {
    RequestAnswered(s, c);
    if Canonical(c.rawPhone).Some? {
      AccountsAreSignups(s, Canonical(c.rawPhone).value);
      assert !InOrder(s.key, s.history, c, Canonical(c.rawPhone).value);
    }
  }

  /** A request in order that meets the cap locks the phone's latest challenge for half an hour and sends nothing. */
  lemma CappedRequestLocks(s: State, c: Call, phone: string)
    requires Reachable(s) && InOrder(s.key, s.history, c, phone) && c.fails == {} && PicksOk(s.db, c)
    requires Open(s.history, c) && WindowSum(s.history, phone, c.now - 30 * MINUTE) >= 5
    ensures c.pick.Some? && HoldsLastCode(s.history, c.pick.value, phone)
    ensures DecideRequest(s.key, s.db, c)
         == Decision(Failed(LockedOut(c.now + 30 * MINUTE)), CapLocked(c.pick.value, phone, c.now))
    ensures LocksForHalfAnHour(s.history, s.db, CapLocked(c.pick.value, phone, c.now))
  {
    InOrderAnswer(s, c, phone);
    PickHoldsLastCode(s, phone, c.pick);
    CapLockEffect(s.history, s.db, CapLocked(c.pick.value, phone, c.now));
  }
}
