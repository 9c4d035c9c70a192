/** Every run keeps every invariant, and its history obeys the rules. */
module ReachableStates {
  import opened Domain
  import opened Storage
  import opened Protocol
  import opened History
  import opened Runs
  import opened Invariants
  import opened Phones
  import opened Records
  import opened Counting

  /** The challenge table says what happened to each challenge, to each phone, and in any window of time. */
  ghost predicate ChallengesInv(s: State) {
    && RowsInv(s)
    && (forall i: nat :: Tally(s.history, s.db.challenges, i))
    && (forall phone: string :: PhoneTally(s.history, s.db.challenges, s.now, phone))
    && (forall phone: string, since: int :: Ledger(s.history, s.db.challenges, s.now, phone, since))
    && (forall phone: string, since: int :: TraceLedger(s.history, s.db.challenges, phone, since))
    && RecordedIn(s.history, s.db.challenges)
  }

  /** So do the account table, the sessions and the audit log. */
  ghost predicate OwnersInv(s: State) {
    && (forall k: nat :: AccountOk(s, k))
    && (forall phone: string :: SignupTally(s, phone))
    && (forall subject: string :: LinkTally(s.history, s.db.accounts, subject))
    && AccountsUnique(s.db.accounts)
    && SessionsInv(s)
    && (forall k: nat :: SessionTally(s.history, s.db.sessions, k))
    && (forall token: string :: TokenTally(s.history, s.db.sessions, token))
    && Total(s.history, SessionsIssued) == |s.db.sessions|
    && AuditOwned(s.db) && s.db.audit == AuditTrail(s.history)
  }

  ghost predicate Inv(s: State) {
    ChallengesInv(s) && OwnersInv(s) && EndsBy(s.history, s.now) && WellFormed(s.history)
  }

  /** A link an entry relies on was minted by the service. */
  predicate Authentic(h: History, e: Entry) {
    e.Opened? && e.link.Some? ==> Minted(h, e.link.value)
  }

  lemma CodeUsableOn(s: State, i: nat, at: int)
    requires RowsInv(s) && Tally(s.history, s.db.challenges, i) && s.now <= at
    requires i < |s.db.challenges| && !s.db.challenges[i].Dead(at)
    ensures CodeUsable(s.history, i, at)
  {
    assert RowOk(s.db.challenges[i], s.now);
  }

  /** On a challenge, the tables accept guesses exactly when the history does. */
  lemma LiveIffUsable(s: State, i: nat, at: int)
    requires RowsInv(s) && Tally(s.history, s.db.challenges, i) && s.now <= at && i < |s.db.challenges|
    ensures !s.db.challenges[i].Dead(at) <==> CodeUsable(s.history, i, at)
  {
    assert RowOk(s.db.challenges[i], s.now);
  }

  lemma RequestJustified(s: State, phone: string, at: int)
    requires Inv(s) && s.now <= at && PhoneOpen(s.db.challenges, phone, at)
    requires CountSendsSince(s.db.challenges, phone, at - SEND_CAP_WINDOW) < MAX_SENDS_PER_WINDOW
    ensures RequestMaySend(s.history, phone, at)
  {
    SettledByLatest(s.history, s.db.challenges, phone, at - RESEND_COOLDOWN);
    assert Ledger(s.history, s.db.challenges, s.now, phone, at - SEND_CAP_WINDOW);
  }

  lemma ResendJustified(s: State, i: nat, phone: string, at: int)
    requires Inv(s) && s.now <= at && i < |s.db.challenges| && MayResend(s.db.challenges[i], phone, at)
    ensures ResendMaySend(s.history, i, phone, at)
  {
    assert Tally(s.history, s.db.challenges, i) && RowOk(s.db.challenges[i], s.now);
    CodeUsableOn(s, i, at);
  }

  /** A live challenge is within its deadline. */
  lemma LiveBeforeDeadline(s: State, i: nat, at: int)
    requires RowsInv(s) && Tally(s.history, s.db.challenges, i) && i < |s.db.challenges| && !s.db.challenges[i].Dead(at)
    ensures OpeningOf(s.history, i).Some? && at <= Deadline(s.history, i)
    ensures OpeningOf(s.history, i).value.row.phone == s.db.challenges[i].phone
  {
    assert RowOk(s.db.challenges[i], s.now);
    var clears := Total(s.history, ClearsOn(i));
    assert Total(s.history, SentOn(i)) <= MAX_SENDS_PER_WINDOW * (1 + clears);
  }

  lemma ConfirmJustified(s: State, e: Entry)
    requires Inv(s) && Guard(s.key, s.db, e) && s.now <= e.at && e.Confirmed?
    ensures Justified(s.history, e)
  {
    EndsByLater(s.history, s.now, e.at);
    assert Tally(s.history, s.db.challenges, e.id);
    CodeUsableOn(s, e.id, e.at);
    LiveBeforeDeadline(s, e.id, e.at);
    assert SignupTally(s, e.phone);
    assert e.signup ==> FindByPhone(s.db.accounts, e.phone).None? by {
      AccountsGrow(s.key, s.db, e);
    }
    IssueJustified(s, e.account, e.token);
  }

  /** A session is issued to an account, new or founded before, under a fresh token. */
  lemma IssueJustified(s: State, account: nat, token: string)
    requires Inv(s) && FindByTokenHash(s.db.sessions, Sha256(token)).None?
    ensures !Issued(s.history, token)
    ensures FoundingOf(s.history, account).Some? <==> account < |s.db.accounts|
    ensures account < |s.db.accounts| ==> FoundingOf(s.history, account).value.phone == s.db.accounts[account].phone
  {
    assert TokenTally(s.history, s.db.sessions, token) && AccountOk(s, account);
  }

  lemma RequestCapJustified(s: State, i: nat, phone: string, at: int)
    requires Inv(s) && s.now <= at && IsLatest(s.db.challenges, phone, i) && s.db.challenges[i].ResendReady(at)
    ensures RequestCapped(s.history, i, phone, at)
  {
    var rows := s.db.challenges;
    assert Tally(s.history, rows, i);
    SettledByLatest(s.history, rows, phone, rows[i].sentAt);
    SettledByLatest(s.history, rows, phone, at - RESEND_COOLDOWN);
  }

  lemma ResendCapJustified(s: State, i: nat, at: int)
    requires Inv(s) && s.now <= at && i < |s.db.challenges| && !s.db.challenges[i].Dead(at)
    requires s.db.challenges[i].ResendReady(at) && s.db.challenges[i].SendCapReached()
    ensures ResendCapped(s.history, i, at)
  {
    assert Tally(s.history, s.db.challenges, i) && RowOk(s.db.challenges[i], s.now);
    CodeUsableOn(s, i, at);
  }

  /** A window sum at the cap stands for that many recorded codes within the cap's reach. */
  lemma SumIsRecorded(s: State, phone: string, since: int)
    requires ChallengesInv(s) && CountSendsSince(s.db.challenges, phone, since) >= MAX_SENDS_PER_WINDOW
    ensures Total(s.history, Recorded(phone, since - OTP_TTL * (MAX_SENDS_PER_WINDOW - 1))) >= MAX_SENDS_PER_WINDOW
  {
    var rows := s.db.challenges;
    assert forall i | 0 <= i < |rows| :: RowOk(rows[i], s.now);
    CountedWithinReach(rows, phone, since);
    assert TraceLedger(s.history, rows, phone, since - OTP_TTL * (MAX_SENDS_PER_WINDOW - 1));
  }

  /** So do the sends of a live challenge at its cap. */
  lemma RowIsRecorded(s: State, i: nat, at: int)
    requires ChallengesInv(s) && s.now <= at && i < |s.db.challenges|
    requires !s.db.challenges[i].Dead(at) && s.db.challenges[i].SendCapReached()
    ensures Total(s.history, Recorded(s.db.challenges[i].phone, at - CAP_REACH)) >= MAX_SENDS_PER_WINDOW
  {
    var row := s.db.challenges[i];
    assert RowOk(row, s.now);
    ShareWithinSum(s.db.challenges, i, Traced(row.phone, at - CAP_REACH));
    assert TraceLedger(s.history, s.db.challenges, row.phone, at - CAP_REACH);
  }

  /** A challenge is locked because the cap of its phone, or its own, was reached. */
  lemma CapJustified(s: State, e: Entry)
    requires Inv(s) && s.now <= e.at && e.CapLocked? && MayCapLock(s.db.challenges, e.id, e.phone, e.at)
    ensures Justified(s.history, e)
  {
    EndsByLater(s.history, s.now, e.at);
    CapReached(s, e.id, e.phone, e.at);
    assert Tally(s.history, s.db.challenges, e.id);
  }

  lemma CapReached(s: State, i: nat, phone: string, at: int)
    requires Inv(s) && s.now <= at && MayCapLock(s.db.challenges, i, phone, at)
    ensures RequestCapped(s.history, i, phone, at) || ResendCapped(s.history, i, at)
    ensures Total(s.history, Recorded(phone, at - CAP_REACH)) >= MAX_SENDS_PER_WINDOW
  {
    if !s.db.challenges[i].Dead(at) && s.db.challenges[i].SendCapReached() {
      ResendCapJustified(s, i, at);
      RowIsRecorded(s, i, at);
    } else {
      RequestCapJustified(s, i, phone, at);
      SumIsRecorded(s, phone, at - SEND_CAP_WINDOW);
    }
  }

  lemma ClearJustified(s: State, e: Entry)
    requires Inv(s) && Guard(s.key, s.db, e) && s.now <= e.at && e.Cleared?
    ensures Justified(s.history, e)
  {
    var rows := s.db.challenges;
    EndsByLater(s.history, s.now, e.at);
    assert Tally(s.history, rows, e.id) && AccountOk(s, e.account);
    SettledByLatest(s.history, rows, e.phone, rows[e.id].sentAt);
  }

  /** The accounts linked to a subject are those whose row carries it. */
  lemma LinkedIsHeld(s: State, k: nat, subject: string)
    requires Inv(s)
    ensures LinkedTo(s.history, k, subject) <==> k < |s.db.accounts| && HasSubject(s.db.accounts[k], subject)
  {
    assert AccountOk(s, k);
    if k < |s.db.accounts| {
      assert Tally(s.history, s.db.challenges, FoundingOf(s.history, k).value.id);
    }
  }

  lemma GoogleJustified(s: State, e: Entry)
    requires Inv(s) && Guard(s.key, s.db, e) && s.now <= e.at && (e.Proven? || e.Resumed?)
    ensures Justified(s.history, e)
  {
    EndsByLater(s.history, s.now, e.at);
    if e.Resumed? {
      LinkedIsHeld(s, e.account, e.identity.subject);
      IssueJustified(s, e.account, e.token);
    } else {
      assert LinkTally(s.history, s.db.accounts, e.identity.subject);
    }
  }

  lemma ExtensionJustified(s: State, e: Entry)
    requires Inv(s) && Guard(s.key, s.db, e) && s.now <= e.at && e.Extended?
    ensures Justified(s.history, e)
  {
    EndsByLater(s.history, s.now, e.at);
    assert SessionTally(s.history, s.db.sessions, e.id) && SessionOk(s.db.sessions[e.id], |s.db.accounts|, s.now);
  }

  lemma EntryJustified(s: State, e: Entry)
    requires Inv(s) && Guard(s.key, s.db, e) && s.now <= e.at && Authentic(s.history, e)
    ensures Justified(s.history, e)
  {
    EndsByLater(s.history, s.now, e.at);
    match e
    case Opened(id, row, _, at) =>
      RequestJustified(s, row.phone, at);
      assert SignupTally(s, row.phone);
      assert Tally(s.history, s.db.challenges, id);
    case Lost(phone, _, _, via, at) =>
      assert SignupTally(s, phone);
      if via.None? {
        RequestJustified(s, phone, at);
      } else {
        ResendJustified(s, via.value, phone, at);
      }
    case Resent(id, phone, _, at) => ResendJustified(s, id, phone, at);
    case Confirmed(_, _, _, _, _, _, _) => ConfirmJustified(s, e);
    case CapLocked(_, _, _) => CapJustified(s, e);
    case Cleared(_, _, _, _, _, _, _) => ClearJustified(s, e);
    case Proven(_, _, _) => GoogleJustified(s, e);
    case Resumed(_, _, _, _) => GoogleJustified(s, e);
    case Extended(_, _) => ExtensionJustified(s, e);
    case Missed(id, _, at) =>
      assert Tally(s.history, s.db.challenges, id) && RowOk(s.db.challenges[id], s.now);
      CodeUsableOn(s, id, at);
    case Slipped(id, _, at) =>
      assert Tally(s.history, s.db.challenges, id) && RowOk(s.db.challenges[id], s.now);
      CodeUsableOn(s, id, at);
    case _ =>
  }

  lemma ChallengesKept(s: State, e: Entry)
    requires ChallengesInv(s) && Guard(s.key, s.db, e) && s.now <= e.at
    ensures ChallengesInv(Next(s, e))
  {
    var s' := Next(s, e);
    ChallengesOfEffect(s.db, e);
    RowsStep(s, e);
    forall i: nat ensures Tally(s'.history, s'.db.challenges, i) { TallyStep(s, e, i); }
    forall phone: string ensures PhoneTally(s'.history, s'.db.challenges, s'.now, phone) {
      PhoneTallyStep(s, e, phone);
    }
    forall phone: string, since: int ensures Ledger(s'.history, s'.db.challenges, s'.now, phone, since) {
      LedgerStep(s, e, phone, since);
    }
    forall phone: string, since: int ensures TraceLedger(s'.history, s'.db.challenges, phone, since) {
      TraceStep(s, e, phone, since);
    }
    RecordedStep(s, e);
  }

  lemma OwnersKept(s: State, e: Entry)
    requires OwnersInv(s) && Guard(s.key, s.db, e) && s.now <= e.at
    requires forall i: nat :: Tally(s.history, s.db.challenges, i)
    ensures OwnersInv(Next(s, e))
  {
    var s' := Next(s, e);
    forall k: nat ensures AccountOk(s', k) { AccountStep(s, e, k); }
    forall phone: string ensures SignupTally(s', phone) { SignupStep(s, e, phone); }
    forall subject: string ensures LinkTally(s'.history, s'.db.accounts, subject) { LinkStep(s, e, subject); }
    UniqueStep(s, e);
    SessionsStep(s, e);
    forall k: nat ensures SessionTally(s'.history, s'.db.sessions, k) { SessionTallyStep(s, e, k); }
    forall token: string ensures TokenTally(s'.history, s'.db.sessions, token) { TokenStep(s, e, token); }
    HashesKept(s.db, e);
    AuditStep(s, e);
  }

  lemma EntryKeeps(s: State, e: Entry)
    requires Inv(s) && Guard(s.key, s.db, e) && s.now <= e.at && Authentic(s.history, e)
    ensures Inv(Next(s, e))
  {
    ChallengesKept(s, e);
    OwnersKept(s, e);
    EndsByLater(s.history, s.now, e.at);
    EntryJustified(s, e);
  }

  lemma InitKeeps(key: string, start: int)
    ensures Inv(Init(key, start))
  {
    var s := Init(key, start);
    assert forall i: nat :: Tally(s.history, s.db.challenges, i);
    assert forall phone: string :: PhoneTally(s.history, s.db.challenges, s.now, phone);
    assert forall phone: string, since: int :: Ledger(s.history, s.db.challenges, s.now, phone, since);
    assert forall phone: string, since: int :: TraceLedger(s.history, s.db.challenges, phone, since);
    assert forall k: nat :: AccountOk(s, k);
    assert forall k: nat :: SessionTally(s.history, s.db.sessions, k);
    assert forall token: string :: TokenTally(s.history, s.db.sessions, token);
    assert forall phone: string :: SignupTally(s, phone);
    assert forall subject: string :: LinkTally(s.history, s.db.accounts, subject);
  }

  lemma LinkIsTheCalls(key: string, db: Db, c: Call)
    requires PicksOk(db, c)
    ensures var e := Decide(key, db, c).entry;
            e.Opened? && e.link.Some? ==> c.Request? && c.link == e.link && c.link.value.key == key
  {
  }

  /** What a legal call does to a state, without looking into its decision. */
  ghost predicate Moves(s: State, e: Entry, s': State) {
    && Inv(s) && s.now <= e.at && Guard(s.key, s.db, e) && Authentic(s.history, e)
    && s' == Next(s, e) && Inv(s') && Justified(s.history, e)
  }

  lemma StepMoves(s: State, c: Call) returns (e: Entry)
    requires Inv(s) && Legal(s, c)
    ensures e == Decide(s.key, s.db, c).entry && e.at == c.now
    ensures Moves(s, e, Step(s, c))
  {
    e := Decide(s.key, s.db, c).entry;
    DecisionGuarded(s.key, s.db, c);
    LinkIsTheCalls(s.key, s.db, c);
    EntryKeeps(s, e);
    EntryJustified(s, e);
  }

  lemma {:induction false} RunKeeps(run: Run, n: nat)
    requires run.Valid() && n < |run.states| && Inv(run.First())
    ensures Inv(run.states[n])
  {
    if n > 0 {
      RunKeeps(run, n - 1);
      var _ := StepMoves(run.states[n - 1], run.calls[n - 1]);
    }
  }

  /** The entry a call of a run makes. */
  lemma RunMoves(run: Run, n: nat) returns (e: Entry)
    requires run.Valid() && n < |run.calls| && Inv(run.First())
    ensures Moves(run.states[n], e, run.states[n + 1])
  {
    RunKeeps(run, n);
    e := StepMoves(run.states[n], run.calls[n]);
  }

  lemma MoveKeeps(run: Run, n: nat, P: State -> bool)
    requires run.Valid() && n < |run.calls| && Inv(run.First()) && P(run.states[n])
    requires forall s: State, e, s': State | Moves(s, e, s') && P(s) :: P(s')
    ensures P(run.states[n + 1])
  {
    var e := RunMoves(run, n);
    assert Moves(run.states[n], e, run.states[n + 1]);
  }

  /** What every entry keeps holds throughout a run. */
  lemma {:induction false} RunInduction(run: Run, n: nat, P: State -> bool)
    requires run.Valid() && n < |run.states| && Inv(run.First()) && P(run.First())
    requires forall s: State, e, s': State | Moves(s, e, s') && P(s) :: P(s')
    ensures P(run.states[n])
  {
    if n > 0 {
      RunInduction(run, n - 1, P);
      MoveKeeps(run, n - 1, P);
    }
  }

  lemma ReachableInv(s: State)
    requires Reachable(s)
    ensures Inv(s)
  {
    var run: Run, key, start :| run.Valid() && run.First() == Init(key, start) && run.Last() == s;
    InitKeeps(key, start);
    RunKeeps(run, |run.calls|);
  }

  lemma StepGrows(s: State, c: Call, s': State, q: Query)
    requires Follows(s, c, s')
    ensures s'.history.Then? && s'.history.past == s.history && s'.history.last.at == s'.now && s.now <= s'.now
    ensures Total(s.history, q) <= Total(s'.history, q) && s.db.audit <= s'.db.audit
  {
  }

  /** A run only adds to what was counted. */
  lemma {:induction false} TotalsGrow(run: Run, m: nat, n: nat, q: Query)
    requires run.Valid() && m <= n < |run.states|
    ensures Total(run.states[m].history, q) <= Total(run.states[n].history, q)
    ensures run.states[m].now <= run.states[n].now
    ensures run.states[m].db.audit <= run.states[n].db.audit
    decreases n - m
  {
    if m < n {
      TotalsGrow(run, m, n - 1, q);
      StepGrows(run.states[n - 1], run.calls[n - 1], run.states[n], q);
    }
  }

  /** In every run, every entry obeyed the rules of the protocol when it was made. */
  lemma HistoryObeysRules(s: State, past: History, e: Entry)
    requires Reachable(s) && Happened(s.history, past, e)
    ensures Justified(past, e)
  {
    assert WellFormed(s.history) by {
      ReachableInv(s);
    }
    HappenedJustified(s.history, past, e);
  }
}
