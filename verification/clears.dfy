/** What an administrator's clear achieves and records. */
module ClearTheorems {
  import opened Domain
  import opened Storage
  import opened Phone
  import opened Protocol
  import opened History
  import opened Counting
  import opened Runs
  import opened Invariants
  import opened Phones
  import opened Records
  import opened ReachableStates

  // --- The audit log ---

  lemma {:induction false} TrailLength(h: History)
    ensures |AuditTrail(h)| == ClearCount(h)
  {
    if h.Then? {
      TrailLength(h.past);
    }
  }

  function ClearCount(h: History): nat {
    match h
    case Start => 0
    case Then(past, e) => ClearCount(past) + if e.Cleared? then 1 else 0
  }

  /** The audit log is exactly the list of effective clears, in order; each event names the account whose phone owns
      the cleared challenge. */
  lemma AuditIsTheClears(s: State)
    requires Reachable(s)
    ensures s.db.audit == AuditTrail(s.history) && |s.db.audit| == ClearCount(s.history)
    ensures AuditOwned(s.db)
  {
    ReachableInv(s);
    TrailLength(s.history);
  }

  lemma AuditAppendOnly(run: Run)
    requires run.Valid()
    ensures run.First().db.audit <= run.Last().db.audit
  {
    TotalsGrow(run, 0, |run.calls|, ClearsOf(""));
  }

  /** A clear that reports anything but success changes nothing; one that reports success lifts the latest challenge's
      lock, forgets its counted sends, keeps its wrong guesses and adds one event. */
  lemma ClearAllOrNothing(db: Db, c: Call)
    requires c.ClearLockout? && PicksOk(db, c)
    ensures
      var d := DecideClear(db, c);
      var db' := Effect(db, d.entry);
      if d.reply == LockoutCleared(true) then
        && c.account < |db.accounts| && c.pick.Some?
        && IsLatest(db.challenges, db.accounts[c.account].phone, c.pick.value)
        && db.challenges[c.pick.value].IsLocked(c.now)
        && var row := db.challenges[c.pick.value];
           && db'.challenges ==
                db.challenges[c.pick.value := row.(lockedUntil := None, sendsInWindow := 0, status := Pending)]
           && db'.audit == db.audit + [AuditEvent(c.actor, c.account, c.pick.value, c.stamp)]
           && db'.accounts == db.accounts && db'.sessions == db.sessions
      else db' == db
    ensures c.fails == {} && c.account < |db.accounts| ==>
              (DecideClear(db, c).reply == LockoutCleared(true) <==>
                 c.pick.Some? && db.challenges[c.pick.value].IsLocked(c.now))
  {
  }

  // --- Clearing a phone's lockout ---

  /** Resend was only ever called on the phone's most recently opened challenge. */
  predicate LatestOnly(h: History, phone: string) {
    match h
    case Start => true
    case Then(past, e) =>
      && LatestOnly(past, phone)
      && (e.Resent? && e.phone == phone ==> LastOpening(past, phone).Some? && LastOpening(past, phone).value.id == e.id)
  }

  /** The counted sends in the window once row `l` is forgiven. */
  function OtherSends(rows: seq<Challenge>, l: nat, phone: string, since: int): nat
    requires l < |rows|
  {
    CountSendsSince(rows[l := rows[l].AfterClear()], phone, since)
  }

  /** The last opened challenge is the strictly latest, and the other ones' sends in the window stay below the cap. */
  ghost predicate Tidy(h: History, rows: seq<Challenge>, now: int, phone: string) {
    match LastOpening(h, phone)
    case None => forall i | 0 <= i < |rows| :: rows[i].phone != phone
    case Some(o) =>
      && o.id < |rows| && rows[o.id].phone == phone
      && (forall i | 0 <= i < |rows| && i != o.id && rows[i].phone == phone :: rows[i].sentAt < rows[o.id].sentAt)
      && OtherSends(rows, o.id, phone, now - SEND_CAP_WINDOW) < MAX_SENDS_PER_WINDOW
  }

  lemma OtherSendsAppend(rows: seq<Challenge>, row: Challenge, l: nat, phone: string, since: int)
    requires l < |rows|
    ensures OtherSends(rows + [row], l, phone, since) == OtherSends(rows, l, phone, since) + Share(row, Sends(phone, since))
  {
    assert (rows + [row])[l := (rows + [row])[l].AfterClear()] == rows[l := rows[l].AfterClear()] + [row];
    SumAppend(rows[l := rows[l].AfterClear()], row, Sends(phone, since));
  }

  lemma OtherSendsSelf(rows: seq<Challenge>, row: Challenge, l: nat, phone: string, since: int)
    requires l < |rows|
    ensures OtherSends(rows[l := row], l, phone, since) == OtherSends(rows, l, phone, since)
  {
    var m := Sends(phone, since);
    assert rows[l := row][l := row.AfterClear()] == rows[l := row.AfterClear()];
    SumUpdate(rows, l, row.AfterClear(), m);
    SumUpdate(rows, l, rows[l].AfterClear(), m);
  }

  lemma OtherSendsChange(rows: seq<Challenge>, row: Challenge, i: nat, l: nat, phone: string, since: int)
    requires i < |rows| && l < |rows| && i != l
    ensures OtherSends(rows[i := row], l, phone, since) + Share(rows[i], Sends(phone, since))
         == OtherSends(rows, l, phone, since) + Share(row, Sends(phone, since))
  {
    var rest := rows[l := rows[l].AfterClear()];
    assert rows[i := row][l := rows[l].AfterClear()] == rest[i := row];
    SumUpdate(rest, i, row, Sends(phone, since));
  }

  /** Time alone only empties the window. */
  lemma TidyLater(h: History, rows: seq<Challenge>, now: int, later: int, phone: string)
    requires Tidy(h, rows, now, phone) && now <= later
    ensures Tidy(h, rows, later, phone)
  {
    if LastOpening(h, phone).Some? {
      var l := LastOpening(h, phone).value.id;
      LaterWindow(rows[l := rows[l].AfterClear()], phone, now - SEND_CAP_WINDOW, later - SEND_CAP_WINDOW);
    }
  }

  lemma TidyOpening(h: History, rows: seq<Challenge>, e: Entry, phone: string)
    requires e.Opened? && e.id == |rows| && e.row.sentAt == e.at && Tidy(h, rows, e.at, phone)
    requires PhoneOpen(rows, e.row.phone, e.at)
    requires CountSendsSince(rows, e.row.phone, e.at - SEND_CAP_WINDOW) < MAX_SENDS_PER_WINDOW
    ensures Tidy(Then(h, e), rows + [e.row], e.at, phone)
  {
    var since := e.at - SEND_CAP_WINDOW;
    if e.row.phone == phone {
      assert (rows + [e.row])[e.id := e.row.AfterClear()] == rows + [e.row.AfterClear()];
      SumAppend(rows, e.row.AfterClear(), Sends(phone, since));
    } else if LastOpening(h, phone).Some? {
      OtherSendsAppend(rows, e.row, LastOpening(h, phone).value.id, phone, since);
    }
  }

  /** The challenge `l` itself never counts among its others; it may only be sent later. */
  lemma TidySelfChange(h: History, rows: seq<Challenge>, now: int, row: Challenge, phone: string)
    requires Tidy(h, rows, now, phone) && LastOpening(h, phone).Some?
    requires var l := LastOpening(h, phone).value.id; row.phone == phone && row.sentAt >= rows[l].sentAt
    ensures Tidy(h, rows[LastOpening(h, phone).value.id := row], now, phone)
  {
    OtherSendsSelf(rows, row, LastOpening(h, phone).value.id, phone, now - SEND_CAP_WINDOW);
  }

  /** Another challenge keeps its send time and gains no sends. */
  lemma TidyOtherChange(h: History, rows: seq<Challenge>, now: int, i: nat, row: Challenge, phone: string)
    requires Tidy(h, rows, now, phone) && i < |rows| && row.phone == rows[i].phone
    requires LastOpening(h, phone).Some? ==> LastOpening(h, phone).value.id != i
    requires row.phone == phone ==> row.sentAt == rows[i].sentAt && row.sendsInWindow <= rows[i].sendsInWindow
    ensures Tidy(h, rows[i := row], now, phone)
  {
    if LastOpening(h, phone).Some? {
      OtherSendsChange(rows, row, i, LastOpening(h, phone).value.id, phone, now - SEND_CAP_WINDOW);
    }
  }

  lemma TidyRowChange(h: History, rows: seq<Challenge>, now: int, e: Entry, phone: string)
    requires ChangesRow(e) && e.id < |rows| && RowGuard(rows[e.id], e) && now <= e.at && RowOk(rows[e.id], now)
    requires Tidy(h, rows, e.at, phone) && LatestOnly(Then(h, e), phone)
    ensures Tidy(Then(h, e), rows[e.id := RowAfter(rows[e.id], e)], e.at, phone)
  {
    var row' := RowAfter(rows[e.id], e);
    RowChange(rows[e.id], e, now);
    HistoryOfRowChange(h, e, phone);
    if LastOpening(h, phone).Some? && LastOpening(h, phone).value.id == e.id {
      TidySelfChange(h, rows, e.at, row', phone);
    } else {
      TidyOtherChange(h, rows, e.at, e.id, row', phone);
    }
  }

  lemma TidyStep(s: State, e: Entry, s': State, phone: string)
    requires Moves(s, e, s') && Tidy(s.history, s.db.challenges, s.now, phone) && LatestOnly(s'.history, phone)
    ensures Tidy(s'.history, s'.db.challenges, s'.now, phone)
  {
    ChallengesOfEffect(s.db, e);
    TidyLater(s.history, s.db.challenges, s.now, e.at, phone);
    if e.Opened? {
      TidyOpening(s.history, s.db.challenges, e, phone);
    } else if ChangesRow(e) {
      TidyRowChange(s.history, s.db.challenges, s.now, e, phone);
    }
  }

  lemma {:induction false} TidyRun(run: Run, n: nat, phone: string)
    requires run.Valid() && n < |run.states| && Inv(run.First()) && LatestOnly(run.states[n].history, phone)
    requires Tidy(run.First().history, run.First().db.challenges, run.First().now, phone)
    ensures var s := run.states[n]; Tidy(s.history, s.db.challenges, s.now, phone)
  {
    if n > 0 {
      var e := RunMoves(run, n - 1);
      TidyRun(run, n - 1, phone);
      TidyStep(run.states[n - 1], e, run.states[n], phone);
    }
  }

  lemma ReachableTidy(s: State, phone: string)
    requires Reachable(s) && LatestOnly(s.history, phone)
    ensures Tidy(s.history, s.db.challenges, s.now, phone)
  {
    var run: Run, key, start :| run.Valid() && run.First() == Init(key, start) && run.Last() == s;
    InitKeeps(key, start);
    TidyRun(run, |run.calls|, phone);
  }

  /** On runs that resend only a phone's latest challenge, that one is strictly latest and the phone's other
      challenges never fill the cap. */
  lemma OthersNeverFillCap(s: State, phone: string, l: nat, now: int)
    requires Reachable(s) && LatestOnly(s.history, phone) && IsLatest(s.db.challenges, phone, l) && s.now <= now
    ensures StrictlyLatest(s.db.challenges, phone, l)
    ensures OtherSends(s.db.challenges, l, phone, now - SEND_CAP_WINDOW) < MAX_SENDS_PER_WINDOW
  {
    ReachableTidy(s, phone);
    TidyLater(s.history, s.db.challenges, s.now, now, phone);
    assert s.db.challenges[l].phone == phone;
  }

  /** A faultless signin request whose provider delivers. */
  predicate CleanSignin(c: Call, phone: string) {
    c.Request? && c.intent.Signin? && Canonical(c.rawPhone) == Some(phone) && c.sent && c.fails == {}
  }

  /** The entry opened or changed a challenge of the phone. */
  predicate Touches(e: Entry, phone: string) {
    (e.Opened? && e.row.phone == phone) || (ChangesRow(e) && e.phone == phone)
  }

  /** The last entry that opened or changed a challenge of the phone. */
  function LastTouch(h: History, phone: string): (t: Option<Entry>)
    ensures t.Some? ==> Touches(t.value, phone)
  {
    match h
    case Start => None
    case Then(past, e) => if Touches(e, phone) then Some(e) else LastTouch(past, phone)
  }

  /** Whatever else happened since, the phone's challenges are as an administrator's clear of challenge `l` left
      them. */
  predicate AsCleared(h: History, phone: string, l: nat) {
    && LastTouch(h, phone).Some? && LastTouch(h, phone).value.Cleared?
    && LastTouch(h, phone).value.id == l
  }

  /** The cleared challenge is a latest one, unlocked and without counted sends, and the phone has an account. */
  ghost predicate ClearStands(db: Db, phone: string, l: nat) {
    && IsLatest(db.challenges, phone, l)
    && db.challenges[l].lockedUntil.None? && db.challenges[l].sendsInWindow == 0
    && FindByPhone(db.accounts, phone).Some?
  }

  lemma ClearMakesItStand(s: State, e: Entry, s': State)
    requires Moves(s, e, s') && e.Cleared?
    ensures ClearStands(s'.db, e.phone, e.id)
  {
    assert s'.db.challenges[e.id] == s.db.challenges[e.id].AfterClear();
    assert s'.db.accounts[e.account].phone == e.phone;
  }

  lemma ClearKeepsStanding(s: State, e: Entry, phone: string, l: nat)
    requires RowsInv(s) && Guard(s.key, s.db, e) && s.now <= e.at
    requires !Touches(e, phone) && ClearStands(s.db, phone, l)
    ensures ClearStands(Effect(s.db, e), phone, l)
  {
    ChallengesOfEffect(s.db, e);
    AccountsGrow(s.key, s.db, e);
    if e.Confirmed? && e.signup {
      FindAppended(s.db.accounts, PendingAccount(s.db.challenges[e.id], e.at), phone);
    }
    if ChangesRow(e) {
      assert RowOk(s.db.challenges[e.id], s.now);
      RowChange(s.db.challenges[e.id], e, s.now);
    }
  }

  lemma ClearStandsOnRun(run: Run, n: nat, phone: string, l: nat)
    requires run.Valid() && n < |run.states| && Inv(run.First()) && run.First().history == Start
    requires AsCleared(run.states[n].history, phone, l)
    ensures ClearStands(run.states[n].db, phone, l)
  {
    var P := (s: State) => AsCleared(s.history, phone, l) ==> ClearStands(s.db, phone, l);
    forall s: State, e, s': State | Moves(s, e, s') && P(s)
      ensures P(s')
    {
      if Touches(e, phone) && e.Cleared? {
        ClearMakesItStand(s, e, s');
      } else if !Touches(e, phone) && AsCleared(s.history, phone, l) {
        ClearKeepsStanding(s, e, phone, l);
      }
    }
    RunInduction(run, n, P);
  }

  lemma ClearedStands(s: State, phone: string, l: nat)
    requires Reachable(s) && AsCleared(s.history, phone, l)
    ensures ClearStands(s.db, phone, l)
  {
    var run: Run, key, start :| run.Valid() && run.First() == Init(key, start) && run.Last() == s;
    InitKeeps(key, start);
    ClearStandsOnRun(run, |run.calls|, phone, l);
  }

  /** A clean signin request of a registered phone whose latest challenge is not cooling down. */
  lemma RetryDecides(key: string, db: Db, phone: string, retry: Call)
    requires PicksOk(db, retry) && CleanSignin(retry, phone) && FindByPhone(db.accounts, phone).Some?
    requires retry.pick.Some? && db.challenges[retry.pick.value].ResendReady(retry.now)
    ensures DecideRequest(key, db, retry).reply.Challenged? <==>
              && !db.challenges[retry.pick.value].IsLocked(retry.now)
              && CountSendsSince(db.challenges, phone, retry.now - SEND_CAP_WINDOW) < MAX_SENDS_PER_WINDOW
  {
    assert DecideRequest(key, db, retry) == DecideFreshCode(db, retry, phone);
  }

  /** A challenge without counted sends adds nothing to the window. */
  lemma OnlyOthersCount(rows: seq<Challenge>, l: nat, phone: string, since: int)
    requires l < |rows| && rows[l].sendsInWindow == 0
    ensures OtherSends(rows, l, phone, since) == CountSendsSince(rows, phone, since)
  {
    SumUpdate(rows, l, rows[l].AfterClear(), Sends(phone, since));
  }

  /** The request is about the phone, and the database settled on one of its latest challenges. */
  lemma RetryPick(db: Db, retry: Call, phone: string, l: nat)
    requires PicksOk(db, retry) && CleanSignin(retry, phone) && IsLatest(db.challenges, phone, l)
    ensures retry.pick.Some? && IsLatest(db.challenges, phone, retry.pick.value)
    ensures db.challenges[retry.pick.value].sentAt == db.challenges[l].sentAt
    ensures StrictlyLatest(db.challenges, phone, l) ==> retry.pick.value == l
  {
    assert LatestOk(db.challenges, phone, retry.pick);
  }

  /** After a clear, and until the phone's challenges change again, a signin request past the cooldown gets its code if
      and only if the latest challenge the database settles on is not locked and the sends still counted for the phone,
      all on other challenges, are below the cap. Where the cleared challenge alone is latest, only the sends matter. */
  lemma ClearUnsticksIff(s: State, retry: Call, phone: string, l: nat)
    requires Reachable(s) && AsCleared(s.history, phone, l) && l < |s.db.challenges|
    requires PicksOk(s.db, retry) && CleanSignin(retry, phone) && s.db.challenges[l].ResendReady(retry.now)
    ensures retry.pick.Some?
    ensures DecideRequest(s.key, s.db, retry).reply.Challenged? <==>
              && !s.db.challenges[retry.pick.value].IsLocked(retry.now)
              && OtherSends(s.db.challenges, l, phone, retry.now - SEND_CAP_WINDOW) < MAX_SENDS_PER_WINDOW
    ensures StrictlyLatest(s.db.challenges, phone, l) ==> !s.db.challenges[retry.pick.value].IsLocked(retry.now)
  {
    ClearedStands(s, phone, l);
    RetryPick(s.db, retry, phone, l);
    OnlyOthersCount(s.db.challenges, l, phone, retry.now - SEND_CAP_WINDOW);
    RetryDecides(s.key, s.db, phone, retry);
  }

  /** On runs that resend only a phone's latest challenge, after a clear, and until the phone's challenges change again,
      a signin request past the cooldown always gets its code. */
  lemma ClearUnsticks(s: State, retry: Call, phone: string, l: nat)
    requires Reachable(s) && AsCleared(s.history, phone, l) && l < |s.db.challenges|
    requires LatestOnly(s.history, phone) && s.now <= retry.now
    requires PicksOk(s.db, retry) && CleanSignin(retry, phone) && s.db.challenges[l].ResendReady(retry.now)
    ensures DecideRequest(s.key, s.db, retry).reply.Challenged?
  {
    assert IsLatest(s.db.challenges, phone, l) by {
      ClearedStands(s, phone, l);
    }
    OthersNeverFillCap(s, phone, l, retry.now);
    ClearUnsticksIff(s, retry, phone, l);
  }

  // --- Guessing after a clear ---

  lemma WrongGuessDecides(db: Db, c: Call)
    requires c.Confirm? && c.fails == {} && c.id < |db.challenges| && !db.challenges[c.id].Dead(c.now)
    requires db.challenges[c.id].codeHash != Bcrypt(c.code)
    ensures var misses, d := db.challenges[c.id].failedAttempts, DecideConfirm(db, c);
            && d.entry == Missed(c.id, db.challenges[c.id].phone, c.now)
            && d.reply == (if misses < MAX_FAILED_ATTEMPTS - 1
                           then Failed(IncorrectCode(Some(MAX_FAILED_ATTEMPTS - 1 - misses)))
                           else Failed(LockedOut(c.now + LOCKOUT_DURATION)))
            && (Effect(db, d.entry).challenges[c.id].IsLocked(c.now) <==> misses >= MAX_FAILED_ATTEMPTS - 1)
  {
  }

  /** On a challenge that accepts guesses, a wrong one locks if and only if four or more were recorded before, whether or
      not it was cleared in between; otherwise the answer counts the rest. */
  lemma WrongGuessAnswer(s: State, c: Call)
    requires Reachable(s) && c.Confirm? && c.fails == {} && s.now <= c.now
    requires c.id < |s.db.challenges| && !s.db.challenges[c.id].Dead(c.now)
    requires s.db.challenges[c.id].codeHash != Bcrypt(c.code)
    ensures var misses, d := Total(s.history, MissesOn(c.id)), DecideConfirm(s.db, c);
            && d.reply == (if misses < MAX_FAILED_ATTEMPTS - 1
                           then Failed(IncorrectCode(Some(MAX_FAILED_ATTEMPTS - 1 - misses)))
                           else Failed(LockedOut(c.now + LOCKOUT_DURATION)))
            && (Effect(s.db, d.entry).challenges[c.id].IsLocked(c.now) <==> misses >= MAX_FAILED_ATTEMPTS - 1)
            && Total(Then(s.history, d.entry), MissesOn(c.id)) == misses + 1
  {
    WrongGuessDecides(s.db, c);
    assert s.db.challenges[c.id].failedAttempts == Total(s.history, MissesOn(c.id)) by {
      ReachableInv(s);
      assert Tally(s.history, s.db.challenges, c.id);
    }
  }

  /** So the first wrong guess after a clear of a guess lockout locks again: the clear keeps the recorded guesses. */
  lemma FirstGuessAfterClearLocks(s: State, c: Call)
    requires Reachable(s) && c.Confirm? && c.fails == {} && s.now <= c.now
    requires c.id < |s.db.challenges| && !s.db.challenges[c.id].Dead(c.now)
    requires s.db.challenges[c.id].codeHash != Bcrypt(c.code)
    requires Total(s.history, MissesOn(c.id)) >= MAX_FAILED_ATTEMPTS
    ensures DecideConfirm(s.db, c).reply == Failed(LockedOut(c.now + LOCKOUT_DURATION))
    ensures Total(s.history, ClearsOn(c.id)) > 0
  {
    WrongGuessAnswer(s, c);
    ReachableInv(s);
    assert Tally(s.history, s.db.challenges, c.id) && RowOk(s.db.challenges[c.id], s.now);
  }
}
