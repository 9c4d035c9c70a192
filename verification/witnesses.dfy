/** Runs that show what the code does not promise: each ends in a reachable state. */
module Witnesses {
  import opened Domain
  import opened Storage
  import opened Phone
  import opened Protocol
  import opened History
  import opened Counting
  import opened Runs
  import ReachableStates
  import LockoutTheorems
  import ClearTheorems
  import LatestTheorems
  import Invariants
  import Listing
  import Paging
  import Like
  import Tightness

  lemma CallReaches(s: State, c: Call, e: Entry)
    requires Reachable(s) && Legal(s, c) && Decide(s.key, s.db, c).entry == e
    ensures InRange(s.db, e) && Reachable(Next(s, e))
  {
    Tightness.ReachableStep(s, c);
  }

  // --- A registered phone and a signin request a minute ---

  function Owner(phone: string): Account {
    Account("", phone, None, "", 0)
  }

  function SigninRow(phone: string, i: nat): Challenge {
    NewChallenge(phone, Signin, "", "", None, "", 60 * i)
  }

  /** The consumed signup challenge, and the signin challenges of minutes 1 to `k`. */
  function Rows(phone: string, k: nat): seq<Challenge> {
    if k == 0 then [NewChallenge(phone, Signup, "", "", None, "", 0).(status := Verified)]
    else Rows(phone, k - 1) + [SigninRow(phone, k)]
  }

  lemma {:induction false} RowsAre(phone: string, k: nat, since: int)
    requires since <= 0
    ensures |Rows(phone, k)| == k + 1 && CountSendsSince(Rows(phone, k), phone, since) == k + 1
    ensures Rows(phone, k)[0] == NewChallenge(phone, Signup, "", "", None, "", 0).(status := Verified)
    ensures forall i | 0 < i <= k :: Rows(phone, k)[i] == SigninRow(phone, i)
  {
    if k > 0 {
      RowsAre(phone, k - 1, since);
      SumAppend(Rows(phone, k - 1), SigninRow(phone, k), Sends(phone, since));
    } else {
      assert Rows(phone, 0) == [] + Rows(phone, 0);
      SumAppend([], Rows(phone, 0)[0], Sends(phone, since));
    }
  }

  /** A phone registered at 0, with `k` signin requests since. */
  ghost predicate AfterSignins(s: State, phone: string, k: nat) {
    && Reachable(s) && s.now == 60 * k
    && s.db == Db([Owner(phone)], Rows(phone, k), [NewSession(0, "", 0)], [])
  }

  lemma FirstSignup(db: Db, phone: string)
    requires db == Db([], [NewChallenge(phone, Signup, "", "", None, "", 0)], [], [])
    ensures DecideConfirm(db, Confirm(0, 0, "", "", {})).entry == Confirmed(0, phone, true, "", 0, "", 0)
  {
  }

  /** The first signup request of all. */
  lemma Asks(phone: string) returns (s: State)
    requires Canonical(phone) == Some(phone)
    ensures Reachable(s) && s.now == 0 && s.db == Db([], [NewChallenge(phone, Signup, "", "", None, "", 0)], [], [])
    ensures s.history == Then(Start, Opened(0, s.db.challenges[0], None, 0))
  {
    var s0 := Init("", 0);
    Tightness.InitReachable("", 0);
    assert LatestOk(s0.db.challenges, phone, None);
    s := Tightness.RequestReaches(s0, phone, phone, None, 0);
    assert s.db.challenges == [] + [s.history.last.row];
  }

  /** What a first signup confirm leaves behind. */
  lemma Founds(s: State, phone: string)
    requires s.db == Db([], [NewChallenge(phone, Signup, "", "", None, "", 0)], [], [])
    ensures var e := Confirmed(0, phone, true, "", 0, "", 0);
            InRange(s.db, e) && Next(s, e).db == Db([Owner(phone)], Rows(phone, 0), [NewSession(0, "", 0)], [])
  {
    var row := s.db.challenges[0];
    assert PendingAccount(row, 0) == Owner(phone);
    assert s.db.accounts + [Owner(phone)] == [Owner(phone)];
    assert s.db.challenges[0 := row.(status := Verified)] == Rows(phone, 0);
    assert s.db.sessions + [NewSession(0, "", 0)] == [NewSession(0, "", 0)];
  }

  lemma Registers(phone: string) returns (s: State)
    requires Canonical(phone) == Some(phone)
    ensures AfterSignins(s, phone, 0)
  {
    var s1 := Asks(phone);
    var e := Confirmed(0, phone, true, "", 0, "", 0);
    assert Reachable(Next(s1, e)) by {
      FirstSignup(s1.db, phone);
      CallReaches(s1, Confirm(0, 0, "", "", {}), e);
    }
    Founds(s1, phone);
    s := Next(s1, e);
  }

  /** A faultless signin request that passes every check opens a challenge. */
  lemma SigninOpens(key: string, db: Db, c: Call, phone: string)
    requires c.Request? && c.intent.Signin? && c.sent && c.fails == {} && Canonical(c.rawPhone) == Some(phone)
    requires FindByPhone(db.accounts, phone).Some? && c.pick.Some? && c.pick.value < |db.challenges|
    requires !db.challenges[c.pick.value].IsLocked(c.now) && db.challenges[c.pick.value].ResendReady(c.now)
    ensures DecideRequest(key, db, c).entry ==
            if CountSendsSince(db.challenges, phone, c.now - SEND_CAP_WINDOW) < MAX_SENDS_PER_WINDOW then
              Opened(|db.challenges|, NewChallenge(phone, Signin, "", "", None, c.code, c.now), None, c.now)
            else CapLocked(c.pick.value, phone, c.now)
  {
    assert DecideRequest(key, db, c) == DecideFreshCode(db, c, phone);
  }

  function SigninCall(phone: string, pick: nat, now: int): Call {
    Request(now, Signin, phone, "", "", None, Some(pick), "", true, {})
  }

  lemma SigninIsLegal(s: State, phone: string, pick: nat, now: int)
    requires Canonical(phone) == Some(phone) && s.now <= now && IsLatest(s.db.challenges, phone, pick)
    ensures Legal(s, SigninCall(phone, pick, now))
  {
    assert LatestOk(s.db.challenges, phone, Some(pick));
  }

  lemma SigninDecision(key: string, db: Db, phone: string, pick: nat, now: int) returns (e: Entry)
    requires Canonical(phone) == Some(phone) && db.accounts == [Owner(phone)] && pick < |db.challenges|
    requires db.challenges[pick].lockedUntil.None? && db.challenges[pick].ResendReady(now)
    ensures Decide(key, db, SigninCall(phone, pick, now)).entry == e
    ensures e == if CountSendsSince(db.challenges, phone, now - SEND_CAP_WINDOW) < MAX_SENDS_PER_WINDOW
                 then Opened(|db.challenges|, NewChallenge(phone, Signin, "", "", None, "", now), None, now)
                 else CapLocked(pick, phone, now)
  {
    OwnerFound(phone);
    e := RequestIsDecided(key, db, SigninCall(phone, pick, now), phone);
  }

  lemma RequestIsDecided(key: string, db: Db, c: Call, phone: string) returns (e: Entry)
    requires c.Request? && c.intent.Signin? && c.sent && c.fails == {} && Canonical(c.rawPhone) == Some(phone)
    requires FindByPhone(db.accounts, phone).Some? && c.pick.Some? && c.pick.value < |db.challenges|
    requires db.challenges[c.pick.value].lockedUntil.None? && db.challenges[c.pick.value].ResendReady(c.now)
    ensures Decide(key, db, c).entry == e
    ensures e == if CountSendsSince(db.challenges, phone, c.now - SEND_CAP_WINDOW) < MAX_SENDS_PER_WINDOW then
                   Opened(|db.challenges|, NewChallenge(phone, Signin, "", "", None, c.code, c.now), None, c.now)
                 else CapLocked(c.pick.value, phone, c.now)
  {
    SigninOpens(key, db, c, phone);
    e := DecideRequest(key, db, c).entry;
  }

  lemma OwnerFound(phone: string)
    ensures FindByPhone([Owner(phone)], phone) == Some(0)
  {
    assert [Owner(phone)][0].phone == phone;
  }

  /** A signin request of the owner once the latest challenge has cooled down: a code, or the cap's lock. */
  lemma SigninReaches(s: State, phone: string, pick: nat, now: int) returns (e: Entry)
    requires Reachable(s) && s.now <= now && Canonical(phone) == Some(phone) && s.db.accounts == [Owner(phone)]
    requires IsLatest(s.db.challenges, phone, pick)
    requires s.db.challenges[pick].lockedUntil.None? && s.db.challenges[pick].ResendReady(now)
    ensures e == if CountSendsSince(s.db.challenges, phone, now - SEND_CAP_WINDOW) < MAX_SENDS_PER_WINDOW
                 then Opened(|s.db.challenges|, NewChallenge(phone, Signin, "", "", None, "", now), None, now)
                 else CapLocked(pick, phone, now)
    ensures InRange(s.db, e) && Reachable(Next(s, e))
  {
    e := SigninDecision(s.key, s.db, phone, pick, now);
    SigninIsLegal(s, phone, pick, now);
    CallReaches(s, SigninCall(phone, pick, now), e);
  }

  lemma RowsReady(phone: string, k: nat)
    requires k <= 3
    ensures IsLatest(Rows(phone, k), phone, k) && |Rows(phone, k)| == k + 1
    ensures var row := Rows(phone, k)[k]; row.lockedUntil.None? && row.ResendReady(60 * (k + 1))
    ensures CountSendsSince(Rows(phone, k), phone, 60 * (k + 1) - SEND_CAP_WINDOW) < MAX_SENDS_PER_WINDOW
  {
    RowsAre(phone, k, 60 * (k + 1) - SEND_CAP_WINDOW);
  }

  /** A signin request below the cap. */
  lemma SigninStep(s: State, phone: string, pick: nat, now: int) returns (s': State)
    requires Reachable(s) && s.now <= now && Canonical(phone) == Some(phone) && s.db.accounts == [Owner(phone)]
    requires IsLatest(s.db.challenges, phone, pick)
    requires s.db.challenges[pick].lockedUntil.None? && s.db.challenges[pick].ResendReady(now)
    requires CountSendsSince(s.db.challenges, phone, now - SEND_CAP_WINDOW) < MAX_SENDS_PER_WINDOW
    ensures Reachable(s') && s'.now == now
    ensures s'.db == s.db.(challenges := s.db.challenges + [NewChallenge(phone, Signin, "", "", None, "", now)])
  {
    var e := SigninReaches(s, phone, pick, now);
    s' := Next(s, e);
  }

  lemma {:induction false} SignsIn(phone: string, k: nat) returns (s: State)
    requires Canonical(phone) == Some(phone) && k <= 4
    ensures AfterSignins(s, phone, k)
  {
    if k == 0 {
      s := Registers(phone);
    } else {
      var s0 := SignsIn(phone, k - 1);
      s := SignsInAgain(s0, phone, k - 1);
    }
  }

  lemma SignsInAgain(s0: State, phone: string, k: nat) returns (s: State)
    requires Canonical(phone) == Some(phone) && k <= 3 && AfterSignins(s0, phone, k)
    ensures AfterSignins(s, phone, k + 1)
  {
    var rows := s0.db.challenges;
    assert IsLatest(rows, phone, k) && |rows| == k + 1 && rows[k].lockedUntil.None?
           && rows[k].ResendReady(60 * (k + 1))
           && CountSendsSince(rows, phone, 60 * (k + 1) - SEND_CAP_WINDOW) < MAX_SENDS_PER_WINDOW by {
      RowsReady(phone, k);
    }
    s := SigninStep(s0, phone, k, 60 * (k + 1));
  }

  // --- Single calls ---

  function AfterGuesses(row: Challenge, n: nat, at: int): Challenge {
    if n == 0 then row else AfterGuesses(row, n - 1, at).AfterFailure(at)
  }

  lemma {:induction false} AfterGuessesIs(row: Challenge, n: nat, at: int)
    requires n <= MAX_FAILED_ATTEMPTS && row.failedAttempts == 0
    ensures AfterGuesses(row, n, at) ==
            if n < MAX_FAILED_ATTEMPTS then row.(failedAttempts := n)
            else row.(failedAttempts := n, lockedUntil := Some(at + LOCKOUT_DURATION), status := Locked)
  {
    if n > 0 {
      AfterGuessesIs(row, n - 1, at);
    }
  }

  lemma MissReaches(s: State, id: nat)
    requires Reachable(s) && id < |s.db.challenges| && !s.db.challenges[id].Dead(s.now)
    ensures Reachable(Next(s, Missed(id, s.db.challenges[id].phone, s.now)))
  {
    var row := s.db.challenges[id];
    var wrong := row.codeHash.code + "x";
    assert |wrong| != |row.codeHash.code|;
    CallReaches(s, Confirm(s.now, id, wrong, "", {}), Missed(id, row.phone, s.now));
  }

  /** Up to five wrong guesses on a fresh challenge. */
  lemma {:induction false} Guesses(s: State, id: nat, n: nat) returns (s': State)
    requires Reachable(s) && n <= MAX_FAILED_ATTEMPTS && id < |s.db.challenges|
    requires !s.db.challenges[id].Dead(s.now) && s.db.challenges[id].failedAttempts == 0
    ensures Reachable(s') && s'.now == s.now && s'.key == s.key
    ensures s'.db == s.db.(challenges := s.db.challenges[id := AfterGuesses(s.db.challenges[id], n, s.now)])
  {
    s' := s;
    if n == 0 {
      assert s.db.challenges == s.db.challenges[id := s.db.challenges[id]];
    } else {
      var s1 := Guesses(s, id, n - 1);
      AfterGuessesIs(s.db.challenges[id], n - 1, s.now);
      MissReaches(s1, id);
      s' := Next(s1, Missed(id, s1.db.challenges[id].phone, s.now));
    }
  }

  /** A clear of the owner's lockout, where the cleared challenge is a latest one. */
  lemma ClearReaches(s: State, phone: string, pick: nat) returns (e: Entry)
    requires Reachable(s) && s.db.accounts == [Owner(phone)] && IsLatest(s.db.challenges, phone, pick)
    requires s.db.challenges[pick].IsLocked(s.now)
    ensures e == Cleared(pick, phone, 0, s.db.challenges[pick].sendsInWindow, "", 0, s.now)
    ensures InRange(s.db, e) && Reachable(Next(s, e))
  {
    e := Cleared(pick, phone, 0, s.db.challenges[pick].sendsInWindow, "", 0, s.now);
    CallReaches(s, Call.ClearLockout(s.now, "", 0, Some(pick), 0, {}), e);
  }

  lemma SigninConfirmReaches(s: State, phone: string, id: nat, token: string) returns (e: Entry)
    requires Reachable(s) && s.db.accounts == [Owner(phone)] && id < |s.db.challenges|
    requires !s.db.challenges[id].Dead(s.now) && s.db.challenges[id].codeHash == Bcrypt("")
    requires s.db.challenges[id].phone == phone && s.db.challenges[id].intent.Signin?
    requires FindByTokenHash(s.db.sessions, Sha256(token)).None?
    ensures e == Confirmed(id, phone, false, "", 0, token, s.now)
    ensures InRange(s.db, e) && Reachable(Next(s, e))
  {
    e := Confirmed(id, phone, false, "", 0, token, s.now);
    assert FindByPhone(s.db.accounts, phone) == Some(0);
    CallReaches(s, Confirm(s.now, id, "", token, {}), e);
  }

  /** The owner signs in with a live challenge. */
  lemma ConfirmStep(s: State, phone: string, id: nat, token: string) returns (s': State)
    requires Reachable(s) && s.db.accounts == [Owner(phone)] && id < |s.db.challenges|
    requires !s.db.challenges[id].Dead(s.now) && s.db.challenges[id].codeHash == Bcrypt("")
    requires s.db.challenges[id].phone == phone && s.db.challenges[id].intent.Signin?
    requires FindByTokenHash(s.db.sessions, Sha256(token)).None?
    ensures Reachable(s') && s'.now == s.now && s'.db.accounts == s.db.accounts
    ensures s'.db.challenges == s.db.challenges[id := s.db.challenges[id].(status := Verified)]
    ensures s'.db.sessions == s.db.sessions + [NewSession(0, token, s.now)]
    ensures Total(s'.history, SuccessesOn(id)) == Total(s.history, SuccessesOn(id)) + 1
  {
    var e := SigninConfirmReaches(s, phone, id, token);
    s' := Next(s, e);
  }

  // --- What the runs show ---

  /** Five wrong guesses on the older of two codes lock it, the latest challenge is not locked, and every clear of the
      account answers that there is nothing to lift and lifts nothing. */
  lemma OlderLockIsHidden(d: string) returns (s: State)
    requires Subscriber(d)
    ensures Reachable(s) && |s.db.challenges| == 3 && s.db.accounts == [Owner("+20" + d)]
    ensures StrictlyLatest(s.db.challenges, "+20" + d, 2) && !s.db.challenges[2].Dead(s.now)
    ensures s.db.challenges[1].phone == "+20" + d && s.db.challenges[1].IsLocked(s.now)
    ensures forall c: Call | LatestTheorems.CleanClear(s.db, c, 0, s.now) ::
              DecideClear(s.db, c).reply == LockoutCleared(false) && Effect(s.db, DecideClear(s.db, c).entry) == s.db
  {
    var phone := "+20" + d;
    CanonicalFixed(d);
    RowsAre(phone, 2, 0);
    var s0 := SignsIn(phone, 2);
    s := Guesses(s0, 1, 5);
    AfterGuessesIs(s0.db.challenges[1], 5, s0.now);
    forall c: Call | LatestTheorems.CleanClear(s.db, c, 0, s.now)
      ensures DecideClear(s.db, c).reply == LockoutCleared(false) && Effect(s.db, DecideClear(s.db, c).entry) == s.db
    {
      LatestTheorems.OlderLockUnseen(s.db, c, 0, 2);
    }
  }

  /** Two signin requests, then five wrong guesses on the later challenge. */
  lemma LocksLatest(phone: string) returns (s: State)
    requires Canonical(phone) == Some(phone)
    ensures Reachable(s) && s.now == 120 && |s.db.challenges| == 3 && s.db.accounts == [Owner(phone)]
    ensures StrictlyLatest(s.db.challenges, phone, 2) && s.db.challenges[1] == SigninRow(phone, 1)
    ensures s.db.challenges[2] == AfterGuesses(SigninRow(phone, 2), 5, 120)
  {
    RowsAre(phone, 2, 0);
    var s0 := SignsIn(phone, 2);
    s := Guesses(s0, 2, 5);
    AfterGuessesIs(s0.db.challenges[2], 5, s0.now);
  }

  /** The latest challenge is locked by wrong guesses, and the older one still takes guesses and resends. */
  lemma LatestLockLeaks(d: string) returns (s: State)
    requires Subscriber(d)
    ensures Reachable(s) && |s.db.challenges| == 3 && s.db.accounts == [Owner("+20" + d)]
    ensures StrictlyLatest(s.db.challenges, "+20" + d, 2) && s.db.challenges[2].IsLocked(s.now)
    ensures !LockoutTheorems.Silent(s, "+20" + d, s.db.challenges[2].lockedUntil.value)
    ensures !LockoutTheorems.Undelivered(s, "+20" + d, s.db.challenges[2].lockedUntil.value)
    ensures s.db.challenges[2].expiresAt > s.now && Total(s.history, MissesOn(2)) == 5
  {
    var phone := "+20" + d;
    CanonicalFixed(d);
    s := LocksLatest(phone);
    AfterGuessesIs(SigninRow(phone, 2), 5, 120);
    var until := s.db.challenges[2].lockedUntil.value;
    assert Total(s.history, MissesOn(2)) == 5 by {
      LockoutTheorems.GuessesBounded(s, 2);
    }
    assert !LockoutTheorems.OthersDead(s.db.challenges, phone, 2, s.now) by {
      assert !s.db.challenges[1].Dead(s.now);
    }
    assert !LockoutTheorems.OthersSpent(s.db.challenges, phone, 2, s.now) by {
      assert !LockoutTheorems.Spent(s.db.challenges[1], s.now);
    }
    LockoutTheorems.LockSilencesPhone(s, phone, 2, until);
    LockoutTheorems.LockMutesPhone(s, phone, 2, until);
  }

  /** After a clear of that lock the challenge takes guesses again, and the first wrong one locks it. */
  lemma OneGuessAfterClear(d: string) returns (s: State)
    requires Subscriber(d)
    ensures Reachable(s) && ClearTheorems.AsCleared(s.history, "+20" + d, 2)
    ensures |s.db.challenges| == 3 && !s.db.challenges[2].Dead(s.now)
    ensures forall c: Call |
              c.Confirm? && c.id == 2 && c.fails == {} && c.now == s.now && Bcrypt(c.code) != s.db.challenges[2].codeHash ::
              DecideConfirm(s.db, c).reply == Failed(LockedOut(c.now + LOCKOUT_DURATION))
  {
    var s0 := LatestLockLeaks(d);
    s := ClearStep(s0, "+20" + d, 2);
    forall c: Call |
      c.Confirm? && c.id == 2 && c.fails == {} && c.now == s.now && Bcrypt(c.code) != s.db.challenges[2].codeHash
      ensures DecideConfirm(s.db, c).reply == Failed(LockedOut(c.now + LOCKOUT_DURATION))
    {
      ClearTheorems.FirstGuessAfterClearLocks(s, c);
    }
  }

  lemma ResendStep(s: State, id: nat, phone: string, now: int) returns (s': State)
    requires Reachable(s) && s.now <= now && id < |s.db.challenges| && MayResend(s.db.challenges[id], phone, now)
    ensures Reachable(s') && s'.now == now
    ensures s'.db == s.db.(challenges := s.db.challenges[id := s.db.challenges[id].AfterSend("", now)])
    ensures s'.history == Then(s.history, Resent(id, phone, "", now))
    ensures forall since: int | since <= s.db.challenges[id].sentAt && since <= now ::
              CountSendsSince(s'.db.challenges, phone, since) == CountSendsSince(s.db.challenges, phone, since) + 1
  {
    Tightness.ResendReaches(s, id, phone, now);
    s' := Next(s, Resent(id, phone, "", now));
    forall since: int | since <= s.db.challenges[id].sentAt && since <= now
      ensures CountSendsSince(s'.db.challenges, phone, since) == CountSendsSince(s.db.challenges, phone, since) + 1
    {
      SumUpdate(s.db.challenges, id, s.db.challenges[id].AfterSend("", now), Sends(phone, since));
    }
  }

  /** A signin request over the cap locks the latest challenge. */
  lemma CapStep(s: State, phone: string, pick: nat, now: int) returns (s': State)
    requires Reachable(s) && s.now <= now && Canonical(phone) == Some(phone) && s.db.accounts == [Owner(phone)]
    requires IsLatest(s.db.challenges, phone, pick) && s.db.challenges[pick].lockedUntil.None?
    requires s.db.challenges[pick].ResendReady(now)
    requires CountSendsSince(s.db.challenges, phone, now - SEND_CAP_WINDOW) >= MAX_SENDS_PER_WINDOW
    ensures Reachable(s') && s'.now == now && s'.history == Then(s.history, CapLocked(pick, phone, now))
    ensures s'.db == s.db.(challenges := s.db.challenges[pick := s.db.challenges[pick].AfterLock(now)])
  {
    var e := SigninReaches(s, phone, pick, now);
    s' := Next(s, e);
  }

  lemma ClearStep(s: State, phone: string, pick: nat) returns (s': State)
    requires Reachable(s) && s.db.accounts == [Owner(phone)] && IsLatest(s.db.challenges, phone, pick)
    requires s.db.challenges[pick].IsLocked(s.now)
    ensures Reachable(s') && s'.now == s.now && ClearTheorems.AsCleared(s'.history, phone, pick)
    ensures s'.db.accounts == s.db.accounts && s'.db.sessions == s.db.sessions
    ensures s'.db.challenges == s.db.challenges[pick := s.db.challenges[pick].AfterClear()]
    ensures s'.history.Then? && s'.history.past == s.history && s'.history.last.Cleared?
  {
    var e := ClearReaches(s, phone, pick);
    s' := Next(s, e);
  }

  /** The owner's phone is locked by the cap and cleared at `now`. */
  lemma LockedAndCleared(s: State, phone: string, pick: nat, now: int) returns (s': State)
    requires Reachable(s) && s.now <= now && Canonical(phone) == Some(phone) && s.db.accounts == [Owner(phone)]
    requires StrictlyLatest(s.db.challenges, phone, pick) && s.db.challenges[pick].lockedUntil.None?
    requires s.db.challenges[pick].ResendReady(now)
    requires CountSendsSince(s.db.challenges, phone, now - SEND_CAP_WINDOW) >= MAX_SENDS_PER_WINDOW
    ensures Reachable(s') && s'.now == now && ClearTheorems.AsCleared(s'.history, phone, pick)
    ensures s'.db.accounts == s.db.accounts && s'.db.sessions == s.db.sessions
    ensures s'.db.challenges == s.db.challenges[pick := s.db.challenges[pick].AfterClear()]
    ensures Total(s'.history, SuccessesOn(pick)) == Total(s.history, SuccessesOn(pick))
  {
    var rows := s.db.challenges;
    LatestKept(rows, phone, pick, rows[pick]);
    LatestKept(rows, phone, pick, rows[pick].AfterLock(now));
    assert rows[pick := rows[pick]] == rows;
    var s1 := CapStep(s, phone, pick, now);
    s' := ClearStep(s1, phone, pick);
    ClearUndoesLock(rows, pick, now);
  }

  lemma ClearUndoesLock(rows: seq<Challenge>, pick: nat, now: int)
    requires pick < |rows|
    ensures var locked := rows[pick := rows[pick].AfterLock(now)];
            locked[pick := locked[pick].AfterClear()] == rows[pick := rows[pick].AfterClear()]
  {
    assert rows[pick].AfterLock(now).AfterClear() == rows[pick].AfterClear();
  }

  lemma LatestKept(rows: seq<Challenge>, phone: string, pick: nat, row: Challenge)
    requires StrictlyLatest(rows, phone, pick) && row.phone == phone && row.sentAt == rows[pick].sentAt
    ensures IsLatest(rows[pick := row], phone, pick)
  {
  }

  /** Four signin requests, then a resend of the first two signin challenges. */
  lemma TwoResends(phone: string) returns (s: State)
    requires Canonical(phone) == Some(phone)
    ensures Reachable(s) && s.now == 360 && s.db.accounts == [Owner(phone)]
    ensures |s.db.challenges| == 5 && StrictlyLatest(s.db.challenges, phone, 2)
    ensures var row := s.db.challenges[2]; row.lockedUntil.None? && row.sentAt == 360 && row.sendsInWindow == 2
    ensures CountSendsSince(s.db.challenges, phone, 420 - SEND_CAP_WINDOW) == 7
  {
    var s1 := OneResend(phone);
    assert MayResend(SigninRow(phone, 2), phone, 360);
    s := ResendStep(s1, 2, phone, 360);
    LatestOfFive(s.db.challenges, phone);
  }

  lemma LatestOfFive(rows: seq<Challenge>, phone: string)
    requires |rows| == 5 && rows[2].phone == phone
    requires rows[0].sentAt < rows[2].sentAt && rows[1].sentAt < rows[2].sentAt
    requires rows[3].sentAt < rows[2].sentAt && rows[4].sentAt < rows[2].sentAt
    ensures StrictlyLatest(rows, phone, 2)
  {
  }

  lemma OneResend(phone: string) returns (s: State)
    requires Canonical(phone) == Some(phone)
    ensures Reachable(s) && s.now == 300 && s.db.accounts == [Owner(phone)] && |s.db.challenges| == 5
    ensures s.db.challenges[1] == SigninRow(phone, 1).AfterSend("", 300)
    ensures s.db.challenges[0].sentAt == 0 && s.db.challenges[2] == SigninRow(phone, 2)
    ensures s.db.challenges[3] == SigninRow(phone, 3) && s.db.challenges[4] == SigninRow(phone, 4)
    ensures CountSendsSince(s.db.challenges, phone, 420 - SEND_CAP_WINDOW) == 6
  {
    RowsAre(phone, 4, 420 - SEND_CAP_WINDOW);
    var s0 := SignsIn(phone, 4);
    s := ResendStep(s0, 1, phone, 300);
  }

  /** A clear that does not help: two older challenges were resent, the newest one sent is cleared, and five sends
      still count on the others. */
  lemma FiveSendsBesideCleared(d: string) returns (s: State)
    requires Subscriber(d)
    ensures Reachable(s) && ClearTheorems.AsCleared(s.history, "+20" + d, 2)
    ensures |s.db.challenges| == 5 && StrictlyLatest(s.db.challenges, "+20" + d, 2)
    ensures s.db.challenges[2].ResendReady(s.now)
    ensures ClearTheorems.OtherSends(s.db.challenges, 2, "+20" + d, s.now - SEND_CAP_WINDOW) == 5
    ensures CanRetry(s, "+20" + d)
  {
    var phone, since := "+20" + d, 420 - SEND_CAP_WINDOW;
    CanonicalFixed(d);
    var s1 := TwoResends(phone);
    s := LockedAndCleared(s1, phone, 2, 420);
    SumUpdate(s1.db.challenges, 2, s1.db.challenges[2].AfterClear(), Sends(phone, since));
    ClearTheorems.OnlyOthersCount(s.db.challenges, 2, phone, since);
    assert CanRetry(s, phone) by {
      assert IsLatest(s.db.challenges, phone, 2);
      CleanRetry(s, phone, 2);
    }
  }

  /** The owner of the phone can ask for a code right now. */
  ghost predicate CanRetry(s: State, phone: string) {
    exists retry: Call :: Legal(s, retry) && ClearTheorems.CleanSignin(retry, phone) && retry.now == s.now
  }

  lemma CleanRetry(s: State, phone: string, pick: nat)
    requires Canonical(phone) == Some(phone) && IsLatest(s.db.challenges, phone, pick)
    ensures CanRetry(s, phone)
  {
    var c := Request(s.now, Signin, phone, "", "", None, Some(pick), "", true, {});
    assert LatestOk(s.db.challenges, phone, c.pick);
    assert Legal(s, c) && ClearTheorems.CleanSignin(c, phone) && c.now == s.now;
  }

  /** Every request the owner can make right now is refused. */
  ghost predicate AllRefused(s: State, phone: string) {
    forall retry: Call | PicksOk(s.db, retry) && ClearTheorems.CleanSignin(retry, phone) && retry.now == s.now ::
      !DecideRequest(s.key, s.db, retry).reply.Challenged?
  }

  lemma FiveOthersRefuse(s: State, phone: string, l: nat)
    requires Reachable(s) && ClearTheorems.AsCleared(s.history, phone, l) && l < |s.db.challenges|
    requires s.db.challenges[l].ResendReady(s.now)
    requires ClearTheorems.OtherSends(s.db.challenges, l, phone, s.now - SEND_CAP_WINDOW) >= MAX_SENDS_PER_WINDOW
    ensures AllRefused(s, phone)
  {
    forall retry: Call | PicksOk(s.db, retry) && ClearTheorems.CleanSignin(retry, phone) && retry.now == s.now
      ensures !DecideRequest(s.key, s.db, retry).reply.Challenged?
    {
      OneRefused(s, phone, l, retry);
    }
  }

  lemma OneRefused(s: State, phone: string, l: nat, retry: Call)
    requires Reachable(s) && ClearTheorems.AsCleared(s.history, phone, l) && l < |s.db.challenges|
    requires s.db.challenges[l].ResendReady(s.now) && retry.now == s.now
    requires ClearTheorems.OtherSends(s.db.challenges, l, phone, s.now - SEND_CAP_WINDOW) >= MAX_SENDS_PER_WINDOW
    requires PicksOk(s.db, retry) && ClearTheorems.CleanSignin(retry, phone)
    ensures !DecideRequest(s.key, s.db, retry).reply.Challenged?
  {
    ClearTheorems.ClearUnsticksIff(s, retry, phone, l);
  }

  /** So right after the clear, and past the cooldown, the owner's requests are all refused. */
  lemma ClearDoesNotUnstick(d: string) returns (s: State)
    requires Subscriber(d)
    ensures Reachable(s) && ClearTheorems.AsCleared(s.history, "+20" + d, 2)
    ensures |s.db.challenges| == 5 && s.db.challenges[2].ResendReady(s.now)
    ensures CanRetry(s, "+20" + d) && AllRefused(s, "+20" + d)
  {
    s := FiveSendsBesideCleared(d);
    FiveOthersRefuse(s, "+20" + d, 2);
  }

  /** The fourth signin challenge, opened at minute four, is confirmed. */
  lemma ConfirmsFourth(phone: string) returns (s: State)
    requires Canonical(phone) == Some(phone)
    ensures Reachable(s) && s.now == 240 && s.db.accounts == [Owner(phone)]
    ensures |s.db.challenges| == 5 && s.db.challenges[4] == SigninRow(phone, 4).(status := Verified)
    ensures StrictlyLatest(s.db.challenges, phone, 4)
    ensures s.db.sessions == [NewSession(0, "", 0), NewSession(0, "a", 240)]
    ensures CountSendsSince(s.db.challenges, phone, 300 - SEND_CAP_WINDOW) == 5
    ensures Total(s.history, SuccessesOn(4)) >= 1
  {
    RowsAre(phone, 4, 300 - SEND_CAP_WINDOW);
    var s0 := SignsIn(phone, 4);
    s := ConfirmStep(s0, phone, 4, "a");
    SumUpdate(s0.db.challenges, 4, s.db.challenges[4], Sends(phone, 300 - SEND_CAP_WINDOW));
  }

  /** The consumed challenge is locked by the cap and cleared, which leaves it pending with the same code. */
  lemma ConsumedThenCleared(phone: string) returns (s: State)
    requires Canonical(phone) == Some(phone)
    ensures Reachable(s) && s.now == 300 && s.db.accounts == [Owner(phone)]
    ensures |s.db.challenges| == 5 && s.db.challenges[4] == SigninRow(phone, 4).(sendsInWindow := 0)
    ensures s.db.sessions == [NewSession(0, "", 0), NewSession(0, "a", 240)]
    ensures Total(s.history, SuccessesOn(4)) >= 1
  {
    var s1 := ConfirmsFourth(phone);
    s := LockedAndCleared(s1, phone, 4, 300);
  }

  /** One code signs in twice: the consumed challenge is locked by the cap, cleared, and confirmed again. */
  lemma CodeConsumedTwice(d: string) returns (s: State)
    requires Subscriber(d)
    ensures Reachable(s) && Total(s.history, SuccessesOn(4)) >= 2
    ensures s.db.sessions == [NewSession(0, "", 0), NewSession(0, "a", 240), NewSession(0, "b", 300)]
    ensures CodeOn(s.history, 4) == Some(Code("", "+20" + d, 240))
  {
    var phone := "+20" + d;
    CanonicalFixed(d);
    var s1 := ConsumedThenCleared(phone);
    s := ConfirmStep(s1, phone, 4, "b");
    RecordedCode(s, 4);
  }

  /** A challenge's row holds its last recorded code. */
  lemma RecordedCode(s: State, id: nat)
    requires Reachable(s) && id < |s.db.challenges|
    ensures var row := s.db.challenges[id]; CodeOn(s.history, id) == Some(Code(row.codeHash.code, row.phone, row.sentAt))
  {
    ReachableStates.ReachableInv(s);
    assert Invariants.Tally(s.history, s.db.challenges, id);
  }

  /** Two challenges resent at one instant, one of them locked: the account list may show the lockout while a clear
      reports none, or the reverse. */
  lemma FlagAndClearDisagree(d: string) returns (s: State)
    requires Subscriber(d)
    ensures Reachable(s) && s.db.accounts == [Owner("+20" + d)]
    ensures !LatestTheorems.FlagIsTheClears(s.db, 0, s.now)
    ensures Listing.LockedAt(s.db.challenges, "+20" + d, s.now, true)
    ensures Listing.LockedAt(s.db.challenges, "+20" + d, s.now, false)
  {
    var phone := "+20" + d;
    CanonicalFixed(d);
    RowsAre(phone, 2, 0);
    var s0 := SignsIn(phone, 2);
    var s1 := ResendStep(s0, 1, phone, 180);
    var s2 := ResendStep(s1, 2, phone, 180);
    s := Guesses(s2, 1, 5);
    AfterGuessesIs(s2.db.challenges[1], 5, s2.now);
    var rows := s.db.challenges;
    assert IsLatest(rows, phone, 1) && rows[1].IsLocked(s.now);
    assert IsLatest(rows, phone, 2) && !rows[2].IsLocked(s.now);
    LatestTheorems.FlagAgreesIff(s.db, 0, s.now);
  }

  /** A wrong guess that the store fails to record. */
  lemma SlipStep(s: State, id: nat) returns (s': State)
    requires Reachable(s) && id < |s.db.challenges| && !s.db.challenges[id].Dead(s.now)
    ensures Reachable(s') && s'.db == s.db && s'.now == s.now
    ensures s'.history == Then(s.history, Slipped(id, s.db.challenges[id].phone, s.now))
  {
    var row := s.db.challenges[id];
    var wrong := row.codeHash.code + "x";
    assert |wrong| != |row.codeHash.code|;
    CallReaches(s, Confirm(s.now, id, wrong, "", {UpdateChallengeOp}), Slipped(id, row.phone, s.now));
    s' := Next(s, Slipped(id, row.phone, s.now));
  }

  lemma {:induction false} Slips(s: State, id: nat, n: nat) returns (s': State)
    requires Reachable(s) && id < |s.db.challenges| && !s.db.challenges[id].Dead(s.now)
    ensures Reachable(s') && s'.db == s.db && s'.now == s.now
    ensures Total(s'.history, GuessesOn(id)) == Total(s.history, GuessesOn(id)) + n
    ensures Total(s'.history, ClearsOn(id)) == Total(s.history, ClearsOn(id))
  {
    s' := s;
    if n > 0 {
      var s1 := Slips(s, id, n - 1);
      s' := SlipStep(s1, id);
    }
  }

  lemma NothingGuessed(h: History, row: Challenge)
    requires h == Then(Start, Opened(0, row, None, 0))
    ensures Total(h, GuessesOn(0)) == Total(h, ClearsOn(0)) == 0
  {
  }

  /** A store that fails to record guesses lets any number of them be compared, with no clear. */
  lemma UnrecordedGuesses(d: string, n: nat) returns (s: State)
    requires Subscriber(d)
    ensures Reachable(s) && |s.db.challenges| == 1 && !s.db.challenges[0].Dead(s.now)
    ensures Total(s.history, GuessesOn(0)) == n && Total(s.history, ClearsOn(0)) == 0
  {
    var phone := "+20" + d;
    CanonicalFixed(d);
    var s0 := Asks(phone);
    NothingGuessed(s0.history, s0.db.challenges[0]);
    s := Slips(s0, 0, n);
  }

  // --- A lock that comes early ---

  lemma {:induction false} NothingDeliveredSince(h: History, phone: string, now: int, since: int)
    requires EndsBy(h, now) && now < since
    ensures Total(h, Deliveries(phone, since)) == Total(h, Recorded(phone, since)) == 0
  {
    if h.Then? {
      NothingDeliveredSince(h.past, phone, now, since);
    }
  }

  /** A delivery after an empty stretch is the first of any window that starts in it. */
  lemma FirstDelivery(h: History, e: Entry, phone: string, now: int, since: int)
    requires EndsBy(h, now) && now < since <= e.at && e.Resent? && e.phone == phone
    ensures Total(Then(h, e), Deliveries(phone, since)) == 1
  {
    NothingDeliveredSince(h, phone, now, since);
  }

  /** The signin challenge of minute one, resent `k` times, each time as its code expires. */
  function SlowRow(phone: string, k: nat): Challenge {
    SigninRow(phone, 1).(sentAt := 60 + 600 * k, expiresAt := 660 + 600 * k, sendsInWindow := k + 1)
  }

  ghost predicate SlowlyResent(s: State, phone: string, k: nat) {
    && Reachable(s) && s.now == 60 + 600 * k && s.db.accounts == [Owner(phone)]
    && |Rows(phone, 1)| == 2 && s.db.challenges == Rows(phone, 1)[1 := SlowRow(phone, k)]
    && Total(s.history, Recorded(phone, 61)) == k
    && (k > 0 ==> Total(s.history, Deliveries(phone, s.now)) == 1)
  }

  lemma SlowStart(phone: string) returns (s: State)
    requires Canonical(phone) == Some(phone)
    ensures SlowlyResent(s, phone, 0)
  {
    RowsAre(phone, 1, 0);
    s := SignsIn(phone, 1);
    Past(s);
    NothingDeliveredSince(s.history, phone, 60, 61);
  }

  lemma {:induction false} SlowResends(phone: string, k: nat) returns (s: State)
    requires Canonical(phone) == Some(phone) && k <= 4
    ensures SlowlyResent(s, phone, k)
  {
    if k == 0 {
      s := SlowStart(phone);
    } else {
      var s0 := SlowResends(phone, k - 1);
      s := SlowResend(s0, phone, k - 1);
    }
  }

  lemma SlowResend(s: State, phone: string, k: nat) returns (s': State)
    requires SlowlyResent(s, phone, k) && k < 4
    ensures SlowlyResent(s', phone, k + 1)
  {
    s' := ResendStep(s, 1, phone, 660 + 600 * k);
    Past(s);
    FirstDelivery(s.history, s'.history.last, phone, s.now, s'.now);
  }

  lemma Past(s: State)
    requires Reachable(s)
    ensures EndsBy(s.history, s.now)
  {
    ReachableStates.ReachableInv(s);
  }

  lemma SlowSum(phone: string, row: Challenge)
    requires row.phone == phone && row.sentAt == 2460 && row.sendsInWindow == 5
    ensures |Rows(phone, 1)| == 2 && CountSendsSince(Rows(phone, 1)[1 := row], phone, 2460) == 5
  {
    RowsAre(phone, 1, 0);
    NoRowsNoSum(Rows(phone, 1), Sends(phone, 2460));
    SumUpdate(Rows(phone, 1), 1, row, Sends(phone, 2460));
  }

  /** The cap locks a phone to which one code went in the last 30 minutes: the window sum counts a challenge with all
      its sends, 70 minutes back. One second less than that, and only four sends are left. */
  lemma CapLocksEarly(d: string) returns (s: State)
    requires Subscriber(d)
    ensures Reachable(s) && s.history.Then? && s.history.last == CapLocked(1, "+20" + d, 4260)
    ensures Total(s.history.past, Deliveries("+20" + d, 4260 - SEND_CAP_WINDOW)) == 1
    ensures Total(s.history.past, Recorded("+20" + d, 4260 - 70 * MINUTE + 1)) == 4
  {
    var phone := "+20" + d;
    CanonicalFixed(d);
    var s0 := SlowResends(phone, 4);
    SlowSum(phone, SlowRow(phone, 4));
    RowsAre(phone, 1, 0);
    s := CapStep(s0, phone, 1, 4260);
  }

  // --- Accounts created at one instant ---

  /** A signup challenge is confirmed by the first of its phone. */
  lemma SignupConfirmStep(s: State, id: nat, phone: string, token: string) returns (s': State)
    requires Reachable(s) && id < |s.db.challenges|
    requires s.db.challenges[id] == NewChallenge(phone, Signup, "", "", None, "", s.now)
    requires FindByPhone(s.db.accounts, phone).None? && FindByTokenHash(s.db.sessions, Sha256(token)).None?
    ensures Reachable(s') && s'.now == s.now
    ensures s'.db.accounts == s.db.accounts + [Account("", phone, None, "", s.now)]
    ensures s'.db.challenges == s.db.challenges[id := s.db.challenges[id].(status := Verified)]
    ensures s'.db.sessions == s.db.sessions + [NewSession(|s.db.accounts|, token, s.now)]
  {
    var e := Confirmed(id, phone, true, "", |s.db.accounts|, token, s.now);
    CallReaches(s, Confirm(s.now, id, "", token, {}), e);
    s' := Next(s, e);
  }

  lemma NoneReady(rows: seq<Challenge>, phone: string, now: int)
    requires forall i | 0 <= i < |rows| :: rows[i].phone != phone
    ensures Tightness.RequestReady(rows, phone, None, now)
  {
    NoRowsNoSum(rows, Sends(phone, now - SEND_CAP_WINDOW));
  }

  lemma AsksToo(s: State, phone: string) returns (s': State)
    requires Reachable(s) && s.db.accounts == [] && Canonical(phone) == Some(phone)
    requires forall i | 0 <= i < |s.db.challenges| :: s.db.challenges[i].phone != phone
    ensures Reachable(s') && s'.now == s.now
    ensures s'.db == s.db.(challenges := s.db.challenges + [NewChallenge(phone, Signup, "", "", None, "", s.now)])
  {
    NoneReady(s.db.challenges, phone, s.now);
    s' := Tightness.RequestStep(s, phone, phone, None, s.now);
  }

  lemma TwoRequests(phone: string, other: string) returns (s: State)
    requires Canonical(phone) == Some(phone) && Canonical(other) == Some(other) && phone != other
    ensures Reachable(s) && s.now == 0
    ensures s.db == Db([], [NewChallenge(phone, Signup, "", "", None, "", 0),
                            NewChallenge(other, Signup, "", "", None, "", 0)], [], [])
  {
    var s1 := Asks(phone);
    s := AsksToo(s1, other);
  }

  lemma TwoSignups(phone: string, other: string) returns (s: State)
    requires Canonical(phone) == Some(phone) && Canonical(other) == Some(other) && phone != other
    ensures Reachable(s) && s.db.accounts == [Owner(phone), Owner(other)]
  {
    var s1 := TwoRequests(phone, other);
    var s2 := SignupConfirmStep(s1, 0, phone, "a");
    s := SecondSignup(s2, phone, other);
  }

  lemma SecondSignup(s: State, phone: string, other: string) returns (s': State)
    requires Reachable(s) && s.now == 0 && phone != other
    requires s.db.accounts == [Owner(phone)] && s.db.sessions == [NewSession(0, "a", 0)]
    requires |s.db.challenges| == 2 && s.db.challenges[1] == NewChallenge(other, Signup, "", "", None, "", 0)
    ensures Reachable(s') && s'.db.accounts == [Owner(phone), Owner(other)]
  {
    assert FindByPhone(s.db.accounts, other).None?;
    assert FindByTokenHash(s.db.sessions, Sha256("b")).None?;
    s' := SignupConfirmStep(s, 1, other, "b");
  }

  lemma TiedPages(accounts: seq<Account>, phone: string, other: string)
    requires accounts == [Owner(phone), Owner(other)]
    ensures !Paging.PagesJoin(accounts, "")
  {
    forall k | 0 <= k < 2
      ensures Like.Contains(accounts[k].phone, "")
    {
      assert "" <= accounts[k].phone[0..];
    }
    assert !Paging.DistinctTimes(accounts, "") by {
      assert accounts[0].createdAt == accounts[1].createdAt;
    }
    Paging.PagesJoinIff(accounts, "");
  }

  /** Two accounts created in one instant: consecutive pages of the list may repeat one and miss the other. */
  lemma PagesMayRepeat(d: string, other: string) returns (s: State)
    requires Subscriber(d) && Subscriber(other) && d != other
    ensures Reachable(s) && s.db.accounts == [Owner("+20" + d), Owner("+20" + other)]
    ensures !Paging.PagesJoin(s.db.accounts, "")
  {
    var phone, phone' := "+20" + d, "+20" + other;
    assert Canonical(phone) == Some(phone) && Canonical(phone') == Some(phone') by {
      CanonicalFixed(d);
      CanonicalFixed(other);
    }
    assert phone[3..] == d && phone'[3..] == other;
    s := TwoSignups(phone, phone');
    TiedPages(s.db.accounts, phone, phone');
  }
}
