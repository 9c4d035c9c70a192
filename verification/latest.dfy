/** When the latest challenge of a phone tells the whole story: its lock, and the order of its challenges. */
module LatestTheorems {
  import opened Domain
  import opened Storage
  import opened Protocol
  import opened History
  import opened Runs
  import opened Invariants
  import opened Phones
  import opened Records
  import opened ReachableStates
  import Listing

  // --- The only row that can hold a current lock ---

  /** Only the one most recently sent challenge of the phone is locked, if any is. */
  ghost predicate OnlyLatestLocked(rows: seq<Challenge>, phone: string, at: int) {
    forall i | 0 <= i < |rows| && rows[i].phone == phone && rows[i].IsLocked(at) :: StrictlyLatest(rows, phone, i)
  }

  /** The entry locks a challenge of the phone. */
  predicate Locks(rows: seq<Challenge>, e: Entry, phone: string) {
    && (e.CapLocked? || e.Missed?) && e.phone == phone && e.id < |rows|
    && (e.Missed? ==> rows[e.id].failedAttempts + 1 >= MAX_FAILED_ATTEMPTS)
  }

  /** The entry locks a challenge that is not the one most recently sent, or resends one beside a locked one. */
  ghost predicate LocksOlder(rows: seq<Challenge>, e: Entry, phone: string) {
    || (Locks(rows, e, phone) && !StrictlyLatest(rows, phone, e.id))
    || (e.Resent? && e.phone == phone
        && exists j :: 0 <= j < |rows| && j != e.id && rows[j].phone == phone && rows[j].IsLocked(e.at))
  }

  lemma OpeningLocksNone(rows: seq<Challenge>, e: Entry, phone: string)
    requires e.Opened? && e.row.lockedUntil.None? && OnlyLatestLocked(rows, phone, e.at)
    requires e.row.phone == phone ==> PhoneOpen(rows, phone, e.at)
    ensures OnlyLatestLocked(rows + [e.row], phone, e.at)
  {
    var rows' := rows + [e.row];
    forall i | 0 <= i < |rows'| && rows'[i].phone == phone && rows'[i].IsLocked(e.at)
      ensures StrictlyLatest(rows', phone, i)
    {
      assert StrictlyLatest(rows, phone, i);
    }
  }

  /** A changed row of another phone leaves the phone's locks alone. */
  lemma OtherPhoneKeepsLocks(rows: seq<Challenge>, i: nat, row: Challenge, phone: string, at: int)
    requires i < |rows| && row.phone == rows[i].phone != phone && OnlyLatestLocked(rows, phone, at)
    ensures OnlyLatestLocked(rows[i := row], phone, at)
  {
    var rows' := rows[i := row];
    forall j | 0 <= j < |rows'| && rows'[j].phone == phone && rows'[j].IsLocked(at)
      ensures StrictlyLatest(rows', phone, j)
    {
      assert StrictlyLatest(rows, phone, j);
    }
  }

  lemma RowChangeKeepsLocks(rows: seq<Challenge>, e: Entry, phone: string)
    requires ChangesRow(e) && e.id < |rows| && rows[e.id].phone == phone && RowGuard(rows[e.id], e)
    requires forall j | 0 <= j < |rows| :: rows[j].sentAt <= e.at
    requires OnlyLatestLocked(rows, phone, e.at)
    ensures OnlyLatestLocked(rows[e.id := RowAfter(rows[e.id], e)], phone, e.at) <==> !LocksOlder(rows, e, phone)
  {
    var rows' := rows[e.id := RowAfter(rows[e.id], e)];
    if LocksOlder(rows, e, phone) {
      if e.Resent? {
        var j :| 0 <= j < |rows| && j != e.id && rows[j].phone == phone && rows[j].IsLocked(e.at);
        assert rows'[j].IsLocked(e.at) && rows'[j].phone == phone;
        assert StrictlyLatest(rows, phone, j);
        assert rows'[e.id].sentAt == e.at;
        assert !StrictlyLatest(rows', phone, j);
      } else {
        assert rows'[e.id].IsLocked(e.at) && rows'[e.id].phone == phone;
        var j :| 0 <= j < |rows| && j != e.id && rows[j].phone == phone && rows[j].sentAt >= rows[e.id].sentAt;
        assert rows'[j] == rows[j];
      }
    } else {
      forall i | 0 <= i < |rows'| && rows'[i].phone == phone && rows'[i].IsLocked(e.at)
        ensures StrictlyLatest(rows', phone, i)
      {
        if i == e.id {
          assert Locks(rows, e, phone);
        } else {
          assert StrictlyLatest(rows, phone, i);
        }
      }
    }
  }

  /** Whether an entry leaves all of a phone's locks on its latest challenge shows before it is made. */
  lemma OnlyLatestStep(s: State, e: Entry, s': State, phone: string)
    requires Moves(s, e, s') && OnlyLatestLocked(s.db.challenges, phone, s.now)
    ensures OnlyLatestLocked(s'.db.challenges, phone, s'.now) <==> !LocksOlder(s.db.challenges, e, phone)
  {
    var rows := s.db.challenges;
    ChallengesOfEffect(s.db, e);
    assert OnlyLatestLocked(rows, phone, e.at);
    if e.Opened? {
      OpeningLocksNone(rows, e, phone);
    } else if ChangesRow(e) {
      assert forall j | 0 <= j < |rows| :: RowOk(rows[j], s.now);
      if e.phone == phone {
        RowChangeKeepsLocks(rows, e, phone);
      } else {
        RowChange(rows[e.id], e, s.now);
        OtherPhoneKeepsLocks(rows, e.id, RowAfter(rows[e.id], e), phone, e.at);
      }
    }
  }

  /** Up to its n-th state the run keeps the phone's locks on its latest challenge. */
  ghost predicate LatestHoldsLock(run: Run, n: nat, phone: string)
    requires n < |run.states|
  {
    forall i | 0 <= i <= n :: OnlyLatestLocked(run.states[i].db.challenges, phone, run.states[i].now)
  }

  /** None of the first n calls of the run locks an older challenge of the phone. */
  ghost predicate NeverLocksOlder(run: Run, n: nat, phone: string)
    requires run.Valid() && n < |run.states|
  {
    forall i | 0 <= i < n :: StepLatest(run.states[i], run.states[i + 1], phone)
  }

  ghost predicate StepLatest(s: State, s': State, phone: string) {
    s'.history.Then? && !LocksOlder(s.db.challenges, s'.history.last, phone)
  }

  lemma OnlyLatestMove(s: State, e: Entry, s': State, phone: string)
    requires Moves(s, e, s') && OnlyLatestLocked(s.db.challenges, phone, s.now)
    ensures OnlyLatestLocked(s'.db.challenges, phone, s'.now) <==> StepLatest(s, s', phone)
  {
    OnlyLatestStep(s, e, s', phone);
  }

  /** A phone's current locks are all on its latest challenge throughout a run if and only if no call of the run
      locks an older one, by wrong guesses or by its own cap, or resends one while another is locked. */
  lemma {:induction false} LatestHoldsLockIff(run: Run, n: nat, phone: string)
    requires run.Valid() && n < |run.states| && Inv(run.First())
    requires OnlyLatestLocked(run.First().db.challenges, phone, run.First().now)
    ensures LatestHoldsLock(run, n, phone) <==> NeverLocksOlder(run, n, phone)
  {
    if n > 0 {
      LatestHoldsLockIff(run, n - 1, phone);
      if LatestHoldsLock(run, n - 1, phone) {
        var e := RunMoves(run, n - 1);
        OnlyLatestMove(run.states[n - 1], e, run.states[n], phone);
      } else {
        assert !LatestHoldsLock(run, n, phone);
      }
    }
  }

  // --- What it means for an administrator's clear ---

  /** A clear of the account in which no step fails. */
  ghost predicate CleanClear(db: Db, c: Call, account: nat, at: int) {
    c.ClearLockout? && c.account == account && c.fails == {} && c.now == at && PicksOk(db, c)
  }

  predicate NoneLocked(rows: seq<Challenge>, phone: string, at: int) {
    forall i | 0 <= i < |rows| && rows[i].phone == phone :: !rows[i].IsLocked(at)
  }

  ghost predicate ClearUnlocks(db: Db, account: nat, at: int)
    requires account < |db.accounts|
  {
    forall c: Call | CleanClear(db, c, account, at) ::
      NoneLocked(Effect(db, DecideClear(db, c).entry).challenges, db.accounts[account].phone, at)
  }

  lemma ClearOf(db: Db, account: nat, at: int, pick: nat) returns (c: Call)
    requires account < |db.accounts| && IsLatest(db.challenges, db.accounts[account].phone, pick)
    ensures CleanClear(db, c, account, at) && c.pick == Some(pick)
  {
    c := Call.ClearLockout(at, "", account, Some(pick), 0, {});
  }

  /** Unless a challenge is the only most recently sent one, the database may pick another. */
  lemma PickBeside(rows: seq<Challenge>, phone: string, i: nat) returns (pick: nat)
    requires i < |rows| && rows[i].phone == phone && !StrictlyLatest(rows, phone, i)
    ensures IsLatest(rows, phone, pick) && pick != i
  {
    pick := if i == 0 then 1 else 0;
    var found := false;
    for k := 0 to |rows|
      invariant !found ==> forall j | 0 <= j < k && j != i :: rows[j].phone != phone
      invariant found ==> pick < k && pick != i && rows[pick].phone == phone
      invariant found ==> forall j | 0 <= j < k && j != i && rows[j].phone == phone :: rows[j].sentAt <= rows[pick].sentAt
    {
      if k != i && rows[k].phone == phone && (!found || rows[pick].sentAt <= rows[k].sentAt) {
        pick, found := k, true;
      }
    }
  }

  /** Every clear of an account leaves its phone without a lock if and only if only the phone's latest challenge is
      locked: otherwise some clear answers, or may answer, without lifting an older lock. */
  lemma ClearLiftsEveryLock(db: Db, account: nat, at: int)
    requires account < |db.accounts|
    ensures ClearUnlocks(db, account, at) <==> OnlyLatestLocked(db.challenges, db.accounts[account].phone, at)
  {
    var rows, phone := db.challenges, db.accounts[account].phone;
    if OnlyLatestLocked(rows, phone, at) {
      forall c: Call | CleanClear(db, c, account, at)
        ensures NoneLocked(Effect(db, DecideClear(db, c).entry).challenges, phone, at)
      {
        forall i | 0 <= i < |rows| && rows[i].phone == phone && rows[i].IsLocked(at)
          ensures c.pick == Some(i)
        {
          assert StrictlyLatest(rows, phone, i);
        }
      }
    } else {
      var i :| 0 <= i < |rows| && rows[i].phone == phone && rows[i].IsLocked(at) && !StrictlyLatest(rows, phone, i);
      var pick := PickBeside(rows, phone, i);
      var c := ClearOf(db, account, at, pick);
      assert Effect(db, DecideClear(db, c).entry).challenges[i] == rows[i];
    }
  }

  /** Then a clear reports success exactly when the phone is locked; without it a clear may report that there is
      nothing to lift. */
  lemma ClearReportsTheLock(db: Db, c: Call, account: nat)
    requires account < |db.accounts| && CleanClear(db, c, account, c.now)
    requires OnlyLatestLocked(db.challenges, db.accounts[account].phone, c.now)
    ensures DecideClear(db, c).reply == LockoutCleared(!NoneLocked(db.challenges, db.accounts[account].phone, c.now))
  {
    var rows, phone := db.challenges, db.accounts[account].phone;
    forall i | 0 <= i < |rows| && rows[i].phone == phone && rows[i].IsLocked(c.now)
      ensures c.pick == Some(i)
    {
      assert StrictlyLatest(rows, phone, i);
    }
  }

  /** While the one most recently sent challenge is not locked, a clear reports that there is nothing to lift and
      changes nothing, whatever older challenges are locked. */
  lemma OlderLockUnseen(db: Db, c: Call, account: nat, l: nat)
    requires account < |db.accounts| && CleanClear(db, c, account, c.now)
    requires StrictlyLatest(db.challenges, db.accounts[account].phone, l) && !db.challenges[l].IsLocked(c.now)
    ensures DecideClear(db, c).reply == LockoutCleared(false) && Effect(db, DecideClear(db, c).entry) == db
  {
    assert db.challenges[l].phone == db.accounts[account].phone;
    assert c.pick == Some(l);
  }

  // --- Challenges sent at one instant ---

  ghost predicate DistinctSends(rows: seq<Challenge>, phone: string) {
    forall i, j | 0 <= i < j < |rows| && rows[i].phone == phone && rows[j].phone == phone ::
      rows[i].sentAt != rows[j].sentAt
  }

  /** The entry resends a challenge at the very instant another one of the phone was sent. */
  ghost predicate Ties(rows: seq<Challenge>, e: Entry, phone: string) {
    e.Resent? && e.phone == phone
    && exists j :: 0 <= j < |rows| && j != e.id && rows[j].phone == phone && rows[j].sentAt == e.at
  }

  lemma DistinctStep(s: State, e: Entry, s': State, phone: string)
    requires Moves(s, e, s') && DistinctSends(s.db.challenges, phone)
    ensures DistinctSends(s'.db.challenges, phone) <==> !Ties(s.db.challenges, e, phone)
  {
    var rows, rows' := s.db.challenges, s'.db.challenges;
    ChallengesOfEffect(s.db, e);
    if ChangesRow(e) {
      assert RowOk(rows[e.id], s.now);
      RowChange(rows[e.id], e, s.now);
      if Ties(rows, e, phone) {
        var j :| 0 <= j < |rows| && j != e.id && rows[j].phone == phone && rows[j].sentAt == e.at;
        assert rows'[j].sentAt == rows'[e.id].sentAt;
      }
    }
  }

  ghost predicate StepDistinct(s: State, s': State, phone: string) {
    s'.history.Then? && !Ties(s.db.challenges, s'.history.last, phone)
  }

  lemma DistinctMove(s: State, e: Entry, s': State, phone: string)
    requires Moves(s, e, s') && DistinctSends(s.db.challenges, phone)
    ensures DistinctSends(s'.db.challenges, phone) <==> StepDistinct(s, s', phone)
  {
    DistinctStep(s, e, s', phone);
  }

  ghost predicate DistinctThroughout(run: Run, n: nat, phone: string)
    requires n < |run.states|
  {
    forall i | 0 <= i <= n :: DistinctSends(run.states[i].db.challenges, phone)
  }

  ghost predicate NeverTies(run: Run, n: nat, phone: string)
    requires run.Valid() && n < |run.states|
  {
    forall i | 0 <= i < n :: StepDistinct(run.states[i], run.states[i + 1], phone)
  }

  /** A phone's challenges are never sent at one instant throughout a run if and only if no call resends one at the
      instant another was sent: the cooldown keeps requests apart, nothing keeps resends apart. */
  lemma {:induction false} DistinctThroughoutIff(run: Run, n: nat, phone: string)
    requires run.Valid() && n < |run.states| && Inv(run.First()) && DistinctSends(run.First().db.challenges, phone)
    ensures DistinctThroughout(run, n, phone) <==> NeverTies(run, n, phone)
  {
    if n > 0 {
      DistinctThroughoutIff(run, n - 1, phone);
      if DistinctThroughout(run, n - 1, phone) {
        var e := RunMoves(run, n - 1);
        DistinctMove(run.states[n - 1], e, run.states[n], phone);
      } else {
        assert !DistinctThroughout(run, n, phone);
      }
    }
  }

  /** Whatever rows the two lookups settle on, the lockout flag the account list shows is what a clear reports. */
  ghost predicate FlagIsTheClears(db: Db, account: nat, at: int)
    requires account < |db.accounts|
  {
    forall c: Call, flag: bool |
      CleanClear(db, c, account, at) && Listing.LockedAt(db.challenges, db.accounts[account].phone, at, flag) ::
      DecideClear(db, c).reply == LockoutCleared(flag)
  }

  /** The list's flag and a clear's report agree if and only if the challenges tied for latest are all locked or all
      not locked. */
  lemma FlagAgreesIff(db: Db, account: nat, at: int)
    requires account < |db.accounts|
    ensures var rows, phone := db.challenges, db.accounts[account].phone;
            FlagIsTheClears(db, account, at) <==>
              forall i: nat, j: nat :: IsLatest(rows, phone, i) && IsLatest(rows, phone, j) ==>
                rows[i].IsLocked(at) == rows[j].IsLocked(at)
  {
    var rows, phone := db.challenges, db.accounts[account].phone;
    if FlagIsTheClears(db, account, at) {
      forall i: nat, j: nat | IsLatest(rows, phone, i) && IsLatest(rows, phone, j)
        ensures rows[i].IsLocked(at) == rows[j].IsLocked(at)
      {
        var c := ClearOf(db, account, at, i);
        assert Listing.LockedAt(rows, phone, at, rows[j].IsLocked(at));
        assert DecideClear(db, c).reply == LockoutCleared(rows[i].IsLocked(at));
      }
    } else {
      var c, flag :| CleanClear(db, c, account, at) && Listing.LockedAt(rows, phone, at, flag)
                     && DecideClear(db, c).reply != LockoutCleared(flag);
      var j: nat :| IsLatest(rows, phone, j) && rows[j].IsLocked(at) == flag;
      assert rows[j].phone == phone;
      assert c.pick.Some? && IsLatest(rows, phone, c.pick.value);
    }
  }

  /** Without ties they always agree. */
  lemma FlagAgreesWithoutTies(db: Db, account: nat, at: int)
    requires account < |db.accounts| && DistinctSends(db.challenges, db.accounts[account].phone)
    ensures FlagIsTheClears(db, account, at)
  {
    var rows, phone := db.challenges, db.accounts[account].phone;
    FlagAgreesIff(db, account, at);
    forall i: nat, j: nat | IsLatest(rows, phone, i) && IsLatest(rows, phone, j)
      ensures i == j
    {
      assert rows[i].sentAt == rows[j].sentAt;
    }
  }
}
