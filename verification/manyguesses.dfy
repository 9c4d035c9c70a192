/** A run in which a phone takes 49 wrong guesses in half an hour. */
module ManyGuesses {
  import opened Domain
  import opened Storage
  import opened Phone
  import opened Protocol
  import opened History
  import opened Runs
  import ReachableStates
  import Records
  import Tightness
  import Witnesses

  const FROM := 600
  const TO := FROM + SEND_CAP_WINDOW

  function Missed(s: State, phone: string): nat {
    Total(s.history, MissedAt(phone, FROM, TO))
  }

  lemma {:induction false} NothingMissedYet(h: History, phone: string, now: int)
    requires EndsBy(h, now) && now < FROM
    ensures Total(h, MissedAt(phone, FROM, TO)) == 0
  {
    if h.Then? {
      Records.EndsByLater(h.past, now, now);
      NothingMissedYet(h.past, phone, now);
    }
  }

  lemma MissStep(s: State, id: nat, phone: string, at: int) returns (s': State)
    requires Reachable(s) && s.now <= at && FROM <= at <= TO && id < |s.db.challenges|
    requires !s.db.challenges[id].Dead(at) && s.db.challenges[id].phone == phone
    ensures Reachable(s') && s'.now == at && Missed(s', phone) == Missed(s, phone) + 1
    ensures s'.db == s.db.(challenges := s.db.challenges[id := s.db.challenges[id].AfterFailure(at)])
    ensures Total(s'.history, ClearsOf(phone)) == Total(s.history, ClearsOf(phone))
  {
    var row := s.db.challenges[id];
    var wrong := row.codeHash.code + "x";
    assert |wrong| != |row.codeHash.code|;
    Witnesses.CallReaches(s, Confirm(at, id, wrong, "", {}), Entry.Missed(id, phone, at));
    s' := Next(s, Entry.Missed(id, phone, at));
  }

  lemma {:induction false} GuessRow(s: State, id: nat, phone: string, n: nat, at: int) returns (s': State)
    requires Reachable(s) && s.now <= at && FROM <= at <= TO && id < |s.db.challenges| && 0 < n <= MAX_FAILED_ATTEMPTS
    requires !s.db.challenges[id].Dead(at) && s.db.challenges[id].phone == phone
    requires s.db.challenges[id].failedAttempts == 0
    ensures Reachable(s') && s'.now == at && Missed(s', phone) == Missed(s, phone) + n
    ensures s'.db == s.db.(challenges := s.db.challenges[id := Witnesses.AfterGuesses(s.db.challenges[id], n, at)])
    ensures Total(s'.history, ClearsOf(phone)) == Total(s.history, ClearsOf(phone))
  {
    if n == 1 {
      s' := MissStep(s, id, phone, at);
      assert Witnesses.AfterGuesses(s.db.challenges[id], 0, at) == s.db.challenges[id];
    } else {
      var s1 := GuessRow(s, id, phone, n - 1, at);
      Witnesses.AfterGuessesIs(s.db.challenges[id], n - 1, at);
      s' := MissStep(s1, id, phone, at);
    }
  }

  // --- Five challenges, guessed as the window opens ---

  /** Row `i` once the first `j` were guessed: five times each, but four times the latest. */
  function EarlyRow(phone: string, i: nat, j: nat): Challenge {
    var row := Tightness.AfterResends(phone, i, 0);
    if i < j then Witnesses.AfterGuesses(row, if i == 4 then 4 else 5, FROM) else row
  }

  ghost predicate EarlyGuessed(s: State, phone: string, j: nat) {
    && Reachable(s) && s.db.accounts == [] && s.now <= FROM
    && |s.db.challenges| == 5 && (forall i: nat | i < 5 :: s.db.challenges[i] == EarlyRow(phone, i, j))
    && Missed(s, phone) == (if j == 5 then 24 else 5 * j) && Total(s.history, ClearsOf(phone)) == 0
  }

  lemma {:induction false} GuessesEarly(phone: string, j: nat) returns (s: State)
    requires Canonical(phone) == Some(phone) && j <= 5
    ensures EarlyGuessed(s, phone, j)
  {
    if j == 0 {
      s := Tightness.FiveRequests(phone, phone, 5);
      Tightness.OpenedRowsAre(phone, 5, 0);
      assert EndsBy(s.history, s.now) by {
        ReachableStates.ReachableInv(s);
      }
      NothingMissedYet(s.history, phone, s.now);
    } else {
      var s0 := GuessesEarly(phone, j - 1);
      s := GuessRow(s0, j - 1, phone, if j == 5 then 4 else 5, FROM);
    }
  }

  // --- Five more, opened as the first ones leave the cap's window ---

  function LateRow(phone: string, i: nat): Challenge {
    NewChallenge(phone, Signup, "", "", None, "", 1801 + 60 * i)
  }

  ghost predicate LateOpened(s: State, phone: string, k: nat) {
    && Reachable(s) && s.db.accounts == [] && s.now <= (if k == 0 then FROM else 1801 + 60 * (k - 1))
    && |s.db.challenges| == 5 + k && (forall i: nat | i < 5 :: EarlyFacts(s.db.challenges[i], phone, i))
    && (forall i: nat | i < k :: s.db.challenges[5 + i] == LateRow(phone, i))
    && Missed(s, phone) == 24 && Total(s.history, ClearsOf(phone)) == 0
  }

  lemma {:induction false} FewSends(rows: seq<Challenge>, m: Measure, lo: nat)
    requires forall i | 0 <= i < |rows| :: Share(rows[i], m) <= if i < lo then 0 else 1
    ensures Sum(rows, m) <= if |rows| < lo then 0 else |rows| - lo
  {
    if rows != [] {
      FewSends(rows[..|rows| - 1], m, lo);
    }
  }

  /** What a late request may ask of an early row. */
  predicate EarlyFacts(row: Challenge, phone: string, i: nat) {
    row.phone == phone && row.sentAt == 60 * i && row.sendsInWindow == 1 && (i == 4 ==> row.lockedUntil.None?)
  }

  lemma EarlyRowIs(phone: string, i: nat)
    requires i < 5
    ensures EarlyFacts(EarlyRow(phone, i, 5), phone, i)
  {
    Witnesses.AfterGuessesIs(Tightness.AfterResends(phone, i, 0), if i == 4 then 4 else 5, FROM);
  }

  lemma LateReady(s: State, phone: string, k: nat)
    requires LateOpened(s, phone, k) && k < 5
    ensures Tightness.RequestReady(s.db.challenges, phone, Some(4 + k), 1801 + 60 * k)
  {
    var rows, now := s.db.challenges, 1801 + 60 * k;
    assert forall i: nat | i < 5 :: EarlyFacts(rows[i], phone, i);
    forall i: nat | 5 <= i < |rows|
      ensures rows[i] == LateRow(phone, i - 5)
    {
      assert rows[5 + (i - 5)] == LateRow(phone, i - 5);
    }
    FewSends(rows, Sends(phone, now - SEND_CAP_WINDOW), k + 1);
  }

  lemma {:induction false} OpensLate(phone: string, k: nat) returns (s: State)
    requires Canonical(phone) == Some(phone) && k <= 5
    ensures LateOpened(s, phone, k)
  {
    if k == 0 {
      s := GuessesEarly(phone, 5);
      forall i: nat | i < 5
        ensures EarlyFacts(s.db.challenges[i], phone, i)
      {
        EarlyRowIs(phone, i);
      }
    } else {
      var s0 := OpensLate(phone, k - 1);
      s := OpensOneMore(s0, phone, k - 1);
    }
  }

  lemma OpeningIsNoMiss(h: History, e: Entry, phone: string)
    requires e.Opened?
    ensures Total(Then(h, e), MissedAt(phone, FROM, TO)) == Total(h, MissedAt(phone, FROM, TO))
    ensures Total(Then(h, e), ClearsOf(phone)) == Total(h, ClearsOf(phone))
  {
  }

  lemma OpenStep(s: State, phone: string, pick: nat, now: int) returns (s': State)
    requires Reachable(s) && s.now <= now && s.db.accounts == [] && Canonical(phone) == Some(phone)
    requires Tightness.RequestReady(s.db.challenges, phone, Some(pick), now)
    ensures Reachable(s') && s'.now == now && s'.db.accounts == [] && Missed(s', phone) == Missed(s, phone)
    ensures s'.db.challenges == s.db.challenges + [NewChallenge(phone, Signup, "", "", None, "", now)]
    ensures Total(s'.history, ClearsOf(phone)) == Total(s.history, ClearsOf(phone))
  {
    s' := Tightness.RequestStep(s, phone, phone, Some(pick), now);
    OpeningIsNoMiss(s.history, s'.history.last, phone);
  }

  lemma OpensOneMore(s0: State, phone: string, k: nat) returns (s: State)
    requires Canonical(phone) == Some(phone) && k < 5 && LateOpened(s0, phone, k)
    ensures LateOpened(s, phone, k + 1)
  {
    assert Tightness.RequestReady(s0.db.challenges, phone, Some(4 + k), 1801 + 60 * k) by {
      LateReady(s0, phone, k);
    }
    s := OpenStep(s0, phone, 4 + k, 1801 + 60 * k);
    RowsAppended(s0.db.challenges, s.db.challenges, phone, k);
  }

  lemma RowsAppended(rows: seq<Challenge>, rows': seq<Challenge>, phone: string, k: nat)
    requires |rows| == 5 + k && rows' == rows + [LateRow(phone, k)]
    ensures |rows'| == 6 + k && forall i: nat | i < 5 :: rows'[i] == rows[i]
    ensures (forall i: nat | i < k :: rows[5 + i] == LateRow(phone, i)) ==>
              forall i: nat | i < k + 1 :: rows'[5 + i] == LateRow(phone, i)
  {
  }

  ghost predicate LateGuessed(s: State, phone: string, j: nat) {
    && Reachable(s) && s.now <= TO && |s.db.challenges| == 10
    && (forall i: nat | j <= i < 5 :: s.db.challenges[5 + i] == LateRow(phone, i))
    && Missed(s, phone) == 24 + 5 * j && Total(s.history, ClearsOf(phone)) == 0
  }

  lemma {:induction false} GuessesLate(phone: string, j: nat) returns (s: State)
    requires Canonical(phone) == Some(phone) && j <= 5
    ensures LateGuessed(s, phone, j)
  {
    if j == 0 {
      s := OpensLate(phone, 5);
    } else {
      var s0 := GuessesLate(phone, j - 1);
      assert s0.db.challenges[5 + (j - 1)] == LateRow(phone, j - 1);
      s := GuessRow(s0, 5 + (j - 1), phone, 5, TO);
    }
  }

  /** Every phone can be made to take 49 recorded wrong guesses in half an hour, with no clear. */
  lemma GuessLimitIsReached(d: string) returns (s: State)
    requires Subscriber(d)
    ensures Reachable(s) && Total(s.history, ClearsOf("+20" + d)) == 0
    ensures Total(s.history, MissedAt("+20" + d, FROM, FROM + SEND_CAP_WINDOW)) == 49
  {
    CanonicalFixed(d);
    s := GuessesLate("+20" + d, 5);
  }
}
