/** How often codes can be guessed on a phone, over every run. */
module GuessTheorems {
  import opened Domain
  import opened Storage
  import opened Protocol
  import opened History
  import opened Counting
  import opened Runs
  import opened Invariants
  import opened Phones
  import opened ReachableStates

  // --- Sums over rows ---

  /** Failed attempts are at most the limit for each active row, beside the excess. */
  lemma {:induction false} FailuresPerActive(rows: seq<Challenge>, phone: string, since: int)
    ensures Sum(rows, Failures(phone, since))
            <= MAX_FAILED_ATTEMPTS * Sum(rows, Active(phone, since)) + Sum(rows, Excess(phone))
  {
    if rows != [] {
      FailuresPerActive(rows[..|rows| - 1], phone, since);
    }
  }

  lemma {:induction false} BandWithinActive(rows: seq<Challenge>, phone: string, since: int, to: int)
    ensures Sum(rows, Band(phone, since, to)) <= Sum(rows, Active(phone, since))
  {
    if rows != [] {
      BandWithinActive(rows[..|rows| - 1], phone, since, to);
    }
  }

  /** Two adjoining windows cover every row active since the start of the first. */
  lemma {:induction false} TwoBands(rows: seq<Challenge>, phone: string, since: int, mid: int, to: int)
    requires forall i | 0 <= i < |rows| :: rows[i].sentAt <= to
    ensures Sum(rows, Active(phone, since)) <= Sum(rows, Band(phone, since, mid)) + Sum(rows, Band(phone, mid, to))
  {
    if rows != [] {
      TwoBands(rows[..|rows| - 1], phone, since, mid, to);
    }
  }

  // --- What every entry keeps ---

  /** Guesses beyond the limit are paid for by clears. */
  predicate ExcessTally(h: History, rows: seq<Challenge>, phone: string) {
    Sum(rows, Excess(phone)) <= Total(h, ClearsOf(phone))
  }

  /** A guess in a window is recorded on a row sent at most a code's lifetime before the window. */
  predicate GuessLedger(h: History, rows: seq<Challenge>, phone: string, from: int, to: int) {
    Total(h, GuessesAt(phone, from, to)) <= Sum(rows, Failures(phone, from - OTP_TTL)) + Total(h, SlipsOf(phone))
  }

  /** Few rows of a phone were last sent in any one window, however long ago it was. */
  predicate BandTally(h: History, rows: seq<Challenge>, phone: string, from: int) {
    Sum(rows, Band(phone, from, from + SEND_CAP_WINDOW)) <= MAX_SENDS_PER_WINDOW + Total(h, ClearsOf(phone))
  }

  lemma ExcessOfRow(row: Challenge, e: Entry, now: int, phone: string)
    requires ChangesRow(e) && RowGuard(row, e) && RowOk(row, now)
    ensures Share(RowAfter(row, e), Excess(phone))
            <= Share(row, Excess(phone)) + (if e.Cleared? && e.phone == phone then 1 else 0)
  {
  }

  lemma RowChangeKeepsExcess(h: History, rows: seq<Challenge>, now: int, e: Entry, phone: string)
    requires ChangesRow(e) && e.id < |rows| && RowGuard(rows[e.id], e) && RowOk(rows[e.id], now)
    requires ExcessTally(h, rows, phone)
    ensures ExcessTally(Then(h, e), rows[e.id := RowAfter(rows[e.id], e)], phone)
  {
    ExcessOfRow(rows[e.id], e, now, phone);
    SumUpdate(rows, e.id, RowAfter(rows[e.id], e), Excess(phone));
    HistoryOfRowChange(h, e, phone);
  }

  lemma ExcessStep(s: State, e: Entry, phone: string)
    requires RowsInv(s) && Guard(s.key, s.db, e) && s.now <= e.at && ExcessTally(s.history, s.db.challenges, phone)
    ensures ExcessTally(Then(s.history, e), ChallengesAfter(s.db.challenges, e), phone)
  {
    if e.Opened? {
      SumAppend(s.db.challenges, e.row, Excess(phone));
    } else if ChangesRow(e) {
      RowChangeKeepsExcess(s.history, s.db.challenges, s.now, e, phone);
    }
  }

  /** A guessed row was sent within a code's lifetime, so its failure counts. */
  lemma FailureCounts(row: Challenge, e: Entry, now: int, phone: string, since: int)
    requires ChangesRow(e) && RowGuard(row, e) && now <= e.at && RowOk(row, now)
    ensures Share(RowAfter(row, e), Failures(phone, since)) >= Share(row, Failures(phone, since))
              + (if e.Missed? && e.phone == phone && since + OTP_TTL <= e.at then 1 else 0)
  {
  }

  lemma RowChangeKeepsGuessLedger(h: History, rows: seq<Challenge>, now: int, e: Entry, phone: string,
                                  from: int, to: int)
    requires ChangesRow(e) && e.id < |rows| && RowGuard(rows[e.id], e) && now <= e.at && RowOk(rows[e.id], now)
    requires GuessLedger(h, rows, phone, from, to)
    ensures GuessLedger(Then(h, e), rows[e.id := RowAfter(rows[e.id], e)], phone, from, to)
  {
    var row' := RowAfter(rows[e.id], e);
    FailureCounts(rows[e.id], e, now, phone, from - OTP_TTL);
    SumUpdate(rows, e.id, row', Failures(phone, from - OTP_TTL));
  }

  lemma GuessLedgerStep(s: State, e: Entry, phone: string, from: int, to: int)
    requires RowsInv(s) && Guard(s.key, s.db, e) && s.now <= e.at
    requires GuessLedger(s.history, s.db.challenges, phone, from, to)
    ensures GuessLedger(Then(s.history, e), ChallengesAfter(s.db.challenges, e), phone, from, to)
  {
    var rows := s.db.challenges;
    if e.Opened? {
      SumAppend(rows, e.row, Failures(phone, from - OTP_TTL));
    } else if ChangesRow(e) {
      RowChangeKeepsGuessLedger(s.history, rows, s.now, e, phone, from, to);
    }
  }

  /** While a window is open the cap bounds its rows. */
  lemma OpenBand(h: History, rows: seq<Challenge>, now: int, phone: string, from: int)
    requires PhoneTally(h, rows, now, phone) && now <= from + SEND_CAP_WINDOW
    ensures BandTally(h, rows, phone, from)
  {
    ActiveBound(h, rows, now, phone, from);
    BandWithinActive(rows, phone, from, from + SEND_CAP_WINDOW);
  }

  /** Once it is over, rows can only leave it. */
  lemma ClosedBand(s: State, e: Entry, phone: string, from: int)
    requires RowsInv(s) && Guard(s.key, s.db, e) && s.now <= e.at && e.at > from + SEND_CAP_WINDOW
    requires BandTally(s.history, s.db.challenges, phone, from)
    ensures BandTally(Then(s.history, e), ChallengesAfter(s.db.challenges, e), phone, from)
  {
    var rows, m := s.db.challenges, Band(phone, from, from + SEND_CAP_WINDOW);
    if e.Opened? {
      SumAppend(rows, e.row, m);
    } else if ChangesRow(e) {
      RowChange(rows[e.id], e, s.now);
      HistoryOfRowChange(s.history, e, phone);
      SumUpdate(rows, e.id, RowAfter(rows[e.id], e), m);
    }
  }

  ghost predicate GuessInv(h: History, rows: seq<Challenge>, phone: string) {
    && ExcessTally(h, rows, phone)
    && (forall from: int, to: int :: GuessLedger(h, rows, phone, from, to))
    && forall from: int :: BandTally(h, rows, phone, from)
  }

  lemma GuessInvStep(s: State, e: Entry, s': State, phone: string)
    requires Moves(s, e, s') && GuessInv(s.history, s.db.challenges, phone)
    ensures GuessInv(s'.history, s'.db.challenges, phone)
  {
    ChallengesOfEffect(s.db, e);
    ExcessStep(s, e, phone);
    forall from: int, to: int
      ensures GuessLedger(s'.history, s'.db.challenges, phone, from, to)
    {
      GuessLedgerStep(s, e, phone, from, to);
    }
    forall from: int
      ensures BandTally(s'.history, s'.db.challenges, phone, from)
    {
      if e.at <= from + SEND_CAP_WINDOW {
        OpenBand(s'.history, s'.db.challenges, s'.now, phone, from);
      } else {
        ClosedBand(s, e, phone, from);
      }
    }
  }

  // --- The bound ---

  /** Twice the cap of challenges take guesses in a window, five each; each clear lets in two challenges and a guess
      more. */
  predicate GuessesWithinLimit(h: History, phone: string, from: int) {
    Total(h, GuessesAt(phone, from, from + SEND_CAP_WINDOW))
    <= 50 + 11 * Total(h, ClearsOf(phone)) + Total(h, SlipsOf(phone))
  }

  /** A window that reaches the present keeps within the limit. */
  lemma PresentGuesses(h: History, rows: seq<Challenge>, now: int, phone: string, from: int)
    requires GuessInv(h, rows, phone) && now <= from + SEND_CAP_WINDOW
    requires forall i | 0 <= i < |rows| :: rows[i].sentAt <= now
    ensures GuessesWithinLimit(h, phone, from)
  {
    var since := from - OTP_TTL;
    var mid := since + SEND_CAP_WINDOW;
    assert GuessLedger(h, rows, phone, from, from + SEND_CAP_WINDOW);
    FailuresPerActive(rows, phone, since);
    TwoBands(rows, phone, since, mid, mid + SEND_CAP_WINDOW);
    assert BandTally(h, rows, phone, since) && BandTally(h, rows, phone, mid);
  }

  /** Once the window is over, guesses no longer fall into it. */
  lemma PastGuesses(h: History, e: Entry, phone: string, from: int)
    requires GuessesWithinLimit(h, phone, from) && e.at > from + SEND_CAP_WINDOW
    ensures GuessesWithinLimit(Then(h, e), phone, from)
  {
  }

  lemma GuessStep(s: State, e: Entry, s': State, phone: string, from: int)
    requires s'.history == Then(s.history, e) && s'.now == e.at && RowsInv(s')
    requires GuessInv(s'.history, s'.db.challenges, phone) && GuessesWithinLimit(s.history, phone, from)
    ensures GuessesWithinLimit(s'.history, phone, from)
  {
    if e.at > from + SEND_CAP_WINDOW {
      PastGuesses(s.history, e, phone, from);
    } else {
      assert forall i | 0 <= i < |s'.db.challenges| :: RowOk(s'.db.challenges[i], s'.now);
      PresentGuesses(s'.history, s'.db.challenges, s'.now, phone, from);
    }
  }

  lemma ReachableGuessInv(s: State, phone: string)
    requires Reachable(s)
    ensures GuessInv(s.history, s.db.challenges, phone)
  {
    var run: Run, key, start :| run.Valid() && run.First() == Init(key, start) && run.Last() == s;
    InitKeeps(key, start);
    var P := (s: State) => GuessInv(s.history, s.db.challenges, phone);
    forall s: State, e, s': State | Moves(s, e, s') && P(s)
      ensures P(s')
    {
      GuessInvStep(s, e, s', phone);
    }
    RunInduction(run, |run.calls|, P);
  }

  lemma GuessesOnRun(run: Run, n: nat, phone: string, from: int)
    requires run.Valid() && n < |run.states| && Inv(run.First())
    requires run.First().history == Start && run.First().db == EMPTY
    ensures GuessesWithinLimit(run.states[n].history, phone, from)
  {
    var P := (s: State) =>
      GuessInv(s.history, s.db.challenges, phone) && GuessesWithinLimit(s.history, phone, from);
    forall s: State, e, s': State | Moves(s, e, s') && P(s)
      ensures P(s')
    {
      GuessInvStep(s, e, s', phone);
      GuessStep(s, e, s', phone, from);
    }
    RunInduction(run, n, P);
  }

  /** At most 50 wrong guesses are compared for a phone in any 30 minutes, whichever of its challenges they are made
      on, eleven more for each clear and one for each the store failed to record. */
  lemma PhoneGuessesBounded(s: State, phone: string, from: int)
    requires Reachable(s)
    ensures Total(s.history, GuessesAt(phone, from, from + SEND_CAP_WINDOW))
            <= 50 + 11 * Total(s.history, ClearsOf(phone)) + Total(s.history, SlipsOf(phone))
  {
    var run: Run, key, start :| run.Valid() && run.First() == Init(key, start) && run.Last() == s;
    InitKeeps(key, start);
    GuessesOnRun(run, |run.calls|, phone, from);
  }
}
