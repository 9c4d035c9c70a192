/** What a lock guarantees, over every run. */
module LockoutTheorems {
  import opened Domain
  import opened Storage
  import opened Protocol
  import opened History
  import opened Runs
  import opened Invariants
  import opened ReachableStates

  /** While a challenge is locked and uncleared, it is not used and stays locked. */
  lemma BarredStep(h: History, e: Entry, id: nat)
    requires Justified(h, e) && Barred(h, id)
    requires Weight(e, ClearsOn(id)) == 0
    ensures Barred(Then(h, e), id) && Weight(e, UsesOf(id)) == 0
  {
  }

  lemma BarredRun(run: Run, n: nat, id: nat)
    requires run.Valid() && n < |run.states| && Inv(run.First()) && Barred(run.First().history, id)
    requires Total(run.states[n].history, ClearsOn(id)) == Total(run.First().history, ClearsOn(id))
    ensures Total(run.states[n].history, UsesOf(id)) == Total(run.First().history, UsesOf(id))
    ensures Barred(run.states[n].history, id)
  {
    var h0 := run.First().history;
    var P := (s: State) =>
      && Total(h0, ClearsOn(id)) <= Total(s.history, ClearsOn(id))
      && (Total(s.history, ClearsOn(id)) == Total(h0, ClearsOn(id)) ==>
            Barred(s.history, id) && Total(s.history, UsesOf(id)) == Total(h0, UsesOf(id)));
    forall s: State, e, s': State | Moves(s, e, s') && P(s)
      ensures P(s')
    {
      if Total(s'.history, ClearsOn(id)) == Total(h0, ClearsOn(id)) {
        BarredStep(s.history, e, id);
      }
    }
    RunInduction(run, n, P);
  }

  /** A lock outlives its code: until an administrator clears the challenge, however much later than LockedUntil,
      no code is resent for it, no guess is compared against it, no confirm of it succeeds, and it stays locked. */
  lemma LockOutlivesCode(run: Run, id: nat)
    requires run.Valid() && Reachable(run.First())
    requires id < |run.First().db.challenges| && run.First().db.challenges[id].lockedUntil.Some?
    requires Total(run.Last().history, ClearsOn(id)) == Total(run.First().history, ClearsOn(id))
    ensures Total(run.Last().history, UsesOf(id)) == Total(run.First().history, UsesOf(id))
    ensures var rows := run.Last().db.challenges;
            id < |rows| && rows[id].lockedUntil.Some? && rows[id].status == Locked
  {
    var s, s' := run.First(), run.Last();
    ReachableInv(s);
    assert Tally(s.history, s.db.challenges, id);
    BarredRun(run, |run.calls|, id);
    RunKeeps(run, |run.calls|);
    assert Tally(s'.history, s'.db.challenges, id);
    assert RowOk(s'.db.challenges[id], s'.now);
  }

  lemma {:induction false} GuessesSplit(h: History, id: nat)
    ensures Total(h, GuessesOn(id)) == Total(h, MissesOn(id)) + Total(h, SlipsOn(id))
  {
    if h.Then? {
      GuessesSplit(h.past, id);
    }
  }

  /** Wrong guesses compared against a challenge never exceed the limit, plus one for each clear and for each guess
      the store failed to record; and the status is `locked` exactly while the challenge carries a lock. */
  lemma GuessesBounded(s: State, id: nat)
    requires Reachable(s)
    ensures Total(s.history, GuessesOn(id))
            <= MAX_FAILED_ATTEMPTS + Total(s.history, ClearsOn(id)) + Total(s.history, SlipsOn(id))
    ensures Total(s.history, MissesOn(id)) <= MAX_FAILED_ATTEMPTS + Total(s.history, ClearsOn(id))
    ensures id < |s.db.challenges| ==>
              var row := s.db.challenges[id];
              && (row.status == Locked <==> row.lockedUntil.Some?)
              && (row.status == Locked <==> Barred(s.history, id))
              && row.failedAttempts == Total(s.history, MissesOn(id))
  {
    ReachableInv(s);
    GuessesSplit(s.history, id);
    assert Tally(s.history, s.db.challenges, id);
    if id < |s.db.challenges| {
      assert RowOk(s.db.challenges[id], s.now);
    }
  }

  // --- Locking a phone ---

  /** No older challenge of the phone can be used any more. */
  ghost predicate OthersDead(rows: seq<Challenge>, phone: string, l: nat, now: int) {
    forall j | 0 <= j < |rows| && j != l && rows[j].phone == phone :: rows[j].Dead(now)
  }

  ghost predicate Sealed(s: State, phone: string, l: nat, until: int) {
    && StrictlyLatest(s.db.challenges, phone, l)
    && s.db.challenges[l].lockedUntil == Some(until)
    && OthersDead(s.db.challenges, phone, l, s.now)
  }

  /** No run that ends before `until` and clears nothing of the phone delivers a code to it or compares a guess. */
  ghost predicate Silent(s: State, phone: string, until: int) {
    forall run: Run |
      && run.Valid() && run.First() == s && run.Last().now < until
      && Total(run.Last().history, ClearsOf(phone)) == Total(s.history, ClearsOf(phone)) ::
      Total(run.Last().history, ActivityOf(phone)) == Total(s.history, ActivityOf(phone))
  }

  lemma DeadStaysDead(row: Challenge, now: int, later: int)
    requires RowOk(row, now) && row.Dead(now) && now <= later
    ensures row.Dead(later)
  {
  }

  lemma LatestOfSealed(s: State, phone: string, l: nat, pick: Option<nat>)
    requires StrictlyLatest(s.db.challenges, phone, l) && LatestOk(s.db.challenges, phone, pick)
    ensures pick == Some(l)
  {
  }

  /** On a sealed phone no entry concerns the phone's challenges. */
  lemma SealedRefuses(s: State, e: Entry, phone: string, l: nat, until: int)
    requires Inv(s) && s.now <= e.at < until && Guard(s.key, s.db, e) && Sealed(s, phone, l, until)
    requires Weight(e, ClearsOf(phone)) == 0
    ensures Weight(e, ActivityOf(phone)) == 0
    ensures e.CapLocked? ==> e.phone != phone
  {
    var rows := s.db.challenges;
    forall j | 0 <= j < |rows| && rows[j].phone == phone
      ensures rows[j].Dead(e.at)
    {
      assert RowOk(rows[j], s.now);
      if j != l {
        DeadStaysDead(rows[j], s.now, e.at);
      }
    }
    forall pick: Option<nat> | LatestOk(rows, phone, pick)
      ensures pick == Some(l)
    {
      LatestOfSealed(s, phone, l, pick);
    }
    assert forall id: nat :: IsLatest(rows, phone, id) ==> LatestOk(rows, phone, Some(id));
  }

  lemma SealedStep(s: State, e: Entry, s': State, phone: string, l: nat, until: int)
    requires Moves(s, e, s') && e.at < until && Sealed(s, phone, l, until)
    requires Weight(e, ClearsOf(phone)) == 0
    ensures Sealed(s', phone, l, until) && Weight(e, ActivityOf(phone)) == 0
  {
    SealedRefuses(s, e, phone, l, until);
    var rows, rows' := s.db.challenges, s'.db.challenges;
    ChallengesOfEffect(s.db, e);
    forall j | 0 <= j < |rows'|
      ensures j < |rows| && rows[j].phone == phone ==> rows'[j] == rows[j]
      ensures rows'[j].phone == phone ==> j < |rows| && rows[j].phone == phone
    {
      if j < |rows| && !Concerns(e, j) {
        RowElsewhere(rows, e, j);
      }
    }
    forall j | 0 <= j < |rows'| && j != l && rows'[j].phone == phone
      ensures rows'[j].Dead(e.at)
    {
      DeadStaysDead(rows[j], s.now, e.at);
    }
  }

  lemma SealedRun(run: Run, n: nat, phone: string, l: nat, until: int)
    requires run.Valid() && n < |run.states| && Inv(run.First())
    requires run.states[n].now < until && Sealed(run.First(), phone, l, until)
    requires Total(run.states[n].history, ClearsOf(phone)) == Total(run.First().history, ClearsOf(phone))
    ensures Total(run.states[n].history, ActivityOf(phone)) == Total(run.First().history, ActivityOf(phone))
    ensures Sealed(run.states[n], phone, l, until)
  {
    var h0 := run.First().history;
    var P := (s: State) =>
      && Total(h0, ClearsOf(phone)) <= Total(s.history, ClearsOf(phone))
      && (s.now < until && Total(s.history, ClearsOf(phone)) == Total(h0, ClearsOf(phone)) ==>
            Sealed(s, phone, l, until) && Total(s.history, ActivityOf(phone)) == Total(h0, ActivityOf(phone)));
    forall s: State, e, s': State | Moves(s, e, s') && P(s)
      ensures P(s')
    {
      if s'.now < until && Total(s'.history, ClearsOf(phone)) == Total(h0, ClearsOf(phone)) {
        SealedStep(s, e, s', phone, l, until);
      }
    }
    RunInduction(run, n, P);
  }

  /** A challenge that can still be used lets a guess through although the phone's latest one is locked. */
  lemma LiveRowLeaks(s: State, phone: string, j: nat, until: int)
    requires Inv(s) && s.now < until
    requires j < |s.db.challenges| && s.db.challenges[j].phone == phone && !s.db.challenges[j].Dead(s.now)
    ensures !Silent(s, phone, until)
  {
    var wrong := s.db.challenges[j].codeHash.code + "x";
    assert |wrong| != |s.db.challenges[j].codeHash.code|;
    var c := Confirm(s.now, j, wrong, "", {});
    assert DecideConfirm(s.db, c).entry == Missed(j, phone, s.now);
    var run := Run([s, Step(s, c)], [c]);
    assert Follows(s, c, Step(s, c)) && run.Valid();
    assert Total(run.Last().history, ActivityOf(phone)) == Total(s.history, ActivityOf(phone)) + 1;
  }

  /** A lock on a phone's latest challenge silences the phone until it lifts if and only if every other challenge
      of the phone is consumed, expired or locked: Request looks at the latest challenge alone, and Confirm and
      Resend at the challenge they are given. */
  lemma LockSilencesPhone(s: State, phone: string, l: nat, until: int)
    requires Reachable(s) && StrictlyLatest(s.db.challenges, phone, l)
    requires s.db.challenges[l].lockedUntil == Some(until) && s.now < until
    ensures Silent(s, phone, until) <==> OthersDead(s.db.challenges, phone, l, s.now)
  {
    ReachableInv(s);
    if OthersDead(s.db.challenges, phone, l, s.now) {
      forall run: Run |
        && run.Valid() && run.First() == s && run.Last().now < until
        && Total(run.Last().history, ClearsOf(phone)) == Total(s.history, ClearsOf(phone))
        ensures Total(run.Last().history, ActivityOf(phone)) == Total(s.history, ActivityOf(phone))
      {
        SealedRun(run, |run.calls|, phone, l, until);
      }
    } else {
      var j: nat :| j < |s.db.challenges| && j != l && s.db.challenges[j].phone == phone
                    && !s.db.challenges[j].Dead(s.now);
      LiveRowLeaks(s, phone, j, until);
    }
  }

  // --- Deliveries alone ---

  /** No code will be resent for the challenge. */
  predicate Spent(row: Challenge, now: int) {
    row.Dead(now) || row.SendCapReached()
  }

  ghost predicate OthersSpent(rows: seq<Challenge>, phone: string, l: nat, now: int) {
    forall j | 0 <= j < |rows| && j != l && rows[j].phone == phone :: Spent(rows[j], now)
  }

  ghost predicate Muted(s: State, phone: string, l: nat, until: int) {
    && StrictlyLatest(s.db.challenges, phone, l)
    && s.db.challenges[l].lockedUntil == Some(until)
    && OthersSpent(s.db.challenges, phone, l, s.now)
  }

  /** No run that ends before `until` and clears nothing of the phone delivers a code to it. */
  ghost predicate Undelivered(s: State, phone: string, until: int) {
    forall run: Run |
      && run.Valid() && run.First() == s && run.Last().now < until
      && Total(run.Last().history, ClearsOf(phone)) == Total(s.history, ClearsOf(phone)) ::
      Total(run.Last().history, Deliveries(phone, s.now)) == Total(s.history, Deliveries(phone, s.now))
  }

  /** A spent challenge stays spent under every entry but a clear. */
  lemma SpentStaysSpent(row: Challenge, e: Entry, now: int)
    requires ChangesRow(e) && !e.Cleared? && RowGuard(row, e) && RowOk(row, now) && now <= e.at && Spent(row, now)
    ensures !e.Resent? && Spent(RowAfter(row, e), e.at) && RowAfter(row, e).sentAt == row.sentAt
  {
  }

  lemma MutedRefuses(s: State, e: Entry, phone: string, l: nat, until: int)
    requires Inv(s) && s.now <= e.at < until && Guard(s.key, s.db, e) && Muted(s, phone, l, until)
    ensures !Delivers(e, phone)
    ensures ChangesRow(e) && e.id == l ==> e.Cleared?
  {
    var rows := s.db.challenges;
    assert forall j | 0 <= j < |rows| :: RowOk(rows[j], s.now);
    assert rows[l].Dead(e.at) && rows[l].IsLocked(e.at);
    forall pick: Option<nat> | LatestOk(rows, phone, pick)
      ensures pick == Some(l)
    {
      LatestOfSealed(s, phone, l, pick);
    }
  }

  /** A row of the phone was there before, unsent since, and stays spent. */
  lemma MutedRow(s: State, e: Entry, phone: string, j: nat)
    requires RowsInv(s) && Guard(s.key, s.db, e) && s.now <= e.at
    requires !Delivers(e, phone) && Weight(e, ClearsOf(phone)) == 0
    requires j < |ChallengesAfter(s.db.challenges, e)|
    ensures var rows, rows' := s.db.challenges, ChallengesAfter(s.db.challenges, e);
            rows'[j].phone == phone ==>
              && j < |rows| && rows[j].phone == phone && rows'[j].sentAt == rows[j].sentAt
              && (Spent(rows[j], s.now) ==> Spent(rows'[j], e.at))
              && (!(ChangesRow(e) && e.id == j) ==> rows'[j] == rows[j])
  {
    var rows := s.db.challenges;
    if j < |rows| {
      assert RowOk(rows[j], s.now);
      if ChangesRow(e) && e.id == j && rows[j].phone == phone && Spent(rows[j], s.now) {
        SpentStaysSpent(rows[j], e, s.now);
      }
    }
  }

  lemma MutedStep(s: State, e: Entry, s': State, phone: string, l: nat, until: int)
    requires Moves(s, e, s') && e.at < until && Muted(s, phone, l, until)
    requires Weight(e, ClearsOf(phone)) == 0
    ensures Muted(s', phone, l, until) && !Delivers(e, phone)
  {
    MutedRefuses(s, e, phone, l, until);
    ChallengesOfEffect(s.db, e);
    var rows, rows' := s.db.challenges, s'.db.challenges;
    forall j: nat | j < |rows'|
      ensures rows'[j].phone == phone ==>
                && j < |rows| && rows[j].phone == phone && rows'[j].sentAt == rows[j].sentAt
                && (Spent(rows[j], s.now) ==> Spent(rows'[j], e.at))
    {
      MutedRow(s, e, phone, j);
    }
    assert rows'[l] == rows[l] by {
      MutedRow(s, e, phone, l);
    }
  }

  lemma MutedRun(run: Run, n: nat, phone: string, l: nat, until: int, since: int)
    requires run.Valid() && n < |run.states| && Inv(run.First())
    requires run.states[n].now < until && Muted(run.First(), phone, l, until)
    requires Total(run.states[n].history, ClearsOf(phone)) == Total(run.First().history, ClearsOf(phone))
    ensures Total(run.states[n].history, Deliveries(phone, since)) == Total(run.First().history, Deliveries(phone, since))
    ensures Muted(run.states[n], phone, l, until)
  {
    var h0 := run.First().history;
    var P := (s: State) =>
      && Total(h0, ClearsOf(phone)) <= Total(s.history, ClearsOf(phone))
      && (s.now < until && Total(s.history, ClearsOf(phone)) == Total(h0, ClearsOf(phone)) ==>
            && Muted(s, phone, l, until)
            && Total(s.history, Deliveries(phone, since)) == Total(h0, Deliveries(phone, since)));
    forall s: State, e, s': State | Moves(s, e, s') && P(s)
      ensures P(s')
    {
      if s'.now < until && Total(s'.history, ClearsOf(phone)) == Total(h0, ClearsOf(phone)) {
        MutedStep(s, e, s', phone, l, until);
      }
    }
    RunInduction(run, n, P);
  }

  /** An older challenge with sends left can be resent, at the latest a minute after it was sent. */
  lemma UnspentRowDelivers(s: State, phone: string, j: nat, until: int)
    requires Inv(s) && j < |s.db.challenges| && s.db.challenges[j].phone == phone && !Spent(s.db.challenges[j], s.now)
    requires s.now < until && s.db.challenges[j].sentAt + RESEND_COOLDOWN < until
    ensures !Undelivered(s, phone, until)
  {
    var row := s.db.challenges[j];
    assert RowOk(row, s.now);
    var at := if s.now < row.sentAt + RESEND_COOLDOWN then row.sentAt + RESEND_COOLDOWN else s.now;
    var c := Resend(at, j, "", true, {});
    assert DecideResend(s.db, c).entry == Resent(j, phone, "", at);
    var run := Run([s, Step(s, c)], [c]);
    assert Follows(s, c, Step(s, c)) && run.Valid();
    assert Total(run.Last().history, Deliveries(phone, s.now)) == Total(s.history, Deliveries(phone, s.now)) + 1;
  }

  /** A lock on a phone's latest challenge keeps codes from the phone until it lifts if and only if every other
      challenge of the phone is consumed, expired, locked or has used up its own five sends. Its cooldown does not
      matter: a lock outlasts the cooldown of every challenge sent before the locked one. */
  lemma LockMutesPhone(s: State, phone: string, l: nat, until: int)
    requires Reachable(s) && StrictlyLatest(s.db.challenges, phone, l)
    requires s.db.challenges[l].lockedUntil == Some(until) && s.now < until
    ensures Undelivered(s, phone, until) <==> OthersSpent(s.db.challenges, phone, l, s.now)
  {
    ReachableInv(s);
    if OthersSpent(s.db.challenges, phone, l, s.now) {
      forall run: Run |
        && run.Valid() && run.First() == s && run.Last().now < until
        && Total(run.Last().history, ClearsOf(phone)) == Total(s.history, ClearsOf(phone))
        ensures Total(run.Last().history, Deliveries(phone, s.now)) == Total(s.history, Deliveries(phone, s.now))
      {
        MutedRun(run, |run.calls|, phone, l, until, s.now);
      }
    } else {
      var j: nat :| j < |s.db.challenges| && j != l && s.db.challenges[j].phone == phone
                    && !Spent(s.db.challenges[j], s.now);
      assert RowOk(s.db.challenges[l], s.now);
      UnspentRowDelivers(s, phone, j, until);
    }
  }
}
