/** How often a phone can be sent codes, over every run. */
module DeliveryTheorems {
  import opened Domain
  import opened Storage
  import opened Protocol
  import opened History
  import opened Runs
  import opened Invariants
  import Counting
  import opened Phones
  import opened Records
  import opened ReachableStates

  /** The closed window of SEND_CAP_WINDOW that starts at `from` keeps within the limit. */
  predicate WindowBounded(h: History, phone: string, from: int) {
    Total(h, Within(phone, from, from + SEND_CAP_WINDOW)) <= WindowLimit(h, phone)
  }

  lemma WindowStep(s: State, phone: string, from: int)
    requires Inv(s) && s.history.Then? && s.history.last.at == s.now
    requires WindowBounded(s.history.past, phone, from)
    ensures WindowBounded(s.history, phone, from)
  {
    var h, rows := s.history, s.db.challenges;
    if Delivers(h.last, phone) && from <= s.now <= from + SEND_CAP_WINDOW {
      assert forall i | 0 <= i < |rows| :: RowOk(rows[i], s.now);
      assert PhoneTally(h, rows, s.now, phone) && Ledger(h, rows, s.now, phone, from);
      PresentWindow(h, rows, s.now, phone, from);
      WindowWithinDeliveries(h, phone, from, from + SEND_CAP_WINDOW);
    }
  }

  lemma WindowMove(s: State, e: Entry, s': State, phone: string, from: int)
    requires Inv(s') && s'.history == Then(s.history, e) && s'.now == e.at && WindowBounded(s.history, phone, from)
    ensures WindowBounded(s'.history, phone, from)
  {
    WindowStep(s', phone, from);
  }

  lemma WindowOnRun(run: Run, n: nat, phone: string, from: int)
    requires run.Valid() && n < |run.states| && Inv(run.First()) && WindowBounded(run.First().history, phone, from)
    ensures WindowBounded(run.states[n].history, phone, from)
  {
    var P := (s: State) => WindowBounded(s.history, phone, from);
    forall s: State, e, s': State | Moves(s, e, s') && P(s)
      ensures P(s')
    {
      WindowMove(s, e, s', phone, from);
    }
    RunInduction(run, n, P);
  }

  /** Request and Resend together never put more than 25 codes on a phone in any 30 minutes without clears. */
  lemma AnyWindowBounded(s: State, phone: string, from: int)
    requires Reachable(s)
    ensures Total(s.history, Within(phone, from, from + SEND_CAP_WINDOW))
            <= 25 + 10 * Total(s.history, ClearsOf(phone)) + Total(s.history, LostTo(phone))
  {
    var run: Run, key, start :| run.Valid() && run.First() == Init(key, start) && run.Last() == s;
    InitKeeps(key, start);
    WindowOnRun(run, |run.calls|, phone, from);
  }

  // --- When the cap of five holds for both endpoints ---

  ghost predicate ResendChecked(s: State, h: History, phone: string) {
    h.Then? && h.last.Resent? && h.last.phone == phone ==>
      CountSendsSince(s.db.challenges, phone, h.last.at - SEND_CAP_WINDOW) < MAX_SENDS_PER_WINDOW
  }

  /** Every resend of the run found the phone's window sum below the cap, as a request does. */
  ghost predicate ResendsChecked(run: Run, phone: string)
    requires run.Valid()
  {
    forall i {:trigger run.states[i]} | 0 <= i < |run.calls| ::
      ResendChecked(run.states[i], run.states[i + 1].history, phone)
  }

  predicate Capped(h: History, phone: string, from: int) {
    Total(h, Within(phone, from, from + SEND_CAP_WINDOW))
    <= MAX_SENDS_PER_WINDOW + Total(h, ForgivenTo(phone)) + Total(h, LostTo(phone))
  }

  lemma {:induction false} DeliveriesShrink(h: History, phone: string, earlier: int, later: int)
    requires earlier <= later
    ensures Total(h, Deliveries(phone, later)) <= Total(h, Deliveries(phone, earlier))
  {
    if h.Then? {
      DeliveriesShrink(h.past, phone, earlier, later);
    }
  }

  lemma CappedStep(s: State, e: Entry, phone: string, from: int)
    requires Ledger(s.history, s.db.challenges, s.now, phone, e.at - SEND_CAP_WINDOW)
    requires Capped(s.history, phone, from)
    requires (e.Opened? || e.Resent?) && Delivers(e, phone) ==>
               CountSendsSince(s.db.challenges, phone, e.at - SEND_CAP_WINDOW) < MAX_SENDS_PER_WINDOW
    ensures Capped(Then(s.history, e), phone, from)
  {
    if Delivers(e, phone) && from <= e.at <= from + SEND_CAP_WINDOW && !e.Lost? {
      WindowWithinDeliveries(s.history, phone, from, from + SEND_CAP_WINDOW);
      DeliveriesShrink(s.history, phone, e.at - SEND_CAP_WINDOW, from);
    }
  }

  lemma CappedMove(s: State, e: Entry, phone: string, from: int)
    requires Ledger(s.history, s.db.challenges, s.now, phone, e.at - SEND_CAP_WINDOW) && Guard(s.key, s.db, e)
    requires Capped(s.history, phone, from) && ResendChecked(s, Then(s.history, e), phone)
    ensures Capped(Then(s.history, e), phone, from)
  {
    if e.Opened? {
      OpeningBelowCap(s, e);
    }
    CappedStep(s, e, phone, from);
  }

  lemma CappedNext(s: State, e: Entry, s': State, phone: string, from: int)
    requires Moves(s, e, s') && Capped(s.history, phone, from) && ResendChecked(s, s'.history, phone)
    ensures Capped(s'.history, phone, from)
  {
    assert Ledger(s.history, s.db.challenges, s.now, phone, e.at - SEND_CAP_WINDOW);
    CappedMove(s, e, phone, from);
  }

  lemma OpeningBelowCap(s: State, e: Entry)
    requires Guard(s.key, s.db, e) && e.Opened?
    ensures CountSendsSince(s.db.challenges, e.row.phone, e.at - SEND_CAP_WINDOW) < MAX_SENDS_PER_WINDOW
  {
  }

  /** Had every resend found the window sum below the cap, as a request does, no 30 minutes would hold more than five
      codes, plus those that clears forgave and the store lost. */
  lemma {:induction false} CapHoldsIfResendsChecked(run: Run, n: nat, phone: string, from: int)
    requires run.Valid() && n < |run.states| && ResendsChecked(run, phone)
    requires Inv(run.First()) && Capped(run.First().history, phone, from)
    ensures Capped(run.states[n].history, phone, from)
  {
    if n > 0 {
      CapHoldsIfResendsChecked(run, n - 1, phone, from);
      var e := RunMoves(run, n - 1);
      CappedNext(run.states[n - 1], e, run.states[n], phone, from);
    }
  }

  /** Every resend to the phone found fewer than the cap of real deliveries in the last 30 minutes. */
  predicate ResendsWithinCap(h: History, phone: string) {
    match h
    case Start => true
    case Then(past, e) =>
      && ResendsWithinCap(past, phone)
      && (e.Resent? && e.phone == phone ==>
            Total(past, Deliveries(phone, e.at - SEND_CAP_WINDOW)) < MAX_SENDS_PER_WINDOW)
  }

  predicate WindowCapped(h: History, phone: string, from: int) {
    Total(h, Within(phone, from, from + SEND_CAP_WINDOW)) <= MAX_SENDS_PER_WINDOW
  }

  lemma {:induction false} WindowUpToNow(h: History, phone: string, from: int, now: int)
    requires EndsBy(h, now)
    ensures Total(h, Within(phone, from, now)) == Total(h, Deliveries(phone, from))
  {
    if h.Then? {
      EndsByLater(h.past, now, now);
      WindowUpToNow(h.past, phone, from, now);
    }
  }

  /** Without forgiven and lost sends every delivery found room under the cap, if every resend did. */
  lemma DeliveryFoundRoom(past: History, e: Entry, phone: string)
    requires Justified(past, e) && Delivers(e, phone)
    requires Total(past, ForgivenTo(phone)) == Total(Then(past, e), LostTo(phone)) == 0
    requires e.Resent? ==> Total(past, Deliveries(phone, e.at - SEND_CAP_WINDOW)) < MAX_SENDS_PER_WINDOW
    ensures Total(past, Deliveries(phone, e.at - SEND_CAP_WINDOW)) < MAX_SENDS_PER_WINDOW
  {
  }

  lemma {:induction false} CheckedStaysCapped(h: History, phone: string, from: int)
    requires WellFormed(h) && ResendsWithinCap(h, phone)
    requires Total(h, ForgivenTo(phone)) == Total(h, LostTo(phone)) == 0
    ensures WindowCapped(h, phone, from)
  {
    if h.Then? {
      CheckedStaysCapped(h.past, phone, from);
      if Delivers(h.last, phone) && from <= h.last.at <= from + SEND_CAP_WINDOW {
        DeliveryFoundRoom(h.past, h.last, phone);
        WindowWithinDeliveries(h.past, phone, from, from + SEND_CAP_WINDOW);
        DeliveriesShrink(h.past, phone, h.last.at - SEND_CAP_WINDOW, from);
      }
    }
  }

  lemma {:induction false} CappedWasChecked(h: History, phone: string)
    requires WellFormed(h) && forall from: int :: WindowCapped(h, phone, from)
    ensures ResendsWithinCap(h, phone)
  {
    if h.Then? {
      var e := h.last;
      forall from: int
        ensures WindowCapped(h.past, phone, from)
      {
        assert WindowCapped(h, phone, from);
      }
      CappedWasChecked(h.past, phone);
      assert WindowCapped(h, phone, e.at - SEND_CAP_WINDOW);
      WindowUpToNow(h.past, phone, e.at - SEND_CAP_WINDOW, e.at);
    }
  }

  /** Without clears and unrecorded sends, no 30 minutes hold more than five codes if and only if every resend found
      fewer than five in the 30 minutes before it: the check Resend leaves out is exactly what the cap lacks. */
  lemma CapExactly(s: State, phone: string)
    requires Reachable(s) && Total(s.history, ForgivenTo(phone)) == Total(s.history, LostTo(phone)) == 0
    ensures (forall from: int :: WindowCapped(s.history, phone, from)) <==> ResendsWithinCap(s.history, phone)
  {
    ReachableInv(s);
    if ResendsWithinCap(s.history, phone) {
      forall from: int
        ensures WindowCapped(s.history, phone, from)
      {
        CheckedStaysCapped(s.history, phone, from);
      }
    }
    if forall from: int :: WindowCapped(s.history, phone, from) {
      CappedWasChecked(s.history, phone);
    }
  }

  // --- Single deliveries ---

  /** Request puts a code on a phone only when fewer than the cap of real deliveries lie in the last 30 minutes. */
  lemma RequestRespectsCap(s: State, past: History, e: Entry, phone: string)
    requires Reachable(s) && Happened(s.history, past, e)
    requires (e.Opened? && e.row.phone == phone) || (e.Lost? && e.via.None? && e.phone == phone)
    ensures Total(past, Deliveries(phone, e.at - SEND_CAP_WINDOW))
            < MAX_SENDS_PER_WINDOW + Total(past, ForgivenTo(phone)) + Total(past, LostTo(phone))
  {
    HistoryObeysRules(s, past, e);
  }

  /** Request delivers a cooldown after every recorded delivery to the phone, Resend a cooldown after the
      challenge's own last one. */
  lemma DeliveriesSpaced(s: State, past: History, e: Entry)
    requires Reachable(s) && Happened(s.history, past, e)
    ensures e.Opened? ==> SettledBy(past, e.row.phone, e.at - RESEND_COOLDOWN)
    ensures e.Lost? && e.via.None? ==> SettledBy(past, e.phone, e.at - RESEND_COOLDOWN)
    ensures e.Resent? ==> CodeOn(past, e.id).Some? && CodeOn(past, e.id).value.at + RESEND_COOLDOWN <= e.at
    ensures e.Lost? && e.via.Some? ==>
              CodeOn(past, e.via.value).Some? && CodeOn(past, e.via.value).value.at + RESEND_COOLDOWN <= e.at
  {
    HistoryObeysRules(s, past, e);
  }

  /** The last recorded delivery to a phone is exactly the greatest sent_at among its rows. */
  lemma LatestRowIsLastDelivery(s: State, phone: string, i: nat)
    requires Reachable(s) && IsLatest(s.db.challenges, phone, i)
    ensures SettledBy(s.history, phone, s.db.challenges[i].sentAt)
    ensures CodeOn(s.history, i).Some? && CodeOn(s.history, i).value.at == s.db.challenges[i].sentAt
    ensures CodeOn(s.history, i).value.phone == phone
  {
    ReachableInv(s);
    assert Tally(s.history, s.db.challenges, i);
    SettledByLatest(s.history, s.db.challenges, phone, s.db.challenges[i].sentAt);
  }

  /** A capped request always finds a row to lock: the branch without one is never taken. */
  lemma CapNeedsARow(rows: seq<Challenge>, phone: string, since: int)
    requires LatestOk(rows, phone, None)
    ensures CountSendsSince(rows, phone, since) == 0
  {
    Counting.NoRowsNoSum(rows, Sends(phone, since));
  }

  // --- Locks that the cap earns ---

  /** Every lock by the cap, at either endpoint, came after five recorded codes for the phone in the last 70 minutes. */
  lemma CapLocksAreEarned(s: State, past: History, e: Entry)
    requires Reachable(s) && Happened(s.history, past, e) && e.CapLocked?
    ensures Total(past, Recorded(e.phone, e.at - 70 * MINUTE)) >= MAX_SENDS_PER_WINDOW
  {
    HistoryObeysRules(s, past, e);
  }
}
