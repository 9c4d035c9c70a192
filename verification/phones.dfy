/** What every entry keeps about all the challenges of one phone: the send cap and the delivery window. */
module Phones {
  import opened Domain
  import opened Storage
  import opened Protocol
  import opened History
  import opened Runs
  import opened Invariants
  import opened Counting

  /** At most a cap's worth of rows were active around the last opening, counting each clear as one more. */
  ghost predicate PhoneTally(h: History, rows: seq<Challenge>, now: int, phone: string) {
    var clears := Total(h, ClearsOf(phone));
    && Sum(rows, Blank(phone)) <= clears
    && Total(h, ForgivenTo(phone)) <= MAX_SENDS_PER_WINDOW * clears
    && match LastOpening(h, phone)
       case None => forall i | 0 <= i < |rows| :: rows[i].phone != phone
       case Some(o) =>
         o.at <= now && Sum(rows, Active(phone, o.at - SEND_CAP_WINDOW)) <= MAX_SENDS_PER_WINDOW + clears
  }

  /** The approximate window sum never under-counts, for any start of the window. */
  ghost predicate Ledger(h: History, rows: seq<Challenge>, now: int, phone: string, since: int) {
    && Total(h, Deliveries(phone, since))
       <= CountSendsSince(rows, phone, since) + Total(h, ForgivenTo(phone)) + Total(h, LostTo(phone))
    && (since > now ==> Total(h, Deliveries(phone, since)) == 0)
  }

  /** The window sum never over-counts by more than the reach of the cap: the sends it counts are recorded ones. */
  predicate TraceLedger(h: History, rows: seq<Challenge>, phone: string, since: int) {
    Sum(rows, Traced(phone, since)) <= Total(h, Recorded(phone, since))
  }

  lemma HistoryOfOpening(h: History, e: Entry, phone: string)
    requires e.Opened?
    ensures LastOpening(Then(h, e), phone) == if e.row.phone == phone then Some(e) else LastOpening(h, phone)
    ensures Total(Then(h, e), ClearsOf(phone)) == Total(h, ClearsOf(phone))
    ensures Total(Then(h, e), ForgivenTo(phone)) == Total(h, ForgivenTo(phone))
  {
  }

  lemma OpeningAddsOne(rows: seq<Challenge>, row: Challenge, phone: string, since: int)
    requires row.phone == phone && row.sendsInWindow == 1 && row.sentAt >= since
    requires CountSendsSince(rows, phone, since) < MAX_SENDS_PER_WINDOW
    ensures Sum(rows + [row], Blank(phone)) == Sum(rows, Blank(phone))
    ensures Sum(rows + [row], Active(phone, since)) <= MAX_SENDS_PER_WINDOW + Sum(rows, Blank(phone))
  {
    SumAppend(rows, row, Blank(phone));
    SumAppend(rows, row, Active(phone, since));
    ActiveSendOrBlank(rows, phone, since);
  }

  /** A fresh request finds at most four counted sends, so at most four active rows beside the blank ones. */
  lemma OpeningKeepsOwnTally(h: History, rows: seq<Challenge>, now: int, e: Entry)
    requires e.Opened? && e.row.sendsInWindow == 1 && e.row.sentAt == e.at
    requires CountSendsSince(rows, e.row.phone, e.at - SEND_CAP_WINDOW) < MAX_SENDS_PER_WINDOW
    requires PhoneTally(h, rows, now, e.row.phone)
    ensures PhoneTally(Then(h, e), rows + [e.row], e.at, e.row.phone)
  {
    OpeningAddsOne(rows, e.row, e.row.phone, e.at - SEND_CAP_WINDOW);
    HistoryOfOpening(h, e, e.row.phone);
  }

  lemma OpeningKeepsOtherTally(h: History, rows: seq<Challenge>, now: int, e: Entry, phone: string)
    requires e.Opened? && e.row.phone != phone && now <= e.at
    requires PhoneTally(h, rows, now, phone)
    ensures PhoneTally(Then(h, e), rows + [e.row], e.at, phone)
  {
    SumAppend(rows, e.row, Blank(phone));
    HistoryOfOpening(h, e, phone);
    if LastOpening(h, phone).Some? {
      SumAppend(rows, e.row, Active(phone, LastOpening(h, phone).value.at - SEND_CAP_WINDOW));
    }
  }

  /** What an entry does to the columns the sums read. */
  lemma RowChange(row: Challenge, e: Entry, now: int)
    requires ChangesRow(e) && RowGuard(row, e) && now <= e.at && RowOk(row, now)
    ensures var row' := RowAfter(row, e);
            && row.phone == row'.phone == e.phone
            && (if e.Resent? then row.sentAt >= e.at - OTP_TTL && row'.sentAt == e.at else row'.sentAt == row.sentAt)
            && row'.sendsInWindow == (if e.Resent? then row.sendsInWindow + 1
                                      else if e.Cleared? then 0 else row.sendsInWindow)
            && (e.Cleared? ==> e.forgiven == row.sendsInWindow <= MAX_SENDS_PER_WINDOW)
  {
  }

  lemma HistoryOfRowChange(h: History, e: Entry, phone: string)
    requires ChangesRow(e)
    ensures LastOpening(Then(h, e), phone) == LastOpening(h, phone)
    ensures Total(Then(h, e), ClearsOf(phone)) ==
            Total(h, ClearsOf(phone)) + (if e.Cleared? && e.phone == phone then 1 else 0)
    ensures Total(Then(h, e), ForgivenTo(phone)) ==
            Total(h, ForgivenTo(phone)) + (if e.Cleared? && e.phone == phone then e.forgiven else 0)
  {
  }

  lemma BlankAfterChange(rows: seq<Challenge>, now: int, e: Entry, phone: string)
    requires ChangesRow(e) && e.id < |rows| && RowGuard(rows[e.id], e) && now <= e.at && RowOk(rows[e.id], now)
    ensures Sum(rows[e.id := RowAfter(rows[e.id], e)], Blank(phone))
            <= Sum(rows, Blank(phone)) + (if e.Cleared? && e.phone == phone then 1 else 0)
    ensures e.Cleared? ==> e.forgiven <= MAX_SENDS_PER_WINDOW
  {
    RowChange(rows[e.id], e, now);
    SumUpdate(rows, e.id, RowAfter(rows[e.id], e), Blank(phone));
  }

  /** A row that was sent again was active in any window of the cap's length that reaches near the present. */
  lemma ActiveAfterChange(rows: seq<Challenge>, now: int, e: Entry, phone: string, since: int)
    requires ChangesRow(e) && e.id < |rows| && RowGuard(rows[e.id], e) && now <= e.at && RowOk(rows[e.id], now)
    requires since <= now - SEND_CAP_WINDOW
    ensures Sum(rows[e.id := RowAfter(rows[e.id], e)], Active(phone, since)) <= Sum(rows, Active(phone, since))
  {
    RowChange(rows[e.id], e, now);
    SumUpdate(rows, e.id, RowAfter(rows[e.id], e), Active(phone, since));
  }

  /** A resend stays inside the window it was counted in; a clear blanks one row. */
  lemma RowChangeKeepsTally(h: History, rows: seq<Challenge>, now: int, e: Entry, phone: string)
    requires ChangesRow(e) && e.id < |rows| && RowGuard(rows[e.id], e) && now <= e.at && RowOk(rows[e.id], now)
    requires PhoneTally(h, rows, now, phone)
    ensures PhoneTally(Then(h, e), rows[e.id := RowAfter(rows[e.id], e)], e.at, phone)
  {
    HistoryOfRowChange(h, e, phone);
    BlankAfterChange(rows, now, e, phone);
    if LastOpening(h, phone).Some? {
      ActiveAfterChange(rows, now, e, phone, LastOpening(h, phone).value.at - SEND_CAP_WINDOW);
    }
  }

  lemma PhoneTallyStep(s: State, e: Entry, phone: string)
    requires RowsInv(s) && Guard(s.key, s.db, e) && s.now <= e.at
    requires PhoneTally(s.history, s.db.challenges, s.now, phone)
    ensures PhoneTally(Then(s.history, e), ChallengesAfter(s.db.challenges, e), e.at, phone)
  {
    if e.Opened? {
      if e.row.phone == phone {
        OpeningKeepsOwnTally(s.history, s.db.challenges, s.now, e);
      } else {
        OpeningKeepsOtherTally(s.history, s.db.challenges, s.now, e, phone);
      }
    } else if ChangesRow(e) {
      RowChangeKeepsTally(s.history, s.db.challenges, s.now, e, phone);
    }
  }

  /** A changed row's new count covers the delivery that changed it. */
  lemma RowChangeKeepsLedger(h: History, rows: seq<Challenge>, now: int, e: Entry, phone: string, since: int)
    requires ChangesRow(e) && e.id < |rows| && RowGuard(rows[e.id], e) && now <= e.at && RowOk(rows[e.id], now)
    requires Ledger(h, rows, now, phone, since)
    ensures Ledger(Then(h, e), rows[e.id := RowAfter(rows[e.id], e)], e.at, phone, since)
  {
    RowChange(rows[e.id], e, now);
    HistoryOfRowChange(h, e, phone);
    SumUpdate(rows, e.id, RowAfter(rows[e.id], e), Sends(phone, since));
  }

  lemma LedgerStep(s: State, e: Entry, phone: string, since: int)
    requires RowsInv(s) && Guard(s.key, s.db, e) && s.now <= e.at
    requires Ledger(s.history, s.db.challenges, s.now, phone, since)
    ensures Ledger(Then(s.history, e), ChallengesAfter(s.db.challenges, e), e.at, phone, since)
  {
    if e.Opened? {
      SumAppend(s.db.challenges, e.row, Sends(phone, since));
    } else if ChangesRow(e) {
      RowChangeKeepsLedger(s.history, s.db.challenges, s.now, e, phone, since);
    }
  }

  /** A resend comes at most ten minutes after the send before it, so it traces at most one send more. */
  lemma TracedOfRow(row: Challenge, e: Entry, now: int, phone: string, since: int)
    requires ChangesRow(e) && RowGuard(row, e) && now <= e.at && RowOk(row, now)
    ensures Share(RowAfter(row, e), Traced(phone, since)) <= Share(row, Traced(phone, since))
              + (if e.Resent? && e.phone == phone && since <= e.at then 1 else 0)
  {
  }

  lemma RowChangeKeepsTrace(h: History, rows: seq<Challenge>, now: int, e: Entry, phone: string, since: int)
    requires ChangesRow(e) && e.id < |rows| && RowGuard(rows[e.id], e) && now <= e.at && RowOk(rows[e.id], now)
    requires TraceLedger(h, rows, phone, since)
    ensures TraceLedger(Then(h, e), rows[e.id := RowAfter(rows[e.id], e)], phone, since)
  {
    TracedOfRow(rows[e.id], e, now, phone, since);
    SumUpdate(rows, e.id, RowAfter(rows[e.id], e), Traced(phone, since));
  }

  lemma TraceStep(s: State, e: Entry, phone: string, since: int)
    requires RowsInv(s) && Guard(s.key, s.db, e) && s.now <= e.at
    requires TraceLedger(s.history, s.db.challenges, phone, since)
    ensures TraceLedger(Then(s.history, e), ChallengesAfter(s.db.challenges, e), phone, since)
  {
    if e.Opened? {
      SumAppend(s.db.challenges, e.row, Traced(phone, since));
    } else if ChangesRow(e) {
      RowChangeKeepsTrace(s.history, s.db.challenges, s.now, e, phone, since);
    }
  }

  /** Every send the window sum counts lies within the reach of the cap. */
  lemma {:induction false} CountedWithinReach(rows: seq<Challenge>, phone: string, since: int)
    requires forall i | 0 <= i < |rows| :: rows[i].sendsInWindow <= MAX_SENDS_PER_WINDOW
    ensures CountSendsSince(rows, phone, since)
            <= Sum(rows, Traced(phone, since - OTP_TTL * (MAX_SENDS_PER_WINDOW - 1)))
  {
    if rows != [] {
      CountedWithinReach(rows[..|rows| - 1], phone, since);
    }
  }

  lemma {:induction false} WindowWithinDeliveries(h: History, phone: string, from: int, to: int)
    ensures Total(h, Within(phone, from, to)) <= Total(h, Deliveries(phone, from))
  {
    if h.Then? {
      WindowWithinDeliveries(h.past, phone, from, to);
    }
  }

  /** A window's worth of deliveries: the square of the cap, ten more for each clear, one for each unrecorded one. */
  function WindowLimit(h: History, phone: string): nat {
    25 + 10 * Total(h, ClearsOf(phone)) + Total(h, LostTo(phone))
  }

  lemma ActiveBound(h: History, rows: seq<Challenge>, now: int, phone: string, since: int)
    requires PhoneTally(h, rows, now, phone) && now <= since + SEND_CAP_WINDOW
    ensures Sum(rows, Active(phone, since)) <= MAX_SENDS_PER_WINDOW + Total(h, ClearsOf(phone))
  {
    match LastOpening(h, phone)
    case None => NoRowsNoSum(rows, Active(phone, since));
    case Some(o) => LaterWindow(rows, phone, o.at - SEND_CAP_WINDOW, since);
  }

  /** A window that reaches the present keeps within the limit. */
  lemma PresentWindow(h: History, rows: seq<Challenge>, now: int, phone: string, since: int)
    requires forall i | 0 <= i < |rows| :: rows[i].sendsInWindow <= MAX_SENDS_PER_WINDOW
    requires PhoneTally(h, rows, now, phone) && Ledger(h, rows, now, phone, since)
    requires now <= since + SEND_CAP_WINDOW
    ensures Total(h, Deliveries(phone, since)) <= WindowLimit(h, phone)
  {
    ActiveBound(h, rows, now, phone, since);
    SendsPerActive(rows, phone, since);
    assert CountSendsSince(rows, phone, since) <= 25 + 5 * Total(h, ClearsOf(phone));
  }
}
