/** Without clears a phone takes at most 49 wrong guesses in half an hour: fifty would need ten challenges guessed five
    times each, but the second five can only be asked for while the latest of the first five is not locked. */
module GuessLimit {
  import opened Domain
  import opened Storage
  import opened Protocol
  import opened History
  import opened Counting
  import opened Runs
  import opened Invariants
  import opened Phones
  import opened Records
  import opened ReachableStates
  import opened GuessTheorems

  /** The last instant of the window. */
  function End(from: int): int {
    from + SEND_CAP_WINDOW
  }

  /** The end of the cap's window over the first challenges that can be guessed in this one. */
  function Late(from: int): int {
    from - OTP_TTL + SEND_CAP_WINDOW
  }

  // --- Sums over a range of rows ---

  function RangeSum(rows: seq<Challenge>, m: Measure, lo: nat, hi: nat): nat
    requires hi <= |rows|
  {
    if hi <= lo then 0 else RangeSum(rows, m, lo, hi - 1) + Share(rows[hi - 1], m)
  }

  lemma {:induction false} RangeIsSum(rows: seq<Challenge>, m: Measure, hi: nat)
    requires hi <= |rows|
    ensures RangeSum(rows, m, 0, hi) == Sum(rows[..hi], m)
  {
    if hi > 0 {
      RangeIsSum(rows, m, hi - 1);
      assert rows[..hi][..hi - 1] == rows[..hi - 1];
    }
  }

  lemma {:induction false} RangeSplits(rows: seq<Challenge>, m: Measure, mid: nat, hi: nat)
    requires mid <= hi <= |rows|
    ensures RangeSum(rows, m, 0, hi) == RangeSum(rows, m, 0, mid) + RangeSum(rows, m, mid, hi)
  {
    if mid < hi {
      RangeSplits(rows, m, mid, hi - 1);
    }
  }

  lemma {:induction false} RangeCompare(rows: seq<Challenge>, m: Measure, rows': seq<Challenge>, m': Measure,
                                        lo: nat, hi: nat)
    requires hi <= |rows| && hi <= |rows'|
    requires forall i | lo <= i < hi :: Share(rows[i], m) <= Share(rows'[i], m')
    ensures RangeSum(rows, m, lo, hi) <= RangeSum(rows', m', lo, hi)
  {
    if lo < hi {
      RangeCompare(rows, m, rows', m', lo, hi - 1);
    }
  }

  lemma {:induction false} RangeZero(rows: seq<Challenge>, m: Measure, lo: nat, hi: nat)
    requires hi <= |rows| && forall i | lo <= i < hi :: Share(rows[i], m) == 0
    ensures RangeSum(rows, m, lo, hi) == 0
  {
    if lo < hi {
      RangeZero(rows, m, lo, hi - 1);
    }
  }

  lemma {:induction false} RangeHolds(rows: seq<Challenge>, m: Measure, lo: nat, hi: nat, i: nat)
    requires lo <= i < hi <= |rows|
    ensures Share(rows[i], m) <= RangeSum(rows, m, lo, hi)
  {
    if i < hi - 1 {
      RangeHolds(rows, m, lo, hi - 1, i);
    }
  }

  // --- Guesses, row by row ---

  function MissesOfRow(h: History, row: Challenge, phone: string, from: int, i: nat): nat {
    if row.phone == phone then Total(h, MissesIn(i, from, End(from))) else 0
  }

  function RowMisses(h: History, rows: seq<Challenge>, phone: string, from: int, lo: nat, hi: nat): nat
    requires hi <= |rows|
  {
    if hi <= lo then 0 else RowMisses(h, rows, phone, from, lo, hi - 1) + MissesOfRow(h, rows[hi - 1], phone, from, hi - 1)
  }

  lemma {:induction false} RowMissesSplit(h: History, rows: seq<Challenge>, phone: string, from: int, mid: nat, hi: nat)
    requires mid <= hi <= |rows|
    ensures RowMisses(h, rows, phone, from, 0, hi)
         == RowMisses(h, rows, phone, from, 0, mid) + RowMisses(h, rows, phone, from, mid, hi)
  {
    if mid < hi {
      RowMissesSplit(h, rows, phone, from, mid, hi - 1);
    }
  }

  lemma {:induction false} RowMissesStep(h: History, e: Entry, rows: seq<Challenge>, rows': seq<Challenge>, phone: string,
                                         from: int, hi: nat)
    requires hi <= |rows| && hi <= |rows'| && forall i | 0 <= i < hi :: rows'[i].phone == rows[i].phone
    ensures RowMisses(Then(h, e), rows', phone, from, 0, hi) == RowMisses(h, rows, phone, from, 0, hi)
            + (if e.Missed? && from <= e.at <= End(from) && e.id < hi && rows[e.id].phone == phone then 1 else 0)
  {
    if hi > 0 {
      RowMissesStep(h, e, rows, rows', phone, from, hi - 1);
    }
  }

  lemma {:induction false} MissesInWithin(h: History, id: nat, from: int, to: int)
    ensures Total(h, MissesIn(id, from, to)) <= Total(h, MissesOn(id))
  {
    if h.Then? {
      MissesInWithin(h.past, id, from, to);
    }
  }

  lemma {:induction false} MissesAndSlips(h: History, phone: string, from: int, to: int)
    ensures Total(h, GuessesAt(phone, from, to)) <= Total(h, MissedAt(phone, from, to)) + Total(h, SlipsOf(phone))
  {
    if h.Then? {
      MissesAndSlips(h.past, phone, from, to);
    }
  }

  /** Five guesses for each active row; one less if an active row took at most four. */
  lemma {:induction false} MissesPerActive(h: History, rows: seq<Challenge>, phone: string, from: int, lo: nat, hi: nat,
                                           l: nat)
    requires hi <= |rows|
    requires forall i: nat | i < hi :: MissesOfRow(h, rows[i], phone, from, i) <= 5
    requires forall i: nat | i < hi :: MissesOfRow(h, rows[i], phone, from, i) > 0 ==> rows[i].sentAt >= from - OTP_TTL
    ensures RowMisses(h, rows, phone, from, lo, hi) <= 5 * RangeSum(rows, Active(phone, from - OTP_TTL), lo, hi)
    ensures lo <= l < hi && rows[l].phone == phone && rows[l].sentAt >= from - OTP_TTL
            && MissesOfRow(h, rows[l], phone, from, l) <= 4 ==>
              RowMisses(h, rows, phone, from, lo, hi) < 5 * RangeSum(rows, Active(phone, from - OTP_TTL), lo, hi)
  {
    if lo < hi {
      MissesPerActive(h, rows, phone, from, lo, hi - 1, l);
    }
  }

  // --- What every run keeps ---

  /** A row guessed in the window was sent shortly before it, and if it is locked stays so until its end. */
  ghost predicate RowFact(h: History, row: Challenge, phone: string, from: int, i: nat) {
    row.phone == phone ==>
      && Total(h, ClearsOn(i)) <= Total(h, ClearsOf(phone))
      && (Total(h, MissesIn(i, from, End(from))) > 0 ==>
            row.sentAt >= from - OTP_TTL && (row.lockedUntil.Some? ==> row.lockedUntil.value >= End(from)))
  }

  lemma RowFactStep(h: History, row: Challenge, e: Entry, now: int, phone: string, from: int)
    requires ChangesRow(e) && RowGuard(row, e) && now <= e.at && RowOk(row, now) && EndsBy(h, now)
    requires RowFact(h, row, phone, from, e.id)
    ensures RowFact(Then(h, e), RowAfter(row, e), phone, from, e.id)
  {
    NoMissesYet(h, e.id, from, now);
  }

  lemma {:induction false} NoMissesYet(h: History, id: nat, from: int, now: int)
    requires EndsBy(h, now)
    ensures now < from ==> Total(h, MissesIn(id, from, End(from))) == 0
  {
    if h.Then? {
      NoMissesYet(h.past, id, from, now);
    }
  }

  lemma RowFactElsewhere(h: History, row: Challenge, e: Entry, phone: string, from: int, i: nat)
    requires RowFact(h, row, phone, from, i) && !(ChangesRow(e) && e.id == i)
    ensures RowFact(Then(h, e), row, phone, from, i)
  {
  }

  ghost predicate RowFacts(h: History, rows: seq<Challenge>, phone: string, from: int) {
    forall i: nat | i < |rows| :: RowFact(h, rows[i], phone, from, i)
  }

  /** No guess has been made yet on a challenge that does not exist yet. */
  lemma NewRowUnguessed(h: History, rows: seq<Challenge>, from: int)
    requires Tally(h, rows, |rows|)
    ensures Total(h, MissesIn(|rows|, from, End(from))) == Total(h, ClearsOn(|rows|)) == 0
  {
    MissesInWithin(h, |rows|, from, End(from));
  }

  lemma RowFactsStep(s: State, e: Entry, phone: string, from: int)
    requires RowsInv(s) && EndsBy(s.history, s.now) && Guard(s.key, s.db, e) && s.now <= e.at
    requires Total(s.history, MissesIn(|s.db.challenges|, from, End(from))) == 0
    requires Total(s.history, ClearsOn(|s.db.challenges|)) == 0
    requires RowFacts(s.history, s.db.challenges, phone, from)
    ensures RowFacts(Then(s.history, e), ChallengesAfter(s.db.challenges, e), phone, from)
  {
    var rows, rows' := s.db.challenges, ChallengesAfter(s.db.challenges, e);
    forall i: nat | i < |rows'|
      ensures RowFact(Then(s.history, e), rows'[i], phone, from, i)
    {
      if i < |rows| {
        if ChangesRow(e) && e.id == i {
          RowFactStep(s.history, rows[i], e, s.now, phone, from);
        } else {
          RowFactElsewhere(s.history, rows[i], e, phone, from, i);
        }
      }
    }
  }

  /** The guesses of a phone are those on its rows. */
  ghost predicate ByRows(h: History, rows: seq<Challenge>, phone: string, from: int) {
    Total(h, MissedAt(phone, from, End(from))) == RowMisses(h, rows, phone, from, 0, |rows|)
  }

  lemma ByRowsStep(s: State, e: Entry, phone: string, from: int)
    requires RowsInv(s) && Guard(s.key, s.db, e) && s.now <= e.at
    requires Total(s.history, MissesIn(|s.db.challenges|, from, End(from))) == 0
    requires ByRows(s.history, s.db.challenges, phone, from)
    ensures ByRows(Then(s.history, e), ChallengesAfter(s.db.challenges, e), phone, from)
  {
    var rows, rows' := s.db.challenges, ChallengesAfter(s.db.challenges, e);
    if ChangesRow(e) {
      RowChange(rows[e.id], e, s.now);
    }
    RowMissesStep(s.history, e, rows, rows', phone, from, |rows|);
    if e.Opened? {
      assert RowMisses(Then(s.history, e), rows', phone, from, 0, |rows'|)
          == RowMisses(Then(s.history, e), rows', phone, from, 0, |rows|);
    }
  }

  // --- The first challenge opened late in the window ---

  function FirstLate(h: History, phone: string, from: int): (f: Option<Entry>)
    ensures f.Some? ==> f.value.Opened? && f.value.row.phone == phone && f.value.at > Late(from)
  {
    match h
    case Start => None
    case Then(past, e) =>
      if FirstLate(past, phone, from).Some? then FirstLate(past, phone, from)
      else if e.Opened? && e.row.phone == phone && e.at > Late(from) then Some(e) else None
  }

  lemma {:induction false} NoneLate(h: History, phone: string, from: int)
    requires FirstLate(h, phone, from).None?
    ensures LastOpening(h, phone).Some? ==> LastOpening(h, phone).value.at <= Late(from)
  {
    if h.Then? {
      NoneLate(h.past, phone, from);
    }
  }

  /** The latest challenge when the first late one was asked for: it could still be sent codes, or it was used up
      with at most four guesses in the window. */
  ghost predicate Pivot(h: History, rows: seq<Challenge>, phone: string, from: int, f: Entry, l: nat)
    requires f.Opened?
  {
    && l < f.id && l < |rows| && rows[l].phone == phone
    && (|| rows[l].sentAt >= f.at - OTP_TTL
        || (from - OTP_TTL <= rows[l].sentAt && Total(h, MissesIn(l, from, End(from))) <= 4))
  }

  ghost predicate EarlyRows(h: History, rows: seq<Challenge>, phone: string, from: int, f: Entry)
    requires f.Opened? && f.id <= |rows|
  {
    var early := RangeSum(rows, Active(phone, from - OTP_TTL), 0, f.id);
    early <= MAX_SENDS_PER_WINDOW && (early == 0 || f.at >= End(from) || exists l: nat :: Pivot(h, rows, phone, from, f, l))
  }

  ghost predicate LateRows(rows: seq<Challenge>, phone: string, from: int, f: Entry)
    requires f.Opened?
  {
    && f.id < |rows| && rows[f.id].phone == phone
    && (forall i | f.id <= i < |rows| && rows[i].phone == phone :: rows[i].sentAt >= f.at)
    && (f.at >= End(from) ==> forall i | f.id < i < |rows| :: rows[i].phone != phone)
  }

  ghost predicate LateOk(s: State, phone: string, from: int) {
    match FirstLate(s.history, phone, from)
    case None => true
    case Some(f) =>
      && f.id < |s.db.challenges| && f.at <= s.now
      && EarlyRows(s.history, s.db.challenges, phone, from, f) && LateRows(s.db.challenges, phone, from, f)
  }

  /** Without a late opening at most five rows were sent since a code's lifetime before the window. */
  lemma FewBeforeLate(s: State, phone: string, from: int)
    requires PhoneTally(s.history, s.db.challenges, s.now, phone) && FirstLate(s.history, phone, from).None?
    requires Total(s.history, ClearsOf(phone)) == 0
    ensures Sum(s.db.challenges, Active(phone, from - OTP_TTL)) <= MAX_SENDS_PER_WINDOW
  {
    var rows := s.db.challenges;
    NoneLate(s.history, phone, from);
    match LastOpening(s.history, phone)
    case None => NoRowsNoSum(rows, Active(phone, from - OTP_TTL));
    case Some(o) => LaterWindow(rows, phone, o.at - SEND_CAP_WINDOW, from - OTP_TTL);
  }

  /** What the latest row of the phone is like when a code is asked for late in the window. */
  lemma LatestIsPivot(s: State, e: Entry, phone: string, from: int, l: nat)
    requires Inv(s) && RowFacts(s.history, s.db.challenges, phone, from) && Total(s.history, ClearsOf(phone)) == 0
    requires e.Opened? && e.id == |s.db.challenges| && e.at < End(from)
    requires IsLatest(s.db.challenges, phone, l) && !s.db.challenges[l].IsLocked(e.at)
    requires s.db.challenges[l].sentAt >= from - OTP_TTL
    ensures Pivot(s.history, s.db.challenges, phone, from, e, l)
  {
    assert Tally(s.history, s.db.challenges, l) && RowFact(s.history, s.db.challenges[l], phone, from, l);
    MissesInWithin(s.history, l, from, End(from));
  }

  lemma EarlyStart(s: State, e: Entry, phone: string, from: int)
    requires Inv(s) && RowFacts(s.history, s.db.challenges, phone, from) && Total(s.history, ClearsOf(phone)) == 0
    requires e.Opened? && e.id == |s.db.challenges| && PhoneOpen(s.db.challenges, phone, e.at)
    requires FirstLate(s.history, phone, from).None?
    ensures EarlyRows(s.history, s.db.challenges, phone, from, e)
  {
    var rows, m := s.db.challenges, Active(phone, from - OTP_TTL);
    assert PhoneTally(s.history, rows, s.now, phone);
    FewBeforeLate(s, phone, from);
    RangeIsSum(rows, m, |rows|);
    assert rows[..|rows|] == rows;
    var pick: Option<nat> :| LatestOk(rows, phone, pick)
      && (pick.Some? ==> !rows[pick.value].IsLocked(e.at) && rows[pick.value].ResendReady(e.at));
    if pick.None? || rows[pick.value].sentAt < from - OTP_TTL {
      RangeZero(rows, m, 0, |rows|);
    } else if e.at < End(from) {
      LatestIsPivot(s, e, phone, from, pick.value);
    }
  }

  /** Appending a row, or any entry on another row, leaves the early rows as they are. */
  lemma EarlySame(h: History, rows: seq<Challenge>, e: Entry, rows': seq<Challenge>, phone: string, from: int, f: Entry)
    requires f.Opened? && f.id <= |rows| <= |rows'| && EarlyRows(h, rows, phone, from, f)
    requires forall i | 0 <= i < f.id :: EarlyRowKept(rows[i], rows'[i], phone, from, f)
    requires e.Missed? && e.id < f.id && rows[e.id].phone == phone ==> rows[e.id].sentAt >= f.at - OTP_TTL
    ensures EarlyRows(Then(h, e), rows', phone, from, f)
  {
    var m := Active(phone, from - OTP_TTL);
    RangeCompare(rows, m, rows', m, 0, f.id);
    RangeCompare(rows', m, rows, m, 0, f.id);
    if l: nat :| Pivot(h, rows, phone, from, f, l) {
      assert EarlyRowKept(rows[l], rows'[l], phone, from, f);
      assert Pivot(Then(h, e), rows', phone, from, f, l);
    }
  }

  /** An early row that was used up by the first late opening is never sent again; one that was not stays recent. */
  predicate EarlyRowKept(row: Challenge, row': Challenge, phone: string, from: int, f: Entry) {
    && row'.phone == row.phone && row.sentAt <= row'.sentAt
    && (row.phone == phone && row.sentAt < f.at - OTP_TTL ==> row'.sentAt == row.sentAt)
    && (row.phone == phone ==> Share(row', Active(phone, from - OTP_TTL)) == Share(row, Active(phone, from - OTP_TTL)))
  }

  lemma EarlyStep(s: State, e: Entry, s': State, phone: string, from: int, f: Entry)
    requires Moves(s, e, s') && f.Opened? && f.id < |s.db.challenges| && Late(from) < f.at <= s.now
    requires EarlyRows(s.history, s.db.challenges, phone, from, f)
    ensures EarlyRows(s'.history, s'.db.challenges, phone, from, f)
  {
    var rows, rows' := s.db.challenges, s'.db.challenges;
    ChallengesOfEffect(s.db, e);
    if ChangesRow(e) {
      RowChange(rows[e.id], e, s.now);
    }
    EarlySame(s.history, rows, e, rows', phone, from, f);
  }

  lemma LateStep(s: State, e: Entry, s': State, phone: string, from: int, f: Entry)
    requires Moves(s, e, s') && f.Opened? && f.row.phone == phone && f.id < |s.db.challenges| && f.at <= s.now
    requires e.at <= End(from)
    requires LateRows(s.db.challenges, phone, from, f)
    ensures LateRows(s'.db.challenges, phone, from, f)
  {
    var rows := s.db.challenges;
    ChallengesOfEffect(s.db, e);
    if ChangesRow(e) {
      RowChange(rows[e.id], e, s.now);
    }
  }

  lemma LateKept(s: State, e: Entry, s': State, phone: string, from: int, f: Entry)
    requires Moves(s, e, s') && e.at <= End(from)
    requires FirstLate(s.history, phone, from) == Some(f) && LateOk(s, phone, from)
    ensures LateOk(s', phone, from)
  {
    assert f.id < |s'.db.challenges| && f.at <= s'.now by {
      ChallengesOfEffect(s.db, e);
    }
    assert EarlyRows(s'.history, s'.db.challenges, phone, from, f) by {
      EarlyStep(s, e, s', phone, from, f);
    }
    assert LateRows(s'.db.challenges, phone, from, f) by {
      LateStep(s, e, s', phone, from, f);
    }
  }

  lemma LateBegins(s: State, e: Entry, s': State, phone: string, from: int)
    requires Moves(s, e, s') && Total(s.history, ClearsOf(phone)) == 0
    requires RowFacts(s.history, s.db.challenges, phone, from) && FirstLate(s.history, phone, from).None?
    requires e.Opened? && e.row.phone == phone && e.at > Late(from)
    ensures LateOk(s', phone, from)
  {
    EarlyStart(s, e, phone, from);
    EarlySame(s.history, s.db.challenges, e, s'.db.challenges, phone, from, e);
  }

  lemma LateOkStep(s: State, e: Entry, s': State, phone: string, from: int)
    requires Moves(s, e, s') && e.at <= End(from) && Total(s.history, ClearsOf(phone)) == 0
    requires RowFacts(s.history, s.db.challenges, phone, from) && LateOk(s, phone, from)
    ensures LateOk(s', phone, from)
  {
    if FirstLate(s.history, phone, from).Some? {
      LateKept(s, e, s', phone, from, FirstLate(s.history, phone, from).value);
    } else if FirstLate(s'.history, phone, from).Some? {
      LateBegins(s, e, s', phone, from);
    }
  }

  // --- The bound ---

  lemma RowsTakeFive(s: State, phone: string, from: int)
    requires RowsInv(s) && (forall i: nat :: Tally(s.history, s.db.challenges, i))
    requires RowFacts(s.history, s.db.challenges, phone, from) && Total(s.history, ClearsOf(phone)) == 0
    ensures forall i: nat | i < |s.db.challenges| ::
              && MissesOfRow(s.history, s.db.challenges[i], phone, from, i) <= 5
              && (MissesOfRow(s.history, s.db.challenges[i], phone, from, i) > 0 ==>
                    s.db.challenges[i].sentAt >= from - OTP_TTL)
  {
    forall i: nat | i < |s.db.challenges|
      ensures MissesOfRow(s.history, s.db.challenges[i], phone, from, i) <= 5
      ensures MissesOfRow(s.history, s.db.challenges[i], phone, from, i) > 0 ==>
                s.db.challenges[i].sentAt >= from - OTP_TTL
    {
      assert Tally(s.history, s.db.challenges, i) && RowFact(s.history, s.db.challenges[i], phone, from, i);
      MissesInWithin(s.history, i, from, End(from));
    }
  }

  /** The rows from the first late one on, and beside them an early one still sent codes, fit one window. */
  lemma LateFitsWindow(s: State, phone: string, from: int, f: Entry, since: int)
    requires f.Opened? && f.id <= |s.db.challenges| && LateRows(s.db.challenges, phone, from, f)
    requires since <= f.at && s.now <= since + SEND_CAP_WINDOW && RowsInv(s)
    requires BandTally(s.history, s.db.challenges, phone, since) && Total(s.history, ClearsOf(phone)) == 0
    ensures RangeSum(s.db.challenges, Band(phone, since, since + SEND_CAP_WINDOW), 0, f.id)
            + RangeSum(s.db.challenges, Active(phone, from - OTP_TTL), f.id, |s.db.challenges|) <= 5
  {
    var rows, m, n := s.db.challenges, Band(phone, since, since + SEND_CAP_WINDOW), |s.db.challenges|;
    assert rows[..n] == rows;
    RangeIsSum(rows, m, n);
    RangeSplits(rows, m, f.id, n);
    forall i | f.id <= i < n
      ensures Share(rows[i], Active(phone, from - OTP_TTL)) <= Share(rows[i], m)
    {
      assert RowOk(rows[i], s.now);
    }
    RangeCompare(rows, Active(phone, from - OTP_TTL), rows, m, f.id, n);
  }

  ghost predicate LimitInv(s: State, phone: string, from: int) {
    && GuessInv(s.history, s.db.challenges, phone)
    && RowFacts(s.history, s.db.challenges, phone, from) && ByRows(s.history, s.db.challenges, phone, from)
  }

  /** Only one challenge is opened at the very end of the window. */
  lemma LastInstantTakesOne(s: State, phone: string, from: int, f: Entry)
    requires f.Opened? && f.id < |s.db.challenges| && LateRows(s.db.challenges, phone, from, f) && f.at >= End(from)
    ensures RangeSum(s.db.challenges, Active(phone, from - OTP_TTL), f.id, |s.db.challenges|) <= 1
  {
    var rows, m := s.db.challenges, Active(phone, from - OTP_TTL);
    RangeZero(rows, m, f.id + 1, |rows|);
    OneThenRest(rows, m, f.id, |rows|);
  }

  lemma {:induction false} OneThenRest(rows: seq<Challenge>, m: Measure, lo: nat, hi: nat)
    requires lo < hi <= |rows|
    ensures RangeSum(rows, m, lo, hi) == Share(rows[lo], m) + RangeSum(rows, m, lo + 1, hi)
  {
    if lo + 1 < hi {
      OneThenRest(rows, m, lo, hi - 1);
    }
  }

  lemma LateBound(s: State, phone: string, from: int, f: Entry)
    requires LimitInv(s, phone, from) && RowsInv(s) && s.now <= End(from) && Late(from) < f.at
    requires Total(s.history, ClearsOf(phone)) == 0
    requires f.Opened? && f.id < |s.db.challenges| && LateRows(s.db.challenges, phone, from, f)
    ensures RangeSum(s.db.challenges, Active(phone, from - OTP_TTL), f.id, |s.db.challenges|) <= 5
    ensures (exists l: nat :: l < f.id && s.db.challenges[l].phone == phone && s.db.challenges[l].sentAt >= f.at - OTP_TTL) ==>
              RangeSum(s.db.challenges, Active(phone, from - OTP_TTL), f.id, |s.db.challenges|) <= 4
  {
    assert BandTally(s.history, s.db.challenges, phone, f.at);
    LateFitsWindow(s, phone, from, f, f.at);
    if l: nat :| l < f.id && s.db.challenges[l].phone == phone && s.db.challenges[l].sentAt >= f.at - OTP_TTL {
      var since := f.at - OTP_TTL;
      assert BandTally(s.history, s.db.challenges, phone, since);
      LateFitsWindow(s, phone, from, f, since);
      assert RowOk(s.db.challenges[l], s.now);
      RangeHolds(s.db.challenges, Band(phone, since, since + SEND_CAP_WINDOW), 0, f.id, l);
    }
  }

  lemma MissesWithLate(s: State, phone: string, from: int, f: Entry)
    requires Inv(s) && LimitInv(s, phone, from) && s.now <= End(from) && Late(from) < f.at
    requires Total(s.history, ClearsOf(phone)) == 0
    requires f.Opened? && f.id < |s.db.challenges| && LateRows(s.db.challenges, phone, from, f)
    requires EarlyRows(s.history, s.db.challenges, phone, from, f)
    ensures RowMisses(s.history, s.db.challenges, phone, from, 0, |s.db.challenges|) <= 49
  {
    var h, rows, n := s.history, s.db.challenges, |s.db.challenges|;
    RowsTakeFive(s, phone, from);
    RowMissesSplit(h, rows, phone, from, f.id, n);
    MissesPerActive(h, rows, phone, from, 0, f.id, 0);
    MissesPerActive(h, rows, phone, from, f.id, n, 0);
    LateBound(s, phone, from, f);
    if f.at >= End(from) {
      LastInstantTakesOne(s, phone, from, f);
    } else if l: nat :| Pivot(h, rows, phone, from, f, l) {
      MissesPerActive(h, rows, phone, from, 0, f.id, l);
    }
  }

  lemma PresentLimit(s: State, phone: string, from: int)
    requires Inv(s) && LimitInv(s, phone, from) && LateOk(s, phone, from) && s.now <= End(from)
    requires Total(s.history, ClearsOf(phone)) == 0
    ensures Total(s.history, MissedAt(phone, from, End(from))) <= 49
  {
    var h, rows, n := s.history, s.db.challenges, |s.db.challenges|;
    match FirstLate(h, phone, from)
    case Some(f) => MissesWithLate(s, phone, from, f);
    case None =>
      assert PhoneTally(h, rows, s.now, phone);
      FewBeforeLate(s, phone, from);
      RangeIsSum(rows, Active(phone, from - OTP_TTL), n);
      assert rows[..n] == rows;
      RowsTakeFive(s, phone, from);
      MissesPerActive(h, rows, phone, from, 0, n, 0);
  }

  ghost predicate Limited(s: State, phone: string, from: int) {
    && LimitInv(s, phone, from)
    && (Total(s.history, ClearsOf(phone)) == 0 ==>
          && (s.now <= End(from) ==> LateOk(s, phone, from))
          && Total(s.history, MissedAt(phone, from, End(from))) <= 49)
  }

  lemma LimitInvStep(s: State, e: Entry, s': State, phone: string, from: int)
    requires Moves(s, e, s') && LimitInv(s, phone, from)
    ensures LimitInv(s', phone, from)
  {
    ChallengesOfEffect(s.db, e);
    GuessInvStep(s, e, s', phone);
    NewRowUnguessed(s.history, s.db.challenges, from);
    RowFactsStep(s, e, phone, from);
    ByRowsStep(s, e, phone, from);
  }

  lemma LimitedStep(s: State, e: Entry, s': State, phone: string, from: int)
    requires Moves(s, e, s') && Limited(s, phone, from)
    ensures Limited(s', phone, from)
  {
    LimitInvStep(s, e, s', phone, from);
    if Total(s'.history, ClearsOf(phone)) == 0 {
      if s'.now <= End(from) {
        LateOkStep(s, e, s', phone, from);
        LimitAfter(s', phone, from);
      } else {
        PastTheEnd(s.history, e, phone, from);
      }
    }
  }

  lemma LimitAfter(s: State, phone: string, from: int)
    requires Inv(s) && LimitInv(s, phone, from) && LateOk(s, phone, from) && s.now <= End(from)
    requires Total(s.history, ClearsOf(phone)) == 0
    ensures Limited(s, phone, from)
  {
    PresentLimit(s, phone, from);
  }

  lemma PastTheEnd(h: History, e: Entry, phone: string, from: int)
    requires e.at > End(from)
    ensures Total(Then(h, e), MissedAt(phone, from, End(from))) == Total(h, MissedAt(phone, from, End(from)))
  {
  }

  /** Without clears at most 49 recorded wrong guesses fall on a phone in any 30 minutes, over all its challenges, and
      one more for each that the store failed to record. */
  lemma PhoneTakesFortyNine(s: State, phone: string, from: int)
    requires Reachable(s) && Total(s.history, ClearsOf(phone)) == 0
    ensures Total(s.history, MissedAt(phone, from, from + SEND_CAP_WINDOW)) <= 49
    ensures Total(s.history, GuessesAt(phone, from, from + SEND_CAP_WINDOW)) <= 49 + Total(s.history, SlipsOf(phone))
  {
    var run: Run, key, start :| run.Valid() && run.First() == Init(key, start) && run.Last() == s;
    InitKeeps(key, start);
    var P := (s: State) => Limited(s, phone, from);
    forall s: State, e, s': State | Moves(s, e, s') && P(s)
      ensures P(s')
    {
      LimitedStep(s, e, s', phone, from);
    }
    RunInduction(run, |run.calls|, P);
    MissesAndSlips(s.history, phone, from, End(from));
  }
}
