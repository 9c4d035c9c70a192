/** What every entry keeps, one challenge at a time. */
module Invariants {
  import opened Domain
  import opened Protocol
  import opened History
  import opened Runs

  /** The lock of a row always outlives its code: LOCKOUT_DURATION exceeds OTP_TTL. */
  predicate RowOk(row: Challenge, now: int) {
    && row.sentAt <= now
    && row.expiresAt == row.sentAt + OTP_TTL
    && row.sendsInWindow <= MAX_SENDS_PER_WINDOW
    && !row.intent.OtherIntent?
    && row.status != Expired
    && (row.status == Locked <==> row.lockedUntil.Some?)
    && (row.lockedUntil.Some? ==>
          row.expiresAt + (LOCKOUT_DURATION - OTP_TTL) <= row.lockedUntil.value <= now + LOCKOUT_DURATION)
  }

  ghost predicate RowsInv(s: State) {
    forall i | 0 <= i < |s.db.challenges| :: RowOk(s.db.challenges[i], s.now)
  }

  lemma LockedIsDead(row: Challenge, now: int, at: int)
    requires RowOk(row, now) && row.lockedUntil.Some?
    ensures row.Dead(at)
  {
  }

  lemma RowStep(row: Challenge, e: Entry, now: int)
    requires ChangesRow(e) && RowGuard(row, e) && now <= e.at && RowOk(row, now)
    ensures RowOk(RowAfter(row, e), e.at)
  {
  }

  lemma RowsStep(s: State, e: Entry)
    requires RowsInv(s) && Guard(s.key, s.db, e) && s.now <= e.at
    ensures RowsInv(Next(s, e))
  {
    ChallengesOfEffect(s.db, e);
    if ChangesRow(e) {
      RowStep(s.db.challenges[e.id], e, s.now);
    }
  }

  /** A row's columns are what its history makes them. */
  ghost predicate RowTally(h: History, row: Challenge, i: nat) {
    var clears, forgiven := Total(h, ClearsOn(i)), Total(h, ForgivenOn(i));
    && Total(h, MissesOn(i)) == row.failedAttempts
    && row.failedAttempts < MAX_FAILED_ATTEMPTS + clears + (if row.lockedUntil.Some? then 1 else 0)
    && Total(h, SentOn(i)) == row.sendsInWindow + forgiven
    && forgiven <= MAX_SENDS_PER_WINDOW * clears
    && (row.status == Pending ==> !Consumed(h, i)) && (row.status == Verified ==> Consumed(h, i))
    && LockEnd(h, i) == row.lockedUntil
    && CodeOn(h, i) == Some(Code(row.codeHash.code, row.phone, row.sentAt))
    && OpeningOf(h, i).Some?
    && var opening := OpeningOf(h, i).value;
       && row.expiresAt <= opening.at + OTP_TTL * Total(h, SentOn(i))
       && opening.row.phone == row.phone && opening.row.intent == row.intent
       && opening.row.role == row.role && opening.row.language == row.language && opening.row.google == row.google
  }

  /** Nothing happened yet on a challenge that does not exist yet. */
  ghost predicate Untouched(h: History, i: nat) {
    && Total(h, MissesOn(i)) == Total(h, SentOn(i)) == Total(h, ForgivenOn(i)) == 0
    && Total(h, ClearsOn(i)) == 0 && !Consumed(h, i)
    && LockEnd(h, i).None? && OpeningOf(h, i).None? && CodeOn(h, i).None?
  }

  ghost predicate Tally(h: History, rows: seq<Challenge>, i: nat) {
    if i < |rows| then RowTally(h, rows[i], i) else Untouched(h, i)
  }

  /** The entry concerns challenge `i`. */
  predicate Concerns(e: Entry, i: nat) {
    (e.Opened? || ChangesRow(e)) && e.id == i
  }

  lemma RowElsewhere(rows: seq<Challenge>, e: Entry, i: nat)
    requires (ChangesRow(e) ==> e.id < |rows|) && !Concerns(e, i) && (e.Opened? ==> e.id == |rows|)
    ensures var rows' := ChallengesAfter(rows, e);
            if i < |rows| then i < |rows'| && rows'[i] == rows[i] else i >= |rows'|
  {
  }

  lemma HistoryElsewhere(h: History, e: Entry, i: nat)
    requires !Concerns(e, i)
    ensures var h' := Then(h, e);
            && Total(h', MissesOn(i)) == Total(h, MissesOn(i)) && Total(h', SentOn(i)) == Total(h, SentOn(i))
            && Total(h', ForgivenOn(i)) == Total(h, ForgivenOn(i)) && Total(h', ClearsOn(i)) == Total(h, ClearsOn(i))
            && Consumed(h', i) == Consumed(h, i) && LockEnd(h', i) == LockEnd(h, i)
            && CodeOn(h', i) == CodeOn(h, i) && OpeningOf(h', i) == OpeningOf(h, i)
  {
  }

  /** One entry on an existing challenge keeps its columns and its history in step. */
  lemma RowTallyStep(h: History, row: Challenge, e: Entry, now: int)
    requires ChangesRow(e) && RowGuard(row, e) && now <= e.at
    requires RowOk(row, now) && RowTally(h, row, e.id)
    ensures RowTally(Then(h, e), RowAfter(row, e), e.id)
  {
  }

  lemma OpenedTally(h: History, rows: seq<Challenge>, e: Entry)
    requires e.Opened? && e.id == |rows| && Untouched(h, e.id)
    requires e.row == NewChallenge(e.row.phone, e.row.intent, e.row.role, e.row.language, e.row.google,
                                   e.row.codeHash.code, e.at)
    ensures RowTally(Then(h, e), e.row, e.id)
  {
  }

  lemma TallyStep(s: State, e: Entry, i: nat)
    requires RowsInv(s) && Guard(s.key, s.db, e) && s.now <= e.at
    requires Tally(s.history, s.db.challenges, i)
    ensures Tally(Then(s.history, e), ChallengesAfter(s.db.challenges, e), i)
  {
    if !Concerns(e, i) {
      RowElsewhere(s.db.challenges, e, i);
      HistoryElsewhere(s.history, e, i);
    } else if e.Opened? {
      OpenedTally(s.history, s.db.challenges, e);
    } else {
      RowTallyStep(s.history, s.db.challenges[i], e, s.now);
    }
  }
}
