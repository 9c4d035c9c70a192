/** What every call answers and records, told by what happened before it: no table, and no constant of the code, is
    mentioned in an answer. */
module Answers {
  import opened Domain
  import opened Storage
  import opened Phone
  import opened Protocol
  import opened History
  import opened Runs
  import opened Invariants
  import opened Records
  import opened ReachableStates
  import Counting

  // --- What a challenge is like ---

  /** The challenge is locked right now. */
  predicate InForce(h: History, id: nat, now: int) {
    LockEnd(h, id).Some? && now < LockEnd(h, id).value
  }

  predicate CodeGone(h: History, id: nat, now: int) {
    CodeOn(h, id).Some? && now > CodeOn(h, id).value.at + 10 * MINUTE
  }

  predicate CoolingDown(h: History, id: nat, now: int) {
    CodeOn(h, id).Some? && now < CodeOn(h, id).value.at + MINUTE
  }

  /** The recorded sends of the challenge that no clear has forgiven. */
  function Counted(h: History, id: nat): int {
    Total(h, SentOn(id)) - Total(h, ForgivenOn(id))
  }

  /** The counted sends of the first `n` challenges, of those of the phone whose last code is not older than `since`. */
  function CountedBelow(h: History, phone: string, since: int, n: nat): int {
    if n == 0 then 0
    else
      CountedBelow(h, phone, since, n - 1)
      + if CodeOn(h, n - 1).Some? && CodeOn(h, n - 1).value.phone == phone && CodeOn(h, n - 1).value.at >= since
        then Counted(h, n - 1) else 0
  }

  function WindowSum(h: History, phone: string, since: int): int {
    CountedBelow(h, phone, since, Total(h, Openings))
  }

  // --- The answers ---

  predicate Refused(d: Decision, error: Error, now: int) {
    d == Decision(Failed(error), Quiet(now))
  }

  predicate RequestAnswer(key: string, h: History, c: Call, d: Decision)
    requires c.Request?
  {
    var now := c.now;
    if !c.intent.Signin? && !c.intent.Signup? then Refused(d, UnsupportedIntent, now)
    else if Canonical(c.rawPhone).None? then Refused(d, InvalidPhone, now)
    else
      var phone := Canonical(c.rawPhone).value;
      if c.intent.Signup? && Total(h, SignupsOf(phone)) == 1 then Refused(d, AccountExists, now)
      else if c.intent.Signin? && Total(h, SignupsOf(phone)) == 0 then Refused(d, NoAccount, now)
      else if c.intent.Signup? && c.link.Some? && !(c.link.value.key == key && now < c.link.value.expiresAt) then
        Refused(d, GoogleFailed, now)
      else FreshCodeAnswer(h, c, phone, d)
  }

  predicate FreshCodeAnswer(h: History, c: Call, phone: string, d: Decision)
    requires c.Request?
  {
    var now := c.now;
    if c.pick.Some? && InForce(h, c.pick.value, now) then Refused(d, LockedOut(LockEnd(h, c.pick.value).value), now)
    else if c.pick.Some? && CoolingDown(h, c.pick.value, now) then Refused(d, CooldownActive, now)
    else if WindowSum(h, phone, now - 30 * MINUTE) >= 5 then
      c.pick.Some? && d == Decision(Failed(LockedOut(now + 30 * MINUTE)), CapLocked(c.pick.value, phone, now))
    else if !c.sent then Refused(d, SendFailed, now)
    else
      var id := Total(h, Openings);
      var link := if c.intent.Signup? then c.link else None;
      var row := Challenge(phone, c.intent, Bcrypt(c.code), if c.intent.Signup? then c.role else "",
                           if c.intent.Signup? then c.language else "",
                           if link.Some? then Some(link.value.identity) else None,
                           now, now + 10 * MINUTE, 0, 1, None, Pending);
      d == Decision(Challenged(id), Opened(id, row, link, now))
  }

  predicate ResendAnswer(h: History, c: Call, d: Decision)
    requires c.Resend?
  {
    var now, id := c.now, c.id;
    if OpeningOf(h, id).None? || CodeOn(h, id).None? then Refused(d, NotFound, now)
    else if InForce(h, id, now) then Refused(d, LockedOut(LockEnd(h, id).value), now)
    else if Consumed(h, id) || CodeGone(h, id, now) then Refused(d, CodeExpired, now)
    else if CoolingDown(h, id, now) then Refused(d, CooldownActive, now)
    else
      var phone := CodeOn(h, id).value.phone;
      if Counted(h, id) >= 5 then
        d == Decision(Failed(LockedOut(now + 30 * MINUTE)), CapLocked(id, phone, now))
      else if !c.sent then Refused(d, SendFailed, now)
      else d == Decision(Challenged(id), Resent(id, phone, c.code, now))
  }

  ghost predicate ConfirmAnswer(h: History, c: Call, d: Decision)
    requires c.Confirm?
  {
    var now, id := c.now, c.id;
    if OpeningOf(h, id).None? || CodeOn(h, id).None? then Refused(d, NotFound, now)
    else if InForce(h, id, now) then Refused(d, LockedOut(LockEnd(h, id).value), now)
    else if Consumed(h, id) && !Barred(h, id) then Refused(d, IncorrectCode(None), now)
    else if CodeGone(h, id, now) then Refused(d, CodeExpired, now)
    else if c.code != CodeOn(h, id).value.code then
      var misses := Total(h, MissesOn(id));
      d == Decision(Failed(if misses < 4 then IncorrectCode(Some(4 - misses)) else LockedOut(now + 30 * MINUTE)),
                    Missed(id, CodeOn(h, id).value.phone, now))
    else RightCodeAnswer(h, c, d)
  }

  /** A right code signs in an existing account, or founds one under the next number. */
  ghost predicate RightCodeAnswer(h: History, c: Call, d: Decision)
    requires c.Confirm? && OpeningOf(h, c.id).Some?
  {
    var opening := OpeningOf(h, c.id).value.row;
    var signin := opening.intent.Signin?;
    if !signin && (Total(h, SignupsOf(opening.phone)) == 1
                   || (opening.google.Some? && !NoneLinked(h, opening.google.value.subject))) then
      Refused(d, AccountExists, c.now)
    else if Issued(h, c.token) then Refused(d, StorageFailure, c.now)
    else
      && d.reply.SignedIn? && d.reply.token == c.token && d.reply.home == signin
      && d.entry == Confirmed(c.id, opening.phone, !signin, c.code, d.reply.account, c.token, c.now)
      && if signin then FoundingOf(h, d.reply.account).Some?
                        && FoundingOf(h, d.reply.account).value.phone == opening.phone
         else forall k: nat :: FoundingOf(h, k).Some? <==> k < d.reply.account
  }

  predicate ClearAnswer(h: History, c: Call, d: Decision)
    requires c.ClearLockout?
  {
    var now := c.now;
    if FoundingOf(h, c.account).None? then Refused(d, NotFound, now)
    else if c.pick.None? || !InForce(h, c.pick.value, now) then d == Decision(LockoutCleared(false), Quiet(now))
    else
      && d.reply == LockoutCleared(true) && d.entry.Cleared? && d.entry.forgiven == Counted(h, c.pick.value)
      && d.entry == Cleared(c.pick.value, FoundingOf(h, c.account).value.phone, c.account, d.entry.forgiven, c.actor,
                            c.stamp, now)
  }

  predicate GoogleAnswer(key: string, h: History, c: Call, d: Decision)
    requires c.GoogleExchange?
  {
    if c.proven.None? then Refused(d, GoogleFailed, c.now)
    else
      var identity := c.proven.value;
      if NoneLinked(h, identity.subject) then
        var link := LinkToken(key, identity, c.now + 10 * MINUTE);
        d == Decision(PhoneNeeded(link), Proven(identity, link, c.now))
      else if Issued(h, c.token) then Refused(d, StorageFailure, c.now)
      else
        && d.reply.SignedIn? && d.reply.token == c.token && d.reply.home
        && LinkedTo(h, d.reply.account, identity.subject)
        && d.entry == Resumed(identity, d.reply.account, c.token, c.now)
  }

  /** The session of this number answers to the token. */
  predicate IsSessionOf(h: History, k: nat, token: string) {
    IssueOf(h, k).Some? && IssueOf(h, k).value.token == token && ActivityOn(h, k).Some?
  }

  predicate SessionAnswer(h: History, k: nat, now: int, d: Decision)
    requires IssueOf(h, k).Some? && ActivityOn(h, k).Some?
  {
    var active := ActivityOn(h, k).value;
    if RevocationOn(h, k).Some? || now >= active + 60 * DAY then Refused(d, NoSession, now)
    else d == Decision(Principal(IssueOf(h, k).value.account), if now >= active + DAY then Extended(k, now) else Quiet(now))
  }

  ghost predicate ValidateAnswer(h: History, c: Call, d: Decision)
    requires c.ValidateSession?
  {
    if !Issued(h, c.token) then Refused(d, NoSession, c.now)
    else exists k: nat :: IsSessionOf(h, k, c.token) && SessionAnswer(h, k, c.now, d)
  }

  predicate RevokeAnswer(c: Call, d: Decision)
    requires c.RevokeSession?
  {
    d == Decision(SignedOut, Revoked(Sha256(c.token), c.now))
  }

  ghost predicate Answered(key: string, h: History, c: Call, d: Decision) {
    match c
    case Request(_, _, _, _, _, _, _, _, _, _) => RequestAnswer(key, h, c, d)
    case Resend(_, _, _, _, _) => ResendAnswer(h, c, d)
    case Confirm(_, _, _, _, _) => ConfirmAnswer(h, c, d)
    case ClearLockout(_, _, _, _, _, _) => ClearAnswer(h, c, d)
    case GoogleExchange(_, _, _, _) => GoogleAnswer(key, h, c, d)
    case ValidateSession(_, _, _) => ValidateAnswer(h, c, d)
    case RevokeSession(_, _, _) => RevokeAnswer(c, d)
  }

  // --- Tables and history say the same ---

  /** Everything a decision reads off a challenge, as the history has it. */
  ghost predicate SameRow(h: History, row: Challenge, id: nat, now: int) {
    && OpeningOf(h, id).Some? && CodeOn(h, id) == Some(Code(row.codeHash.code, row.phone, row.sentAt))
    && LockEnd(h, id) == row.lockedUntil
    && (row.status == Verified <==> Consumed(h, id) && !Barred(h, id))
    && (row.IsExpired(now) <==> CodeGone(h, id, now))
    && (Barred(h, id) && !InForce(h, id, now) ==> CodeGone(h, id, now))
    && row.sendsInWindow == Counted(h, id) && row.failedAttempts == Total(h, MissesOn(id))
    && (var o := OpeningOf(h, id).value.row; o.phone == row.phone && o.intent == row.intent && o.google == row.google)
  }

  lemma RowIsHistory(s: State, id: nat, now: int)
    requires Reachable(s) && id < |s.db.challenges|
    ensures SameRow(s.history, s.db.challenges[id], id, now)
  {
    ReachableInv(s);
    assert Tally(s.history, s.db.challenges, id) && RowOk(s.db.challenges[id], s.now);
  }

  lemma NoRowNoOpening(s: State, id: nat)
    requires Reachable(s)
    ensures id < |s.db.challenges| <==> OpeningOf(s.history, id).Some?
  {
    ReachableInv(s);
    assert Tally(s.history, s.db.challenges, id);
  }

  lemma OpeningCounts(s: State, e: Entry, s': State)
    requires InRange(s.db, e) && s' == Next(s, e) && |s.db.challenges| == Total(s.history, Openings)
    ensures |s'.db.challenges| == Total(s'.history, Openings)
  {
    ChallengesOfEffect(s.db, e);
  }

  lemma OpeningsCounted(s: State)
    requires Reachable(s)
    ensures |s.db.challenges| == Total(s.history, Openings)
  {
    var run: Run, key, start :| run.Valid() && run.First() == Init(key, start) && run.Last() == s;
    InitKeeps(key, start);
    var P := (s: State) => |s.db.challenges| == Total(s.history, Openings);
    forall s: State, e, s': State | Moves(s, e, s') && P(s)
      ensures P(s')
    {
      OpeningCounts(s, e, s');
    }
    RunInduction(run, |run.calls|, P);
  }

  lemma {:induction false} SumIsCounted(s: State, phone: string, since: int, n: nat)
    requires Reachable(s) && n <= |s.db.challenges|
    ensures CountSendsSince(s.db.challenges[..n], phone, since) == CountedBelow(s.history, phone, since, n)
  {
    if n > 0 {
      SumIsCounted(s, phone, since, n - 1);
      RowIsHistory(s, n - 1, s.now);
      assert s.db.challenges[..n][..n - 1] == s.db.challenges[..n - 1];
    }
  }

  /** The query's sum is the history's. */
  lemma SumIsWindowSum(s: State, phone: string, since: int)
    requires Reachable(s)
    ensures CountSendsSince(s.db.challenges, phone, since) == WindowSum(s.history, phone, since)
  {
    OpeningsCounted(s);
    SumIsCounted(s, phone, since, |s.db.challenges|);
    assert s.db.challenges[..|s.db.challenges|] == s.db.challenges;
  }

  lemma AccountsAreSignups(s: State, phone: string)
    requires Reachable(s)
    ensures Total(s.history, SignupsOf(phone)) == if FindByPhone(s.db.accounts, phone).Some? then 1 else 0
  {
    ReachableInv(s);
    assert SignupTally(s, phone);
  }

  lemma AccountIsFounded(s: State, k: nat)
    requires Reachable(s)
    ensures FoundingOf(s.history, k).Some? <==> k < |s.db.accounts|
    ensures k < |s.db.accounts| ==> FoundingOf(s.history, k).value.phone == s.db.accounts[k].phone
  {
    ReachableInv(s);
    assert AccountOk(s, k);
  }

  lemma SubjectsAreLinked(s: State, subject: string)
    requires Reachable(s)
    ensures NoneLinked(s.history, subject) <==> FindByGoogleSubject(s.db.accounts, subject).None?
    ensures forall k: nat :: LinkedTo(s.history, k, subject) <==>
              k < |s.db.accounts| && HasSubject(s.db.accounts[k], subject)
  {
    ReachableInv(s);
    assert LinkTally(s.history, s.db.accounts, subject);
    forall k: nat
      ensures LinkedTo(s.history, k, subject) <==> k < |s.db.accounts| && HasSubject(s.db.accounts[k], subject)
    {
      LinkedIsHeld(s, k, subject);
    }
  }

  lemma TokensAreIssued(s: State, token: string)
    requires Reachable(s)
    ensures Issued(s.history, token) <==> FindByTokenHash(s.db.sessions, Sha256(token)).Some?
  {
    ReachableInv(s);
    assert TokenTally(s.history, s.db.sessions, token);
  }

  /** A signin challenge is only ever opened for a phone that has signed up. */
  lemma {:induction false} SigninWasRegistered(h: History, id: nat)
    requires WellFormed(h) && OpeningOf(h, id).Some? && OpeningOf(h, id).value.row.intent.Signin?
    ensures Total(h, SignupsOf(OpeningOf(h, id).value.row.phone)) >= 1
  {
    if !(h.last.Opened? && h.last.id == id) {
      SigninWasRegistered(h.past, id);
    }
    assert Justified(h.past, h.last);
  }

  // --- Every call is answered so ---

  lemma ResendAnswered(s: State, c: Call)
    requires Reachable(s) && c.Resend? && c.fails == {}
    ensures ResendAnswer(s.history, c, DecideResend(s.db, c))
  {
    NoRowNoOpening(s, c.id);
    if c.id < |s.db.challenges| {
      RowIsHistory(s, c.id, c.now);
    }
  }

  lemma ConfirmAnswered(s: State, c: Call)
    requires Reachable(s) && c.Confirm? && c.fails == {}
    ensures ConfirmAnswer(s.history, c, DecideConfirm(s.db, c))
  {
    NoRowNoOpening(s, c.id);
    if c.id < |s.db.challenges| {
      RowIsHistory(s, c.id, c.now);
      if s.db.challenges[c.id].codeHash == Bcrypt(c.code) {
        RightCodeAnswered(s, c);
      }
    }
  }

  lemma RightCodeAnswered(s: State, c: Call)
    requires Reachable(s) && c.Confirm? && c.fails == {} && c.id < |s.db.challenges|
    requires s.db.challenges[c.id].codeHash == Bcrypt(c.code)
    ensures OpeningOf(s.history, c.id).Some?
    ensures RightCodeAnswer(s.history, c, DecideConfirmWrites(s.db, c, s.db.challenges[c.id]))
  {
    var row := s.db.challenges[c.id];
    RowIsHistory(s, c.id, c.now);
    AccountsAreSignups(s, row.phone);
    TokensAreIssued(s, c.token);
    if row.google.Some? {
      SubjectsAreLinked(s, row.google.value.subject);
    }
    if row.intent.Signin? {
      assert WellFormed(s.history) by {
        ReachableInv(s);
      }
      SigninWasRegistered(s.history, c.id);
    }
    forall k: nat
      ensures FoundingOf(s.history, k).Some? <==> k < |s.db.accounts|
      ensures k < |s.db.accounts| ==> FoundingOf(s.history, k).value.phone == s.db.accounts[k].phone
    {
      AccountIsFounded(s, k);
    }
  }

  lemma ClearAnswered(s: State, c: Call)
    requires Reachable(s) && c.ClearLockout? && c.fails == {} && PicksOk(s.db, c)
    ensures ClearAnswer(s.history, c, DecideClear(s.db, c))
  {
    AccountIsFounded(s, c.account);
    if c.pick.Some? {
      RowIsHistory(s, c.pick.value, c.now);
    }
  }

  lemma GoogleAnswered(s: State, c: Call)
    requires Reachable(s) && c.GoogleExchange? && c.fails == {}
    ensures GoogleAnswer(s.key, s.history, c, DecideGoogle(s.key, s.db, c))
  {
    TokensAreIssued(s, c.token);
    if c.proven.Some? {
      SubjectsAreLinked(s, c.proven.value.subject);
    }
  }

  lemma SessionIsHistory(s: State, k: nat)
    requires Reachable(s) && k < |s.db.sessions|
    ensures SessionTally(s.history, s.db.sessions, k) && SessionOk(s.db.sessions[k], |s.db.accounts|, s.now)
  {
    ReachableInv(s);
  }

  lemma ValidateAnswered(s: State, c: Call)
    requires Reachable(s) && c.ValidateSession? && c.fails == {}
    ensures ValidateAnswer(s.history, c, DecideValidate(s.db, c))
  {
    TokensAreIssued(s, c.token);
    var found := FindByTokenHash(s.db.sessions, Sha256(c.token));
    if found.Some? {
      SessionIsHistory(s, found.value);
      assert IsSessionOf(s.history, found.value, c.token);
      assert SessionAnswer(s.history, found.value, c.now, DecideValidate(s.db, c));
    }
  }

  /** The decision, where the tables say what the history does. */
  lemma FreshCodeMatches(h: History, db: Db, c: Call, phone: string)
    requires c.Request? && c.fails == {} && !c.intent.OtherIntent?
    requires |db.challenges| == Total(h, Openings)
    requires CountSendsSince(db.challenges, phone, c.now - SEND_CAP_WINDOW) == WindowSum(h, phone, c.now - 30 * MINUTE)
    requires match c.pick
             case Some(id) => id < |db.challenges| && SameRow(h, db.challenges[id], id, c.now)
             case None => WindowSum(h, phone, c.now - 30 * MINUTE) == 0
    ensures FreshCodeAnswer(h, c, phone, DecideFreshCode(db, c, phone))
  {
  }

  lemma FreshCodeAnswered(s: State, c: Call, phone: string)
    requires Reachable(s) && c.Request? && c.fails == {} && !c.intent.OtherIntent?
    requires LatestOk(s.db.challenges, phone, c.pick)
    ensures FreshCodeAnswer(s.history, c, phone, DecideFreshCode(s.db, c, phone))
  {
    SumIsWindowSum(s, phone, c.now - SEND_CAP_WINDOW);
    OpeningsCounted(s);
    if c.pick.Some? {
      RowIsHistory(s, c.pick.value, c.now);
    } else {
      Counting.NoRowsNoSum(s.db.challenges, Sends(phone, c.now - SEND_CAP_WINDOW));
    }
    FreshCodeMatches(s.history, s.db, c, phone);
  }

  lemma RequestAnswered(s: State, c: Call)
    requires Reachable(s) && c.Request? && c.fails == {} && PicksOk(s.db, c)
    ensures RequestAnswer(s.key, s.history, c, DecideRequest(s.key, s.db, c))
  {
    if !c.intent.OtherIntent? && Canonical(c.rawPhone).Some? {
      AccountsAreSignups(s, Canonical(c.rawPhone).value);
      FreshCodeAnswered(s, c, Canonical(c.rawPhone).value);
    }
  }

  /** In every run every faultless call is answered, and recorded, as the history alone says. */
  lemma AnsweredByHistory(s: State, c: Call)
    requires Reachable(s) && c.fails == {} && PicksOk(s.db, c)
    ensures Answered(s.key, s.history, c, Decide(s.key, s.db, c))
  {
    match c
    case Request(_, _, _, _, _, _, _, _, _, _) => RequestAnswered(s, c);
    case Resend(_, _, _, _, _) => ResendAnswered(s, c);
    case Confirm(_, _, _, _, _) => ConfirmAnswered(s, c);
    case ClearLockout(_, _, _, _, _, _) => ClearAnswered(s, c);
    case GoogleExchange(_, _, _, _) => GoogleAnswered(s, c);
    case ValidateSession(_, _, _) => ValidateAnswered(s, c);
    case RevokeSession(_, _, _) =>
  }

  /** The row the database picked holds the last recorded code of the phone; it picks none if nothing was opened. */
  lemma PickHoldsLastCode(s: State, phone: string, pick: Option<nat>)
    requires Reachable(s) && LatestOk(s.db.challenges, phone, pick)
    ensures pick.Some? ==> HoldsLastCode(s.history, pick.value, phone)
    ensures pick.None? ==> forall id: nat ::
              OpeningOf(s.history, id).Some? ==> OpeningOf(s.history, id).value.row.phone != phone
  {
    ReachableInv(s);
    if pick.Some? {
      RowIsHistory(s, pick.value, s.now);
      SettledByLatest(s.history, s.db.challenges, phone, s.db.challenges[pick.value].sentAt);
    }
    forall id: nat | pick.None? && OpeningOf(s.history, id).Some?
      ensures OpeningOf(s.history, id).value.row.phone != phone
    {
      NoRowNoOpening(s, id);
      RowIsHistory(s, id, s.now);
    }
  }

  // --- Failing steps ---

  function Faultless(c: Call): (f: Call)
    ensures f.now == c.now && f.fails == {}
    ensures (c.Request? || c.ClearLockout?) <==> (f.Request? || f.ClearLockout?)
    ensures c.Request? || c.ClearLockout? ==> f.pick == c.pick
  {
    match c
    case Request(now, intent, rawPhone, role, language, link, pick, code, sent, _) =>
      Request(now, intent, rawPhone, role, language, link, pick, code, sent, {})
    case Resend(now, id, code, sent, _) => Resend(now, id, code, sent, {})
    case Confirm(now, id, code, token, _) => Confirm(now, id, code, token, {})
    case ClearLockout(now, actor, account, pick, stamp, _) =>
      Call.ClearLockout(now, actor, account, pick, stamp, {})
    case GoogleExchange(now, proven, token, _) => Call.GoogleExchange(now, proven, token, {})
    case ValidateSession(now, token, _) => Call.ValidateSession(now, token, {})
    case RevokeSession(now, token, _) => Call.RevokeSession(now, token, {})
  }

  /** A failing step turns the answer into a storage failure or changes nothing; what then happened is nothing, a code
      that went out unrecorded, or a wrong guess that went unrecorded. */
  predicate FailsTo(d: Decision, clean: Decision) {
    || d == clean
    || (&& d.reply == Failed(StorageFailure)
        && (|| d.entry.Quiet?
            || (d.entry.Lost? && (clean.entry.Opened? || clean.entry.Resent?) && Message(d.entry) == Message(clean.entry))
            || (d.entry.Slipped? && clean.entry.Missed?)))
  }

  lemma RequestFails(key: string, db: Db, c: Call)
    requires c.Request? && PicksInRange(db, c)
    ensures FailsTo(DecideRequest(key, db, c), DecideRequest(key, db, Faultless(c)))
  {
    if Canonical(c.rawPhone).Some? {
      FreshCodeFails(db, c, Canonical(c.rawPhone).value);
    }
  }

  lemma FreshCodeFails(db: Db, c: Call, phone: string)
    requires c.Request? && PicksInRange(db, c)
    ensures FailsTo(DecideFreshCode(db, c, phone), DecideFreshCode(db, Faultless(c), phone))
  {
  }

  lemma ChallengeCallFails(db: Db, c: Call)
    requires PicksInRange(db, c)
    ensures c.Resend? ==> FailsTo(DecideResend(db, c), DecideResend(db, Faultless(c)))
    ensures c.Confirm? ==> FailsTo(DecideConfirm(db, c), DecideConfirm(db, Faultless(c)))
    ensures c.ClearLockout? ==> FailsTo(DecideClear(db, c), DecideClear(db, Faultless(c)))
  {
  }

  lemma SessionCallFails(key: string, db: Db, c: Call)
    ensures c.GoogleExchange? ==> FailsTo(DecideGoogle(key, db, c), DecideGoogle(key, db, Faultless(c)))
    ensures c.ValidateSession? ==> FailsTo(DecideValidate(db, c), DecideValidate(db, Faultless(c)))
    ensures c.RevokeSession? ==> FailsTo(DecideRevoke(c), DecideRevoke(Faultless(c)))
  {
  }

  /** So a call with faults differs from the same call without them only as FailsTo says. */
  lemma FaultsOnlyFail(key: string, db: Db, c: Call)
    requires PicksInRange(db, c)
    ensures FailsTo(Decide(key, db, c), Decide(key, db, Faultless(c)))
  {
    if c.Request? {
      RequestFails(key, db, c);
    } else if c.Resend? || c.Confirm? || c.ClearLockout? {
      ChallengeCallFails(db, c);
    } else {
      SessionCallFails(key, db, c);
    }
  }

  lemma RequestNeedsSteps(key: string, db: Db, c: Call)
    requires c.Request? && PicksInRange(db, c) && DecideRequest(key, db, c).reply.Challenged?
    ensures CreateChallengeOp !in c.fails
  {
    FreshCodeNeedsStep(db, c, Canonical(c.rawPhone).value);
  }

  lemma FreshCodeNeedsStep(db: Db, c: Call, phone: string)
    requires c.Request? && PicksInRange(db, c)
    ensures DecideFreshCode(db, c, phone).reply.Challenged? ==> CreateChallengeOp !in c.fails
  {
  }

  lemma ConfirmNeedsSteps(db: Db, c: Call)
    requires c.Confirm? && DecideConfirm(db, c).reply.SignedIn?
    ensures c.fails !! {EntropyOp, BeginOp, CreateSessionOp, UpdateChallengeOp, CommitOp}
    ensures !db.challenges[c.id].intent.Signin? ==> CreateAccountOp !in c.fails
  {
  }

  lemma OthersNeedSteps(key: string, db: Db, c: Call)
    requires PicksInRange(db, c)
    ensures c.Resend? && DecideResend(db, c).reply.Challenged? ==> UpdateChallengeOp !in c.fails
    ensures c.GoogleExchange? && DecideGoogle(key, db, c).reply.SignedIn? ==>
              c.fails !! {EntropyOp, BeginOp, CreateSessionOp, CommitOp}
    ensures c.ClearLockout? && DecideClear(db, c).reply == LockoutCleared(true) ==>
              c.fails !! {BeginOp, UpdateChallengeOp, CreateAuditOp, CommitOp}
    ensures c.RevokeSession? && DecideRevoke(c).reply.SignedOut? ==> RevokeSessionOp !in c.fails
  {
  }

  /** An answer that claims a write was given by a call in which every step of that write worked. */
  lemma SuccessNeedsSteps(key: string, db: Db, c: Call)
    requires PicksInRange(db, c)
    ensures var reply := Decide(key, db, c).reply;
            && (reply.Challenged? ==> (if c.Request? then CreateChallengeOp else UpdateChallengeOp) !in c.fails)
            && (reply.SignedIn? ==> c.fails !! {EntropyOp, BeginOp, CreateSessionOp, CommitOp})
            && (reply.SignedIn? && c.Confirm? ==> UpdateChallengeOp !in c.fails)
            && (reply == LockoutCleared(true) ==> c.fails !! {BeginOp, UpdateChallengeOp, CreateAuditOp, CommitOp})
            && (reply.SignedOut? ==> RevokeSessionOp !in c.fails)
  {
    RepliesOfCalls(key, db, c);
    if c.Request? && Decide(key, db, c).reply.Challenged? {
      RequestNeedsSteps(key, db, c);
    } else if c.Confirm? && Decide(key, db, c).reply.SignedIn? {
      ConfirmNeedsSteps(db, c);
    } else {
      OthersNeedSteps(key, db, c);
    }
  }

  /** Each kind of call has its own kinds of answer. */
  lemma RepliesOfCalls(key: string, db: Db, c: Call)
    requires PicksInRange(db, c)
    ensures var reply := Decide(key, db, c).reply;
            match reply
            case Failed(_) => true
            case Challenged(_) => c.Request? || c.Resend?
            case SignedIn(_, _, _) => c.Confirm? || c.GoogleExchange?
            case LockoutCleared(_) => c.ClearLockout?
            case PhoneNeeded(_) => c.GoogleExchange?
            case Principal(_) => c.ValidateSession?
            case SignedOut => c.RevokeSession?
  {
  }
}
