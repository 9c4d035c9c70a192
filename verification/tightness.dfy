/** The bound of 25 deliveries is reached: the cap of five sends per 30 minutes holds for Request alone. */
module Tightness {
  import opened Domain
  import opened Storage
  import opened Phone
  import opened Protocol
  import opened History
  import opened Counting
  import opened Runs

  lemma ReachableStep(s: State, c: Call)
    requires Reachable(s) && Legal(s, c)
    ensures Reachable(Step(s, c))
  {
    var run: Run, key, start :| run.Valid() && run.First() == Init(key, start) && run.Last() == s;
    var longer := Run(run.states + [Step(s, c)], run.calls + [c]);
    forall i | 0 <= i < |longer.calls|
      ensures Follows(longer.states[i], longer.calls[i], longer.states[i + 1])
    {
      if i < |run.calls| {
        assert longer.calls[i] == run.calls[i];
      }
    }
    assert longer.Valid() && longer.First() == Init(key, start) && longer.Last() == Step(s, c);
  }

  lemma InitReachable(key: string, start: int)
    ensures Reachable(Init(key, start))
  {
    var run := Run([Init(key, start)], []);
    assert run.Valid() && run.First() == Init(key, start) && run.Last() == Init(key, start);
  }

  /** The challenge opened at minute `i` after `c` resends, the k-th of which came at minute 4 + k. */
  function AfterResends(phone: string, i: nat, c: nat): Challenge {
    var sentAt := if c == 0 then 60 * i else 60 * (4 + c);
    Challenge(phone, Signup, Bcrypt(""), "", "", None, sentAt, sentAt + OTP_TTL, 0, c + 1, None, Pending)
  }

  function OpenedRows(phone: string, k: nat): seq<Challenge> {
    if k == 0 then [] else OpenedRows(phone, k - 1) + [AfterResends(phone, k - 1, 0)]
  }

  lemma {:induction false} OpenedRowsAre(phone: string, k: nat, since: int)
    requires since <= 0
    ensures |OpenedRows(phone, k)| == k && CountSendsSince(OpenedRows(phone, k), phone, since) == k
    ensures forall i | 0 <= i < k :: OpenedRows(phone, k)[i] == AfterResends(phone, i, 0)
  {
    if k > 0 {
      OpenedRowsAre(phone, k - 1, since);
      SumAppend(OpenedRows(phone, k - 1), AfterResends(phone, k - 1, 0), Sends(phone, since));
    }
  }

  function LastOpened(k: nat): Option<nat> {
    if k == 0 then None else Some(k - 1)
  }

  /** What the request of minute `k` checks. */
  ghost predicate RequestReady(rows: seq<Challenge>, phone: string, pick: Option<nat>, now: int) {
    && LatestOk(rows, phone, pick)
    && (pick.Some? ==> rows[pick.value].lockedUntil.None? && rows[pick.value].ResendReady(now))
    && CountSendsSince(rows, phone, now - SEND_CAP_WINDOW) < MAX_SENDS_PER_WINDOW
  }

  lemma OpenedRowsReady(phone: string, k: nat)
    requires k < 5
    ensures RequestReady(OpenedRows(phone, k), phone, LastOpened(k), 60 * k) && |OpenedRows(phone, k)| == k
  {
    OpenedRowsAre(phone, k, 60 * k - SEND_CAP_WINDOW);
  }

  /** `n` codes were put on the phone between `start` and now, nothing was cleared and nothing went unrecorded. */
  predicate Delivered(s: State, phone: string, n: nat) {
    && s.db.accounts == []
    && Total(s.history, Within(phone, 0, SEND_CAP_WINDOW)) == n
    && Total(s.history, ClearsOf(phone)) == Total(s.history, LostTo(phone)) == 0
  }

  /** A faultless signup request that passes every check opens a challenge. */
  lemma CleanRequestOpens(key: string, db: Db, c: Call, phone: string)
    requires c.Request? && c.intent.Signup? && c.link.None? && c.sent && c.fails == {}
    requires Canonical(c.rawPhone) == Some(phone) && FindByPhone(db.accounts, phone).None?
    requires c.pick.Some? ==> c.pick.value < |db.challenges|
    requires c.pick.Some? ==> !db.challenges[c.pick.value].IsLocked(c.now) && db.challenges[c.pick.value].ResendReady(c.now)
    requires CountSendsSince(db.challenges, phone, c.now - SEND_CAP_WINDOW) < MAX_SENDS_PER_WINDOW
    ensures DecideRequest(key, db, c).entry
         == Opened(|db.challenges|, NewChallenge(phone, Signup, c.role, c.language, None, c.code, c.now), None, c.now)
  {
    assert DecideRequest(key, db, c) == DecideFreshCode(db, c, phone);
  }

  lemma RequestReaches(s: State, raw: string, phone: string, pick: Option<nat>, now: int) returns (s': State)
    requires Reachable(s) && s.now <= now && s.db.accounts == []
    requires Canonical(raw) == Some(phone) && RequestReady(s.db.challenges, phone, pick, now)
    ensures s'.history.Then?
    ensures s'.history.last
         == Opened(|s.db.challenges|, NewChallenge(phone, Signup, "", "", None, "", now), None, now)
    ensures Reachable(s') && s' == Next(s, s'.history.last)
  {
    var c := Request(now, Signup, raw, "", "", None, pick, "", true, {});
    CleanRequestOpens(s.key, s.db, c, phone);
    assert Legal(s, c);
    ReachableStep(s, c);
    s' := Step(s, c);
  }

  /** The same, with what it leaves behind. */
  lemma RequestStep(s: State, raw: string, phone: string, pick: Option<nat>, now: int) returns (s': State)
    requires Reachable(s) && s.now <= now && s.db.accounts == []
    requires Canonical(raw) == Some(phone) && RequestReady(s.db.challenges, phone, pick, now)
    ensures Reachable(s') && s'.now == now
    ensures s'.db == s.db.(challenges := s.db.challenges + [NewChallenge(phone, Signup, "", "", None, "", now)])
    ensures s'.history == Then(s.history, Opened(|s.db.challenges|, NewChallenge(phone, Signup, "", "", None, "", now),
                                                 None, now))
  {
    s' := RequestReaches(s, raw, phone, pick, now);
  }

  lemma ResendReaches(s: State, id: nat, phone: string, now: int)
    requires Reachable(s) && s.now <= now && id < |s.db.challenges| && MayResend(s.db.challenges[id], phone, now)
    ensures Reachable(Next(s, Entry.Resent(id, phone, "", now)))
  {
    var c := Resend(now, id, "", true, {});
    assert DecideResend(s.db, c).entry == Entry.Resent(id, phone, "", now);
    ReachableStep(s, c);
  }

  /** A recorded delivery within the window adds one. */
  lemma DeliveryCounts(s: State, e: Entry, phone: string, n: nat)
    requires InRange(s.db, e) && Delivered(s, phone, n)
    requires (e.Opened? || e.Resent?) && Delivers(e, phone) && 0 <= e.at <= SEND_CAP_WINDOW
    ensures Delivered(Next(s, e), phone, n + 1) && Next(s, e).now == e.at
    ensures Next(s, e).db.challenges == ChallengesAfter(s.db.challenges, e)
  {
  }

  /** One request a minute, for five minutes. */
  lemma {:induction false} FiveRequests(raw: string, phone: string, k: nat) returns (s: State)
    requires Canonical(raw) == Some(phone) && k <= 5
    ensures Reachable(s) && Delivered(s, phone, k)
    ensures s.db.challenges == OpenedRows(phone, k) && s.now == if k == 0 then 0 else 60 * (k - 1)
  {
    if k == 0 {
      s := Init("", 0);
      InitReachable("", 0);
    } else {
      var s0 := FiveRequests(raw, phone, k - 1);
      s := NextRequest(s0, raw, phone, k - 1);
    }
  }

  lemma NextRequest(s0: State, raw: string, phone: string, k: nat) returns (s: State)
    requires Canonical(raw) == Some(phone) && k < 5
    requires Reachable(s0) && Delivered(s0, phone, k) && s0.now <= 60 * k
    requires s0.db.challenges == OpenedRows(phone, k)
    ensures Reachable(s) && Delivered(s, phone, k + 1) && s.now == 60 * k
    ensures s.db.challenges == OpenedRows(phone, k) + [AfterResends(phone, k, 0)]
  {
    OpenedRowsReady(phone, k);
    s := RequestReaches(s0, raw, phone, LastOpened(k), 60 * k);
    var e := s.history.last;
    assert e.row == AfterResends(phone, k, 0);
    DeliveryCounts(s0, e, phone, k);
    assert ChallengesAfter(s0.db.challenges, e) == s0.db.challenges + [e.row];
  }

  /** Four rounds of resends, a minute apart, each of every challenge. */
  ghost predicate Rounds(rows: seq<Challenge>, phone: string, r: nat, j: nat) {
    && |rows| == 5
    && forall i | 0 <= i < 5 :: rows[i] == AfterResends(phone, i, if i < j then r + 1 else r)
  }

  lemma {:induction false} ResendRounds(raw: string, phone: string, r: nat, j: nat) returns (s: State)
    requires Canonical(raw) == Some(phone) && r <= 3 && j <= 5
    ensures Reachable(s) && Delivered(s, phone, 5 + 5 * r + j)
    ensures Rounds(s.db.challenges, phone, r, j) && s.now <= 60 * (if j == 0 then 4 + r else 5 + r)
    decreases r, j
  {
    if j == 0 {
      if r == 0 {
        s := FiveRequests(raw, phone, 5);
        OpenedRowsAre(phone, 5, 0);
      } else {
        s := ResendRounds(raw, phone, r - 1, 5);
      }
    } else {
      var s0 := ResendRounds(raw, phone, r, j - 1);
      s := ResendsOne(s0, phone, r, j - 1);
    }
  }

  lemma ResendsOne(s0: State, phone: string, r: nat, j: nat) returns (s: State)
    requires r <= 3 && j < 5 && Reachable(s0) && Delivered(s0, phone, 5 + 5 * r + j)
    requires Rounds(s0.db.challenges, phone, r, j) && s0.now <= 60 * (5 + r)
    ensures Reachable(s) && Delivered(s, phone, 5 + 5 * r + j + 1)
    ensures Rounds(s.db.challenges, phone, r, j + 1) && s.now <= 60 * (5 + r)
  {
    var now := 60 * (5 + r);
    assert s0.db.challenges[j] == AfterResends(phone, j, r);
    var e := Entry.Resent(j, phone, "", now);
    ResendReaches(s0, j, phone, now);
    DeliveryCounts(s0, e, phone, 5 + 5 * r + j);
    s := Next(s0, e);
  }

  /** Every phone can be sent 25 codes within half an hour, with no clear and every send recorded. */
  lemma BoundIsReached(d: string) returns (s: State)
    requires Subscriber(d)
    ensures Reachable(s)
    ensures Total(s.history, Within("+20" + d, 0, SEND_CAP_WINDOW)) == 25
    ensures Total(s.history, ClearsOf("+20" + d)) == Total(s.history, LostTo("+20" + d)) == 0
  {
    CanonicalFixed(d);
    s := ResendRounds("+20" + d, "+20" + d, 3, 5);
  }
}
