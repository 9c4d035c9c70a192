/** How far the stored activity of a session lags when validations overlap: a delayed extension may set it back. */
module Lags {
  import opened Domain
  import opened Storage
  import opened Protocol
  import opened Sessions
  import opened Races

  /** The act takes place at `t`, by the clock reading it carries. */
  predicate TakesPlace(a: Act, t: int) {
    match a
    case Whole(call) => call.now == t
    case ReadSession(_, _, now) => now == t
    case ReadChallenge(_, call) => call.now == t
    case _ => true
  }

  /** An extension is written less than `flight` after the read it comes from. */
  predicate InTime(w: World, a: Act, t: int, flight: nat) {
    a.WriteSession? && a.task in w.tasks && w.tasks[a.task].Extension? ==>
      t - w.tasks[a.task].extended.lastActiveAt < flight
  }

  /** The instants of the acts, under a clock that does not run backwards. */
  ghost predicate Clocked(x: Interleaving, times: seq<int>, flight: nat) {
    && |times| == |x.acts| && |x.worlds| == |x.acts| + 1
    && (forall i, j | 0 <= i < j < |times| :: times[i] <= times[j])
    && forall i | 0 <= i < |times| :: TakesPlace(x.acts[i], times[i]) && InTime(x.worlds[i], x.acts[i], times[i], flight)
  }

  /** The use of session `k` that the act completes: a validation answers once its extension, if any, is written. */
  function Served(w: World, a: Act, k: nat): Option<int> {
    match a
    case Whole(call) =>
      if call.ValidateSession? && DecideValidate(w.db, call).reply.Principal?
         && FindByTokenHash(w.db.sessions, Sha256(call.token)) == Some(k)
      then Some(call.now) else None
    case ReadSession(_, token, now) =>
      if FindByTokenHash(w.db.sessions, Sha256(token)) == Some(k)
         && w.db.sessions[k].IsValid(now) && !w.db.sessions[k].NeedsExtension(now)
      then Some(now) else None
    case WriteSession(task) =>
      if task in w.tasks && w.tasks[task].Extension? && w.tasks[task].id == k
      then Some(w.tasks[task].extended.lastActiveAt) else None
    case _ => None
  }

  /** What is in flight was read in the past. */
  predicate TasksPast(w: World, now: int) {
    forall task | task in w.tasks ::
      match w.tasks[task]
      case Extension(_, extended) => Rolling(extended) && extended.lastActiveAt <= now
      case Consumption(call, _) => call.now <= now
  }

  predicate SessionsPast(ss: seq<Session>, now: int) {
    forall k | 0 <= k < |ss| :: Rolling(ss[k]) && ss[k].createdAt <= now && ss[k].lastActiveAt <= now
  }

  lemma EffectKeepsPast(db: Db, e: Entry, now: int)
    requires InRange(db, e) && SessionsPast(db.sessions, now) && now <= e.at
    ensures SessionsPast(Effect(db, e).sessions, e.at)
  {
  }

  lemma PastStep(w: World, a: Act, w': World, now: int, t: int)
    requires Does(w, a, w') && TakesPlace(a, t) && now <= t && TasksPast(w, now) && SessionsPast(w.db.sessions, now)
    ensures TasksPast(w', t) && SessionsPast(w'.db.sessions, t)
  {
    if a.Whole? {
      EffectKeepsPast(w.db, Decide(w.key, w.db, a.call).entry, now);
    }
  }

  /** An entry leaves a session's activity alone or sets it to its own instant. */
  lemma EffectOnActivity(db: Db, e: Entry, k: nat)
    requires InRange(db, e) && k < |db.sessions|
    ensures k < |Effect(db, e).sessions|
    ensures Effect(db, e).sessions[k].createdAt == db.sessions[k].createdAt
    ensures Effect(db, e).sessions[k].lastActiveAt ==
            if e.Extended? && e.id == k then e.at else db.sessions[k].lastActiveAt
  {
  }

  lemma ServedByValidation(db: Db, c: Call, k: nat)
    requires c.ValidateSession? && DecideValidate(db, c).reply.Principal?
    requires FindByTokenHash(db.sessions, Sha256(c.token)) == Some(k)
    ensures k < |db.sessions|
    ensures DecideValidate(db, c).entry.Extended? ==> DecideValidate(db, c).entry == Extended(k, c.now)
    ensures !DecideValidate(db, c).entry.Extended? ==> c.now < db.sessions[k].lastActiveAt + SESSION_EXTEND_INTERVAL
  {
  }

  lemma ExtendedIsServed(key: string, db: Db, c: Call, k: nat)
    requires PicksOk(db, c) && Decide(key, db, c).entry.Extended? && Decide(key, db, c).entry.id == k
    ensures c.ValidateSession? && DecideValidate(db, c).reply.Principal?
    ensures FindByTokenHash(db.sessions, Sha256(c.token)) == Some(k)
  {
  }

  /** An act leaves a session's activity alone, or moves it to the use it completes, which lies less than `lag` back;
      a completed use is then less than `lag` ahead of the stored activity. */
  lemma ActivityStep(w: World, a: Act, w': World, t: int, lag: nat, k: nat)
    requires Does(w, a, w') && TakesPlace(a, t) && InTime(w, a, t, lag) && SESSION_EXTEND_INTERVAL <= lag
    requires TasksPast(w, t)
    ensures k >= |w.db.sessions| ==> Served(w, a, k).None?
    ensures Served(w, a, k).Some? ==> Served(w, a, k).value <= t
    ensures k < |w.db.sessions| ==>
              && k < |w'.db.sessions|
              && var s, s', use := w.db.sessions[k], w'.db.sessions[k], Served(w, a, k);
                 && s'.createdAt == s.createdAt
                 && (s'.lastActiveAt == s.lastActiveAt || (use == Some(s'.lastActiveAt) && t < s'.lastActiveAt + lag))
                 && (use.Some? ==> use.value < s'.lastActiveAt + lag)
  {
    match a
    case Whole(call) =>
      var e := Decide(w.key, w.db, call).entry;
      if k < |w.db.sessions| {
        EffectOnActivity(w.db, e, k);
        if e.Extended? && e.id == k {
          ExtendedIsServed(w.key, w.db, call, k);
        }
      }
      if Served(w, a, k).Some? {
        ServedByValidation(w.db, call, k);
      }
    case WriteSession(task) => WriteTouchesOne(w, task, w');
    case _ =>
  }

  /** The uses of session `k` completed by the first n acts all come before `bound`. */
  ghost predicate ServedBefore(x: Interleaving, n: nat, k: nat, bound: int)
    requires n <= |x.acts| < |x.worlds|
  {
    forall m | 0 <= m < n :: UseBefore(Served(x.worlds[m], x.acts[m], k), bound)
  }

  predicate UseBefore(use: Option<int>, bound: int) {
    use.Some? ==> use.value < bound
  }

  predicate Initial(w: World) {
    w.db == EMPTY && w.tasks == map[]
  }

  /** A session that did not exist before the act is as old as its activity, and was not used. */
  lemma NewSessionsFresh(w: World, a: Act, w': World, k: nat)
    requires Does(w, a, w') && |w.db.sessions| <= k < |w'.db.sessions|
    ensures w'.db.sessions[k].lastActiveAt == w'.db.sessions[k].createdAt
  {
  }

  function InstantBefore(times: seq<int>, n: nat): int
    requires n <= |times|
  {
    if n == 0 then (if times == [] then 0 else times[0]) else times[n - 1]
  }

  lemma {:induction false} PastThroughout(x: Interleaving, times: seq<int>, flight: nat, n: nat)
    requires x.Valid() && Clocked(x, times, flight) && Initial(x.worlds[0]) && n <= |x.acts|
    ensures TasksPast(x.worlds[n], InstantBefore(times, n)) && SessionsPast(x.worlds[n].db.sessions, InstantBefore(times, n))
  {
    if n > 0 {
      PastThroughout(x, times, flight, n - 1);
      assert Does(x.worlds[n - 1], x.acts[n - 1], x.worlds[n]);
      PastStep(x.worlds[n - 1], x.acts[n - 1], x.worlds[n], InstantBefore(times, n - 1), times[n - 1]);
    }
  }

  /** What is known when the n-th act takes place. */
  lemma ActAt(x: Interleaving, times: seq<int>, flight: nat, n: nat)
    requires x.Valid() && Clocked(x, times, flight) && Initial(x.worlds[0]) && n < |x.acts|
    ensures Does(x.worlds[n], x.acts[n], x.worlds[n + 1])
    ensures TakesPlace(x.acts[n], times[n]) && InTime(x.worlds[n], x.acts[n], times[n], flight)
    ensures TasksPast(x.worlds[n], times[n]) && SessionsPast(x.worlds[n].db.sessions, times[n])
  {
    PastThroughout(x, times, flight, n);
  }

  /** No use completed so far lies in the future. */
  lemma {:induction false} UsesPast(x: Interleaving, times: seq<int>, flight: nat, n: nat, k: nat)
    requires x.Valid() && Clocked(x, times, flight) && Initial(x.worlds[0]) && n <= |x.acts|
    requires SESSION_EXTEND_INTERVAL <= flight
    ensures ServedBefore(x, n, k, InstantBefore(times, n) + 1)
  {
    if n > 0 {
      UsesPast(x, times, flight, n - 1, k);
      ActAt(x, times, flight, n - 1);
      ActivityStep(x.worlds[n - 1], x.acts[n - 1], x.worlds[n], times[n - 1], flight, k);
    }
  }

  /** The stored activity lags every completed use and the creation by less than `lag`. */
  ghost predicate Lagging(x: Interleaving, n: nat, k: nat, lag: nat)
    requires n <= |x.acts| < |x.worlds|
  {
    if k < |x.worlds[n].db.sessions| then
      var s := x.worlds[n].db.sessions[k];
      s.createdAt < s.lastActiveAt + lag && ServedBefore(x, n, k, s.lastActiveAt + lag)
    else forall m | 0 <= m < n :: Served(x.worlds[m], x.acts[m], k).None?
  }

  lemma LagStep(x: Interleaving, n: nat, t: int, lag: nat, k: nat)
    requires n < |x.acts| < |x.worlds| && Lagging(x, n, k, lag) && SESSION_EXTEND_INTERVAL <= lag
    requires var w, a := x.worlds[n], x.acts[n];
             && Does(w, a, x.worlds[n + 1]) && TakesPlace(a, t) && InTime(w, a, t, lag)
             && TasksPast(w, t) && SessionsPast(w.db.sessions, t)
    requires ServedBefore(x, n, k, t + 1)
    ensures Lagging(x, n + 1, k, lag)
  {
    var w, a, w' := x.worlds[n], x.acts[n], x.worlds[n + 1];
    ActivityStep(w, a, w', t, lag, k);
    if |w.db.sessions| <= k < |w'.db.sessions| {
      NewSessionsFresh(w, a, w', k);
    }
  }

  /** The stored activity lags every completed use by less than `lag`, a day or more, if no extension takes that long
      from its read to its write: within a day, overlapping validations cost nothing. */
  lemma {:induction false} LagUnderInterleaving(x: Interleaving, times: seq<int>, lag: nat, n: nat, k: nat)
    requires x.Valid() && Clocked(x, times, lag) && Initial(x.worlds[0]) && n <= |x.acts|
    requires SESSION_EXTEND_INTERVAL <= lag
    ensures Lagging(x, n, k, lag)
  {
    if n > 0 {
      LagUnderInterleaving(x, times, lag, n - 1, k);
      ActAt(x, times, lag, n - 1);
      UsesPast(x, times, lag, n - 1, k);
      LagStep(x, n - 1, times[n - 1], lag, k);
    }
  }

  predicate ActiveBy(ss: seq<Session>, k: nat, last: int) {
    k < |ss| && ss[k].createdAt <= last ==> ss[k].lastActiveAt <= last
  }

  lemma ActiveByStep(w: World, a: Act, w': World, t: int, lag: nat, k: nat, last: int)
    requires Does(w, a, w') && TakesPlace(a, t) && InTime(w, a, t, lag) && SESSION_EXTEND_INTERVAL <= lag
    requires TasksPast(w, t) && ActiveBy(w.db.sessions, k, last) && UseBefore(Served(w, a, k), last + 1)
    ensures ActiveBy(w'.db.sessions, k, last)
  {
    ActivityStep(w, a, w', t, lag, k);
    if |w.db.sessions| <= k < |w'.db.sessions| {
      NewSessionsFresh(w, a, w', k);
    }
  }

  /** The stored activity is never later than the last use and the creation. */
  lemma {:induction false} NoLaterThanUses(x: Interleaving, times: seq<int>, lag: nat, n: nat, k: nat, last: int)
    requires x.Valid() && Clocked(x, times, lag) && Initial(x.worlds[0]) && n <= |x.acts|
    requires SESSION_EXTEND_INTERVAL <= lag && ServedBefore(x, n, k, last + 1)
    ensures ActiveBy(x.worlds[n].db.sessions, k, last)
  {
    if n > 0 {
      NoLaterThanUses(x, times, lag, n - 1, k, last);
      ActAt(x, times, lag, n - 1);
      assert UseBefore(Served(x.worlds[n - 1], x.acts[n - 1], k), last + 1);
      ActiveByStep(x.worlds[n - 1], x.acts[n - 1], x.worlds[n], times[n - 1], lag, k, last);
    }
  }

  /** `last` is the last completed use of session `k`, or its creation if it was not used. */
  ghost predicate IsLastUse(x: Interleaving, n: nat, k: nat, last: int)
    requires n <= |x.acts| < |x.worlds| && k < |x.worlds[n].db.sessions|
  {
    && ServedBefore(x, n, k, last + 1) && x.worlds[n].db.sessions[k].createdAt <= last
    && (last == x.worlds[n].db.sessions[k].createdAt
        || exists m :: 0 <= m < n && Served(x.worlds[m], x.acts[m], k) == Some(last))
  }

  /** Under every interleaving in which no validation takes a day, an unrevoked session idle for at most 59 days is
      valid and one idle for at least 60 is not. */
  lemma IdleLimitsUnderInterleaving(x: Interleaving, times: seq<int>, n: nat, k: nat, last: int, now: int)
    requires x.Valid() && Clocked(x, times, SESSION_EXTEND_INTERVAL) && Initial(x.worlds[0]) && n <= |x.acts|
    requires k < |x.worlds[n].db.sessions| && x.worlds[n].db.sessions[k].revokedAt.None? && IsLastUse(x, n, k, last)
    ensures now - last <= 59 * DAY ==> x.worlds[n].db.sessions[k].IsValid(now)
    ensures now - last >= 60 * DAY ==> !x.worlds[n].db.sessions[k].IsValid(now)
  {
    var s := x.worlds[n].db.sessions[k];
    LagUnderInterleaving(x, times, SESSION_EXTEND_INTERVAL, n, k);
    PastThroughout(x, times, SESSION_EXTEND_INTERVAL, n);
    NoLaterThanUses(x, times, SESSION_EXTEND_INTERVAL, n, k, last);
    assert last < s.lastActiveAt + SESSION_EXTEND_INTERVAL by {
      if m :| 0 <= m < n && Served(x.worlds[m], x.acts[m], k) == Some(last) {
        assert UseBefore(Served(x.worlds[m], x.acts[m], k), s.lastActiveAt + SESSION_EXTEND_INTERVAL);
      }
    }
  }
}
