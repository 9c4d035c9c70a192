/** Overlapping validations that set the stored activity of a session back. */
module Delays {
  import opened Domain
  import opened Storage
  import opened Phone
  import opened Protocol
  import opened Races
  import opened Lags
  import opened Witnesses
  import Tightness

  /** The owner signs up at 0, by whole calls. */
  lemma SignupWorlds(phone: string) returns (w0: World, w1: World, w2: World, a0: Act, a1: Act)
    requires Canonical(phone) == Some(phone)
    ensures Initial(w0) && Does(w0, a0, w1) && Does(w1, a1, w2)
    ensures TakesPlace(a0, 0) && TakesPlace(a1, 0)
    ensures a0.Whole? && a0.call.Request? && a1.Whole? && a1.call.Confirm?
    ensures w2.db == Db([Owner(phone)], Rows(phone, 0), [NewSession(0, "", 0)], []) && w2.tasks == map[]
  {
    w0 := World("", EMPTY, map[], [], []);
    var c := Request(0, Signup, phone, "", "", None, None, "", true, {});
    a0 := Whole(c);
    assert LatestOk(EMPTY.challenges, phone, None);
    w1 := Do(w0, a0);
    var s1 := Asks(phone);
    assert w1.db == s1.db by {
      RequestFirst(phone, c);
    }
    a1 := Whole(Confirm(0, 0, "", "", {}));
    w2 := Do(w1, a1);
    FirstSignup(w1.db, phone);
    Founds(s1, phone);
  }

  lemma RequestFirst(phone: string, c: Call)
    requires c == Request(0, Signup, phone, "", "", None, None, "", true, {}) && Canonical(phone) == Some(phone)
    ensures var e := DecideRequest("", EMPTY, c).entry;
            Effect(EMPTY, e) == Db([], [NewChallenge(phone, Signup, "", "", None, "", 0)], [], [])
  {
    assert CountSendsSince(EMPTY.challenges, phone, c.now - SEND_CAP_WINDOW) == 0;
    Tightness.CleanRequestOpens("", EMPTY, c, phone);
  }

  /** Two validations read the session a day apart; the earlier one writes last. */
  lemma OvertakenWrite(w2: World) returns (w3: World, w4: World, w5: World, w6: World)
    requires w2.db.sessions == [NewSession(0, "", 0)] && w2.tasks == map[]
    ensures Does(w2, ReadSession(1, "", DAY), w3) && Does(w3, ReadSession(2, "", 2 * DAY), w4)
    ensures Does(w4, WriteSession(2), w5) && Does(w5, WriteSession(1), w6)
    ensures w4.tasks == map[1 := Extension(0, NewSession(0, "", 0).AfterExtend(DAY)),
                            2 := Extension(0, NewSession(0, "", 0).AfterExtend(2 * DAY))]
    ensures w5.tasks == map[1 := Extension(0, NewSession(0, "", 0).AfterExtend(DAY))]
    ensures w6.db.sessions == [NewSession(0, "", 0).AfterExtend(DAY)]
  {
    var s := NewSession(0, "", 0);
    assert FindByTokenHash([s], Sha256("")) == Some(0);
    w3 := Do(w2, ReadSession(1, "", DAY));
    assert w3.tasks == map[1 := Extension(0, s.AfterExtend(DAY))];
    w4 := Do(w3, ReadSession(2, "", 2 * DAY));
    w5 := Do(w4, WriteSession(2));
    w6 := Do(w5, WriteSession(1));
  }

  function Plus(x: Interleaving, a: Act, w: World): Interleaving {
    Interleaving(x.worlds + [w], x.acts + [a])
  }

  /** One more act of an interleaving. */
  lemma LongerValid(x: Interleaving, a: Act, w: World)
    requires x.Valid() && Does(x.worlds[|x.acts|], a, w)
    ensures Plus(x, a, w).Valid()
  {
    var x', n := Plus(x, a, w), |x.acts|;
    assert x'.acts[..n] == x.acts && x'.worlds[..n + 1] == x.worlds && x'.worlds[n] == x.worlds[n];
    assert Does(x'.worlds[n], x'.acts[n], x'.worlds[n + 1]);
    forall i | 0 <= i < n
      ensures Does(x'.worlds[i], x'.acts[i], x'.worlds[i + 1])
    {
      assert Does(x.worlds[i], x.acts[i], x.worlds[i + 1]);
    }
  }

  lemma LongerClocked(x: Interleaving, times: seq<int>, flight: nat, a: Act, w: World, t: int)
    requires Clocked(x, times, flight)
    requires TakesPlace(a, t) && InTime(x.worlds[|x.acts|], a, t, flight)
    requires times == [] || times[|times| - 1] <= t
    ensures Clocked(Plus(x, a, w), times + [t], flight)
  {
  }

  /** One more act, at an instant not before the others. */
  lemma Longer(x: Interleaving, times: seq<int>, flight: nat, a: Act, w: World, t: int)
    returns (x': Interleaving, times': seq<int>)
    requires x.Valid() && Clocked(x, times, flight) && Does(x.worlds[|x.acts|], a, w)
    requires TakesPlace(a, t) && InTime(x.worlds[|x.acts|], a, t, flight)
    requires times == [] || times[|times| - 1] <= t
    ensures x'.Valid() && Clocked(x', times', flight)
    ensures x' == Interleaving(x.worlds + [w], x.acts + [a]) && times' == times + [t]
  {
    x', times' := Plus(x, a, w), times + [t];
    LongerValid(x, a, w);
    LongerClocked(x, times, flight, a, w, t);
  }

  lemma SignupInterleaving(phone: string) returns (x: Interleaving, times: seq<int>)
    requires Canonical(phone) == Some(phone)
    ensures x.Valid() && Clocked(x, times, DAY + 1) && Initial(x.worlds[0]) && |x.acts| == 2 && times == [0, 0]
    ensures x.worlds[2].db == Db([Owner(phone)], Rows(phone, 0), [NewSession(0, "", 0)], []) && x.worlds[2].tasks == map[]
    ensures forall i | 0 <= i < 2 :: x.acts[i].Whole? && (x.acts[i].call.Request? || x.acts[i].call.Confirm?)
  {
    var w0, w1, w2, a0, a1 := SignupWorlds(phone);
    x, times := Interleaving([w0], []), [];
    x, times := Longer(x, times, DAY + 1, a0, w1, 0);
    x, times := Longer(x, times, DAY + 1, a1, w2, 0);
  }

  /** An extension that takes a day from its read to its write can set the stored activity back by a day: a session
      last used 59 days ago is then expired. */
  lemma DelayedWriteRewinds(d: string) returns (x: Interleaving, times: seq<int>)
    requires Subscriber(d)
    ensures x.Valid() && Clocked(x, times, DAY + 1) && Initial(x.worlds[0]) && |x.acts| == 6
    ensures !Lagging(x, 6, 0, SESSION_EXTEND_INTERVAL)
    ensures |x.worlds[6].db.sessions| == 1 && Served(x.worlds[4], x.acts[4], 0) == Some(2 * DAY)
    ensures !x.worlds[6].db.sessions[0].IsValid(2 * DAY + 59 * DAY)
  {
    CanonicalFixed(d);
    x, times := SignupInterleaving("+20" + d);
    var w3, w4, w5, w6 := OvertakenWrite(x.worlds[2]);
    x, times := Longer(x, times, DAY + 1, ReadSession(1, "", DAY), w3, DAY);
    x, times := Longer(x, times, DAY + 1, ReadSession(2, "", 2 * DAY), w4, 2 * DAY);
    x, times := Longer(x, times, DAY + 1, WriteSession(2), w5, 2 * DAY);
    x, times := Longer(x, times, DAY + 1, WriteSession(1), w6, 2 * DAY);
    LagOfADay(x);
  }

  lemma LagOfADay(x: Interleaving)
    requires |x.worlds| == 7 && |x.acts| == 6 && x.acts[4] == WriteSession(2)
    requires x.worlds[6].db.sessions == [NewSession(0, "", 0).AfterExtend(DAY)]
    requires 2 in x.worlds[4].tasks && x.worlds[4].tasks[2] == Extension(0, NewSession(0, "", 0).AfterExtend(2 * DAY))
    ensures !Lagging(x, 6, 0, SESSION_EXTEND_INTERVAL) && Served(x.worlds[4], x.acts[4], 0) == Some(2 * DAY)
    ensures !x.worlds[6].db.sessions[0].IsValid(2 * DAY + 59 * DAY)
  {
    assert !UseBefore(Served(x.worlds[4], x.acts[4], 0), DAY + SESSION_EXTEND_INTERVAL);
  }
}
