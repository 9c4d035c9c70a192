/** The throttled rolling expiry of a session against an eager one (ValidateSession, docs/adr/0007). */
module Sessions {
  import opened Domain
  import opened Storage
  import opened Protocol

  /** The session after it was presented at `now`: extended at most once in SESSION_EXTEND_INTERVAL. */
  function Touch(s: Session, now: int): Session {
    if s.IsValid(now) && s.NeedsExtension(now) then s.AfterExtend(now) else s
  }

  /** The session as it would be if every accepted use were written. */
  function TouchEagerly(s: Session, now: int): Session {
    if s.IsValid(now) then s.AfterExtend(now) else s
  }

  /** Which of a sequence of uses are accepted. */
  function Accepted(s: Session, uses: seq<int>): (r: seq<bool>)
    ensures |r| == |uses|
    decreases |uses|
  {
    if uses == [] then [] else [s.IsValid(uses[0])] + Accepted(Touch(s, uses[0]), uses[1..])
  }

  function AcceptedEagerly(s: Session, uses: seq<int>): (r: seq<bool>)
    ensures |r| == |uses|
    decreases |uses|
  {
    if uses == [] then [] else [s.IsValid(uses[0])] + AcceptedEagerly(TouchEagerly(s, uses[0]), uses[1..])
  }

  /** The updates the throttled session costs. */
  function Writes(s: Session, uses: seq<int>): nat
    decreases |uses|
  {
    if uses == [] then 0
    else (if Touch(s, uses[0]) != s then 1 else 0) + Writes(Touch(s, uses[0]), uses[1..])
  }

  function AfterUses(s: Session, uses: seq<int>): Session
    decreases |uses|
  {
    if uses == [] then s else AfterUses(Touch(s, uses[0]), uses[1..])
  }

  /** The last use that was accepted, or the last recorded activity if none was. */
  function LastUse(s: Session, last: int, uses: seq<int>): int
    decreases |uses|
  {
    if uses == [] then last
    else LastUse(Touch(s, uses[0]), if s.IsValid(uses[0]) then uses[0] else last, uses[1..])
  }

  /** Uses in order, none before `start`. */
  predicate InOrder(start: int, uses: seq<int>)
    decreases |uses|
  {
    uses != [] ==> start <= uses[0] && InOrder(uses[0], uses[1..])
  }

  predicate Rolling(s: Session) {
    s.expiresAt == s.lastActiveAt + SESSION_IDLE_WINDOW
  }

  /** A faultless ValidateSession call touches exactly the presented session and answers by its validity. */
  lemma ValidateTouches(db: Db, c: Call, k: nat)
    requires c.ValidateSession? && c.fails == {} && FindByTokenHash(db.sessions, Sha256(c.token)) == Some(k)
    requires k < |db.sessions| && db.sessions[k].account < |db.accounts|
    ensures DecideValidate(db, c).reply
         == if db.sessions[k].IsValid(c.now) then Principal(db.sessions[k].account) else Failed(NoSession)
    ensures Effect(db, DecideValidate(db, c).entry) == db.(sessions := db.sessions[k := Touch(db.sessions[k], c.now)])
  {
    assert db.sessions == db.sessions[k := db.sessions[k]];
  }

  /** The stored activity lags the last accepted use by less than the extend interval. */
  lemma {:induction false} LagBounded(s: Session, last: int, uses: seq<int>)
    requires Rolling(s) && s.lastActiveAt <= last < s.lastActiveAt + SESSION_EXTEND_INTERVAL && InOrder(last, uses)
    ensures var s', last' := AfterUses(s, uses), LastUse(s, last, uses);
            && Rolling(s') && s'.revokedAt == s.revokedAt
            && s'.lastActiveAt <= last' < s'.lastActiveAt + SESSION_EXTEND_INTERVAL
    decreases |uses|
  {
    if uses != [] {
      var now := uses[0];
      var last1 := if s.IsValid(now) then now else last;
      InOrderFrom(last1, now, uses[1..]);
      LagBounded(Touch(s, now), last1, uses[1..]);
    }
  }

  lemma InOrderFrom(earlier: int, start: int, uses: seq<int>)
    requires InOrder(start, uses) && earlier <= start
    ensures InOrder(earlier, uses)
  {
  }

  /** After any uses, an unrevoked session idle for at most 59 days is accepted and one idle for 60 is rejected. */
  lemma IdleLimits(s: Session, uses: seq<int>, now: int)
    requires Rolling(s) && s.revokedAt.None? && InOrder(s.lastActiveAt, uses)
    ensures var idle := now - LastUse(s, s.lastActiveAt, uses);
            && (idle <= 59 * DAY ==> AfterUses(s, uses).IsValid(now))
            && (idle >= 60 * DAY ==> !AfterUses(s, uses).IsValid(now))
  {
    LagBounded(s, s.lastActiveAt, uses);
  }

  /** Writes are spaced by the extend interval, however many uses there are. */
  lemma {:induction false} WritesBounded(s: Session, uses: seq<int>)
    requires InOrder(s.lastActiveAt, uses)
    ensures Writes(s, uses) * SESSION_EXTEND_INTERVAL <= AfterUses(s, uses).lastActiveAt - s.lastActiveAt
    ensures uses != [] ==> AfterUses(s, uses).lastActiveAt <= uses[|uses| - 1]
    decreases |uses|
  {
    if uses != [] {
      var s' := Touch(s, uses[0]);
      InOrderFrom(s'.lastActiveAt, uses[0], uses[1..]);
      WritesBounded(s', uses[1..]);
      assert uses[1..] != [] ==> uses[1..][|uses[1..]| - 1] == uses[|uses| - 1];
      assert s' != s ==> s'.lastActiveAt >= s.lastActiveAt + SESSION_EXTEND_INTERVAL;
    }
  }

  /** Throttling never accepts a use that an eager session would reject. */
  lemma {:induction false} NeverLaxer(s: Session, eager: Session, uses: seq<int>)
    requires Rolling(s) && Rolling(eager) && s.revokedAt == eager.revokedAt
    requires s.lastActiveAt <= eager.lastActiveAt && InOrder(eager.lastActiveAt, uses)
    ensures forall i | 0 <= i < |uses| :: Accepted(s, uses)[i] ==> AcceptedEagerly(eager, uses)[i]
    decreases |uses|
  {
    if uses != [] {
      var s', eager' := Touch(s, uses[0]), TouchEagerly(eager, uses[0]);
      InOrderFrom(eager'.lastActiveAt, uses[0], uses[1..]);
      NeverLaxer(s', eager', uses[1..]);
      forall i | 0 < i < |uses|
        ensures Accepted(s, uses)[i] ==> AcceptedEagerly(eager, uses)[i]
      {
        assert Accepted(s, uses)[i] == Accepted(s', uses[1..])[i - 1];
        assert AcceptedEagerly(eager, uses)[i] == AcceptedEagerly(eager', uses[1..])[i - 1];
      }
    }
  }

  /** No use comes after the session lapsed but within the idle window of the last accepted use. */
  predicate NoneForgotten(s: Session, last: int, uses: seq<int>)
    decreases |uses|
  {
    uses != [] ==>
      && !(s.lastActiveAt + SESSION_IDLE_WINDOW <= uses[0] < last + SESSION_IDLE_WINDOW)
      && NoneForgotten(Touch(s, uses[0]), if s.IsValid(uses[0]) then uses[0] else last, uses[1..])
  }

  /** The throttled session decides every use as the eager one, whose activity is always the last accepted use, if
      and only if no use comes in the gap between the two expiries. */
  lemma {:induction false} RefinesEagerIff(s: Session, eager: Session, uses: seq<int>)
    requires Rolling(s) && Rolling(eager) && s.revokedAt.None? && eager.revokedAt.None?
    requires s.lastActiveAt <= eager.lastActiveAt && InOrder(eager.lastActiveAt, uses)
    ensures Accepted(s, uses) == AcceptedEagerly(eager, uses) <==> NoneForgotten(s, eager.lastActiveAt, uses)
    decreases |uses|
  {
    if uses != [] {
      var s', eager' := Touch(s, uses[0]), TouchEagerly(eager, uses[0]);
      assert Accepted(s, uses)[1..] == Accepted(s', uses[1..]);
      assert AcceptedEagerly(eager, uses)[1..] == AcceptedEagerly(eager', uses[1..]);
      if s.IsValid(uses[0]) == eager.IsValid(uses[0]) {
        InOrderFrom(eager'.lastActiveAt, uses[0], uses[1..]);
        RefinesEagerIff(s', eager', uses[1..]);
      } else {
        assert Accepted(s, uses)[0] != AcceptedEagerly(eager, uses)[0];
      }
    }
  }

  /** The two do differ on some uses: the throttled session forgot a use half a day after its last write. */
  lemma NearMissDiffers()
    ensures var s := NewSession(0, "", 0);
            var uses := [DAY / 2, 60 * DAY + DAY / 4];
            Accepted(s, uses) == [true, false] && AcceptedEagerly(s, uses) == [true, true]
  {
    var s := NewSession(0, "", 0);
    var uses := [DAY / 2, 60 * DAY + DAY / 4];
    assert uses[1..] == [60 * DAY + DAY / 4] && uses[1..][1..] == [];
    assert Accepted(Touch(s, uses[0]), uses[1..]) == [false];
    assert AcceptedEagerly(TouchEagerly(s, uses[0]), uses[1..]) == [true];
  }
}
