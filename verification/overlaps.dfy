/** Overlapping confirms of one challenge: signups exclude each other, signins do not. */
module Overlaps {
  import opened Domain
  import opened Storage
  import opened Phone
  import opened Protocol
  import opened Races
  import opened Delays
  import opened Witnesses
  import Lags

  /** No act of the interleaving is an administrator's clear. */
  predicate NoClears(x: Interleaving) {
    forall i | 0 <= i < |x.acts| :: x.acts[i].Whole? ==> !x.acts[i].call.ClearLockout?
  }

  /** The owner asks for a signin code. */
  lemma AsksInWorld(w: World, phone: string) returns (a: Act, w': World)
    requires Canonical(phone) == Some(phone)
    requires w.db == Db([Owner(phone)], Rows(phone, 0), [NewSession(0, "", 0)], []) && w.tasks == map[]
    ensures Does(w, a, w') && a.Whole? && a.call.Request?
    ensures w'.db == w.db.(challenges := Rows(phone, 1)) && w'.tasks == map[] && w'.key == w.key
  {
    var c := Request(60, Signin, phone, "", "", None, Some(0), "", true, {});
    RowsAre(phone, 0, 60 - SEND_CAP_WINDOW);
    assert LatestOk(w.db.challenges, phone, c.pick);
    assert FindByPhone(w.db.accounts, phone).Some? by {
      assert w.db.accounts[0].phone == phone;
    }
    SigninOpens(w.key, w.db, c, phone);
    a := Whole(c);
    w' := Do(w, a);
  }

  function Attempt(token: string): Call {
    Confirm(60, 1, "", token, {})
  }

  /** A confirm with the right code reads the challenge while it is live. */
  lemma ReadsLive(w: World, phone: string, task: nat, token: string) returns (w': World)
    requires w.db.challenges == Rows(phone, 1)
    ensures Does(w, ReadChallenge(task, Attempt(token)), w') && w'.db == w.db && w'.key == w.key
    ensures w'.tasks == w.tasks[task := Consumption(Attempt(token), SigninRow(phone, 1))]
  {
    RowsAre(phone, 1, 0);
    w' := Do(w, ReadChallenge(task, Attempt(token)));
  }

  lemma StaleDecision(db: Db, phone: string, token: string)
    requires db.accounts == [Owner(phone)] && |db.challenges| == 2
    requires FindByTokenHash(db.sessions, Sha256(token)).None?
    ensures DecideConfirmWrites(db, Attempt(token), SigninRow(phone, 1)).entry
         == Confirmed(1, phone, false, "", 0, token, 60)
  {
    assert FindByPhone(db.accounts, phone) == Some(0);
  }

  /** It commits what it read, whatever happened to the challenge since. */
  lemma CommitsStale(w: World, phone: string, task: nat, token: string) returns (w': World)
    requires w.db.accounts == [Owner(phone)] && |w.db.challenges| == 2
    requires task in w.tasks && w.tasks[task] == Consumption(Attempt(token), SigninRow(phone, 1))
    requires FindByTokenHash(w.db.sessions, Sha256(token)).None?
    ensures Does(w, CommitConfirm(task), w')
    ensures w'.db.accounts == w.db.accounts && |w'.db.challenges| == 2 && w'.tasks == w.tasks - {task}
    ensures w'.db.sessions == w.db.sessions + [NewSession(0, token, 60)]
  {
    StaleDecision(w.db, phone, token);
    w' := Do(w, CommitConfirm(task));
  }

  /** Two confirms that read one live signin challenge before either commits both issue a session: one code signs in
      twice without any clear. */
  lemma OverlappingSignins(d: string) returns (x: Interleaving)
    requires Subscriber(d)
    ensures x.Valid() && Lags.Initial(x.worlds[0]) && NoClears(x) && |x.acts| == 7
    ensures x.acts[3] == ReadChallenge(1, Attempt("a")) && x.acts[4] == ReadChallenge(2, Attempt("b"))
    ensures x.worlds[7].db.sessions == [NewSession(0, "", 0), NewSession(0, "a", 60), NewSession(0, "b", 60)]
  {
    CanonicalFixed(d);
    x := OverlappingSigninsOf("+20" + d);
  }

  lemma OverlappingSigninsOf(phone: string) returns (x: Interleaving)
    requires Canonical(phone) == Some(phone)
    ensures x.Valid() && Lags.Initial(x.worlds[0]) && NoClears(x) && |x.acts| == 7
    ensures x.acts[3] == ReadChallenge(1, Attempt("a")) && x.acts[4] == ReadChallenge(2, Attempt("b"))
    ensures x.worlds[7].db.sessions == [NewSession(0, "", 0), NewSession(0, "a", 60), NewSession(0, "b", 60)]
  {
    var x5 := BothRead(phone);
    assert FindByTokenHash(x5.worlds[5].db.sessions, Sha256("a")).None?;
    var x6 := CommitMore(x5, phone, 1, "a");
    x := SecondCommit(x6, phone);
  }

  lemma SecondCommit(x: Interleaving, phone: string) returns (x': Interleaving)
    requires x.Valid() && NoClears(x) && |x.acts| == 6
    requires var w := x.worlds[6];
             && w.db.accounts == [Owner(phone)] && |w.db.challenges| == 2
             && 2 in w.tasks && w.tasks[2] == Consumption(Attempt("b"), SigninRow(phone, 1))
             && w.db.sessions == [NewSession(0, "", 0), NewSession(0, "a", 60)]
    ensures x'.Valid() && NoClears(x') && x'.acts == x.acts + [CommitConfirm(2)] && x'.worlds[0] == x.worlds[0]
    ensures x'.worlds[7].db.sessions == [NewSession(0, "", 0), NewSession(0, "a", 60), NewSession(0, "b", 60)]
  {
    assert FindByTokenHash(x.worlds[6].db.sessions, Sha256("b")).None?;
    x' := CommitMore(x, phone, 2, "b");
  }

  lemma BothRead(phone: string) returns (x: Interleaving)
    requires Canonical(phone) == Some(phone)
    ensures x.Valid() && Lags.Initial(x.worlds[0]) && NoClears(x) && |x.acts| == 5
    ensures x.acts[3] == ReadChallenge(1, Attempt("a")) && x.acts[4] == ReadChallenge(2, Attempt("b"))
    ensures var w := x.worlds[5];
            && w.db.accounts == [Owner(phone)] && |w.db.challenges| == 2 && w.db.sessions == [NewSession(0, "", 0)]
            && w.tasks == map[1 := Consumption(Attempt("a"), SigninRow(phone, 1)),
                              2 := Consumption(Attempt("b"), SigninRow(phone, 1))]
  {
    var x3 := BeforeConfirms(phone);
    RowsAre(phone, 1, 0);
    var x4 := ReadMore(x3, phone, 1, "a");
    x := ReadMore(x4, phone, 2, "b");
  }

  lemma ReadMore(x: Interleaving, phone: string, task: nat, token: string) returns (x': Interleaving)
    requires x.Valid() && NoClears(x) && x.worlds[|x.acts|].db.challenges == Rows(phone, 1)
    ensures x'.Valid() && NoClears(x') && x'.acts == x.acts + [ReadChallenge(task, Attempt(token))]
    ensures |x'.worlds| == |x.worlds| + 1 && x'.worlds[0] == x.worlds[0]
    ensures x'.worlds[|x'.acts|].db == x.worlds[|x.acts|].db
    ensures x'.worlds[|x'.acts|].tasks
         == x.worlds[|x.acts|].tasks[task := Consumption(Attempt(token), SigninRow(phone, 1))]
  {
    var w := ReadsLive(x.worlds[|x.acts|], phone, task, token);
    x' := OneMore(x, ReadChallenge(task, Attempt(token)), w);
  }

  lemma CommitMore(x: Interleaving, phone: string, task: nat, token: string) returns (x': Interleaving)
    requires x.Valid() && NoClears(x)
    requires var w := x.worlds[|x.acts|];
             && w.db.accounts == [Owner(phone)] && |w.db.challenges| == 2
             && task in w.tasks && w.tasks[task] == Consumption(Attempt(token), SigninRow(phone, 1))
             && FindByTokenHash(w.db.sessions, Sha256(token)).None?
    ensures x'.Valid() && NoClears(x') && x'.acts == x.acts + [CommitConfirm(task)]
    ensures |x'.worlds| == |x.worlds| + 1 && x'.worlds[0] == x.worlds[0]
    ensures var w, w' := x.worlds[|x.acts|], x'.worlds[|x'.acts|];
            && w'.db.accounts == w.db.accounts && |w'.db.challenges| == 2 && w'.tasks == w.tasks - {task}
            && w'.db.sessions == w.db.sessions + [NewSession(0, token, 60)]
  {
    var w := CommitsStale(x.worlds[|x.acts|], phone, task, token);
    x' := OneMore(x, CommitConfirm(task), w);
  }

  lemma BeforeConfirms(phone: string) returns (x: Interleaving)
    requires Canonical(phone) == Some(phone)
    ensures x.Valid() && Lags.Initial(x.worlds[0]) && NoClears(x) && |x.acts| == 3
    ensures x.worlds[3].db == Db([Owner(phone)], Rows(phone, 1), [NewSession(0, "", 0)], [])
    ensures x.worlds[3].tasks == map[]
  {
    var x2, times := SignupInterleaving(phone);
    var a, w := AsksInWorld(x2.worlds[2], phone);
    x := OneMore(x2, a, w);
  }

  lemma OneMore(x: Interleaving, a: Act, w: World) returns (x': Interleaving)
    requires x.Valid() && NoClears(x) && Does(x.worlds[|x.acts|], a, w)
    requires a.Whole? ==> !a.call.ClearLockout?
    ensures x'.Valid() && NoClears(x')
    ensures x'.acts == x.acts + [a] && x'.worlds == x.worlds + [w]
  {
    x' := Plus(x, a, w);
    LongerValid(x, a, w);
  }
}
