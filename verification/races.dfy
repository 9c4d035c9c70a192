/** Validations and confirms split into their read and their write, interleaved with every other call. */
module Races {
  import opened Domain
  import opened Storage
  import opened Protocol
  import opened Runs
  import opened Records

  /** What a request has read and is about to write. */
  datatype Task =
    | Extension(id: nat, extended: Session)
    | Consumption(call: Call, row: Challenge)

  /** `signups` lists the phones for which a signup confirm issued a session, `admitted` the tokens a validation let
      through, newest last. */
  datatype World = World(
    key: string,
    db: Db,
    tasks: map<nat, Task>,
    signups: seq<string>,
    admitted: seq<TokenHash>)

  datatype Act =
    | Whole(call: Call)                            // any call, start to end
    | ReadSession(task: nat, token: string, now: int)
    | WriteSession(task: nat)
    | ReadChallenge(task: nat, call: Call)         // a confirm up to the start of its transaction
    | CommitConfirm(task: nat)

  /** The rows a confirm leaves behind when it read `stale` earlier. */
  function StaleEffect(db: Db, e: Entry, stale: Challenge): Db
    requires e.Confirmed? && e.id < |db.challenges|
  {
    Db(if e.signup then db.accounts + [PendingAccount(stale, e.at)] else db.accounts,
       db.challenges[e.id := Overwritten(db.challenges[e.id], stale.(status := Verified))],
       db.sessions + [NewSession(e.account, e.token, e.at)],
       db.audit)
  }

  ghost predicate Enabled(w: World, a: Act) {
    match a
    case Whole(call) => PicksOk(w.db, call)
    case ReadSession(_, _, _) => true
    case WriteSession(task) => task in w.tasks && w.tasks[task].Extension? && w.tasks[task].id < |w.db.sessions|
    case ReadChallenge(_, call) => call.Confirm? && call.id < |w.db.challenges|
    case CommitConfirm(task) =>
      && task in w.tasks && w.tasks[task].Consumption? && w.tasks[task].call.Confirm?
      && w.tasks[task].call.id < |w.db.challenges|
  }

  function SignupOf(e: Entry): seq<string> {
    if e.Confirmed? && e.signup then [e.phone] else []
  }

  /** The database decides on the rows it holds when the transaction runs; the challenge is the one read before. */
  function CommitDecision(w: World, task: Task): (d: Decision)
    requires task.Consumption? && task.call.Confirm? && task.call.id < |w.db.challenges|
    ensures d.entry.Quiet? || (d.entry.Confirmed? && d.entry.id == task.call.id && d.entry.phone == task.row.phone
                               && d.entry.signup == !task.row.intent.Signin?)
  {
    DecideConfirmWrites(w.db, task.call, task.row)
  }

  function Do(w: World, a: Act): World
    requires Enabled(w, a)
  {
    match a
    case Whole(call) =>
      var d := Decide(w.key, w.db, call);
      w.(db := Effect(w.db, d.entry), signups := w.signups + SignupOf(d.entry),
         admitted := if call.ValidateSession? && d.reply.Principal? then w.admitted + [Sha256(call.token)] else w.admitted)
    case ReadSession(task, token, now) =>
      var found := FindByTokenHash(w.db.sessions, Sha256(token));
      if found.None? || !w.db.sessions[found.value].IsValid(now) then w
      else
        var s := w.db.sessions[found.value];
        var w' := w.(admitted := w.admitted + [Sha256(token)]);
        if s.NeedsExtension(now) then w'.(tasks := w.tasks[task := Extension(found.value, s.AfterExtend(now))]) else w'
    case WriteSession(task) =>
      var t := w.tasks[task];
      w.(db := w.db.(sessions := UpdateSession(w.db.sessions, t.id, t.extended.lastActiveAt, t.extended.expiresAt)),
         tasks := w.tasks - {task})
    case ReadChallenge(task, call) =>
      var row := w.db.challenges[call.id];
      if row.Dead(call.now) || row.codeHash != Bcrypt(call.code) then w
      else w.(tasks := w.tasks[task := Consumption(call, row)])
    case CommitConfirm(task) =>
      var t := w.tasks[task];
      var d := CommitDecision(w, t);
      if d.entry.Quiet? then w.(tasks := w.tasks - {task})
      else
        w.(db := StaleEffect(w.db, d.entry, t.row), signups := w.signups + SignupOf(d.entry),
           tasks := w.tasks - {task})
  }

  ghost predicate Does(w: World, a: Act, w': World) {
    Enabled(w, a) && w' == Do(w, a)
  }

  /** The worlds a sequence of acts goes through. */
  datatype Interleaving = Interleaving(worlds: seq<World>, acts: seq<Act>) {
    ghost predicate Valid() {
      && |worlds| == |acts| + 1
      && forall i {:trigger acts[i]} | 0 <= i < |acts| :: Does(worlds[i], acts[i], worlds[i + 1])
    }
  }

  // --- Revocation ---

  /** A session keeps its identity, and once revoked keeps the instant of its revocation. */
  predicate SessionKept(s: Session, s': Session) {
    && s'.account == s.account && s'.tokenHash == s.tokenHash && s'.createdAt == s.createdAt
    && (s.revokedAt.Some? ==> s'.revokedAt == s.revokedAt)
  }

  predicate SessionsKept(ss: seq<Session>, ss': seq<Session>) {
    |ss| <= |ss'| && forall k | 0 <= k < |ss| :: SessionKept(ss[k], ss'[k])
  }

  /** The token belongs to a session and every session it belongs to is revoked. */
  predicate TokenRevoked(ss: seq<Session>, hash: TokenHash) {
    && FindByTokenHash(ss, hash).Some?
    && forall k | 0 <= k < |ss| && ss[k].tokenHash == hash :: ss[k].revokedAt.Some?
  }

  lemma EffectKeepsSessions(db: Db, e: Entry)
    requires InRange(db, e)
    ensures SessionsKept(db.sessions, Effect(db, e).sessions)
    ensures forall k | |db.sessions| <= k < |Effect(db, e).sessions| ::
              (e.Confirmed? || e.Resumed?) && Effect(db, e).sessions[k].tokenHash == Sha256(e.token)
  {
  }

  lemma FreshToken(key: string, db: Db, c: Call)
    requires PicksOk(db, c)
    ensures var e := Decide(key, db, c).entry;
            e.Confirmed? || e.Resumed? ==> FindByTokenHash(db.sessions, Sha256(e.token)).None?
  {
    DecisionGuarded(key, db, c);
  }

  lemma ActKeepsSessions(w: World, a: Act, w': World)
    requires Does(w, a, w')
    ensures SessionsKept(w.db.sessions, w'.db.sessions)
    ensures forall k | |w.db.sessions| <= k < |w'.db.sessions| ::
              FindByTokenHash(w.db.sessions, w'.db.sessions[k].tokenHash).None?
  {
    if a.Whole? {
      EffectKeepsSessions(w.db, Decide(w.key, w.db, a.call).entry);
      FreshToken(w.key, w.db, a.call);
    }
  }

  lemma {:induction false} SessionsKeptThroughout(x: Interleaving, m: nat, n: nat)
    requires x.Valid() && m <= n < |x.worlds|
    ensures SessionsKept(x.worlds[m].db.sessions, x.worlds[n].db.sessions)
    decreases n - m
  {
    if m < n {
      SessionsKeptThroughout(x, m, n - 1);
      ActKeepsSessions(x.worlds[n - 1], x.acts[n - 1], x.worlds[n]);
    }
  }

  function Admissions(w: World, hash: TokenHash): nat {
    multiset(w.admitted)[hash]
  }

  /** A revoked token stays revoked and is not let through. */
  lemma RevokedTokenStep(w: World, a: Act, w': World, hash: TokenHash)
    requires Does(w, a, w') && TokenRevoked(w.db.sessions, hash)
    ensures TokenRevoked(w'.db.sessions, hash) && Admissions(w', hash) == Admissions(w, hash)
  {
    var ss, ss' := w.db.sessions, w'.db.sessions;
    ActKeepsSessions(w, a, w');
    var k := FindByTokenHash(ss, hash).value;
    assert ss'[k].tokenHash == hash;
    forall j | 0 <= j < |ss'| && ss'[j].tokenHash == hash
      ensures ss'[j].revokedAt.Some?
    {
      if j < |ss| {
        assert SessionKept(ss[j], ss'[j]);
      }
    }
    AdmittedIsLive(w, a, w');
  }

  lemma PrincipalIsLive(db: Db, c: Call)
    requires c.ValidateSession? && DecideValidate(db, c).reply.Principal?
    ensures LiveToken(db.sessions, Sha256(c.token))
  {
    var k := FindByTokenHash(db.sessions, Sha256(c.token)).value;
    assert db.sessions[k].IsValid(c.now);
  }

  /** Some session of the token is valid at some instant. */
  ghost predicate LiveToken(ss: seq<Session>, hash: TokenHash) {
    exists k, now :: 0 <= k < |ss| && ss[k].tokenHash == hash && ss[k].IsValid(now)
  }

  lemma AdmittedIsLive(w: World, a: Act, w': World)
    requires Does(w, a, w')
    ensures w'.admitted == w.admitted ||
            (w'.admitted != [] && LiveToken(w.db.sessions, w'.admitted[|w'.admitted| - 1])
             && w'.admitted == w.admitted + [w'.admitted[|w'.admitted| - 1]])
  {
    match a
    case Whole(call) =>
      if call.ValidateSession? && DecideValidate(w.db, call).reply.Principal? {
        PrincipalIsLive(w.db, call);
      }
    case ReadSession(_, token, now) =>
      if w'.admitted != w.admitted {
        var k := FindByTokenHash(w.db.sessions, Sha256(token)).value;
        assert w.db.sessions[k].IsValid(now);
      }
    case _ =>
  }

  lemma {:induction false} RevokedTokenThroughout(x: Interleaving, m: nat, n: nat, hash: TokenHash)
    requires x.Valid() && m <= n < |x.worlds| && TokenRevoked(x.worlds[m].db.sessions, hash)
    ensures TokenRevoked(x.worlds[n].db.sessions, hash)
    ensures Admissions(x.worlds[n], hash) == Admissions(x.worlds[m], hash)
    decreases n - m
  {
    if m < n {
      RevokedTokenThroughout(x, m, n - 1, hash);
      RevokedTokenStep(x.worlds[n - 1], x.acts[n - 1], x.worlds[n], hash);
    }
  }

  /** Sign-out revokes the presented session alone, at the first such call. */
  lemma RevokeTouchesOne(w: World, call: Call, w': World)
    requires call.RevokeSession? && RevokeSessionOp !in call.fails && Does(w, Whole(call), w')
    ensures |w'.db.sessions| == |w.db.sessions|
    ensures forall k | 0 <= k < |w.db.sessions| ::
              w'.db.sessions[k] ==
                if w.db.sessions[k].tokenHash == Sha256(call.token) && w.db.sessions[k].revokedAt.None?
                then w.db.sessions[k].(revokedAt := Some(call.now)) else w.db.sessions[k]
    ensures FindByTokenHash(w.db.sessions, Sha256(call.token)).Some? ==>
              TokenRevoked(w'.db.sessions, Sha256(call.token))
  {
    var hash := Sha256(call.token);
    assert w'.db.sessions == RevokeByTokenHash(w.db.sessions, hash, call.now);
    if FindByTokenHash(w.db.sessions, hash).Some? {
      assert w'.db.sessions[FindByTokenHash(w.db.sessions, hash).value].tokenHash == hash;
    }
  }

  /** A delayed extension rewrites two columns of its own session and can neither revive nor revoke anything. */
  lemma WriteTouchesOne(w: World, task: nat, w': World)
    requires Does(w, WriteSession(task), w')
    ensures |w'.db.sessions| == |w.db.sessions|
    ensures forall k | 0 <= k < |w.db.sessions| ::
              var s, t := w.db.sessions[k], w.tasks[task];
              w'.db.sessions[k] ==
                if k == t.id then s.(lastActiveAt := t.extended.lastActiveAt, expiresAt := t.extended.expiresAt) else s
  {
  }

  /** Revocation is permanent under every interleaving: the session keeps the first instant of its revocation, and no
      validation that reads after the revoke lets its token through, whatever extensions were in flight. */
  lemma RevocationPermanent(x: Interleaving, m: nat, n: nat, k: nat)
    requires x.Valid() && m < n < |x.worlds|
    requires x.acts[m].Whole? && x.acts[m].call.RevokeSession? && RevokeSessionOp !in x.acts[m].call.fails
    requires k < |x.worlds[m].db.sessions| && x.worlds[m].db.sessions[k].tokenHash == Sha256(x.acts[m].call.token)
    ensures var s := x.worlds[m].db.sessions[k];
            && k < |x.worlds[n].db.sessions|
            && x.worlds[n].db.sessions[k].revokedAt
               == (if s.revokedAt.Some? then s.revokedAt else Some(x.acts[m].call.now))
            && Admissions(x.worlds[n], s.tokenHash) == Admissions(x.worlds[m], s.tokenHash)
  {
    RevokeTouchesOne(x.worlds[m], x.acts[m].call, x.worlds[m + 1]);
    SessionsKeptThroughout(x, m + 1, n);
    assert SessionKept(x.worlds[m + 1].db.sessions[k], x.worlds[n].db.sessions[k]);
    RevokedTokenThroughout(x, m + 1, n, x.worlds[m].db.sessions[k].tokenHash);
    RevokeAdmitsNothing(x.worlds[m], x.acts[m].call, x.worlds[m + 1]);
  }

  lemma RevokeAdmitsNothing(w: World, call: Call, w': World)
    requires call.RevokeSession? && Does(w, Whole(call), w')
    ensures w'.admitted == w.admitted
  {
  }

  // --- Signup uniqueness ---

  /** One session issued by a signup confirm for each account there is, and no two accounts of one phone. */
  ghost predicate SignupsOk(w: World) {
    && AccountsUnique(w.db.accounts)
    && forall phone: string :: IssuedOnce(w, phone)
  }

  ghost predicate IssuedOnce(w: World, phone: string) {
    multiset(w.signups)[phone] == if FindByPhone(w.db.accounts, phone).Some? then 1 else 0
  }

  lemma NewAccountKeepsSignups(w: World, a: Account, w': World)
    requires SignupsOk(w) && !Conflicts(w.db.accounts, a)
    requires w'.db.accounts == w.db.accounts + [a] && w'.signups == w.signups + [a.phone]
    ensures SignupsOk(w')
  {
    forall phone: string
      ensures IssuedOnce(w', phone)
    {
      assert IssuedOnce(w, phone);
      FindAppended(w.db.accounts, a, phone);
    }
    forall k | 0 <= k < |w.db.accounts|
      ensures w.db.accounts[k].phone != a.phone && !SharesSubject(w.db.accounts[k], a)
    {
      if a.google.Some? {
        assert !HasSubject(w.db.accounts[k], a.google.value.subject);
      }
    }
  }

  lemma SameAccountsKeepSignups(w: World, w': World)
    requires SignupsOk(w) && w'.db.accounts == w.db.accounts && w'.signups == w.signups
    ensures SignupsOk(w')
  {
    forall phone: string
      ensures IssuedOnce(w', phone)
    {
      assert IssuedOnce(w, phone);
    }
  }

  lemma WholeCallKeepsSignups(w: World, call: Call)
    requires SignupsOk(w) && PicksOk(w.db, call)
    ensures SignupsOk(Do(w, Whole(call)))
  {
    var w' := Do(w, Whole(call));
    var e := Decide(w.key, w.db, call).entry;
    DecisionGuarded(w.key, w.db, call);
    AccountsGrow(w.key, w.db, e);
    if e.Confirmed? && e.signup {
      NewAccountKeepsSignups(w, PendingAccount(w.db.challenges[e.id], e.at), w');
    } else {
      SameAccountsKeepSignups(w, w');
    }
  }

  lemma CommitKeepsSignups(w: World, task: nat, w': World)
    requires SignupsOk(w) && Does(w, CommitConfirm(task), w')
    ensures SignupsOk(w')
  {
    var t := w.tasks[task];
    var e := CommitDecision(w, t).entry;
    if e.Confirmed? && e.signup {
      NewAccountKeepsSignups(w, PendingAccount(t.row, e.at), w');
    } else {
      SameAccountsKeepSignups(w, w');
    }
  }

  lemma {:induction false} SignupsOkThroughout(x: Interleaving, n: nat)
    requires x.Valid() && n < |x.worlds| && SignupsOk(x.worlds[0])
    ensures SignupsOk(x.worlds[n])
  {
    if n > 0 {
      SignupsOkThroughout(x, n - 1);
      var w, a, w' := x.worlds[n - 1], x.acts[n - 1], x.worlds[n];
      assert Does(w, a, w');
      match a
      case Whole(call) => WholeCallKeepsSignups(w, call);
      case CommitConfirm(task) => CommitKeepsSignups(w, task, w');
      case _ => SameAccountsKeepSignups(w, w');
    }
  }

  /** At most one signup confirm per phone ever issues a session, however confirms that read the same challenge, or
      several challenges of the phone, overlap each other and every other call. */
  lemma OneSignupPerPhone(x: Interleaving, n: nat, phone: string)
    requires x.Valid() && n < |x.worlds|
    requires x.worlds[0].db == EMPTY && x.worlds[0].signups == []
    ensures multiset(x.worlds[n].signups)[phone] <= 1
    ensures multiset(x.worlds[n].signups)[phone] == 1 <==> FindByPhone(x.worlds[n].db.accounts, phone).Some?
    ensures AccountsUnique(x.worlds[n].db.accounts)
  {
    assert forall p: string :: IssuedOnce(x.worlds[0], p);
    SignupsOkThroughout(x, n);
    assert IssuedOnce(x.worlds[n], phone);
  }
}
