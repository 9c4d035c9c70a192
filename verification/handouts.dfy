/** What is handed to the caller serves: a session token signs in, a link token links. */
module Handouts {
  import opened Domain
  import opened Storage
  import opened Phone
  import opened Protocol
  import opened History
  import opened Runs
  import opened Records
  import opened ReachableStates
  import Answers

  // --- Session tokens ---

  ghost predicate StoresToken(db: Db, c: Call, d: Decision)
    requires InRange(db, d.entry) && d.reply.SignedIn?
  {
    && Issues(d.entry) && d.entry.token == d.reply.token && d.entry.account == d.reply.account && d.entry.at == c.now
    && Effect(db, d.entry).sessions == db.sessions + [NewSession(d.reply.account, d.reply.token, c.now)]
  }

  lemma ConfirmStoresToken(db: Db, c: Call)
    requires c.Confirm? && DecideConfirm(db, c).reply.SignedIn?
    ensures StoresToken(db, c, DecideConfirm(db, c))
  {
  }

  lemma GoogleStoresToken(key: string, db: Db, c: Call)
    requires c.GoogleExchange? && DecideGoogle(key, db, c).reply.SignedIn?
    ensures StoresToken(db, c, DecideGoogle(key, db, c))
  {
  }

  /** The token and account in an answer are those of the session stored, on every table and under any faults. */
  lemma SignInIsStored(key: string, db: Db, c: Call)
    requires PicksInRange(db, c) && Decide(key, db, c).reply.SignedIn?
    ensures StoresToken(db, c, Decide(key, db, c))
  {
    Answers.RepliesOfCalls(key, db, c);
    if c.Confirm? {
      ConfirmStoresToken(db, c);
    } else {
      GoogleStoresToken(key, db, c);
    }
  }

  /** Session `k`, issued at `at` for the account under the token, still serves: its number is taken, it was active
      since, and only a sign-out with its token can have ended it. */
  predicate Serves(h: History, now: int, k: nat, issue: Entry, signOuts: nat)
    requires Issues(issue)
  {
    && IssueOf(h, k) == Some(issue) && Total(h, SessionsIssued) > k
    && ActivityOn(h, k).Some? && issue.at <= ActivityOn(h, k).value <= now
    && signOuts <= Total(h, SignOutsOf(Sha256(issue.token)))
    && (Total(h, SignOutsOf(Sha256(issue.token))) == signOuts ==> RevocationOn(h, k).None?)
  }

  lemma ServesStep(h: History, e: Entry, now: int, k: nat, issue: Entry, signOuts: nat)
    requires Issues(issue) && Serves(h, now, k, issue, signOuts) && now <= e.at
    ensures Serves(Then(h, e), e.at, k, issue, signOuts)
  {
  }

  lemma ServesAtFirst(s: State, e: Entry)
    requires Inv(s) && Issues(e) && s.now <= e.at
    ensures Serves(Then(s.history, e), e.at, |s.db.sessions|, e, Total(s.history, SignOutsOf(Sha256(e.token))))
  {
    assert SessionTally(s.history, s.db.sessions, |s.db.sessions|);
  }

  lemma ServesOnRun(run: Run, k: nat, issue: Entry, signOuts: nat)
    requires run.Valid() && Inv(run.First()) && Issues(issue)
    requires Serves(run.First().history, run.First().now, k, issue, signOuts)
    ensures Serves(run.Last().history, run.Last().now, k, issue, signOuts)
  {
    var P := (s: State) => Serves(s.history, s.now, k, issue, signOuts);
    forall s: State, e, s': State | Moves(s, e, s') && P(s)
      ensures P(s')
    {
      ServesStep(s.history, e, s.now, k, issue, signOuts);
    }
    RunInduction(run, |run.calls|, P);
  }

  /** A serving session answers its account until 60 days after its issue. */
  lemma ServingValidates(s: State, k: nat, issue: Entry, signOuts: nat, v: Call)
    requires Inv(s) && Issues(issue) && Serves(s.history, s.now, k, issue, signOuts)
    requires Total(s.history, SignOutsOf(Sha256(issue.token))) == signOuts
    requires v.ValidateSession? && v.token == issue.token && v.fails == {} && v.now < issue.at + 60 * DAY
    ensures DecideValidate(s.db, v).reply == Principal(issue.account)
  {
    assert SessionTally(s.history, s.db.sessions, k);
    assert SessionOk(s.db.sessions[k], |s.db.accounts|, s.now);
    var found := FindByTokenHash(s.db.sessions, Sha256(v.token));
    assert found == Some(k);
  }

  /** A token handed out by a confirm or a Google sign-in answers its account at every validation within 60 days, over
      any calls in between, unless it was signed out. */
  lemma TokenSignsIn(s: State, c: Call, run: Run, v: Call)
    requires Reachable(s) && Legal(s, c) && Decide(s.key, s.db, c).reply.SignedIn?
    requires run.Valid() && run.First() == Step(s, c)
    requires var token := Decide(s.key, s.db, c).reply.token;
             && Total(run.Last().history, SignOutsOf(Sha256(token))) == Total(s.history, SignOutsOf(Sha256(token)))
             && v.ValidateSession? && v.token == token
    requires v.fails == {} && run.Last().now <= v.now < c.now + 60 * DAY
    ensures DecideValidate(run.Last().db, v).reply == Principal(Decide(s.key, s.db, c).reply.account)
  {
    ReachableInv(s);
    var e := StepMoves(s, c);
    SignInIsStored(s.key, s.db, c);
    ServesAtFirst(s, e);
    var signOuts := Total(s.history, SignOutsOf(Sha256(e.token)));
    ServesOnRun(run, |s.db.sessions|, e, signOuts);
    RunKeeps(run, |run.calls|);
    ServingValidates(run.Last(), |s.db.sessions|, e, signOuts, v);
  }

  // --- Link tokens ---

  /** The token in the answer is the one minted: for the identity proven, good for ten minutes. */
  lemma LinkIsMinted(key: string, h: History, db: Db, c: Call)
    requires c.GoogleExchange? && DecideGoogle(key, db, c).reply.PhoneNeeded?
    ensures var d := DecideGoogle(key, db, c);
            && c.proven.Some? && d.reply.link == LinkToken(key, c.proven.value, c.now + 10 * MINUTE)
            && Minted(Then(h, d.entry), d.reply.link)
  {
  }

  lemma MintedOnRun(run: Run, key: string, link: LinkToken)
    requires run.Valid() && Inv(run.First()) && run.First().key == key && Minted(run.First().history, link)
    ensures run.Last().key == key && Minted(run.Last().history, link)
  {
    var P := (s: State) => s.key == key && Minted(s.history, link);
    RunInduction(run, |run.calls|, P);
  }

  /** The request without its link token. */
  function Linkless(r: Call): (p: Call)
    requires r.Request?
    ensures p.Request? && p.pick == r.pick
  {
    Request(r.now, r.intent, r.rawPhone, r.role, r.language, None, r.pick, r.code, r.sent, r.fails)
  }

  /** The request with the link is answered as without it, but for the identity its challenge carries. */
  predicate Carries(d: Decision, plain: Decision, link: LinkToken, now: int) {
    && d.reply == plain.reply && (d.entry.Opened? <==> plain.entry.Opened?)
    && if plain.entry.Opened? then
         d.entry == Opened(plain.entry.id, plain.entry.row.(google := Some(link.identity)), Some(link), now)
       else d.entry == plain.entry
  }

  lemma FreshCodeCarries(db: Db, r: Call, phone: string, link: LinkToken)
    requires r.Request? && r.intent.Signup? && r.link == Some(link) && PicksInRange(db, r)
    ensures Carries(DecideFreshCode(db, r, phone), DecideFreshCode(db, Linkless(r), phone), link, r.now)
  {
  }

  /** A good link token changes nothing but the identity the challenge carries; a spent one is refused. */
  lemma LinkCarriesIdentity(key: string, db: Db, r: Call, link: LinkToken)
    requires r.Request? && r.intent.Signup? && r.link == Some(link) && link.key == key && PicksInRange(db, r)
    ensures var d, plain := DecideRequest(key, db, r), DecideRequest(key, db, Linkless(r));
            if r.now < link.expiresAt then Carries(d, plain, link, r.now)
            else d.entry == Quiet(r.now) && (plain.reply.Challenged? ==> d.reply == Failed(GoogleFailed))
  {
    if Canonical(r.rawPhone).Some? {
      FreshCodeCarries(db, r, Canonical(r.rawPhone).value, link);
    }
  }

  /** A link token handed out serves a signup at any instant of the next ten minutes, over any calls in between: the
      request is answered as without it, and the challenge carries exactly the identity proven. At ten minutes it is
      refused. */
  lemma LinkServes(s: State, c: Call, run: Run, r: Call)
    requires Reachable(s) && Legal(s, c) && c.GoogleExchange? && DecideGoogle(s.key, s.db, c).reply.PhoneNeeded?
    requires run.Valid() && run.First() == Step(s, c)
    requires r.Request? && r.intent.Signup? && r.link == Some(DecideGoogle(s.key, s.db, c).reply.link)
    requires PicksOk(run.Last().db, r) && run.Last().now <= r.now
    ensures c.proven.Some? && Legal(run.Last(), r)
    ensures var last := run.Last();
            var d, plain := DecideRequest(last.key, last.db, r), DecideRequest(last.key, last.db, Linkless(r));
            if r.now < c.now + 10 * MINUTE then
              && d.reply == plain.reply && (d.entry.Opened? <==> plain.entry.Opened?)
              && (d.entry.Opened? ==>
                    d.entry.row == plain.entry.row.(google := c.proven) && d.entry.id == plain.entry.id)
            else plain.reply.Challenged? ==> d == Decision(Failed(GoogleFailed), Quiet(r.now))
  {
    ReachableInv(s);
    var e := StepMoves(s, c);
    LinkIsMinted(s.key, s.history, s.db, c);
    var link := DecideGoogle(s.key, s.db, c).reply.link;
    MintedOnRun(run, s.key, link);
    LinkCarriesIdentity(s.key, run.Last().db, r, link);
  }
}
