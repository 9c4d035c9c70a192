/** What every entry keeps about accounts, sessions and the order of events. */
module Records {
  import opened Domain
  import opened Storage
  import opened Protocol
  import opened History
  import opened Runs
  import opened Invariants

  // --- Accounts ---

  /** Each account is the pending signup of the challenge whose confirm created it. */
  ghost predicate AccountOk(s: State, k: nat) {
    if k < |s.db.accounts| then
      && FoundingOf(s.history, k).Some?
      && var f := FoundingOf(s.history, k).value;
         f.id < |s.db.challenges| && s.db.accounts[k] == PendingAccount(s.db.challenges[f.id], f.at)
         && f.phone == s.db.accounts[k].phone && !s.db.challenges[f.id].intent.Signin?
    else FoundingOf(s.history, k).None?
  }

  ghost predicate SignupTally(s: State, phone: string) {
    Total(s.history, SignupsOf(phone)) == if FindByPhone(s.db.accounts, phone).Some? then 1 else 0
  }

  predicate SharesSubject(a: Account, b: Account) {
    a.google.Some? && b.google.Some? && a.google.value.subject == b.google.value.subject
  }

  /** The unique indexes of the account table. */
  predicate AccountsUnique(accounts: seq<Account>) {
    forall j, k | 0 <= j < k < |accounts| ::
      accounts[j].phone != accounts[k].phone && !SharesSubject(accounts[j], accounts[k])
  }

  lemma AccountStep(s: State, e: Entry, k: nat)
    requires Guard(s.key, s.db, e) && AccountOk(s, k)
    ensures AccountOk(Next(s, e), k)
  {
    if k < |s.db.accounts| {
      var f := FoundingOf(s.history, k).value;
      PendingSignupKept(s.db, e, f.id);
      assert FoundingOf(Then(s.history, e), k) == FoundingOf(s.history, k);
    } else if e.Confirmed? && e.signup {
      PendingSignupKept(s.db, e, e.id);
    }
  }

  /** No entry changes what a challenge says about the account it would create. */
  lemma PendingSignupKept(db: Db, e: Entry, i: nat)
    requires InRange(db, e) && i < |db.challenges|
    ensures i < |Effect(db, e).challenges|
    ensures forall at :: PendingAccount(Effect(db, e).challenges[i], at) == PendingAccount(db.challenges[i], at)
    ensures Effect(db, e).challenges[i].intent == db.challenges[i].intent
  {
  }

  lemma FindAppended(accounts: seq<Account>, a: Account, phone: string)
    ensures FindByPhone(accounts + [a], phone).Some? <==> FindByPhone(accounts, phone).Some? || a.phone == phone
  {
    assert (accounts + [a])[..|accounts|] == accounts;
  }

  /** A signup confirm adds the first account of its phone; no other entry adds one. */
  lemma AccountsGrow(key: string, db: Db, e: Entry)
    requires Guard(key, db, e)
    ensures if e.Confirmed? && e.signup then
              var a := PendingAccount(db.challenges[e.id], e.at);
              && Effect(db, e).accounts == db.accounts + [a]
              && a.phone == e.phone && !Conflicts(db.accounts, a) && FindByPhone(db.accounts, e.phone).None?
            else Effect(db, e).accounts == db.accounts
  {
  }

  lemma SignupStep(s: State, e: Entry, phone: string)
    requires Guard(s.key, s.db, e) && SignupTally(s, phone)
    ensures SignupTally(Next(s, e), phone)
  {
    AccountsGrow(s.key, s.db, e);
    var accounts' := Effect(s.db, e).accounts;
    assert Weight(e, SignupsOf(phone)) == if e.Confirmed? && e.signup && e.phone == phone then 1 else 0;
    if e.Confirmed? && e.signup {
      FindAppended(s.db.accounts, PendingAccount(s.db.challenges[e.id], e.at), phone);
      assert FindByPhone(accounts', phone).Some? <==> FindByPhone(s.db.accounts, phone).Some? || e.phone == phone;
    }
  }

  lemma UniqueStep(s: State, e: Entry)
    requires Guard(s.key, s.db, e) && AccountsUnique(s.db.accounts)
    ensures AccountsUnique(Effect(s.db, e).accounts)
  {
    if e.Confirmed? && e.signup {
      var a := PendingAccount(s.db.challenges[e.id], e.at);
      assert !Conflicts(s.db.accounts, a);
      assert forall k | 0 <= k < |s.db.accounts| :: s.db.accounts[k].phone != a.phone;
      assert a.google.Some? ==>
        forall k | 0 <= k < |s.db.accounts| :: !HasSubject(s.db.accounts[k], a.google.value.subject);
    } else {
      assert Effect(s.db, e).accounts == s.db.accounts;
    }
  }

  lemma SubjectAppended(accounts: seq<Account>, a: Account, subject: string)
    ensures FindByGoogleSubject(accounts + [a], subject).None? <==>
              FindByGoogleSubject(accounts, subject).None? && !HasSubject(a, subject)
  {
    assert (accounts + [a])[..|accounts|] == accounts;
  }

  /** The history links the same Google subjects as the account table. */
  predicate LinkTally(h: History, accounts: seq<Account>, subject: string) {
    NoneLinked(h, subject) <==> FindByGoogleSubject(accounts, subject).None?
  }

  lemma LinkStep(s: State, e: Entry, subject: string)
    requires Guard(s.key, s.db, e) && LinkTally(s.history, s.db.accounts, subject)
    requires e.Confirmed? ==> Tally(s.history, s.db.challenges, e.id)
    ensures LinkTally(Then(s.history, e), Effect(s.db, e).accounts, subject)
  {
    AccountsGrow(s.key, s.db, e);
    if e.Confirmed? && e.signup {
      SubjectAppended(s.db.accounts, PendingAccount(s.db.challenges[e.id], e.at), subject);
    }
  }

  // --- Sessions ---

  predicate SessionOk(session: Session, accounts: nat, now: int) {
    && session.account < accounts
    && session.expiresAt == session.lastActiveAt + SESSION_IDLE_WINDOW
    && session.createdAt <= session.lastActiveAt <= now
    && (session.revokedAt.Some? ==> session.revokedAt.value <= now)
  }

  predicate SessionsInv(s: State) {
    && (forall k | 0 <= k < |s.db.sessions| :: SessionOk(s.db.sessions[k], |s.db.accounts|, s.now))
    && (forall j, k | 0 <= j < k < |s.db.sessions| :: s.db.sessions[j].tokenHash != s.db.sessions[k].tokenHash)
  }

  lemma SessionsStep(s: State, e: Entry)
    requires SessionsInv(s) && Guard(s.key, s.db, e) && s.now <= e.at
    ensures SessionsInv(Next(s, e))
  {
    var db, db' := s.db, Effect(s.db, e);
    if e.Confirmed? || e.Resumed? {
      assert db'.sessions == db.sessions + [NewSession(e.account, e.token, e.at)];
      assert |db'.accounts| >= |db.accounts|;
    } else if e.Extended? {
      assert db'.sessions == db.sessions[e.id := db.sessions[e.id].AfterExtend(e.at)];
    } else if e.Revoked? {
      assert db'.sessions == RevokeByTokenHash(db.sessions, e.hash, e.at);
    } else {
      assert db'.sessions == db.sessions && db'.accounts == db.accounts;
    }
  }

  /** A session's columns are what its history makes them. */
  predicate SessionTally(h: History, ss: seq<Session>, k: nat) {
    if k < |ss| then
      && IssueOf(h, k).Some? && ActivityOn(h, k) == Some(ss[k].lastActiveAt) && RevocationOn(h, k) == ss[k].revokedAt
      && var i := IssueOf(h, k).value;
         ss[k].account == i.account && ss[k].tokenHash == Sha256(i.token) && ss[k].createdAt == i.at
    else IssueOf(h, k).None? && ActivityOn(h, k).None? && RevocationOn(h, k).None?
  }

  lemma SessionTallyStep(s: State, e: Entry, k: nat)
    requires Guard(s.key, s.db, e) && Total(s.history, SessionsIssued) == |s.db.sessions|
    requires SessionTally(s.history, s.db.sessions, k)
    ensures SessionTally(Then(s.history, e), Effect(s.db, e).sessions, k)
  {
  }

  /** The tokens of the sessions are the issued ones. */
  predicate TokenTally(h: History, ss: seq<Session>, token: string) {
    Issued(h, token) <==> FindByTokenHash(ss, Sha256(token)).Some?
  }

  /** Sessions keep their token, and only an issued session is new. */
  lemma HashesKept(db: Db, e: Entry)
    requires InRange(db, e)
    ensures var ss, ss' := db.sessions, Effect(db, e).sessions;
            && |ss'| == |ss| + (if Issues(e) then 1 else 0)
            && (forall k | 0 <= k < |ss| :: ss'[k].tokenHash == ss[k].tokenHash)
            && (Issues(e) ==> ss'[|ss|].tokenHash == Sha256(e.token))
  {
  }

  lemma HashFound(ss: seq<Session>, ss': seq<Session>, hash: TokenHash)
    requires |ss| <= |ss'| <= |ss| + 1 && forall k | 0 <= k < |ss| :: ss'[k].tokenHash == ss[k].tokenHash
    ensures FindByTokenHash(ss', hash).Some? <==>
              FindByTokenHash(ss, hash).Some? || (|ss'| > |ss| && ss'[|ss|].tokenHash == hash)
  {
    if FindByTokenHash(ss, hash).Some? {
      assert ss'[FindByTokenHash(ss, hash).value].tokenHash == hash;
    }
  }

  lemma TokenStep(s: State, e: Entry, token: string)
    requires Guard(s.key, s.db, e) && TokenTally(s.history, s.db.sessions, token)
    ensures TokenTally(Then(s.history, e), Effect(s.db, e).sessions, token)
  {
    HashesKept(s.db, e);
    HashFound(s.db.sessions, Effect(s.db, e).sessions, Sha256(token));
  }

  // --- Audit events ---

  /** Every audit event names the account whose phone owns the cleared challenge. */
  predicate AuditOwned(db: Db) {
    forall j | 0 <= j < |db.audit| ::
      && db.audit[j].account < |db.accounts| && db.audit[j].challenge < |db.challenges|
      && db.challenges[db.audit[j].challenge].phone == db.accounts[db.audit[j].account].phone
  }

  lemma AuditStep(s: State, e: Entry)
    requires Guard(s.key, s.db, e)
    requires AuditOwned(s.db) && s.db.audit == AuditTrail(s.history)
    ensures AuditOwned(Effect(s.db, e)) && Effect(s.db, e).audit == AuditTrail(Then(s.history, e))
  {
    var db, db' := s.db, Effect(s.db, e);
    AccountsGrow(s.key, db, e);
    forall i | 0 <= i < |db.challenges|
      ensures i < |db'.challenges| && db'.challenges[i].phone == db.challenges[i].phone
    {
      PendingSignupKept(db, e, i);
      assert PendingAccount(db'.challenges[i], 0) == PendingAccount(db.challenges[i], 0);
    }
  }

  // --- The order of events ---

  lemma {:induction false} EndsByLater(h: History, now: int, later: int)
    requires EndsBy(h, now) && now <= later
    ensures EndsBy(h, later)
  {
    if h.Then? {
      EndsByLater(h.past, now, later);
    }
  }

  /** Every recorded delivery is on a row of its phone that was last sent then or later. */
  predicate RecordedIn(h: History, rows: seq<Challenge>) {
    match h
    case Start => true
    case Then(past, e) =>
      && RecordedIn(past, rows)
      && (e.Opened? ==> e.id < |rows| && rows[e.id].phone == e.row.phone && e.at <= rows[e.id].sentAt)
      && (e.Resent? ==> e.id < |rows| && rows[e.id].phone == e.phone && e.at <= rows[e.id].sentAt)
  }

  /** Rows keep their phone and never move back in time. */
  predicate Grown(rows: seq<Challenge>, rows': seq<Challenge>) {
    && |rows| <= |rows'|
    && forall i | 0 <= i < |rows| :: rows'[i].phone == rows[i].phone && rows[i].sentAt <= rows'[i].sentAt
  }

  lemma {:induction false} RecordedInGrown(h: History, rows: seq<Challenge>, rows': seq<Challenge>)
    requires RecordedIn(h, rows) && Grown(rows, rows')
    ensures RecordedIn(h, rows')
  {
    if h.Then? {
      RecordedInGrown(h.past, rows, rows');
    }
  }

  lemma RowsGrow(s: State, e: Entry)
    requires RowsInv(s) && Guard(s.key, s.db, e) && s.now <= e.at
    ensures Grown(s.db.challenges, Effect(s.db, e).challenges)
  {
  }

  lemma RecordedStep(s: State, e: Entry)
    requires RowsInv(s) && Guard(s.key, s.db, e) && s.now <= e.at && RecordedIn(s.history, s.db.challenges)
    ensures RecordedIn(Then(s.history, e), Effect(s.db, e).challenges)
  {
    RowsGrow(s, e);
    RecordedInGrown(s.history, s.db.challenges, Effect(s.db, e).challenges);
  }

  /** The latest sent_at of a phone's rows bounds all its recorded deliveries. */
  lemma {:induction false} SettledByLatest(h: History, rows: seq<Challenge>, phone: string, bound: int)
    requires RecordedIn(h, rows)
    requires forall i | 0 <= i < |rows| && rows[i].phone == phone :: rows[i].sentAt <= bound
    ensures SettledBy(h, phone, bound)
  {
    if h.Then? {
      SettledByLatest(h.past, rows, phone, bound);
    }
  }
}
