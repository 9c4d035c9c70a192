/** What a confirm proves and writes. */
module ConfirmTheorems {
  import opened Domain
  import opened Storage
  import opened Protocol
  import opened History
  import opened Runs
  import opened Invariants
  import opened Records
  import opened ReachableStates

  /** The history just before an account was created. */
  function BeforeFounding(h: History, account: nat): History
    requires FoundingOf(h, account).Some?
  {
    if h.last.Confirmed? && h.last.signup && h.last.account == account then h.past else BeforeFounding(h.past, account)
  }

  lemma {:induction false} FoundingHappened(h: History, account: nat)
    requires FoundingOf(h, account).Some?
    ensures Happened(h, BeforeFounding(h, account), FoundingOf(h, account).value)
  {
    if !(h.last.Confirmed? && h.last.signup && h.last.account == account) {
      FoundingHappened(h.past, account);
    }
  }

  /** A challenge is opened once. */
  lemma {:induction false} OpeningStays(h: History, past: History, e: Entry, id: nat)
    requires WellFormed(h) && Happened(h, past, e) && OpeningOf(past, id).Some?
    ensures OpeningOf(h, id) == OpeningOf(past, id)
  {
    if !(h.past == past && h.last == e) {
      OpeningStays(h.past, past, e, id);
    }
    assert Justified(h.past, h.last);
  }

  /** A linked challenge was opened with a token minted before, and not yet expired. */
  lemma {:induction false} LinkWasMinted(h: History, id: nat)
    requires WellFormed(h) && OpeningOf(h, id).Some?
    ensures var o := OpeningOf(h, id).value;
            && (o.row.google.Some? <==> o.link.Some?)
            && (o.link.Some? ==> o.link.value.identity == o.row.google.value && Minted(h, o.link.value)
                                 && o.at < o.link.value.expiresAt)
  {
    if !(h.last.Opened? && h.last.id == id) {
      LinkWasMinted(h.past, id);
    }
    assert Justified(h.past, h.last);
  }

  /** Every account stands on a signup challenge for its own phone whose latest recorded code, put on that phone at
      most ten minutes earlier, was submitted; role, language and Google identity are those of the request. */
  lemma AccountProvenance(s: State, k: nat)
    requires Reachable(s) && k < |s.db.accounts|
    ensures FoundingOf(s.history, k).Some?
    ensures var a, f, past := s.db.accounts[k], FoundingOf(s.history, k).value, BeforeFounding(s.history, k);
            && Happened(s.history, past, f) && f.at == a.createdAt
            && CodeOn(past, f.id).Some?
            && (var sent := CodeOn(past, f.id).value;
                sent.phone == a.phone && sent.code == f.code && sent.at <= f.at <= sent.at + OTP_TTL)
            && !Barred(past, f.id)
            && OpeningOf(past, f.id).Some?
            && (var o := OpeningOf(past, f.id).value;
                o.row.intent.Signup? && a == PendingAccount(o.row, f.at) && f.at <= Deadline(past, f.id))
  {
    ReachableInv(s);
    assert AccountOk(s, k);
    var f, past := FoundingOf(s.history, k).value, BeforeFounding(s.history, k);
    FoundingHappened(s.history, k);
    HappenedJustified(s.history, past, f);
    OpeningStays(s.history, past, f, f.id);
    assert Tally(s.history, s.db.challenges, f.id);
    assert RowOk(s.db.challenges[f.id], s.now);
  }

  lemma PastObeysRules(s: State, past: History, e: Entry)
    requires Reachable(s) && Happened(s.history, past, e)
    ensures WellFormed(past)
  {
    ReachableInv(s);
    HappenedJustified(s.history, past, e);
  }

  /** A linked account carries the identity the verifier returned when its link token was minted, and appears within
      60 minutes of the minting, 50 minutes more for each clear of its challenge. */
  lemma LinkedAccountProven(s: State, k: nat)
    requires Reachable(s) && k < |s.db.accounts| && s.db.accounts[k].google.Some?
    requires FoundingOf(s.history, k).Some?
    ensures var a, f, past := s.db.accounts[k], FoundingOf(s.history, k).value, BeforeFounding(s.history, k);
            && OpeningOf(past, f.id).Some? && OpeningOf(past, f.id).value.link.Some?
            && var link := OpeningOf(past, f.id).value.link.value;
               && a.google == Some(link.identity) && Minted(past, link)
               && a.createdAt < (link.expiresAt - PENDING_GOOGLE_LINK_TTL)
                                + 60 * MINUTE + 50 * MINUTE * Total(past, ClearsOn(f.id))
  {
    AccountProvenance(s, k);
    var f, past := FoundingOf(s.history, k).value, BeforeFounding(s.history, k);
    assert WellFormed(past) by {
      PastObeysRules(s, past, f);
    }
    LinkWasMinted(past, f.id);
  }

  /** A confirm succeeds at most 50 minutes after the request that opened its challenge, 50 more for each clear. */
  lemma ConfirmBeforeDeadline(s: State, past: History, e: Entry)
    requires Reachable(s) && Happened(s.history, past, e) && e.Confirmed?
    ensures OpeningOf(past, e.id).Some?
    ensures e.at <= OpeningOf(past, e.id).value.at + 50 * MINUTE * (1 + Total(past, ClearsOn(e.id)))
  {
    HistoryObeysRules(s, past, e);
  }

  // --- How often a challenge is consumed ---

  /** Every success after the first follows a clear of the consumed challenge, and every such clear but the last is
      followed by one. */
  lemma {:induction false} SuccessesExact(h: History, id: nat)
    requires WellFormed(h)
    ensures Total(h, SuccessesOn(id)) == Reopenings(h, id) + (if Consumed(h, id) then 1 else 0)
  {
    if h.Then? {
      SuccessesExact(h.past, id);
    }
  }

  lemma {:induction false} ReopeningsWithinClears(h: History, id: nat)
    ensures Reopenings(h, id) <= Total(h, ClearsOn(id))
  {
    if h.Then? {
      ReopeningsWithinClears(h.past, id);
    }
  }

  /** No confirm of the challenge came after a clear of it that met it consumed. */
  predicate NeverReconfirmed(h: History, id: nat) {
    match h
    case Start => true
    case Then(past, e) => NeverReconfirmed(past, id) && (e.Confirmed? && e.id == id ==> Reopenings(past, id) == 0)
  }

  lemma {:induction false} OnceIff(h: History, id: nat)
    requires WellFormed(h)
    ensures Total(h, SuccessesOn(id)) <= 1 <==> NeverReconfirmed(h, id)
  {
    if h.Then? {
      OnceIff(h.past, id);
      SuccessesExact(h.past, id);
    }
  }

  /** A challenge is consumed at most once in a run if and only if no confirm of it is accepted after a clear that met
      it consumed. A clear of a lockout before the first success allows no second one. */
  lemma ConsumedOnceIff(s: State, id: nat)
    requires Reachable(s)
    ensures Total(s.history, SuccessesOn(id)) <= 1 <==> NeverReconfirmed(s.history, id)
    ensures Total(s.history, SuccessesOn(id)) == Reopenings(s.history, id) + (if Consumed(s.history, id) then 1 else 0)
  {
    ReachableInv(s);
    OnceIff(s.history, id);
    SuccessesExact(s.history, id);
  }

  lemma RightCodeDecides(db: Db, c: Call)
    requires c.Confirm? && c.fails == {} && c.id < |db.challenges| && db.challenges[c.id].codeHash == Bcrypt(c.code)
    requires FindByTokenHash(db.sessions, Sha256(c.token)).None?
    requires var row := db.challenges[c.id];
             if row.intent.Signin? then FindByPhone(db.accounts, row.phone).Some?
             else !Conflicts(db.accounts, PendingAccount(row, c.now))
    ensures DecideConfirm(db, c).reply.SignedIn? <==> !db.challenges[c.id].Dead(c.now)
  {
  }

  /** The right code signs in, where account and token allow it, if and only if the challenge's last code is unexpired
      and neither a lock nor a success stands uncleared. */
  lemma RightCodeAccepted(s: State, c: Call)
    requires Reachable(s) && s.now <= c.now && c.Confirm? && c.fails == {} && c.id < |s.db.challenges|
    requires s.db.challenges[c.id].codeHash == Bcrypt(c.code)
    requires FindByTokenHash(s.db.sessions, Sha256(c.token)).None?
    requires var row := s.db.challenges[c.id];
             if row.intent.Signin? then FindByPhone(s.db.accounts, row.phone).Some?
             else !Conflicts(s.db.accounts, PendingAccount(row, c.now))
    ensures DecideConfirm(s.db, c).reply.SignedIn? <==>
              && !Barred(s.history, c.id) && !Consumed(s.history, c.id)
              && CodeOn(s.history, c.id).Some? && c.now <= CodeOn(s.history, c.id).value.at + OTP_TTL
  {
    RightCodeDecides(s.db, c);
    assert !s.db.challenges[c.id].Dead(c.now) <==> CodeUsable(s.history, c.id, c.now) by {
      ReachableInv(s);
      LiveIffUsable(s, c.id, c.now);
    }
    LastCodeIsPast(s, c.id);
  }

  lemma LastCodeIsPast(s: State, id: nat)
    requires Reachable(s) && id < |s.db.challenges|
    ensures CodeOn(s.history, id).Some? && CodeOn(s.history, id).value.at <= s.now
  {
    ReachableInv(s);
    assert Tally(s.history, s.db.challenges, id) && RowOk(s.db.challenges[id], s.now);
  }

  /** A challenge is consumed at most once, and once more for each clear that met it consumed; a phone or Google
      subject signs up at most once. */
  lemma ConsumedAtMostOnce(s: State, id: nat, phone: string)
    requires Reachable(s)
    ensures Total(s.history, SuccessesOn(id)) <= 1 + Reopenings(s.history, id) <= 1 + Total(s.history, ClearsOn(id))
    ensures Total(s.history, SignupsOf(phone)) <= 1
    ensures Total(s.history, SignupsOf(phone)) == 1 <==> exists k :: 0 <= k < |s.db.accounts| && s.db.accounts[k].phone == phone
    ensures AccountsUnique(s.db.accounts)
  {
    ReachableInv(s);
    SuccessesExact(s.history, id);
    ReopeningsWithinClears(s.history, id);
    assert SignupTally(s, phone);
  }

  /** A confirm under any faults: nothing changes, or one wrong guess is recorded, or session and consumed challenge
      appear together, with the new account of a signup. */
  lemma ConfirmAllOrNothing(db: Db, c: Call)
    requires c.Confirm?
    ensures
      var d := DecideConfirm(db, c);
      var db' := Effect(db, d.entry);
      if d.reply.SignedIn? then
        && c.id < |db.challenges|
        && var row := db.challenges[c.id];
           && db'.sessions == db.sessions + [NewSession(d.reply.account, c.token, c.now)]
           && db'.challenges == db.challenges[c.id := row.(status := Verified)] && db'.audit == db.audit
           && d.reply.account < |db'.accounts| && db'.accounts[d.reply.account].phone == row.phone
           && (if d.reply.home then db'.accounts == db.accounts
               else db'.accounts == db.accounts + [PendingAccount(row, c.now)] && d.reply.account == |db.accounts|)
      else
        || db' == db
        || (&& c.id < |db.challenges| && db.challenges[c.id].codeHash != Bcrypt(c.code)
            && db' == db.(challenges := db.challenges[c.id := db.challenges[c.id].AfterFailure(c.now)]))
  {
  }
}
