/** The use cases step by step (internal/auth/service.go), each proved to carry out its decision in Protocol. */
module Service {
  import opened Domain
  import opened Storage
  import opened Phone
  import opened Protocol

  /** The provider channel; what it delivered stays observable. */
  class Sender {
    var outbox: seq<(string, string)>

    constructor ()
      ensures outbox == []
    {
      outbox := [];
    }

    method SendCode(phone: string, code: string, reachable: bool) returns (ok: bool)
      modifies this
      ensures ok == reachable
      ensures outbox == if ok then old(outbox) + [(phone, code)] else old(outbox)
    {
      if reachable {
        outbox := outbox + [(phone, code)];
      }
      return reachable;
    }
  }

  lemma SomeLatest(rows: seq<Challenge>, phone: string) returns (pick: Option<nat>)
    ensures LatestOk(rows, phone, pick)
  {
    pick := None;
    for i := 0 to |rows|
      invariant LatestOk(rows[..i], phone, pick)
    {
      if rows[i].phone == phone && (pick.None? || rows[pick.value].sentAt <= rows[i].sentAt) {
        pick := Some(i);
      }
    }
    assert rows[..|rows|] == rows;
  }

  class AuthService {
    const key: string  // signs pending Google links
    const store: Store
    const sender: Sender

    constructor (key: string, store: Store, sender: Sender)
      ensures this.key == key && this.store == store && this.sender == sender
    {
      this.key, this.store, this.sender := key, store, sender;
    }

    /** The call was answered as decided on the tables before it; tables and outbox changed by its entry alone. */
    ghost predicate CarriedOut(before: Db, outbox: seq<(string, string)>, d: Decision, reply: Reply)
      requires InRange(before, d.entry)
      reads store, sender
    {
      && reply == d.reply
      && store.Tables() == Effect(before, d.entry)
      && sender.outbox == outbox + Message(d.entry)
      && store.saved.None?
    }

    method RequestVerification(now: int, intent: Intent, rawPhone: string, role: string, language: string,
                               link: Option<LinkToken>, code: string, reachable: bool)
      returns (reply: Reply, ghost pick: Option<nat>)
      requires store.saved.None?
      modifies store, sender
      ensures
        var c := Request(now, intent, rawPhone, role, language, link, pick, code, reachable, old(store.fails));
        && PicksOk(old(store.Tables()), c)
        && CarriedOut(old(store.Tables()), old(sender.outbox), DecideRequest(key, old(store.Tables()), c), reply)
    {
      pick := None;
      var phone := NormalizePhone(rawPhone);
      if phone.Some? {
        pick := SomeLatest(store.challenges, phone.value);
      }
      if intent.OtherIntent? {
        return Failed(UnsupportedIntent), pick;
      }
      if phone.None? {
        return Failed(InvalidPhone), pick;
      }
      var account := store.FindAccountByPhone(phone.value);
      if account.Ok? && intent.Signup? {
        return Failed(AccountExists), pick;
      } else if account.Err? && account.error == NotFound && intent.Signin? {
        return Failed(NoAccount), pick;
      } else if account.Err? && account.error != NotFound {
        return Failed(StorageFailure), pick;
      }

      var google: Option<Identity> := None;
      if intent.Signup? && link.Some? {
        google := VerifyPendingGoogleLink(key, link.value, now);
        if google.None? {
          return Failed(GoogleFailed), pick;
        }
      }

      reply, pick := StartChallenge(now, intent, phone.value, role, language, google, code, reachable,
                                    rawPhone, link);
    }

    /** The half of RequestVerification that consults the phone's earlier challenges and sends a code. */
    method StartChallenge(now: int, intent: Intent, phone: string, role: string, language: string,
                          google: Option<Identity>, code: string, reachable: bool,
                          ghost rawPhone: string, ghost link: Option<LinkToken>)
      returns (reply: Reply, ghost pick: Option<nat>)
      requires store.saved.None? && !intent.OtherIntent?
      requires google == if intent.Signup? && link.Some? then Some(link.value.identity) else None
      modifies store, sender
      ensures LatestOk(old(store.challenges), phone, pick)
      ensures pick.Some? ==> pick.value < |old(store.challenges)|
      ensures
        var c := Request(now, intent, rawPhone, role, language, link, pick, code, reachable, old(store.fails));
        CarriedOut(old(store.Tables()), old(sender.outbox), DecideFreshCode(old(store.Tables()), c, phone), reply)
    {
      pick := SomeLatest(store.challenges, phone);
      var latest := store.FindLatestByPhone(phone);
      if latest.Err? && latest.error != NotFound {
        return Failed(StorageFailure), pick;
      }
      pick := if latest.Ok? then Some(latest.value.id) else None;
      if latest.Ok? {
        if latest.value.Row().IsLocked(now) {
          return Failed(LockedOut(latest.value.lockedUntil.value)), pick;
        }
        if !latest.value.Row().ResendReady(now) {
          return Failed(CooldownActive), pick;
        }
      }

      var sends := store.CountSends(phone, now - SEND_CAP_WINDOW);
      if sends.Err? {
        return Failed(StorageFailure), pick;
      }
      if sends.value >= MAX_SENDS_PER_WINDOW {
        if latest.Ok? {
          reply := PersistLock(latest.value, now);
          return reply, pick;
        }
        return Failed(LockedOut(now + LOCKOUT_DURATION)), pick;
      }

      reply := IssueCode(now, intent, phone, role, language, google, code, reachable);
    }

    /** The code goes out first; the challenge it belongs to is stored only once the provider has taken it. */
    method IssueCode(now: int, intent: Intent, phone: string, role: string, language: string,
                     google: Option<Identity>, code: string, reachable: bool)
      returns (reply: Reply)
      requires store.saved.None? && !intent.OtherIntent?
      modifies store, sender
      ensures store.saved.None?
      ensures
        var before, fails := old(store.Tables()), old(store.fails);
        var row := if intent.Signup? then NewChallenge(phone, Signup, role, language, google, code, now)
                   else NewChallenge(phone, Signin, "", "", None, code, now);
        if EntropyOp in fails then
          reply == Failed(StorageFailure) && store.Tables() == before && sender.outbox == old(sender.outbox)
        else if !reachable then
          reply == Failed(SendFailed) && store.Tables() == before && sender.outbox == old(sender.outbox)
        else
          && sender.outbox == old(sender.outbox) + [(phone, code)]
          && if CreateChallengeOp in fails then reply == Failed(StorageFailure) && store.Tables() == before
             else
               && reply == Challenged(|before.challenges|)
               && store.Tables() == before.(challenges := before.challenges + [row])
    {
      if EntropyOp in store.fails {
        return Failed(StorageFailure);
      }
      var delivered := sender.SendCode(phone, code, reachable);
      if !delivered {
        return Failed(SendFailed);
      }
      var row := Challenge(phone, intent, Bcrypt(code), "", "", None, 0, 0, 0, 0, None, Pending);
      if intent.Signup? {
        row := row.(role := role, language := language, google := google);
      }
      var v := new Verification(|store.challenges|, row);
      v.RegisterSend(now);
      var created := store.CreateChallenge(v.Row());
      if !created {
        return Failed(StorageFailure);
      }
      return Challenged(v.id);
    }

    /** A capped send locks the challenge instead, whichever endpoint tripped the cap. */
    method PersistLock(v: Verification, now: int) returns (reply: Reply)
      requires v.id < |store.challenges| && v.Row() == store.challenges[v.id]
      modifies store`challenges, v
      ensures
        var rows := old(store.challenges);
        if UpdateChallengeOp in store.fails then reply == Failed(StorageFailure) && store.challenges == rows
        else
          && reply == Failed(LockedOut(now + LOCKOUT_DURATION))
          && store.challenges == rows[v.id := rows[v.id].AfterLock(now)]
    {
      v.Lock(now);
      var updated := store.UpdateChallenge(v);
      return if updated then Failed(LockedOut(v.lockedUntil.value)) else Failed(StorageFailure);
    }

    method ResendVerification(now: int, id: nat, code: string, reachable: bool) returns (reply: Reply)
      requires store.saved.None?
      modifies store, sender
      ensures
        var c := Resend(now, id, code, reachable, old(store.fails));
        CarriedOut(old(store.Tables()), old(sender.outbox), DecideResend(old(store.Tables()), c), reply)
    {
      var got := store.GetChallenge(id);
      if got.Err? {
        return Failed(got.error);
      }
      var v := got.value;
      if v.Row().IsLocked(now) {
        return Failed(LockedOut(v.lockedUntil.value));
      }
      if v.status == Verified || v.Row().IsExpired(now) {
        return Failed(CodeExpired);
      }
      if !v.Row().ResendReady(now) {
        return Failed(CooldownActive);
      }
      if v.Row().SendCapReached() {
        reply := PersistLock(v, now);
        return reply;
      }
      if EntropyOp in store.fails {
        return Failed(StorageFailure);
      }
      // Nothing is counted unless the provider took the code.
      var delivered := sender.SendCode(v.phone, code, reachable);
      if !delivered {
        return Failed(SendFailed);
      }
      v.codeHash := Bcrypt(code);
      v.RegisterSend(now);
      var updated := store.UpdateChallenge(v);
      if !updated {
        return Failed(StorageFailure);
      }
      return Challenged(id);
    }

    method ConfirmVerification(now: int, id: nat, code: string, token: string) returns (reply: Reply)
      requires store.saved.None?
      modifies store
      ensures
        var c := Confirm(now, id, code, token, old(store.fails));
        CarriedOut(old(store.Tables()), old(sender.outbox), DecideConfirm(old(store.Tables()), c), reply)
    {
      var got := store.GetChallenge(id);
      if got.Err? {
        return Failed(got.error);
      }
      var v := got.value;
      if v.Row().IsLocked(now) {
        return Failed(LockedOut(v.lockedUntil.value));
      }
      if v.status == Verified {
        return Failed(IncorrectCode(None));
      }
      if v.Row().IsExpired(now) {
        return Failed(CodeExpired);
      }
      if v.codeHash != Bcrypt(code) {
        var locked := v.RegisterFailure(now);
        var updated := store.UpdateChallenge(v);
        if !updated {
          return Failed(StorageFailure);
        }
        if locked {
          return Failed(LockedOut(v.lockedUntil.value));
        }
        return Failed(IncorrectCode(Some(v.Row().RemainingAttempts())));
      }
      if EntropyOp in store.fails {
        return Failed(StorageFailure);
      }

      // One transaction: account, session and consumed challenge are written together or not at all.
      var begun := store.Begin();
      if !begun {
        return Failed(StorageFailure);
      }
      var done := ConfirmWrites(now, v, token);
      if done.Err? {
        store.Rollback();
        return Failed(done.error);
      }
      var committed := store.Commit();
      if !committed {
        return Failed(StorageFailure);
      }
      return SignedIn(token, done.value, v.intent.Signin?);
    }

    /** The body of the confirm transaction; on an error the caller rolls back whatever it wrote. */
    method ConfirmWrites(now: int, v: Verification, token: string) returns (r: Result<nat>)
      requires v.id < |store.challenges| && v.Row() == store.challenges[v.id]
      modifies store`accounts, store`sessions, store`challenges, v
      ensures v.intent == old(v.intent)
      ensures
        var before, row, fails := old(store.Tables()), old(v.Row()), store.fails;
        var signin, found := row.intent.Signin?, FindByPhone(before.accounts, row.phone);
        if signin && FindAccountOp in fails then r == Err(StorageFailure)
        else if signin && found.None? then r == Err(NoAccount)
        else if !signin && CreateAccountOp in fails then r == Err(StorageFailure)
        else if !signin && Conflicts(before.accounts, PendingAccount(row, now)) then r == Err(AccountExists)
        else if CreateSessionOp in fails || FindByTokenHash(before.sessions, Sha256(token)).Some? then
          r == Err(StorageFailure)
        else if UpdateChallengeOp in fails then r == Err(StorageFailure)
        else
          var account := if signin then found.value else |before.accounts|;
          && r == Ok(account)
          && store.Tables() == Effect(before, Confirmed(v.id, row.phone, !signin, row.codeHash.code, account, token, now))
    {
      var account: nat;
      if v.intent.Signin? {
        var existing := store.FindAccountByPhone(v.phone);
        if existing.Err? {
          return Err(if existing.error == NotFound then NoAccount else StorageFailure);
        }
        account := existing.value;
      } else {
        var created := store.CreateAccount(Account(v.role, v.phone, v.google, v.language, now));
        if created.Err? {
          return Err(created.error);
        }
        account := created.value;
      }
      var stored := store.CreateSession(NewSession(account, token, now));
      if !stored {
        return Err(StorageFailure);
      }
      v.MarkVerified();
      var updated := store.UpdateChallenge(v);
      if !updated {
        return Err(StorageFailure);
      }
      return Ok(account);
    }

    method ClearLockout(now: int, actor: string, account: nat, stamp: int)
      returns (reply: Reply, ghost pick: Option<nat>)
      requires store.saved.None?
      modifies store
      ensures
        var c := Protocol.ClearLockout(now, actor, account, pick, stamp, old(store.fails));
        && PicksOk(old(store.Tables()), c)
        && CarriedOut(old(store.Tables()), old(sender.outbox), DecideClear(old(store.Tables()), c), reply)
    {
      pick := None;
      if account < |store.accounts| {
        pick := SomeLatest(store.challenges, store.accounts[account].phone);
      }
      var owner := store.FindAccountByID(account);
      if owner.Err? {
        return Failed(owner.error), pick;
      }
      var latest := store.FindLatestByPhone(owner.value.phone);
      if latest.Err? {
        if latest.error == NotFound {
          pick := None;
          return LockoutCleared(false), pick;
        }
        return Failed(StorageFailure), pick;
      }
      var v := latest.value;
      pick := Some(v.id);
      if !v.Row().IsLocked(now) {
        return LockoutCleared(false), pick;
      }
      var cleared := ClearWrites(v, actor, account, stamp);
      return if cleared then LockoutCleared(true) else Failed(StorageFailure), pick;
    }

    /** Lifts the lock and audits it in one transaction. */
    method ClearWrites(v: Verification, actor: string, account: nat, stamp: int) returns (cleared: bool)
      requires store.saved.None?
      requires v.id < |store.challenges| && v.Row() == store.challenges[v.id]
      modifies store, v
      ensures store.saved.None?
      ensures cleared == ({BeginOp, UpdateChallengeOp, CreateAuditOp, CommitOp} !! old(store.fails))
      ensures store.Tables() ==
        var before := old(store.Tables());
        if cleared then
          before.(challenges := before.challenges[v.id := before.challenges[v.id].AfterClear()],
                  audit := before.audit + [AuditEvent(actor, account, v.id, stamp)])
        else before
    {
      v.lockedUntil := None;
      v.sendsInWindow := 0;
      v.status := Pending;

      var begun := store.Begin();
      if !begun {
        return false;
      }
      var updated := store.UpdateChallenge(v);
      var audited := false;
      if updated {
        audited := store.CreateAuditEvent(AuditEvent(actor, account, v.id, stamp));
      }
      if !audited {
        store.Rollback();
        return false;
      }
      var committed := store.Commit();
      if !committed {
        return false;
      }
      return true;
    }

    method GoogleExchange(now: int, proven: Option<Identity>, token: string) returns (reply: Reply)
      requires store.saved.None?
      modifies store
      ensures
        var c := Protocol.GoogleExchange(now, proven, token, old(store.fails));
        CarriedOut(old(store.Tables()), old(sender.outbox), DecideGoogle(key, old(store.Tables()), c), reply)
    {
      if proven.None? {
        return Failed(GoogleFailed);
      }
      var account := store.FindAccountByGoogleSubject(proven.value.subject);
      if account.Err? {
        if account.error == NotFound {
          return PhoneNeeded(SignPendingGoogleLink(key, proven.value, now));
        }
        return Failed(StorageFailure);
      }
      if EntropyOp in store.fails {
        return Failed(StorageFailure);
      }
      var begun := store.Begin();
      if !begun {
        return Failed(StorageFailure);
      }
      var stored := store.CreateSession(NewSession(account.value, token, now));
      if !stored {
        store.Rollback();
        return Failed(StorageFailure);
      }
      var committed := store.Commit();
      if !committed {
        return Failed(StorageFailure);
      }
      return SignedIn(token, account.value, true);
    }

    method ValidateSession(now: int, token: string) returns (reply: Reply)
      requires store.saved.None?
      modifies store
      ensures
        var c := Protocol.ValidateSession(now, token, old(store.fails));
        CarriedOut(old(store.Tables()), old(sender.outbox), DecideValidate(old(store.Tables()), c), reply)
    {
      var found := store.FindSession(Sha256(token));
      if found.Err? {
        return Failed(if found.error == NotFound then NoSession else StorageFailure);
      }
      var s := found.value;
      if !s.Row().IsValid(now) {
        return Failed(NoSession);
      }
      var owner := store.FindAccountByID(s.account);
      if owner.Err? {
        return Failed(StorageFailure);
      }
      // At most one write a day, whatever the traffic.
      if s.Row().NeedsExtension(now) {
        s.Extend(now);
        var updated := store.ExtendSession(s);
        if !updated {
          return Failed(StorageFailure);
        }
      }
      return Principal(s.account);
    }

    method RevokeSession(now: int, token: string) returns (reply: Reply)
      requires store.saved.None?
      modifies store
      ensures
        var c := Protocol.RevokeSession(now, token, old(store.fails));
        CarriedOut(old(store.Tables()), old(sender.outbox), DecideRevoke(c), reply)
    {
      var revoked := store.RevokeSessions(Sha256(token), now);
      return if revoked then SignedOut else Failed(StorageFailure);
    }
  }
}
