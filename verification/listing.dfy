/** The admin account list: the filtered page, and one batched lockout lookup for all its rows. */
module Listing {
  import opened Domain
  import opened Storage
  import Like

  // --- The page of accounts (account_list.sql) ---

  ghost predicate NewestFirst(accounts: seq<Account>, order: seq<nat>) {
    && (forall i | 0 <= i < |order| :: order[i] < |accounts|)
    && forall i, j | 0 <= i < j < |order| :: accounts[order[i]].createdAt >= accounts[order[j]].createdAt
  }

  /** `order` lists every account whose phone contains the filter, once, newest first. */
  ghost predicate IsListing(accounts: seq<Account>, filter: string, order: seq<nat>) {
    && NewestFirst(accounts, order)
    && forall k: nat :: multiset(order)[k] == if k < |accounts| && Like.Contains(accounts[k].phone, filter) then 1 else 0
  }

  function InsertNewest(accounts: seq<Account>, order: seq<nat>, id: nat): (r: seq<nat>)
    requires id < |accounts| && NewestFirst(accounts, order)
    ensures |r| == |order| + 1
  {
    if order == [] || accounts[order[0]].createdAt <= accounts[id].createdAt then [id] + order
    else [order[0]] + InsertNewest(accounts, order[1..], id)
  }

  lemma {:induction false} InsertAddsOne(accounts: seq<Account>, order: seq<nat>, id: nat)
    requires id < |accounts| && NewestFirst(accounts, order)
    ensures multiset(InsertNewest(accounts, order, id)) == multiset(order) + multiset{id}
  {
    if !(order == [] || accounts[order[0]].createdAt <= accounts[id].createdAt) {
      InsertAddsOne(accounts, order[1..], id);
      assert order == [order[0]] + order[1..];
    }
  }

  /** A row no older than the rest of a listing may come first. */
  lemma NewestHead(accounts: seq<Account>, head: nat, tail: seq<nat>)
    requires head < |accounts| && NewestFirst(accounts, tail)
    requires forall j | 0 <= j < |tail| :: accounts[head].createdAt >= accounts[tail[j]].createdAt
    ensures NewestFirst(accounts, [head] + tail)
  {
  }

  lemma {:induction false} InsertKeepsOrder(accounts: seq<Account>, order: seq<nat>, id: nat)
    requires id < |accounts| && NewestFirst(accounts, order)
    ensures NewestFirst(accounts, InsertNewest(accounts, order, id))
  {
    if !(order == [] || accounts[order[0]].createdAt <= accounts[id].createdAt) {
      var tail := InsertNewest(accounts, order[1..], id);
      InsertKeepsOrder(accounts, order[1..], id);
      InsertAddsOne(accounts, order[1..], id);
      forall j | 0 <= j < |tail|
        ensures accounts[order[0]].createdAt >= accounts[tail[j]].createdAt
      {
        assert tail[j] in multiset(tail);
        assert tail[j] == id || tail[j] in order[1..];
      }
      NewestHead(accounts, order[0], tail);
    }
  }

  /** The part of a listing that LIMIT and OFFSET cut out. */
  function Page(order: seq<nat>, limit: nat, offset: nat): seq<nat> {
    var from := if offset < |order| then offset else |order|;
    var to := if from + limit < |order| then from + limit else |order|;
    order[from..to]
  }

  /** `ids` is a page of some listing: accounts created at one instant may come in any order. */
  ghost predicate IsPage(accounts: seq<Account>, filter: string, limit: nat, offset: nat, ids: seq<nat>) {
    exists order :: IsListing(accounts, filter, order) && ids == Page(order, limit, offset)
  }

  method List(store: Store, filter: string, limit: nat, offset: nat) returns (page: Result<seq<nat>>)
    ensures if ListAccountsOp in store.fails then page == Err(StorageFailure) else page.Ok?
    ensures page.Ok? ==> IsPage(store.accounts, filter, limit, offset, page.value)
    ensures page.Ok? ==> forall n | 0 <= n < |page.value| :: page.value[n] < |store.accounts|
  {
    if ListAccountsOp in store.fails {
      return Err(StorageFailure);
    }
    var pattern := Like.ListPattern(filter);
    var rows: seq<nat> := [];
    for k := 0 to |store.accounts|
      invariant NewestFirst(store.accounts, rows)
      invariant forall i: nat :: multiset(rows)[i] == if i < k && Like.Contains(store.accounts[i].phone, filter) then 1 else 0
    {
      Like.FilterIsSubstringSearch(store.accounts[k].phone, filter);
      if Like.Matches(store.accounts[k].phone, pattern) {
        InsertKeepsOrder(store.accounts, rows, k);
        InsertAddsOne(store.accounts, rows, k);
        rows := InsertNewest(store.accounts, rows, k);
      }
    }
    assert IsListing(store.accounts, filter, rows);
    return Ok(Page(rows, limit, offset));
  }

  // --- The batched lockout lookup (verification_locked_phones.sql) ---

  ghost predicate HasChallenge(rows: seq<Challenge>, phone: string) {
    exists i :: 0 <= i < |rows| && rows[i].phone == phone
  }

  /** `until` is the lock of one of the phone's most recently sent challenges. */
  ghost predicate LatestLock(rows: seq<Challenge>, phone: string, until: Option<int>) {
    exists i: nat :: IsLatest(rows, phone, i) && rows[i].lockedUntil == until
  }

  datatype LockRow = LockRow(phone: string, until: Option<int>)

  /** One row for each listed phone that has a challenge. */
  ghost predicate IsDistinctLatest(rows: seq<Challenge>, phones: seq<string>, r: seq<LockRow>) {
    && (forall n | 0 <= n < |r| :: r[n].phone in phones && LatestLock(rows, r[n].phone, r[n].until))
    && (forall m, n | 0 <= m < n < |r| :: r[m].phone != r[n].phone)
    && forall p | p in phones && HasChallenge(rows, p) :: exists n :: 0 <= n < |r| && r[n].phone == p
  }

  lemma DistinctExtended(rows: seq<Challenge>, phones: seq<string>, r: seq<LockRow>, row: LockRow)
    requires IsDistinctLatest(rows, phones, r) && LatestLock(rows, row.phone, row.until)
    requires forall n | 0 <= n < |r| :: r[n].phone != row.phone
    ensures IsDistinctLatest(rows, phones + [row.phone], r + [row])
  {
    var r' := r + [row];
    assert r'[|r|] == row;
    forall p | p in phones && HasChallenge(rows, p)
      ensures exists n :: 0 <= n < |r'| && r'[n].phone == p
    {
      var n :| 0 <= n < |r| && r[n].phone == p;
      assert r'[n].phone == p;
    }
  }

  /** The database's part: the latest row of every listed phone. */
  method DistinctLatest(store: Store, phones: seq<string>) returns (r: seq<LockRow>)
    ensures IsDistinctLatest(store.challenges, phones, r)
  {
    r := [];
    for n := 0 to |phones|
      invariant IsDistinctLatest(store.challenges, phones[..n], r)
    {
      var p := phones[n];
      assert phones[..n + 1] == phones[..n] + [p];
      if !(exists m | 0 <= m < |r| :: r[m].phone == p) {
        var latest := store.ScanLatest(p);
        if latest.Some? {
          var row := LockRow(p, store.challenges[latest.value].lockedUntil);
          assert IsLatest(store.challenges, p, latest.value);
          DistinctExtended(store.challenges, phones[..n], r, row);
          r := r + [row];
        }
      }
    }
    assert phones[..|phones|] == phones;
  }

  /** Whether some most recently sent challenge of the phone is locked. */
  ghost predicate LockedAt(rows: seq<Challenge>, phone: string, now: int, locked: bool) {
    exists i: nat :: IsLatest(rows, phone, i) && rows[i].IsLocked(now) == locked
  }

  predicate StillLocks(until: Option<int>, now: int) {
    until.Some? && now < until.value
  }

  lemma LatestLockDecides(rows: seq<Challenge>, phone: string, until: Option<int>, now: int)
    requires LatestLock(rows, phone, until)
    ensures LockedAt(rows, phone, now, StillLocks(until, now)) && HasChallenge(rows, phone)
  {
    var i: nat :| IsLatest(rows, phone, i) && rows[i].lockedUntil == until;
    assert rows[i].IsLocked(now) == StillLocks(until, now);
  }

  /** Absent exactly for the listed phones without a challenge. */
  method LockedPhones(store: Store, phones: seq<string>, now: int) returns (locked: Result<map<string, bool>>)
    ensures if LockedPhonesOp in store.fails && phones != [] then locked == Err(StorageFailure) else locked.Ok?
    ensures locked.Ok? ==> forall p :: p in locked.value <==> p in phones && HasChallenge(store.challenges, p)
    ensures locked.Ok? ==> forall p | p in locked.value :: LockedAt(store.challenges, p, now, locked.value[p])
  {
    if phones == [] {
      return Ok(map[]);
    }
    if LockedPhonesOp in store.fails {
      return Err(StorageFailure);
    }
    var rows := DistinctLatest(store, phones);
    var result: map<string, bool> := map[];
    for n := 0 to |rows|
      invariant forall p | p in result ::
          p in phones && HasChallenge(store.challenges, p) && LockedAt(store.challenges, p, now, result[p])
      invariant forall m | 0 <= m < n :: rows[m].phone in result
    {
      LatestLockDecides(store.challenges, rows[n].phone, rows[n].until, now);
      result := result[rows[n].phone := StillLocks(rows[n].until, now)];
    }
    return Ok(result);
  }

  /** Where a phone's latest challenge is the only one sent at that instant, the batched answer is the single one. */
  lemma BatchedIsSingle(rows: seq<Challenge>, phone: string, now: int, l: nat, locked: bool)
    requires StrictlyLatest(rows, phone, l) && LockedAt(rows, phone, now, locked)
    ensures locked == rows[l].IsLocked(now)
    ensures forall pick :: LatestOk(rows, phone, pick) ==> pick == Some(l)
  {
    assert rows[l].phone == phone;
  }

  // --- ListAccounts ---

  datatype Item = Item(id: nat, role: string, phone: string, googleLinked: bool, googleSignup: bool,
                       createdAt: int, lockoutActive: bool)

  const DEFAULT_LIMIT := 50

  /** The read model of one account. */
  ghost predicate Describes(item: Item, accounts: seq<Account>, rows: seq<Challenge>, id: nat, now: int)
    requires id < |accounts|
  {
    var a := accounts[id];
    && item.id == id && item.role == a.role && item.phone == a.phone && item.createdAt == a.createdAt
    && item.googleLinked == a.google.Some? && item.googleSignup == a.google.Some?
    && if LatestOk(rows, a.phone, None) then !item.lockoutActive else LockedAt(rows, a.phone, now, item.lockoutActive)
  }

  /** The model's rows describe the page `ids`, in order. */
  ghost predicate DescribesAll(items: seq<Item>, accounts: seq<Account>, rows: seq<Challenge>, ids: seq<nat>, now: int) {
    && |items| == |ids|
    && forall n | 0 <= n < |ids| :: ids[n] < |accounts| && Describes(items[n], accounts, rows, ids[n], now)
  }

  lemma DescribeOne(item: Item, accounts: seq<Account>, rows: seq<Challenge>, id: nat, now: int,
                    phones: seq<string>, locked: map<string, bool>)
    requires id < |accounts| && accounts[id].phone in phones
    requires forall p :: p in locked <==> p in phones && HasChallenge(rows, p)
    requires forall p | p in locked :: LockedAt(rows, p, now, locked[p])
    requires var a := accounts[id];
             item == Item(id, a.role, a.phone, a.google.Some?, a.google.Some?, a.createdAt,
                          a.phone in locked && locked[a.phone])
    ensures Describes(item, accounts, rows, id, now)
  {
  }

  /** The page asked for: the default length for none or a negative one, from the start for a negative offset. */
  ghost predicate IsRequested(accounts: seq<Account>, filter: string, limit: int, offset: int, ids: seq<nat>) {
    IsPage(accounts, filter, if limit <= 0 then 50 else limit, if offset < 0 then 0 else offset, ids)
  }

  /** Each item's lockout flag, from one batched lookup, is the answer of that phone's own lookup; an empty page needs
      no lookup. */
  method ListAccounts(store: Store, filter: string, limit: int, offset: int, now: int)
    returns (items: Result<seq<Item>>)
    ensures items.Ok? ==> exists ids ::
              && IsRequested(store.accounts, filter, limit, offset, ids)
              && DescribesAll(items.value, store.accounts, store.challenges, ids, now)
    ensures ListAccountsOp in store.fails ==> items == Err(StorageFailure)
    ensures LockedPhonesOp in store.fails ==> items == Err(StorageFailure) || items == Ok([])
    ensures items.Err? && ListAccountsOp !in store.fails ==>
              LockedPhonesOp in store.fails
              && exists ids :: ids != [] && IsRequested(store.accounts, filter, limit, offset, ids)
  {
    var size: nat := if limit <= 0 then DEFAULT_LIMIT else limit;
    var skip: nat := if offset < 0 then 0 else offset;
    var page := List(store, filter, size, skip);
    if page.Err? {
      return Err(page.error);
    }
    var ids := page.value;
    assert IsRequested(store.accounts, filter, limit, offset, ids);
    var phones: seq<string> := [];
    for n := 0 to |ids|
      invariant |phones| == n
      invariant forall m | 0 <= m < n :: phones[m] == store.accounts[ids[m]].phone
    {
      phones := phones + [store.accounts[ids[n]].phone];
    }
    var locked := LockedPhones(store, phones, now);
    if locked.Err? {
      assert ids != [];
      return Err(locked.error);
    }
    var described := Describe(store, ids, phones, locked.value, now);
    return Ok(described);
  }

  method Describe(store: Store, ids: seq<nat>, phones: seq<string>, locked: map<string, bool>, now: int)
    returns (items: seq<Item>)
    requires |phones| == |ids|
    requires forall n | 0 <= n < |ids| :: ids[n] < |store.accounts| && phones[n] == store.accounts[ids[n]].phone
    requires forall p :: p in locked <==> p in phones && HasChallenge(store.challenges, p)
    requires forall p | p in locked :: LockedAt(store.challenges, p, now, locked[p])
    ensures DescribesAll(items, store.accounts, store.challenges, ids, now)
  {
    items := [];
    for n := 0 to |ids|
      invariant DescribesAll(items, store.accounts, store.challenges, ids[..n], now)
    {
      var a := store.accounts[ids[n]];
      assert phones[n] == a.phone;
      var item := Item(ids[n], a.role, a.phone, a.google.Some?, a.google.Some?, a.createdAt,
                       a.phone in locked && locked[a.phone]);
      DescribeOne(item, store.accounts, store.challenges, ids[n], now, phones, locked);
      items := items + [item];
    }
    assert ids[..|ids|] == ids;
  }
}
