/** When the pages of the account list fit together (account_list.sql orders by created_at alone). */
module Paging {
  import opened Domain
  import opened Storage
  import opened Listing
  import Like

  /** No two listed accounts were created at one instant. */
  ghost predicate DistinctTimes(accounts: seq<Account>, filter: string) {
    forall i, j | 0 <= i < j < |accounts|
                  && Like.Contains(accounts[i].phone, filter) && Like.Contains(accounts[j].phone, filter) ::
      accounts[i].createdAt != accounts[j].createdAt
  }

  ghost predicate JoinAt(accounts: seq<Account>, filter: string, limit: nat, more: nat, offset: nat,
                         p: seq<nat>, q: seq<nat>)
  {
    IsPage(accounts, filter, limit, offset, p) && IsPage(accounts, filter, more, offset + limit, q) ==>
      IsPage(accounts, filter, limit + more, offset, p + q)
  }

  /** A page and the one that starts where it ends, read by two calls, are a page together. */
  ghost predicate PagesJoin(accounts: seq<Account>, filter: string) {
    forall limit: nat, more: nat, offset: nat, p, q :: JoinAt(accounts, filter, limit, more, offset, p, q)
  }

  lemma CountTwice(order: seq<nat>, m: nat, n: nat)
    requires m < n < |order|
    ensures multiset(order)[order[m]] >= 1 && (order[m] == order[n] ==> multiset(order)[order[m]] >= 2)
  {
    assert order == order[..n] + order[n..];
    assert order[..n][m] == order[m] && order[n..][0] == order[n];
  }

  lemma ListedOnce(accounts: seq<Account>, filter: string, order: seq<nat>, m: nat, n: nat)
    requires IsListing(accounts, filter, order) && m < n < |order|
    ensures order[m] != order[n]
  {
    CountTwice(order, m, n);
  }

  lemma Listed(accounts: seq<Account>, filter: string, order: seq<nat>, k: nat)
    requires IsListing(accounts, filter, order)
    ensures k in order <==> k < |accounts| && Like.Contains(accounts[k].phone, filter)
  {
    assert k in order <==> multiset(order)[k] > 0;
  }

  ghost predicate NoTies(accounts: seq<Account>, order: seq<nat>)
    requires NewestFirst(accounts, order)
  {
    forall m, n | 0 <= m < n < |order| :: accounts[order[m]].createdAt != accounts[order[n]].createdAt
  }

  lemma SameHead(accounts: seq<Account>, a: seq<nat>, b: seq<nat>)
    requires NewestFirst(accounts, a) && NewestFirst(accounts, b) && NoTies(accounts, a)
    requires a != [] && b != [] && a[0] in b && b[0] in a
    ensures a[0] == b[0]
  {
    var m :| 0 <= m < |a| && a[m] == b[0];
    var n :| 0 <= n < |b| && b[n] == a[0];
    assert accounts[a[0]].createdAt >= accounts[a[m]].createdAt;
    assert accounts[b[0]].createdAt >= accounts[b[n]].createdAt;
  }

  lemma TailOf(a: seq<nat>)
    requires a != []
    ensures multiset(a[1..]) == multiset(a) - multiset{a[0]} && a[0] in multiset(a)
  {
    assert a == [a[0]] + a[1..];
  }

  /** Two newest-first lists of the same accounts are one list where no two were created at one instant. */
  lemma {:induction false} SameOrder(accounts: seq<Account>, a: seq<nat>, b: seq<nat>)
    requires NewestFirst(accounts, a) && NewestFirst(accounts, b) && NoTies(accounts, a)
    requires multiset(a) == multiset(b)
    ensures a == b
  {
    assert |a| == |multiset(a)| == |multiset(b)| == |b|;
    if a != [] {
      TailOf(a);
      TailOf(b);
      assert a[0] in b && b[0] in a;
      SameHead(accounts, a, b);
      SameOrder(accounts, a[1..], b[1..]);
      SameSplit(a, b);
    }
  }

  lemma SameSplit(a: seq<nat>, b: seq<nat>)
    requires a != [] && b != [] && a[0] == b[0] && a[1..] == b[1..]
    ensures a == b
  {
    assert a == [a[0]] + a[1..] && b == [b[0]] + b[1..];
  }

  lemma OneListing(accounts: seq<Account>, filter: string, a: seq<nat>, b: seq<nat>)
    requires DistinctTimes(accounts, filter) && IsListing(accounts, filter, a) && IsListing(accounts, filter, b)
    ensures a == b
  {
    forall k: nat
      ensures multiset(a)[k] == multiset(b)[k]
    {
    }
    assert multiset(a) == multiset(b);
    forall m, n | 0 <= m < n < |a|
      ensures accounts[a[m]].createdAt != accounts[a[n]].createdAt
    {
      ListedOnce(accounts, filter, a, m, n);
      Listed(accounts, filter, a, a[m]);
      Listed(accounts, filter, a, a[n]);
      assert a[m] < a[n] || a[n] < a[m];
    }
    SameOrder(accounts, a, b);
  }

  lemma PageJoin(order: seq<nat>, limit: nat, more: nat, offset: nat)
    ensures Page(order, limit, offset) + Page(order, more, offset + limit) == Page(order, limit + more, offset)
  {
  }

  /** The matching accounts can be listed. */
  lemma SomeListing(accounts: seq<Account>, filter: string) returns (order: seq<nat>)
    ensures IsListing(accounts, filter, order)
  {
    order := [];
    for k := 0 to |accounts|
      invariant NewestFirst(accounts, order)
      invariant forall i: nat :: multiset(order)[i] == if i < k && Like.Contains(accounts[i].phone, filter) then 1 else 0
    {
      if Like.Contains(accounts[k].phone, filter) {
        InsertKeepsOrder(accounts, order, k);
        InsertAddsOne(accounts, order, k);
        order := InsertNewest(accounts, order, k);
      }
    }
  }

  function Swapped(order: seq<nat>, m: nat): seq<nat>
    requires m + 1 < |order|
  {
    order[..m] + [order[m + 1], order[m]] + order[m + 2..]
  }

  lemma SwappedAt(order: seq<nat>, m: nat, i: nat)
    requires m + 1 < |order| && i < |order|
    ensures |Swapped(order, m)| == |order|
    ensures Swapped(order, m)[i] == if i == m then order[m + 1] else if i == m + 1 then order[m] else order[i]
  {
  }

  lemma SwappedCounts(order: seq<nat>, m: nat)
    requires m + 1 < |order|
    ensures multiset(Swapped(order, m)) == multiset(order)
  {
    assert order == order[..m] + [order[m], order[m + 1]] + order[m + 2..];
  }

  /** Two neighbours of a listing that were created at one instant may change places. */
  lemma SwapTied(accounts: seq<Account>, filter: string, order: seq<nat>, m: nat)
    requires IsListing(accounts, filter, order) && m + 1 < |order|
    requires accounts[order[m]].createdAt == accounts[order[m + 1]].createdAt
    ensures IsListing(accounts, filter, Swapped(order, m))
  {
    var other := Swapped(order, m);
    SwappedCounts(order, m);
    forall i | 0 <= i < |other|
      ensures other[i] < |accounts| && accounts[other[i]].createdAt == accounts[order[i]].createdAt
    {
      SwappedAt(order, m, i);
    }
    SameTimes(accounts, order, other);
  }

  lemma SameTimes(accounts: seq<Account>, order: seq<nat>, other: seq<nat>)
    requires NewestFirst(accounts, order) && |other| == |order|
    requires forall i | 0 <= i < |other| ::
               other[i] < |accounts| && accounts[other[i]].createdAt == accounts[order[i]].createdAt
    ensures NewestFirst(accounts, other)
  {
  }

  /** A listing with a tie has two tied neighbours. */
  lemma TiedNeighbours(accounts: seq<Account>, order: seq<nat>, m: nat, n: nat) returns (k: nat)
    requires NewestFirst(accounts, order) && m < n < |order|
    requires accounts[order[m]].createdAt == accounts[order[n]].createdAt
    ensures k + 1 < |order| && accounts[order[k]].createdAt == accounts[order[k + 1]].createdAt
  {
    k := m;
    assert accounts[order[m]].createdAt >= accounts[order[m + 1]].createdAt;
    if m + 1 < n {
      assert accounts[order[m + 1]].createdAt >= accounts[order[n]].createdAt;
    }
  }

  /** Read after a change of order, the next page of one row repeats the row before. */
  lemma TieRepeats(accounts: seq<Account>, filter: string, order: seq<nat>, k: nat)
    requires IsListing(accounts, filter, order) && k + 1 < |order|
    requires accounts[order[k]].createdAt == accounts[order[k + 1]].createdAt
    ensures !PagesJoin(accounts, filter)
  {
    var other, row := Swapped(order, k), order[k];
    SwapTied(accounts, filter, order, k);
    SwappedAt(order, k, k + 1);
    var p, q := Page(order, 1, k), Page(other, 1, k + 1);
    assert p == [row] && q == [row];
    assert IsPage(accounts, filter, 1, k, p) && IsPage(accounts, filter, 1, k + 1, q);
    RepeatIsNoPage(accounts, filter, k, row);
    assert !JoinAt(accounts, filter, 1, 1, k, p, q);
  }

  lemma RepeatIsNoPage(accounts: seq<Account>, filter: string, k: nat, row: nat)
    ensures !IsPage(accounts, filter, 2, k, [row] + [row])
  {
    forall whole | IsListing(accounts, filter, whole)
      ensures [row] + [row] != Page(whole, 2, k)
    {
      if k + 1 < |whole| {
        ListedOnce(accounts, filter, whole, k, k + 1);
        assert Page(whole, 2, k)[0] == whole[k] && Page(whole, 2, k)[1] == whole[k + 1];
        assert ([row] + [row])[0] == ([row] + [row])[1];
      } else {
        assert |Page(whole, 2, k)| < 2;
      }
    }
  }

  /** Consecutive pages never repeat or miss an account, for any page sizes, if and only if no two matching accounts
      were created at one instant. */
  lemma PagesJoinIff(accounts: seq<Account>, filter: string)
    ensures PagesJoin(accounts, filter) <==> DistinctTimes(accounts, filter)
  {
    if DistinctTimes(accounts, filter) {
      forall limit: nat, more: nat, offset: nat, p, q
        ensures JoinAt(accounts, filter, limit, more, offset, p, q)
      {
        if IsPage(accounts, filter, limit, offset, p) && IsPage(accounts, filter, more, offset + limit, q) {
          var a :| IsListing(accounts, filter, a) && p == Page(a, limit, offset);
          var b :| IsListing(accounts, filter, b) && q == Page(b, more, offset + limit);
          OneListing(accounts, filter, a, b);
          PageJoin(a, limit, more, offset);
        }
      }
    } else {
      var i, j :| 0 <= i < j < |accounts| && accounts[i].createdAt == accounts[j].createdAt
                  && Like.Contains(accounts[i].phone, filter) && Like.Contains(accounts[j].phone, filter);
      var order := SomeListing(accounts, filter);
      Listed(accounts, filter, order, i);
      Listed(accounts, filter, order, j);
      var m :| 0 <= m < |order| && order[m] == i;
      var n :| 0 <= n < |order| && order[n] == j;
      var k := TiedNeighbours(accounts, order, if m < n then m else n, if m < n then n else m);
      TieRepeats(accounts, filter, order, k);
    }
  }
}
