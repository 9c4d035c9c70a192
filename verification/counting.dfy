/** How the window sums move when a row is added or changed. */
module Counting {
  import opened Domain
  import opened Storage

  lemma SumAppend(rows: seq<Challenge>, row: Challenge, m: Measure)
    ensures Sum(rows + [row], m) == Sum(rows, m) + Share(row, m)
  {
    assert (rows + [row])[..|rows|] == rows;
  }

  lemma {:induction false} SumUpdate(rows: seq<Challenge>, i: nat, row: Challenge, m: Measure)
    requires i < |rows|
    ensures Sum(rows[i := row], m) + Share(rows[i], m) == Sum(rows, m) + Share(row, m)
  {
    var n := |rows| - 1;
    if i == n {
      assert rows[i := row][..n] == rows[..n];
    } else {
      SumUpdate(rows[..n], i, row, m);
      assert rows[i := row][..n] == rows[..n][i := row];
    }
  }

  lemma {:induction false} ShareWithinSum(rows: seq<Challenge>, i: nat, m: Measure)
    requires i < |rows|
    ensures Share(rows[i], m) <= Sum(rows, m)
  {
    if i < |rows| - 1 {
      ShareWithinSum(rows[..|rows| - 1], i, m);
    }
  }

  /** Rows active in a window are either counted by its send sum or blank. */
  lemma {:induction false} ActiveSendOrBlank(rows: seq<Challenge>, phone: string, since: int)
    ensures Sum(rows, Active(phone, since)) <= Sum(rows, Sends(phone, since)) + Sum(rows, Blank(phone))
  {
    if rows != [] {
      ActiveSendOrBlank(rows[..|rows| - 1], phone, since);
    }
  }

  /** Where no row exceeds its cap, a window's sends are at most the cap for each active row. */
  lemma {:induction false} SendsPerActive(rows: seq<Challenge>, phone: string, since: int)
    requires forall i | 0 <= i < |rows| :: rows[i].sendsInWindow <= MAX_SENDS_PER_WINDOW
    ensures Sum(rows, Sends(phone, since)) <= MAX_SENDS_PER_WINDOW * Sum(rows, Active(phone, since))
  {
    if rows != [] {
      SendsPerActive(rows[..|rows| - 1], phone, since);
    }
  }

  /** A window that starts later has no more active rows and no more sends. */
  lemma {:induction false} LaterWindow(rows: seq<Challenge>, phone: string, earlier: int, later: int)
    requires earlier <= later
    ensures Sum(rows, Active(phone, later)) <= Sum(rows, Active(phone, earlier))
    ensures Sum(rows, Sends(phone, later)) <= Sum(rows, Sends(phone, earlier))
  {
    if rows != [] {
      LaterWindow(rows[..|rows| - 1], phone, earlier, later);
    }
  }

  lemma {:induction false} NoRowsNoSum(rows: seq<Challenge>, m: Measure)
    requires forall i | 0 <= i < |rows| :: Share(rows[i], m) == 0
    ensures Sum(rows, m) == 0
  {
    if rows != [] {
      NoRowsNoSum(rows[..|rows| - 1], m);
    }
  }
}
