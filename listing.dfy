/**
 * The running balance shown by `listaMovimientos` and `elegirMovimiento`,
 * the rows `elegirMovimiento` offers for a refund, and the refund amount
 * `modificarMovimiento` writes.
 */
module Listing {
  import opened Wrappers
  import opened Records

  /** The sum of IMPORTE over `ms`: the account balance they make up. */
  function Balance(ms: seq<MovementView>): real
    decreases |ms|
  {
    if ms == [] then 0.0 else Balance(ms[..|ms| - 1]) + ms[|ms| - 1].amount
  }

  /** The balance of two runs of movements is the sum of their balances. */
  lemma {:induction false} BalanceAppend(a: seq<MovementView>, b: seq<MovementView>)
    ensures Balance(a + b) == Balance(a) + Balance(b)
    decreases |b|
  {
    if b == [] {
      assert a + b == a;
    } else {
      var q := b[..|b| - 1];
      assert (a + b)[..|a + b| - 1] == a + q;
      assert (a + b)[|a + b| - 1] == b[|b| - 1];
      BalanceAppend(a, q);
    }
  }

  /** `listaMovimientos`: the SALDO column is the running sum of IMPORTE, row by row. */
  method RunningBalances(ms: seq<MovementView>) returns (balances: seq<real>)
    ensures |balances| == |ms|
    ensures forall j :: 0 <= j < |ms| ==> balances[j] == Balance(ms[..j + 1])
  {
    var saldo: real := 0.0;
    balances := [];
    var j := 0;
    while j < |ms|
      invariant 0 <= j <= |ms|
      invariant |balances| == j
      invariant saldo == Balance(ms[..j])
      invariant forall i :: 0 <= i < j ==> balances[i] == Balance(ms[..i + 1])
    {
      assert ms[..j + 1][..j] == ms[..j];
      saldo := saldo + ms[j].amount;
      balances := balances + [saldo];
      j := j + 1;
    }
  }

  /** A row `elegirMovimiento` lists: its option number, the movement and the balance after it. */
  datatype ReturnRow = ReturnRow(option: nat, movement: MovementView, balance: real)

  /** Only movements with a merchant and not yet refunded (no IMPORTE-PARTICULAR) are listed. */
  predicate Returnable(m: MovementView)
  {
    m.merchant.Some? && |m.merchant.value| > 0 && m.particular.None?
  }

  /** `row` shows the movement at its option number, returnable, with the balance up to it. */
  predicate ListedRow(ms: seq<MovementView>, row: ReturnRow)
  {
    1 <= row.option <= |ms| && row.movement == ms[row.option - 1] &&
    Returnable(row.movement) && row.balance == Balance(ms[..row.option])
  }

  /** The rows listed for `ms`, as the specification of `elegirMovimiento`'s loop. */
  function RowsOf(ms: seq<MovementView>): seq<ReturnRow>
    decreases |ms|
  {
    if ms == [] then []
    else
      var last := ms[|ms| - 1];
      RowsOf(ms[..|ms| - 1]) + (if Returnable(last) then [ReturnRow(|ms|, last, Balance(ms))] else [])
  }

  /** Every listed row shows a returnable movement at its own position, with the balance up to it. */
  lemma {:induction false} RowsOfListed(ms: seq<MovementView>)
    ensures forall k :: 0 <= k < |RowsOf(ms)| ==> ListedRow(ms, RowsOf(ms)[k])
    decreases |ms|
  {
    if ms != [] {
      var p := ms[..|ms| - 1];
      RowsOfListed(p);
      var rows := RowsOf(ms);
      var before := RowsOf(p);
      assert ms[..|ms|] == ms;
      forall k | 0 <= k < |rows| ensures ListedRow(ms, rows[k]) {
        if k < |before| {
          var r := before[k];
          assert ListedRow(p, r);
          assert p[..r.option] == ms[..r.option];
          assert rows[k] == r;
        }
      }
    }
  }

  /** The rows are in position order. */
  lemma {:induction false} RowsOfOrdered(ms: seq<MovementView>)
    ensures forall k, l :: 0 <= k < l < |RowsOf(ms)| ==> RowsOf(ms)[k].option < RowsOf(ms)[l].option
    decreases |ms|
  {
    if ms != [] {
      var p := ms[..|ms| - 1];
      RowsOfOrdered(p);
      RowsOfListed(p);
      var rows := RowsOf(ms);
      var before := RowsOf(p);
      assert forall k :: 0 <= k < |before| ==> rows[k] == before[k] && before[k].option <= |p|;
    }
  }

  /** No returnable movement is missing from the rows: each has its own row. */
  lemma {:induction false} RowsOfComplete(ms: seq<MovementView>)
    ensures forall j :: 0 <= j < |ms| && Returnable(ms[j]) ==>
      ReturnRow(j + 1, ms[j], Balance(ms[..j + 1])) in RowsOf(ms)
    decreases |ms|
  {
    if ms != [] {
      var n := |ms| - 1;
      var p := ms[..n];
      RowsOfComplete(p);
      assert ms[..|ms|] == ms;
      forall j | 0 <= j < n && Returnable(ms[j])
        ensures ReturnRow(j + 1, ms[j], Balance(ms[..j + 1])) in RowsOf(ms)
      {
        assert p[j] == ms[j] && p[..j + 1] == ms[..j + 1];
      }
    }
  }

  /** `elegirMovimiento`'s loop: the balance runs over every movement, the rows are `RowsOf(ms)`. */
  method ReturnableRows(ms: seq<MovementView>) returns (rows: seq<ReturnRow>)
    ensures rows == RowsOf(ms)
    ensures forall k :: 0 <= k < |rows| ==> ListedRow(ms, rows[k])
    ensures forall k, l :: 0 <= k < l < |rows| ==> rows[k].option < rows[l].option
    ensures forall j :: 0 <= j < |ms| && Returnable(ms[j]) ==> ReturnRow(j + 1, ms[j], Balance(ms[..j + 1])) in rows
  {
    var saldo: real := 0.0;
    rows := [];
    var j := 0;
    while j < |ms|
      invariant 0 <= j <= |ms|
      invariant saldo == Balance(ms[..j])
      invariant rows == RowsOf(ms[..j])
    {
      assert ms[..j + 1][..j] == ms[..j];
      saldo := saldo + ms[j].amount;
      if Returnable(ms[j]) {
        rows := rows + [ReturnRow(j + 1, ms[j], saldo)];
      }
      j := j + 1;
    }
    assert ms[..|ms|] == ms;
    RowsOfListed(ms);
    RowsOfOrdered(ms);
    RowsOfComplete(ms);
  }

  /**
   * The IMPORTE-PARTICULAR a refund writes: `-(importe - importe * 0.04)`.
   * Added to the original amount it leaves the 4% penalty; its sign is the
   * opposite of the amount's.
   */
  function RefundOverride(importe: real): (r: real)
    ensures importe + r == importe * 4.0 / 100.0
    ensures importe < 0.0 ==> r > 0.0 && r == -importe * 96.0 / 100.0
    ensures importe > 0.0 ==> r < 0.0
  {
    -(importe - importe * 4.0 / 100.0)
  }

  /** The field update of `modificarMovimiento`: which movement, and its new IMPORTE-PARTICULAR. */
  datatype Override = Override(movement: Id, particular: real)

  /**
   * `modificarMovimiento` after the choice: option -1 cancels, a declined
   * confirmation changes nothing; any listed position can be chosen, also one
   * that was not offered as a row.
   */
  function RefundChoice(ms: seq<MovementView>, option: int, confirmed: bool): (r: Option<Override>)
    requires option == -1 || 1 <= option <= |ms|
    ensures r.Some? <==> ms != [] && option != -1 && confirmed
    ensures r.Some? ==> (r.value.movement == ms[option - 1].id &&
                         r.value.particular == RefundOverride(ms[option - 1].amount))
  {
    if ms == [] || option == -1 || !confirmed then None
    else Some(Override(ms[option - 1].id, RefundOverride(ms[option - 1].amount)))
  }
}
