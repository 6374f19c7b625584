/**
 * `pilaMov`: one pass over the current account's movements that derives the
 * remaining weekly quota per size class and harvests the periodic movements.
 */
module Quotas {
  import opened Wrappers
  import opened Records
  import Stacks

  /** `GESTIONABILIDAD`: the remaining actions this week per size class. */
  datatype Quota = Quota(grande: int, mediana: int, pequena: int)
  {
    function Get(c: SizeClass): int
    {
      match c
      case Grande => grande
      case Mediana => mediana
      case Pequena => pequena
    }

    /** `gestionabilidad[c] -= 1`: lowers class `c` by one and no other class. */
    function Decrement(c: SizeClass): (r: Quota)
      ensures r.Get(c) == Get(c) - 1
      ensures forall d :: d != c ==> r.Get(d) == Get(d)
    {
      match c
      case Grande => this.(grande := grande - 1)
      case Mediana => this.(mediana := mediana - 1)
      case Pequena => this.(pequena := pequena - 1)
    }

    /** No class has an action left. */
    predicate AllExhausted()
    {
      grande <= 0 && mediana <= 0 && pequena <= 0
    }
  }

  /** The weekly caps: GRANDE 2, MEDIANA 4, PEQUEÑA 8. */
  function Cap(c: SizeClass): int
  {
    match c
    case Grande => 2
    case Mediana => 4
    case Pequena => 8
  }

  const Caps: Quota := Quota(2, 4, 8)

  /** A movement that uses up one action of class `c` this week. */
  predicate SameWeekOf(m: MovementView, c: SizeClass)
  {
    m.sameWeek == Some(1) && m.gestion == Some(c)
  }

  /**
   * The quota update for one movement. A same-week movement with no GESTIÓN
   * raises a TypeError at the lookup, which the loop swallows: nothing changes.
   */
  function StepQuota(q: Quota, m: MovementView): (r: Quota)
    ensures forall c :: r.Get(c) == q.Get(c) - (if SameWeekOf(m, c) then 1 else 0)
  {
    if m.sameWeek == Some(1) && m.gestion.Some? then q.Decrement(m.gestion.value) else q
  }

  /** The quota after scanning `h` from the caps. */
  function QuotaOf(h: seq<MovementView>): Quota
    decreases |h|
  {
    if h == [] then Caps else StepQuota(QuotaOf(h[..|h| - 1]), h[|h| - 1])
  }

  /** The number of same-week movements of class `c` in `h`. */
  function SameWeekCount(h: seq<MovementView>, c: SizeClass): nat
  {
    if h == [] then 0 else (if SameWeekOf(h[0], c) then 1 else 0) + SameWeekCount(h[1..], c)
  }

  lemma {:induction false} SameWeekCountSnoc(h: seq<MovementView>, m: MovementView, c: SizeClass)
    ensures SameWeekCount(h + [m], c) == SameWeekCount(h, c) + (if SameWeekOf(m, c) then 1 else 0)
  {
    if h == [] {
      assert (h + [m])[1..] == [];
    } else {
      assert (h + [m])[0] == h[0];
      assert (h + [m])[1..] == h[1..] + [m];
      SameWeekCountSnoc(h[1..], m, c);
    }
  }

  /** The remaining quota of a class is its cap less the same-week movements of that class. */
  lemma {:induction false} QuotaIsCapMinusSameWeek(h: seq<MovementView>, c: SizeClass)
    ensures QuotaOf(h).Get(c) == Cap(c) - SameWeekCount(h, c)
  {
    if h != [] {
      var p := h[..|h| - 1];
      QuotaIsCapMinusSameWeek(p, c);
      assert h == p + [h[|h| - 1]];
      SameWeekCountSnoc(p, h[|h| - 1], c);
    }
  }

  /** So the derived quota never exceeds the cap. */
  lemma {:induction false} QuotaNeverAboveCap(h: seq<MovementView>, c: SizeClass)
    ensures QuotaOf(h).Get(c) <= Cap(c)
  {
    QuotaIsCapMinusSameWeek(h, c);
  }

  /** One harvested periodic movement: `{CONCEPTO, PERÍODOS, FRECUENCIA}`. */
  datatype PeriodicEntry = PeriodicEntry(concept: string, periods: int, frequency: string)

  /** Python's `int()` on a float: truncation toward zero. */
  function TruncateToInt(x: real): (r: int)
    ensures 0.0 <= x ==> r as real <= x < r as real + 1.0
    ensures x < 0.0 ==> r as real - 1.0 < x <= r as real
  {
    if x >= 0.0 then x.Floor else -((-x).Floor)
  }

  /**
   * What `pilaMov` collects from one movement. Every TypeError of the
   * try-block (a missing GESTIÓN on a same-week movement, a missing
   * FRECUENCIA, CONCEPTO-LITERAL or TIEMPO-DESDE-MOVIMIENTO) skips it, and so
   * does an empty frequency (`if frec:`).
   */
  function Harvested(m: MovementView): Option<PeriodicEntry>
  {
    if m.sameWeek == Some(1) && m.gestion.None? then None
    else if m.frequency.None? || m.concept.None? || m.periods.None? then None
    else if |m.frequency.value| == 0 then None
    else Some(PeriodicEntry(m.concept.value, TruncateToInt(m.periods.value), m.frequency.value))
  }

  /** `periodicosRegistrados` after scanning `h`. */
  function Harvest(h: seq<MovementView>): seq<PeriodicEntry>
    decreases |h|
  {
    if h == [] then []
    else Harvest(h[..|h| - 1]) + (match Harvested(h[|h| - 1]) case None => [] case Some(e) => [e])
  }

  /** Only movements with a frequency are harvested, each from a movement of `h`. */
  lemma {:induction false} HarvestSound(h: seq<MovementView>, k: nat)
    requires k < |Harvest(h)|
    ensures |Harvest(h)[k].frequency| > 0
    ensures exists i :: 0 <= i < |h| && Harvested(h[i]) == Some(Harvest(h)[k])
  {
    var p := h[..|h| - 1];
    if k < |Harvest(p)| {
      HarvestSound(p, k);
      var i :| 0 <= i < |p| && Harvested(p[i]) == Some(Harvest(p)[k]);
      assert h[i] == p[i];
    } else {
      assert Harvested(h[|h| - 1]) == Some(Harvest(h)[k]);
    }
  }

  /** And every movement that can be harvested is. */
  lemma {:induction false} HarvestComplete(h: seq<MovementView>, i: nat)
    requires i < |h| && Harvested(h[i]).Some?
    ensures Harvested(h[i]).value in Harvest(h)
  {
    var p := h[..|h| - 1];
    if i < |h| - 1 {
      assert h[i] == p[i];
      HarvestComplete(p, i);
    }
  }

  /** What one movement adds to the periodic list. */
  function HarvestedList(m: MovementView): seq<PeriodicEntry>
  {
    match Harvested(m) case None => [] case Some(e) => [e]
  }

  /** Scanning one more movement: one quota step and at most one harvested entry. */
  lemma ScanStep(h: seq<MovementView>, i: nat)
    requires i < |h|
    ensures QuotaOf(h[..i + 1]) == StepQuota(QuotaOf(h[..i]), h[i])
    ensures Harvest(h[..i + 1]) == Harvest(h[..i]) + HarvestedList(h[i])
  {
    assert h[..i + 1][..i] == h[..i];
    assert h[..i + 1][i] == h[i];
  }

  /**
   * `pilaMov`: pushes every movement on a fresh stack, decrements the quota
   * of each same-week movement's class and collects the periodic ones.
   */
  method ScanMovements(h: seq<MovementView>)
    returns (pila: Stacks.Stack<MovementView>, quota: Quota, periodic: seq<PeriodicEntry>)
    ensures fresh(pila) && pila.items == h
    ensures quota == QuotaOf(h) && periodic == Harvest(h)
  {
    pila := new Stacks.Stack();
    quota := Caps;
    periodic := [];
    var i := 0;
    while i < |h|
      invariant 0 <= i <= |h|
      invariant fresh(pila) && pila.items == h[..i]
      invariant quota == QuotaOf(h[..i]) && periodic == Harvest(h[..i])
    {
      var m := h[i];
      ghost var q0, p0 := quota, periodic;
      pila.Push(m);
      var raised := false;
      if m.sameWeek == Some(1) {
        if m.gestion.None? {
          raised := true;   // `GESTIÓN[0]` on a missing field
        } else {
          quota := quota.Decrement(m.gestion.value);
        }
      }
      if !raised && m.frequency.Some? && m.concept.Some? && m.periods.Some? {
        var numPeriodos := TruncateToInt(m.periods.value);
        if |m.frequency.value| > 0 {
          periodic := periodic + [PeriodicEntry(m.concept.value, numPeriodos, m.frequency.value)];
        }
      }
      assert quota == StepQuota(q0, m);
      assert periodic == p0 + HarvestedList(m);
      ScanStep(h, i);
      assert pila.items == h[..i + 1];
      i := i + 1;
    }
    assert h[..|h|] == h;
  }
}
