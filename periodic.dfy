/**
 * Periodic reconciliation: `contarConceptos` groups the harvested periodic
 * movements, `registrarMovPeriodicosPendientes` keeps the groups whose count
 * differs from the periods elapsed, and `anadirUltimosMovPeriodicos` appends
 * the missing movements on the current account.
 */
module Periodic {
  import opened Wrappers
  import opened Records
  import opened Quotas

  /** A group: (CONCEPTO, FRECUENCIA). */
  type Key = (string, string)

  function KeyOf(e: PeriodicEntry): Key
  {
    (e.concept, e.frequency)
  }

  /** `CUENTA`: the group's size; `PENDIENTES`: the largest PERÍODOS in it. */
  datatype Stats = Stats(count: nat, maxPeriods: int)

  function Max(a: int, b: int): int
  {
    if a >= b then a else b
  }

  /** Adds one entry to the pivot table. */
  function AddEntry(g: map<Key, Stats>, e: PeriodicEntry): map<Key, Stats>
  {
    var k := KeyOf(e);
    if k in g then g[k := Stats(g[k].count + 1, Max(g[k].maxPeriods, e.periods))]
    else g[k := Stats(1, e.periods)]
  }

  /** `contarConceptos`: count and maximum of PERÍODOS per (concept, frequency). */
  function CountConcepts(es: seq<PeriodicEntry>): map<Key, Stats>
    decreases |es|
  {
    if es == [] then map[] else AddEntry(CountConcepts(es[..|es| - 1]), es[|es| - 1])
  }

  /** The number of entries of group `k`. */
  function GroupCount(es: seq<PeriodicEntry>, k: Key): nat
    decreases |es|
  {
    if es == [] then 0
    else GroupCount(es[..|es| - 1], k) + (if KeyOf(es[|es| - 1]) == k then 1 else 0)
  }

  /**
   * There is a group for every key that occurs and no other; its count is
   * the number of its entries and its maximum is the largest of their periods.
   */
  lemma {:induction false} CountConceptsGroups(es: seq<PeriodicEntry>, k: Key)
    ensures k in CountConcepts(es) <==> exists i :: 0 <= i < |es| && KeyOf(es[i]) == k
    ensures k in CountConcepts(es) ==> CountConcepts(es)[k].count == GroupCount(es, k)
    ensures k !in CountConcepts(es) ==> GroupCount(es, k) == 0
    ensures k in CountConcepts(es) ==>
      forall i :: 0 <= i < |es| && KeyOf(es[i]) == k ==> es[i].periods <= CountConcepts(es)[k].maxPeriods
    ensures k in CountConcepts(es) ==>
      exists i :: 0 <= i < |es| && KeyOf(es[i]) == k && es[i].periods == CountConcepts(es)[k].maxPeriods
  {
    if es != [] {
      var p := es[..|es| - 1];
      var e := es[|es| - 1];
      CountConceptsGroups(p, k);
      assert forall i :: 0 <= i < |p| ==> es[i] == p[i];
      var g := CountConcepts(p);
      if KeyOf(e) == k && k in g {
        var i :| 0 <= i < |p| && KeyOf(p[i]) == k && p[i].periods == g[k].maxPeriods;
        if e.periods <= g[k].maxPeriods {
          assert KeyOf(es[i]) == k && es[i].periods == CountConcepts(es)[k].maxPeriods;
        } else {
          assert KeyOf(es[|es| - 1]) == k && es[|es| - 1].periods == CountConcepts(es)[k].maxPeriods;
        }
      } else if KeyOf(e) == k {
        assert KeyOf(es[|es| - 1]) == k && es[|es| - 1].periods == CountConcepts(es)[k].maxPeriods;
        forall i | 0 <= i < |es| && KeyOf(es[i]) == k ensures es[i].periods <= CountConcepts(es)[k].maxPeriods {
          if i < |p| { assert false; }
        }
      } else {
        assert CountConcepts(es) == g[KeyOf(e) := CountConcepts(es)[KeyOf(e)]];
        if k in g {
          var i :| 0 <= i < |p| && KeyOf(p[i]) == k && p[i].periods == g[k].maxPeriods;
          assert KeyOf(es[i]) == k && es[i].periods == CountConcepts(es)[k].maxPeriods;
        }
      }
    }
  }

  lemma {:induction false} GroupCountAppend(a: seq<PeriodicEntry>, b: seq<PeriodicEntry>, k: Key)
    ensures GroupCount(a + b, k) == GroupCount(a, k) + GroupCount(b, k)
    decreases |b|
  {
    if b == [] {
      assert a + b == a;
    } else {
      var q := b[..|b| - 1];
      assert (a + b)[..|a + b| - 1] == a + q;
      assert (a + b)[|a + b| - 1] == b[|b| - 1];
      GroupCountAppend(a, q, k);
    }
  }

  /** The positions of `h` whose movement is harvested into group `k`. */
  function HarvestedAt(h: seq<MovementView>, k: Key): set<int>
  {
    set i | 0 <= i < |h| && Harvested(h[i]).Some? && KeyOf(Harvested(h[i]).value) == k
  }

  /** Extending `h` by `m` adds position `|h|` to group `k` exactly when `m` is harvested into it. */
  lemma HarvestedAtSnoc(h: seq<MovementView>, m: MovementView, k: Key)
    ensures HarvestedAt(h + [m], k) ==
      HarvestedAt(h, k) + (if Harvested(m).Some? && KeyOf(Harvested(m).value) == k then {|h|} else {})
  {
    var h' := h + [m];
    assert forall i :: 0 <= i < |h| ==> h'[i] == h[i];
    assert h'[|h|] == m;
  }

  /** Group `k` of the harvest has one entry per movement of `h` harvested into it. */
  lemma {:induction false} HarvestGroupCount(h: seq<MovementView>, k: Key)
    ensures GroupCount(Harvest(h), k) == |HarvestedAt(h, k)|
    decreases |h|
  {
    if h == [] {
      assert HarvestedAt(h, k) == {};
    } else {
      var p := h[..|h| - 1];
      var m := h[|h| - 1];
      assert h == p + [m];
      HarvestGroupCount(p, k);
      GroupCountAppend(Harvest(p), HarvestedList(m), k);
      HarvestedAtSnoc(p, m, k);
      assert |p| !in HarvestedAt(p, k);
      if Harvested(m).Some? {
        assert HarvestedList(m)[..0] == [];
      }
    }
  }

  /** `PENDIENTES - CUENTA` when positive: the movements group `k` is missing. */
  function Deficit(g: map<Key, Stats>, k: Key): nat
  {
    if k in g && g[k].maxPeriods > g[k].count then g[k].maxPeriods - g[k].count else 0
  }

  /**
   * A group that has received exactly its missing movements, none of them
   * with more elapsed periods than the group's maximum, is balanced.
   */
  lemma {:induction false} BackfilledGroupBalances(es: seq<PeriodicEntry>, extra: seq<PeriodicEntry>, k: Key)
    requires GroupCount(extra, k) == Deficit(CountConcepts(es), k)
    requires forall j :: 0 <= j < |extra| && KeyOf(extra[j]) == k ==>
      k in CountConcepts(es) && extra[j].periods <= CountConcepts(es)[k].maxPeriods
    ensures Deficit(CountConcepts(es + extra), k) == 0
  {
    var g := CountConcepts(es);
    var g' := CountConcepts(es + extra);
    CountConceptsGroups(es, k);
    CountConceptsGroups(es + extra, k);
    GroupCountAppend(es, extra, k);
    if k in g' {
      var i :| 0 <= i < |es + extra| && KeyOf((es + extra)[i]) == k && (es + extra)[i].periods == g'[k].maxPeriods;
      if i < |es| {
        assert (es + extra)[i] == es[i];
      } else {
        assert (es + extra)[i] == extra[i - |es|];
      }
      assert k in g;
      var i0 :| 0 <= i0 < |es| && KeyOf(es[i0]) == k && es[i0].periods == g[k].maxPeriods;
      assert (es + extra)[i0] == es[i0];
      assert g'[k].maxPeriods == g[k].maxPeriods;
      CountConceptsGroups(es, k);
    }
  }

  /** `marcoConceptos[CUENTA != PENDIENTES]`. */
  function Pending(g: map<Key, Stats>): (r: map<Key, Stats>)
  {
    map k | k in g && g[k].count != g[k].maxPeriods :: g[k]
  }

  /** The groups in order of first appearance, each once. */
  function DistinctKeys(es: seq<PeriodicEntry>): (r: seq<Key>)
    ensures forall k :: k in r <==> exists i :: 0 <= i < |es| && KeyOf(es[i]) == k
    ensures forall i, j :: 0 <= i < j < |r| ==> r[i] != r[j]
    decreases |es|
  {
    if es == [] then []
    else
      var p := DistinctKeys(es[..|es| - 1]);
      assert forall i :: 0 <= i < |es| - 1 ==> es[..|es| - 1][i] == es[i];
      if KeyOf(es[|es| - 1]) in p then p else p + [KeyOf(es[|es| - 1])]
  }

  /** The listed keys that have a pending group. */
  function PendingKeys(keys: seq<Key>, g: map<Key, Stats>): (r: seq<Key>)
    ensures forall k :: k in r <==> k in keys && k in Pending(g)
    ensures (forall i, j :: 0 <= i < j < |keys| ==> keys[i] != keys[j]) ==>
      forall i, j :: 0 <= i < j < |r| ==> r[i] != r[j]
    ensures StrictlySorted(keys) ==> StrictlySorted(r)
  {
    if keys == [] then []
    else
      var t := PendingKeys(keys[1..], g);
      assert StrictlySorted(keys) ==> StrictlySorted(keys[1..]) && forall x :: x in t ==> KeyLess(keys[0], x);
      (if keys[0] in Pending(g) then [keys[0]] else []) + t
  }

  /** Python's `<` on `str`: lexicographic by code point. */
  predicate StrLess(a: string, b: string)
    decreases |a|
  {
    if a == [] then b != []
    else b != [] && (if a[0] == b[0] then StrLess(a[1..], b[1..]) else a[0] < b[0])
  }

  lemma {:induction false} StrLessIrreflexive(a: string)
    ensures !StrLess(a, a)
    decreases |a|
  {
    if a != [] {
      StrLessIrreflexive(a[1..]);
    }
  }

  lemma {:induction false} StrLessTotal(a: string, b: string)
    ensures a == b || StrLess(a, b) || StrLess(b, a)
    decreases |a|
  {
    if a != [] && b != [] && a[0] == b[0] {
      StrLessTotal(a[1..], b[1..]);
      assert a == [a[0]] + a[1..];
      assert b == [b[0]] + b[1..];
    }
  }

  lemma {:induction false} StrLessTransitive(a: string, b: string, c: string)
    requires StrLess(a, b) && StrLess(b, c)
    ensures StrLess(a, c)
    decreases |a|
  {
    if a != [] && a[0] == b[0] && b[0] == c[0] {
      StrLessTransitive(a[1..], b[1..], c[1..]);
    }
  }

  /** The order of the pivot table's index: by CONCEPTO, then by FRECUENCIA. */
  predicate KeyLess(x: Key, y: Key)
  {
    StrLess(x.0, y.0) || (x.0 == y.0 && StrLess(x.1, y.1))
  }

  /** `KeyLess` is a strict total order. */
  lemma KeyLessOrder(x: Key, y: Key, z: Key)
    ensures !KeyLess(x, x)
    ensures x == y || KeyLess(x, y) || KeyLess(y, x)
    ensures KeyLess(x, y) && KeyLess(y, z) ==> KeyLess(x, z)
  {
    StrLessIrreflexive(x.0);
    StrLessIrreflexive(x.1);
    StrLessTotal(x.0, y.0);
    StrLessTotal(x.1, y.1);
    if StrLess(x.0, y.0) && StrLess(y.0, z.0) {
      StrLessTransitive(x.0, y.0, z.0);
    }
    if StrLess(x.1, y.1) && StrLess(y.1, z.1) {
      StrLessTransitive(x.1, y.1, z.1);
    }
  }

  predicate StrictlySorted(ks: seq<Key>)
  {
    forall i, j :: 0 <= i < j < |ks| ==> KeyLess(ks[i], ks[j])
  }

  /** A key that precedes the head of a sorted sequence precedes all of it. */
  lemma {:induction false} BeforeSorted(k: Key, s: seq<Key>)
    requires StrictlySorted(s) && s != [] && k != s[0] && !KeyLess(s[0], k)
    ensures StrictlySorted([k] + s)
  {
    KeyLessOrder(k, s[0], s[0]);
    forall j | 0 < j < |s| ensures KeyLess(k, s[j]) {
      KeyLessOrder(k, s[0], s[j]);
    }
  }

  /** Puts `k` into the sorted `s` before the first key that does not precede it. */
  function InsertKey(k: Key, s: seq<Key>): (r: seq<Key>)
    ensures multiset(r) == multiset(s) + multiset{k}
    ensures forall x :: x in r <==> x == k || x in s
    ensures StrictlySorted(s) && k !in s ==> StrictlySorted(r)
    decreases |s|
  {
    if s == [] then [k]
    else if KeyLess(s[0], k) then
      var t := InsertKey(k, s[1..]);
      assert s == [s[0]] + s[1..];
      assert StrictlySorted(s) && k !in s ==> StrictlySorted([s[0]] + t) by {
        if StrictlySorted(s) && k !in s {
          forall j | 0 < j < |[s[0]] + t| ensures KeyLess(s[0], ([s[0]] + t)[j]) {
            assert ([s[0]] + t)[j] == t[j - 1];
            assert t[j - 1] in t;
          }
        }
      }
      [s[0]] + t
    else
      assert StrictlySorted(s) && k !in s ==> StrictlySorted([k] + s) by {
        if StrictlySorted(s) && k !in s {
          BeforeSorted(k, s);
        }
      }
      [k] + s
  }

  /**
   * `pivot_table` sorts its index: the same keys, each as often, and, when no
   * key repeats, in strictly increasing order.
   */
  function SortKeys(ks: seq<Key>): (r: seq<Key>)
    ensures multiset(r) == multiset(ks)
    ensures forall x :: x in r <==> x in ks
    ensures (forall i, j :: 0 <= i < j < |ks| ==> ks[i] != ks[j]) ==> StrictlySorted(r)
    decreases |ks|
  {
    if ks == [] then []
    else
      assert ks == [ks[0]] + ks[1..];
      assert (forall i, j :: 0 <= i < j < |ks| ==> ks[i] != ks[j]) ==> ks[0] !in ks[1..];
      InsertKey(ks[0], SortKeys(ks[1..]))
  }

  /** The index of `contarConceptos`'s table: every group once, in sorted order. */
  function GroupKeys(es: seq<PeriodicEntry>): (r: seq<Key>)
    ensures forall k :: k in r <==> exists i :: 0 <= i < |es| && KeyOf(es[i]) == k
    ensures StrictlySorted(r)
  {
    SortKeys(DistinctKeys(es))
  }

  /** Where `anadirUltimosMovPeriodicos` stops: the writes made so far and the exception, if any. */
  datatype Partial = Partial(done: seq<MovementFields>, failure: Option<Cause>)

  const Mensualidad: string := "MENSUALIDAD"

  /**
   * The product and medium for a periodic concept: MENSUALIDAD is looked up by
   * PRODUCTO-SERVICIO `concept|occupation` and posted as INGRESO; any other
   * concept by NOMBRE and posted by TALÓN. No match leaves `traerRegistroDeTabla`
   * returning False, whose `["id"]` raises.
   */
  function ResolveProduct(catalog: seq<Row>, concept: string, occupation: Option<string>): Result<(Id, Medium), Cause>
  {
    if concept == Mensualidad then
      if occupation.None? then Err(MissingOccupation)
      else
        var ids := FindByField(catalog, "PRODUCTO-SERVICIO", concept + "|" + occupation.value);
        if ids == [] then Err(ProductNotFound(concept)) else Ok((ids[0], Ingreso))
    else
      var ids := FindByField(catalog, "NOMBRE", concept);
      if ids == [] then Err(ProductNotFound(concept)) else Ok((ids[0], Talon))
  }

  /** `n` copies of the same movement. */
  function Repeat(f: MovementFields, n: nat): (r: seq<MovementFields>)
    ensures |r| == n
    ensures forall i :: 0 <= i < n ==> r[i] == f
  {
    if n == 0 then [] else Repeat(f, n - 1) + [f]
  }

  /** The movements one group adds: none unless PENDIENTES exceeds CUENTA. */
  function GroupWrites(k: Key, st: Stats, catalog: seq<Row>, occupation: Option<string>, current: Id)
    : Result<seq<MovementFields>, Cause>
  {
    var numMov := st.maxPeriods - st.count;
    if numMov <= 0 then Ok([])
    else match ResolveProduct(catalog, k.0, occupation)
      case Err(c) => Err(c)
      case Ok((product, medium)) => Ok(Repeat(MovementFields(current, product, medium, None), numMov))
  }

  /** `anadirUltimosMovPeriodicos` over the groups `keys`, in that order. */
  function Backfill(keys: seq<Key>, pending: map<Key, Stats>, catalog: seq<Row>, occupation: Option<string>, current: Id)
    : Partial
    requires forall k :: k in keys ==> k in pending
    decreases |keys|
  {
    if keys == [] then Partial([], None)
    else
      var p := Backfill(keys[..|keys| - 1], pending, catalog, occupation, current);
      if p.failure.Some? then p
      else
        var k := keys[|keys| - 1];
        match GroupWrites(k, pending[k], catalog, occupation, current)
        case Err(c) => Partial(p.done, Some(c))
        case Ok(ws) => Partial(p.done + ws, None)
  }

  /**
   * Each group adds exactly its deficit, every movement on the current account
   * with no IMPORTE-PARTICULAR; MENSUALIDAD is posted as INGRESO, any other
   * concept by TALÓN, and the product is the first catalog row matching the
   * concept's key.
   */
  lemma GroupWritesShape(k: Key, st: Stats, catalog: seq<Row>, occupation: Option<string>, current: Id)
    ensures st.maxPeriods <= st.count ==> GroupWrites(k, st, catalog, occupation, current) == Ok([])
    ensures GroupWrites(k, st, catalog, occupation, current).Ok? ==>
      var ws := GroupWrites(k, st, catalog, occupation, current).value;
      |ws| == Deficit(map[k := st], k) &&
      forall w :: w in ws ==>
        w.account == current && w.particular.None? &&
        (w.medium == Ingreso <==> k.0 == Mensualidad) && (w.medium == Talon <==> k.0 != Mensualidad) &&
        (k.0 == Mensualidad ==>
           (occupation.Some? &&
            exists i :: 0 <= i < |catalog| && catalog[i].id == w.product
                        && Matches(catalog[i], "PRODUCTO-SERVICIO", k.0 + "|" + occupation.value))) &&
        (k.0 != Mensualidad ==>
           exists i :: 0 <= i < |catalog| && catalog[i].id == w.product && Matches(catalog[i], "NOMBRE", k.0))
  {
    if st.maxPeriods > st.count && GroupWrites(k, st, catalog, occupation, current).Ok? {
      var field := if k.0 == Mensualidad then "PRODUCTO-SERVICIO" else "NOMBRE";
      var value := if k.0 == Mensualidad then k.0 + "|" + occupation.value else k.0;
      var ids := FindByField(catalog, field, value);
      FindByFieldMembers(catalog, field, value, ids[0]);
    }
  }

  /** The total deficit of the listed groups. */
  function TotalDeficit(keys: seq<Key>, pending: map<Key, Stats>): nat
    decreases |keys|
  {
    if keys == [] then 0 else TotalDeficit(keys[..|keys| - 1], pending) + Deficit(pending, keys[|keys| - 1])
  }

  /**
   * A backfill that does not raise adds exactly the total deficit, all on the
   * current account with no IMPORTE-PARTICULAR; one that raises adds less.
   */
  lemma {:induction false} BackfillTotal(keys: seq<Key>, pending: map<Key, Stats>, catalog: seq<Row>,
                                         occupation: Option<string>, current: Id)
    requires forall k :: k in keys ==> k in pending
    ensures var p := Backfill(keys, pending, catalog, occupation, current);
      (p.failure.None? ==> |p.done| == TotalDeficit(keys, pending)) &&
      |p.done| <= TotalDeficit(keys, pending) &&
      forall w :: w in p.done ==> w.account == current && w.particular.None?
    decreases |keys|
  {
    if keys != [] {
      var q := keys[..|keys| - 1];
      var k := keys[|keys| - 1];
      assert forall k' :: k' in q ==> k' in keys;
      BackfillTotal(q, pending, catalog, occupation, current);
      GroupWritesShape(k, pending[k], catalog, occupation, current);
      assert Deficit(map[k := pending[k]], k) == Deficit(pending, k);
    }
  }

  /** Groups whose count already reaches their maximum add nothing and look nothing up. */
  lemma {:induction false} BalancedGroupsAddNothing(keys: seq<Key>, pending: map<Key, Stats>, catalog: seq<Row>,
                                                    occupation: Option<string>, current: Id)
    requires forall k :: k in keys ==> k in pending
    requires forall k :: k in keys ==> Deficit(pending, k) == 0
    ensures Backfill(keys, pending, catalog, occupation, current) == Partial([], None)
    decreases |keys|
  {
    if keys != [] {
      var q := keys[..|keys| - 1];
      assert forall k' :: k' in q ==> k' in keys;
      BalancedGroupsAddNothing(q, pending, catalog, occupation, current);
      var k := keys[|keys| - 1];
      assert Deficit(pending, k) == 0;
      GroupWritesShape(k, pending[k], catalog, occupation, current);
      assert GroupWrites(k, pending[k], catalog, occupation, current) == Ok([]);
      var none: seq<MovementFields> := [];
      assert none + none == none;
    }
  }

  /** `registrarMovPeriodicosPendientes` as a function of the harvested entries. */
  function Reconcile(es: seq<PeriodicEntry>, catalog: seq<Row>, occupation: Option<string>, current: Id): Partial
  {
    if es == [] then Partial([], None)
    else
      var g := CountConcepts(es);
      Backfill(PendingKeys(GroupKeys(es), g), Pending(g), catalog, occupation, current)
  }

  /**
   * Idempotence: once every group has received its missing movements, and
   * none of them reports more elapsed periods than its group's maximum, a
   * second reconciliation adds nothing.
   */
  lemma SecondPassAddsNothing(es: seq<PeriodicEntry>, extra: seq<PeriodicEntry>, catalog: seq<Row>,
                              occupation: Option<string>, current: Id)
    requires forall k :: GroupCount(extra, k) == Deficit(CountConcepts(es), k)
    requires forall j :: 0 <= j < |extra| ==>
      KeyOf(extra[j]) in CountConcepts(es) && extra[j].periods <= CountConcepts(es)[KeyOf(extra[j])].maxPeriods
    ensures Reconcile(es + extra, catalog, occupation, current) == Partial([], None)
  {
    if es + extra != [] {
      var g := CountConcepts(es + extra);
      var keys := PendingKeys(GroupKeys(es + extra), g);
      forall k | k in keys ensures Deficit(Pending(g), k) == 0 {
        BackfilledGroupBalances(es, extra, k);
      }
      BalancedGroupsAddNothing(keys, Pending(g), catalog, occupation, current);
    }
  }

  /** The inner loop of `anadirUltimosMovPeriodicos`: one group's lookup and its `numMov` creations. */
  method AddGroupMovements(log: MovementLog, k: Key, st: Stats, catalog: seq<Row>,
                           occupation: Option<string>, current: Id)
    returns (failure: Option<Cause>)
    modifies log
    ensures match GroupWrites(k, st, catalog, occupation, current)
      case Err(c) => failure == Some(c) && log.rows == old(log.rows)
      case Ok(ws) => failure.None? && log.rows == old(log.rows) + ws
  {
    failure := None;
    var numMov := st.maxPeriods - st.count;
    if numMov > 0 {
      var found := ResolveProduct(catalog, k.0, occupation);
      if found.Err? {
        failure := Some(found.error);
        return;
      }
      var (product, medium) := found.value;
      var fields := MovementFields(current, product, medium, None);
      var j := 0;
      while j < numMov
        invariant 0 <= j <= numMov
        invariant log.rows == old(log.rows) + Repeat(fields, j)
      {
        log.Create(fields);
        j := j + 1;
      }
    }
  }

  /** `anadirUltimosMovPeriodicos`: appends each listed group's missing movements. */
  method AddPendingPeriodic(log: MovementLog, keys: seq<Key>, pending: map<Key, Stats>, catalog: seq<Row>,
                            occupation: Option<string>, current: Id)
    returns (failure: Option<Cause>)
    requires forall k :: k in keys ==> k in pending
    modifies log
    ensures var p := Backfill(keys, pending, catalog, occupation, current);
      log.rows == old(log.rows) + p.done && failure == p.failure
  {
    var i := 0;
    while i < |keys|
      invariant 0 <= i <= |keys|
      invariant forall k :: k in keys[..i] ==> k in pending
      invariant Backfill(keys[..i], pending, catalog, occupation, current).failure.None?
      invariant log.rows == old(log.rows) + Backfill(keys[..i], pending, catalog, occupation, current).done
    {
      ghost var before := log.rows;
      assert keys[..i + 1][..i] == keys[..i];
      assert keys[..i + 1][i] == keys[i];
      var k := keys[i];
      failure := AddGroupMovements(log, k, pending[k], catalog, occupation, current);
      if failure.Some? {
        BackfillStopsAtFailure(keys, i + 1, pending, catalog, occupation, current);
        return;
      }
      i := i + 1;
    }
    assert keys[..|keys|] == keys;
    failure := None;
  }

  /** Once a backfill has raised, the later groups change nothing. */
  lemma {:induction false} BackfillStopsAtFailure(keys: seq<Key>, n: nat, pending: map<Key, Stats>, catalog: seq<Row>,
                                                  occupation: Option<string>, current: Id)
    requires n <= |keys|
    requires forall k :: k in keys ==> k in pending
    requires forall k :: k in keys[..n] ==> k in pending
    requires Backfill(keys[..n], pending, catalog, occupation, current).failure.Some?
    ensures Backfill(keys, pending, catalog, occupation, current) == Backfill(keys[..n], pending, catalog, occupation, current)
    decreases |keys| - n
  {
    if n < |keys| {
      assert keys[..n + 1][..n] == keys[..n];
      assert forall k :: k in keys[..n + 1] ==> k in keys;
      BackfillStopsAtFailure(keys, n + 1, pending, catalog, occupation, current);
    } else {
      assert keys[..n] == keys;
    }
  }

  /** `registrarMovPeriodicosPendientes`. */
  method RegisterPendingPeriodic(log: MovementLog, periodic: seq<PeriodicEntry>, catalog: seq<Row>,
                                 occupation: Option<string>, current: Id)
    returns (failure: Option<Cause>)
    modifies log
    ensures var p := Reconcile(periodic, catalog, occupation, current);
      log.rows == old(log.rows) + p.done && failure == p.failure
  {
    if periodic == [] {
      failure := None;
      return;
    }
    var groups := CountConcepts(periodic);
    var pending := Pending(groups);
    var keys := PendingKeys(GroupKeys(periodic), groups);
    failure := AddPendingPeriodic(log, keys, pending, catalog, occupation, current);
  }
}
