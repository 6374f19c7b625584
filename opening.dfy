/**
 * The account checks of `nuevaCuenta`: which accounts it opens for a
 * character, given the accounts already linked and the participant's answers
 * to the savings and retirement prompts.
 */
module Opening {
  import opened Records

  /** The TIPO-CUENTA of each linked account, in order. */
  function KindsOf(existing: seq<Account>): (r: seq<AccountType>)
    ensures |r| == |existing|
    ensures forall i :: 0 <= i < |existing| ==> r[i] == existing[i].kind
  {
    if existing == [] then [] else [existing[0].kind] + KindsOf(existing[1..])
  }

  /** How many of `kinds` are `t`. */
  function CountKind(kinds: seq<AccountType>, t: AccountType): nat
  {
    if kinds == [] then 0 else (if kinds[0] == t then 1 else 0) + CountKind(kinds[1..], t)
  }

  lemma {:induction false} CountKindAppend(a: seq<AccountType>, b: seq<AccountType>, t: AccountType)
    ensures CountKind(a + b, t) == CountKind(a, t) + CountKind(b, t)
    decreases |a|
  {
    if a == [] {
      assert a + b == b;
    } else {
      assert (a + b)[1..] == a[1..] + b;
      CountKindAppend(a[1..], b, t);
    }
  }

  lemma {:induction false} CountKindPositive(kinds: seq<AccountType>, t: AccountType)
    ensures CountKind(kinds, t) > 0 <==> t in kinds
    decreases |kinds|
  {
    if kinds != [] {
      CountKindPositive(kinds[1..], t);
      assert kinds == [kinds[0]] + kinds[1..];
    }
  }

  /**
   * The kinds `nuevaCuenta` creates, in creation order, once it has its two
   * flags: a character without accounts gets CORRIENTE and TARJETA; AHORRO and
   * JUBILACIÓN are offered only when the flag is False, and created on "S".
   */
  function Created(existing: seq<Account>, hasSavings: bool, hasRetirement: bool,
                   wantsSavings: bool, wantsRetirement: bool): (r: seq<AccountType>)
    ensures (Corriente in r <==> existing == []) && (Tarjeta in r <==> existing == [])
    ensures Ahorro in r <==> !hasSavings && wantsSavings
    ensures Jubilacion in r <==> !hasRetirement && wantsRetirement
  {
    (if existing == [] then [Corriente, Tarjeta] else []) +
    (if !hasSavings && wantsSavings then [Ahorro] else []) +
    (if !hasRetirement && wantsRetirement then [Jubilacion] else [])
  }

  /** Some linked account is of kind `t`. */
  predicate HasKind(existing: seq<Account>, t: AccountType)
  {
    t in KindsOf(existing)
  }

  /**
   * As written: `tieneCuentaAhorro == True` and `tieneCuentaJubilacion == True`
   * compare instead of assigning, so both flags stay False.
   */
  function OpenAsWritten(existing: seq<Account>, wantsSavings: bool, wantsRetirement: bool): seq<AccountType>
  {
    Created(existing, false, false, wantsSavings, wantsRetirement)
  }

  /** With the flags set by the loop over the linked accounts, as evidently intended. */
  function OpenIntended(existing: seq<Account>, wantsSavings: bool, wantsRetirement: bool): seq<AccountType>
  {
    Created(existing, HasKind(existing, Ahorro), HasKind(existing, Jubilacion), wantsSavings, wantsRetirement)
  }

  /** As written, a character with a savings account is given a second one on "S". */
  lemma OpenAsWrittenDuplicatesSavings()
    ensures var existing := [Account("rec-corriente", Corriente), Account("rec-ahorro", Ahorro)];
      HasKind(existing, Ahorro) &&
      OpenAsWritten(existing, true, false) == [Ahorro] &&
      CountKind(KindsOf(existing) + OpenAsWritten(existing, true, false), Ahorro) == 2
  {
    var existing := [Account("rec-corriente", Corriente), Account("rec-ahorro", Ahorro)];
    assert KindsOf(existing) == [Corriente, Ahorro];
    assert KindsOf(existing) + [Ahorro] == [Corriente, Ahorro, Ahorro];
    var k: seq<AccountType> := [Corriente, Ahorro, Ahorro];
    assert k[1..] == [Ahorro, Ahorro] && k[1..][1..] == [Ahorro] && k[1..][1..][1..] == [];
  }

  /** A creation list holds each plan account at most once, and none when its flag is set. */
  lemma CreatedPlanCount(existing: seq<Account>, hasSavings: bool, hasRetirement: bool,
                         wantsSavings: bool, wantsRetirement: bool, t: AccountType)
    requires t == Ahorro || t == Jubilacion
    ensures CountKind(Created(existing, hasSavings, hasRetirement, wantsSavings, wantsRetirement), t) ==
      if t == Ahorro then (if !hasSavings && wantsSavings then 1 else 0)
      else (if !hasRetirement && wantsRetirement then 1 else 0)
  {
    var base: seq<AccountType> := if existing == [] then [Corriente, Tarjeta] else [];
    var savings: seq<AccountType> := if !hasSavings && wantsSavings then [Ahorro] else [];
    var retirement: seq<AccountType> := if !hasRetirement && wantsRetirement then [Jubilacion] else [];
    CountKindAppend(base + savings, retirement, t);
    CountKindAppend(base, savings, t);
    assert CountKind(base, t) == 0;
  }

  /**
   * With the flags set, opening accounts never gives a character a second
   * savings or retirement account: at most one before means at most one after.
   */
  lemma OpenIntendedKeepsOnePerPlan(existing: seq<Account>, wantsSavings: bool, wantsRetirement: bool,
                                    t: AccountType)
    requires t == Ahorro || t == Jubilacion
    requires CountKind(KindsOf(existing), t) <= 1
    ensures CountKind(KindsOf(existing) + OpenIntended(existing, wantsSavings, wantsRetirement), t) <= 1
  {
    var created := OpenIntended(existing, wantsSavings, wantsRetirement);
    CountKindAppend(KindsOf(existing), created, t);
    CountKindPositive(KindsOf(existing), t);
    CreatedPlanCount(existing, HasKind(existing, Ahorro), HasKind(existing, Jubilacion),
                     wantsSavings, wantsRetirement, t);
  }
}
