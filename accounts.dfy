/** Account resolution of `prepararCuentas`: the first linked account of each type. */
module Accounts {
  import opened Wrappers
  import opened Records

  /** `[r for r in regCuentas if r["fields"]["TIPO-CUENTA"] == t]`. */
  function OfType(accts: seq<Account>, t: AccountType): (r: seq<Account>)
    ensures |r| <= |accts|
    ensures forall a :: a in r <==> a in accts && a.kind == t
  {
    if accts == [] then []
    else (if accts[0].kind == t then [accts[0]] else []) + OfType(accts[1..], t)
  }

  /** The `[0]` of that comprehension, with the IndexError turned into `None`. */
  function FirstOfType(accts: seq<Account>, t: AccountType): Option<Account>
  {
    var r := OfType(accts, t);
    if r == [] then None else Some(r[0])
  }

  /**
   * An account of type `t` is resolved exactly when one is linked, and the
   * resolved one is of type `t` with no account of that type before it:
   * duplicates are not reported, the first one wins.
   */
  lemma {:induction false} FirstOfTypeIsFirst(accts: seq<Account>, t: AccountType)
    ensures FirstOfType(accts, t).Some? <==> exists i :: 0 <= i < |accts| && accts[i].kind == t
    ensures FirstOfType(accts, t).Some? ==>
      exists i :: 0 <= i < |accts| && accts[i] == FirstOfType(accts, t).value && accts[i].kind == t
        && forall j :: 0 <= j < i ==> accts[j].kind != t
    decreases |accts|
  {
    if accts == [] {
    } else if accts[0].kind == t {
      assert OfType(accts, t)[0] == accts[0];
      assert FirstOfType(accts, t) == Some(accts[0]);
    } else {
      var rest := accts[1..];
      assert OfType(accts, t) == OfType(rest, t);
      FirstOfTypeIsFirst(rest, t);
      forall i | 0 <= i < |accts| && accts[i].kind == t
        ensures 0 < i && rest[i - 1].kind == t
      {
      }
      if FirstOfType(accts, t).Some? {
        FirstOfTypeLift(accts, t);
      }
      if exists i :: 0 <= i < |accts| && accts[i].kind == t {
        var i :| 0 <= i < |accts| && accts[i].kind == t;
        assert rest[i - 1].kind == t;
      }
    }
  }

  /** The inductive step of `FirstOfTypeIsFirst` past a first account of another type. */
  lemma FirstOfTypeLift(accts: seq<Account>, t: AccountType)
    requires accts != [] && accts[0].kind != t
    requires FirstOfType(accts[1..], t).Some? ==>
      exists i :: 0 <= i < |accts[1..]| && accts[1..][i] == FirstOfType(accts[1..], t).value &&
        accts[1..][i].kind == t && forall j :: 0 <= j < i ==> accts[1..][j].kind != t
    requires FirstOfType(accts, t) == FirstOfType(accts[1..], t)
    requires FirstOfType(accts, t).Some?
    ensures exists i :: (0 <= i < |accts| && accts[i] == FirstOfType(accts, t).value && accts[i].kind == t &&
                         forall j :: 0 <= j < i ==> accts[j].kind != t)
  {
    var rest := accts[1..];
    var i :| 0 <= i < |rest| && rest[i] == FirstOfType(accts, t).value && rest[i].kind == t
      && forall j :: 0 <= j < i ==> rest[j].kind != t;
    assert accts[i + 1] == rest[i];
    forall j | 0 <= j < i + 1 ensures accts[j].kind != t {
      if j > 0 { assert accts[j] == rest[j - 1]; }
    }
  }

  /** The four account slots of a character. */
  datatype AccountSet = AccountSet(
    current: Option<Account>,     // CUENTA-CORRIENTE
    card: Option<Account>,        // CUENTA-TARJETA
    retirement: Option<Account>,  // CUENTA-JUBILACIÓN
    savings: Option<Account>)     // CUENTA-AHORRO
  {
    function Slot(t: AccountType): Option<Account>
    {
      match t
      case Corriente => current
      case Tarjeta => card
      case Jubilacion => retirement
      case Ahorro => savings
    }
  }

  /** `prepararCuentas`: `None` when the character has no linked account at all. */
  function ResolveAccounts(accts: seq<Account>): Option<AccountSet>
  {
    if accts == [] then None
    else Some(AccountSet(FirstOfType(accts, Corriente), FirstOfType(accts, Tarjeta),
                         FirstOfType(accts, Jubilacion), FirstOfType(accts, Ahorro)))
  }

  /** Every slot holds the first linked account of its type, or nothing when there is none. */
  lemma ResolvedSlots(accts: seq<Account>, t: AccountType)
    ensures ResolveAccounts(accts).Some? <==> accts != []
    ensures ResolveAccounts(accts).Some? ==>
      (ResolveAccounts(accts).value.Slot(t).Some? <==> exists i :: 0 <= i < |accts| && accts[i].kind == t)
    ensures ResolveAccounts(accts).Some? && ResolveAccounts(accts).value.Slot(t).Some? ==>
      exists i :: 0 <= i < |accts| && accts[i] == ResolveAccounts(accts).value.Slot(t).value
        && accts[i].kind == t && forall j :: 0 <= j < i ==> accts[j].kind != t
  {
    FirstOfTypeIsFirst(accts, t);
  }
}
