/** The guards of `borrarCuenta` and `borrarPersonaje`. */
module Deletion {
  import opened Wrappers
  import opened Records

  datatype AccountDeletion = NoAccount | HasMovements | Declined | DeleteAccount(id: Id)

  /**
   * `borrarCuenta` looks at the character's FIRST linked account only, and
   * deletes it only if no movement is linked to it and the user confirms.
   */
  function DeleteAccountDecision(linked: seq<Account>, movements: seq<MovementView>, confirmed: bool)
    : (d: AccountDeletion)
    ensures d == NoAccount <==> linked == []
    ensures d == HasMovements <==> linked != [] && exists m :: m in movements && m.account == linked[0].id
    ensures d.DeleteAccount? ==>
      confirmed && linked != [] && d.id == linked[0].id && forall m :: m in movements ==> m.account != d.id
    ensures d == Declined ==> !confirmed
  {
    if linked == [] then NoAccount
    else
      var linkedMs := LinkedMovements(movements, linked[0].id);
      if linkedMs != [] then
        assert linkedMs[0] in linkedMs;
        HasMovements
      else if confirmed then DeleteAccount(linked[0].id)
      else Declined
  }

  /** The accounts left after a decision. */
  function ApplyAccountDeletion(accounts: seq<Account>, d: AccountDeletion): (r: seq<Account>)
    ensures !d.DeleteAccount? ==> r == accounts
    ensures forall a :: a in r <==> a in accounts && !(d.DeleteAccount? && a.id == d.id)
  {
    if !d.DeleteAccount? then accounts
    else if accounts == [] then []
    else (if accounts[0].id == d.id then [] else [accounts[0]]) + ApplyAccountDeletion(accounts[1..], d)
  }

  /** Deleting an account never leaves a movement pointing at a deleted account. */
  lemma {:induction false} DeletionKeepsMovementsLinked(character: seq<Account>, accounts: seq<Account>,
                                                         movements: seq<MovementView>, confirmed: bool)
    requires forall m :: m in movements ==> exists a :: a in accounts && a.id == m.account
    ensures var d := DeleteAccountDecision(character, movements, confirmed);
      forall m :: m in movements ==> exists a :: a in ApplyAccountDeletion(accounts, d) && a.id == m.account
  {
    var d := DeleteAccountDecision(character, movements, confirmed);
    var r := ApplyAccountDeletion(accounts, d);
    forall m | m in movements ensures exists a :: a in r && a.id == m.account {
      var a :| a in accounts && a.id == m.account;
      if d.DeleteAccount? {
        assert m.account != d.id;
      }
      assert a in r;
    }
  }

  datatype CharacterDeletion = NoCharacter | HasAccounts | DeclinedUnlink | Unlink

  /**
   * `borrarPersonaje`: without a linked character there is nothing to do; a
   * character with a CUENTA link is kept; otherwise a confirmation unlinks it.
   */
  function DeleteCharacterDecision(p: Participant, character: Option<Character>, confirmed: bool)
    : (d: CharacterDeletion)
    ensures d == NoCharacter <==> p.character.None? || character.None?
    ensures d == HasAccounts <==> p.character.Some? && character.Some? && character.value.accounts != []
    ensures d == Unlink <==> p.character.Some? && character.Some? && character.value.accounts == [] && confirmed
  {
    if p.character.None? || character.None? then NoCharacter
    else if character.value.accounts != [] then HasAccounts
    else if confirmed then Unlink
    else DeclinedUnlink
  }

  /** `asignarRegEnlazado(..., "PERSONAJE", [])`: unlinking empties the participant's PERSONAJE link. */
  function ApplyCharacterDeletion(p: Participant, d: CharacterDeletion): (r: Participant)
    ensures d == Unlink ==> r.character.None?
    ensures d != Unlink ==> r == p
  {
    if d == Unlink then p.(character := None) else p
  }
}
