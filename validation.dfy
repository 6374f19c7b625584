/** The `Validacion` class: length bounds on a participant's name fields. */
module Validation {
  import opened Wrappers

  /** The field a validator checks. */
  datatype NameField = Nombre | Apellido1

  /** The ValueError a validator raises, with the length it saw. */
  datatype LengthError = LengthError(field: NameField, actual: nat)

  const MinLength: nat := 2
  const MaxLength: nat := 50

  /** `validarNombre`: a name is accepted exactly when it has 2 to 50 characters. */
  function ValidateName(dato: string): (r: Result<bool, LengthError>)
    ensures r.Ok? <==> MinLength <= |dato| <= MaxLength
    ensures r.Ok? ==> r.value
    ensures r.Err? ==> r.error.field == Nombre && r.error.actual == |dato|
  {
    if |dato| < 2 || |dato| > 50 then Err(LengthError(Nombre, |dato|)) else Ok(true)
  }

  /** `validarApellido1`: the first surname has the same bounds. */
  function ValidateFirstSurname(dato: string): (r: Result<bool, LengthError>)
    ensures r.Ok? <==> MinLength <= |dato| <= MaxLength
    ensures r.Ok? ==> r.value
    ensures r.Err? ==> r.error.field == Apellido1 && r.error.actual == |dato|
  {
    if |dato| < 2 || |dato| > 50 then Err(LengthError(Apellido1, |dato|)) else Ok(true)
  }
}
