/** The `Cuenta` entity (model/Cuenta.java) and its declared constraints. */
module CuentaModelo {

  datatype TipoCuenta = Ahorros | Corriente | Otro(nombre: string)

  datatype EstadoCuenta = Activo | Inactivo

  /** One row of the accounts table. `id` is assigned by the store. */
  datatype Cuenta = Cuenta(
    id: int,
    numeroCuenta: string,
    saldo: real,
    tipoCuenta: TipoCuenta,
    clienteId: int,
    estado: EstadoCuenta)

  /** The most negative balance a CORRIENTE account may reach. */
  const LimiteSobregiro: real := -500.0

  predicate EsDigito(ch: char) {
    '0' <= ch <= '9'
  }

  predicate SoloDigitos(s: string) {
    forall i :: 0 <= i < |s| ==> EsDigito(s[i])
  }

  /** `@Pattern(regexp = "\\d{10,12}")` on numeroCuenta. */
  predicate NumeroCuentaValido(s: string)
    ensures NumeroCuentaValido(s) ==> s != []
  {
    10 <= |s| <= 12 && SoloDigitos(s)
  }

  /** The entity's declared constraints: the number pattern, `saldo >= 0.0`
      (inclusive) and a strictly positive owner id. The non-null constraints
      hold by construction of the datatype. */
  predicate CuentaBienFormada(c: Cuenta)
    ensures CuentaBienFormada(c) ==> DentroDelPiso(c)
  {
    NumeroCuentaValido(c.numeroCuenta) && c.saldo >= 0.0 && c.clienteId > 0
  }

  /** The type-specific balance floor: AHORROS never below 0, CORRIENTE never
      below the overdraft limit; any other type has no floor. */
  predicate DentroDelPiso(c: Cuenta)
    ensures (DentroDelPiso(c) && !c.tipoCuenta.Otro?) ==> c.saldo >= LimiteSobregiro
  {
    match c.tipoCuenta
    case Ahorros => c.saldo >= 0.0
    case Corriente => c.saldo >= LimiteSobregiro
    case Otro(_) => true
  }
}
