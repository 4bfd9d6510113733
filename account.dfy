/** The `Account` entity (model/Account.java): the same columns as `Cuenta`,
    with a stricter number pattern. */
module AccountModelo {
  import opened CuentaModelo

  type Account = Cuenta

  /** `@Pattern(regexp = "\\d{10}")` on numeroCuenta. */
  predicate NumeroAccountValido(s: string)
    ensures NumeroAccountValido(s) ==> NumeroCuentaValido(s)
  {
    |s| == 10 && SoloDigitos(s)
  }

  predicate AccountBienFormada(a: Account)
    ensures AccountBienFormada(a) ==> CuentaBienFormada(a)
  {
    NumeroAccountValido(a.numeroCuenta) && a.saldo >= 0.0 && a.clienteId > 0
  }

  /** Every well-formed Account also meets the Cuenta constraints, and a Cuenta
      with an 11- or 12-digit number is not a well-formed Account. */
  lemma AccountMasEstrictaQueCuenta(a: Account)
    ensures AccountBienFormada(a) ==> CuentaBienFormada(a)
    ensures CuentaBienFormada(a) && |a.numeroCuenta| > 10 ==> !AccountBienFormada(a)
  {
  }
}
