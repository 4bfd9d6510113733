/** The exceptions the account services throw, as one typed error datatype. */
module Fallas {
  import opened Wrappers
  import opened CuentaModelo

  /** Which funds rule rejected a withdrawal. */
  datatype ReglaSaldo =
    | AhorrosSinFondos    // "Saldo insuficiente en la cuenta de ahorros."
    | SobregiroExcedido   // "Límite de sobregiro alcanzado en la cuenta corriente."
    | OrigenSinFondos     // "... saldo insuficiente en la cuenta de origen [...]"

  datatype Falla =
      /** IllegalArgumentException: the amount is not greater than 0. */
    | MontoInvalido
      /** IllegalStateException: the account is not ACTIVO; `rol` is the
          counterparty role named in the message of a transfer check. */
    | CuentaInactiva(rol: Option<string>)
      /** SaldoInsuficienteException / InsufficientBalanceException. */
    | SaldoInsuficiente(regla: ReglaSaldo)
      /** IllegalArgumentException from the default branch of validarSaldo. */
    | TipoNoSoportado(tipo: TipoCuenta)
      /** CuentaNoEncontradaException / AccountNotFoundException. */
    | CuentaNoEncontrada(rol: Option<string>)
      /** CuentaYaExisteException / AccountAlreadyExistsException. */
    | CuentaYaExiste
      /** ClienteNoEncontradoException / CustomerNotFoundException. */
    | ClienteNoEncontrado
      /** The entity's declared constraints reject the record; this model
          checks them when a record is inserted. */
    | RestriccionViolada
      /** The unique column on the account number rejects the insert. */
    | NumeroDuplicado
}
