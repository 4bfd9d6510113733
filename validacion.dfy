/** The validation service (CuentaValidacionServiceImpl): guard checks that
    either pass or fail with a typed error. `ValidarCuenta` only reads the store. */
module Validacion {
  import opened Wrappers
  import opened CuentaModelo
  import opened Fallas
  import opened Repositorio

  /** `validarMonto`: the amount must be strictly positive. */
  function ValidarMonto(monto: real): (r: Outcome<Falla>)
    ensures r.Fail? <==> monto <= 0.0
    ensures r.Fail? ==> r.error == MontoInvalido
  {
    if monto <= 0.0 then Fail(MontoInvalido) else Pass
  }

  /** `validarEstadoActivo`: only ACTIVO accounts take transactions. */
  function ValidarEstadoActivo(c: Cuenta): (r: Outcome<Falla>)
    ensures r.Fail? <==> c.estado != Activo
    ensures r.Fail? ==> r.error == CuentaInactiva(None)
  {
    if c.estado != Activo then Fail(CuentaInactiva(None)) else Pass
  }

  /** `validarSaldoAhorros`. */
  function ValidarSaldoAhorros(c: Cuenta, monto: real): (r: Outcome<Falla>)
    ensures r.Pass? <==> c.saldo >= monto
    ensures r.Pass? ==> c.saldo - monto >= 0.0
    ensures r.Fail? ==> r.error == SaldoInsuficiente(AhorrosSinFondos)
  {
    if c.saldo < monto then Fail(SaldoInsuficiente(AhorrosSinFondos)) else Pass
  }

  /** `validarSaldoCorriente`. */
  function ValidarSaldoCorriente(c: Cuenta, monto: real): (r: Outcome<Falla>)
    ensures r.Pass? <==> c.saldo - monto >= LimiteSobregiro
    ensures r.Fail? ==> r.error == SaldoInsuficiente(SobregiroExcedido)
  {
    if c.saldo - monto < LimiteSobregiro then Fail(SaldoInsuficiente(SobregiroExcedido)) else Pass
  }

  /** `validarSaldo`: dispatch on the account type; any type other than
      AHORROS and CORRIENTE is rejected as unsupported. Passing means the
      withdrawal leaves the balance within the type's floor. */
  function ValidarSaldo(c: Cuenta, monto: real): (r: Outcome<Falla>)
    ensures c.tipoCuenta == Ahorros ==> (r.Pass? <==> c.saldo >= monto)
    ensures c.tipoCuenta == Corriente ==> (r.Pass? <==> c.saldo - monto >= LimiteSobregiro)
    ensures c.tipoCuenta.Otro? ==> r == Fail(TipoNoSoportado(c.tipoCuenta))
    ensures r.Fail? ==> r.error.SaldoInsuficiente? || r.error.TipoNoSoportado?
    ensures r.Pass? ==> !c.tipoCuenta.Otro? && DentroDelPiso(c.(saldo := c.saldo - monto))
  {
    match c.tipoCuenta
    case Ahorros => ValidarSaldoAhorros(c, monto)
    case Corriente => ValidarSaldoCorriente(c, monto)
    case Otro(_) => Fail(TipoNoSoportado(c.tipoCuenta))
  }

  /** `validarCuenta`: resolve a transfer counterparty by number, then require
      ACTIVO, then (for the role "origen" and an AHORROS account only) require
      `saldo >= monto`. On success the looked-up account is returned unchanged. */
  function ValidarCuenta(repo: CuentaRepositorio, numero: string, monto: real, rol: string): (r: Result<Cuenta, Falla>)
    reads repo
    requires repo.Valid()
    ensures (r == Failure(CuentaNoEncontrada(Some(rol)))) <==>
              (forall id :: id in repo.cuentas ==> repo.cuentas[id].numeroCuenta != numero)
    ensures r.Success? ==> r.value.id in repo.cuentas && repo.cuentas[r.value.id] == r.value
    ensures r.Success? ==> r.value.numeroCuenta == numero && r.value.estado == Activo
    ensures var b := repo.FindByNumeroCuenta(numero);
            && (b.Some? && b.value.estado != Activo <==> r == Failure(CuentaInactiva(Some(rol))))
            && (r.Success? <==> b.Some? && b.value.estado == Activo
                                && !(rol == "origen" && b.value.tipoCuenta == Ahorros && b.value.saldo < monto))
            && (r.Success? ==> r == Success(b.value))
    ensures r == Failure(SaldoInsuficiente(OrigenSinFondos)) ==> rol == "origen"
    ensures r.Failure? ==> r.error in {CuentaNoEncontrada(Some(rol)), CuentaInactiva(Some(rol)), SaldoInsuficiente(OrigenSinFondos)}
  {
    match repo.FindByNumeroCuenta(numero)
    case None => Failure(CuentaNoEncontrada(Some(rol)))
    case Some(c) =>
      if c.estado != Activo then Failure(CuentaInactiva(Some(rol)))
      else if rol == "origen" && c.tipoCuenta == Ahorros && c.saldo < monto then
        Failure(SaldoInsuficiente(OrigenSinFondos))
      else Success(c)
  }

  /** The asymmetry of the transfer check: an active CORRIENTE origin always
      passes `validarCuenta`, even for a withdrawal that `validarSaldo` rejects
      for breaking the overdraft floor. */
  lemma ContraparteCorrienteSinPiso(repo: CuentaRepositorio, numero: string, monto: real)
    requires repo.Valid()
    requires repo.FindByNumeroCuenta(numero).Some?
    requires repo.FindByNumeroCuenta(numero).value.estado == Activo
    requires repo.FindByNumeroCuenta(numero).value.tipoCuenta == Corriente
    ensures ValidarCuenta(repo, numero, monto, "origen").Success?
    ensures ValidarSaldo(repo.FindByNumeroCuenta(numero).value, monto).Fail? <==>
              repo.FindByNumeroCuenta(numero).value.saldo - monto < LimiteSobregiro
  {
  }

  /** The validation cases exercised by the unit tests of the service. */
  lemma CasosDeValidacion()
    ensures ValidarMonto(-1.0) == Fail(MontoInvalido)
    ensures ValidarSaldo(Cuenta(1, "1234567890", 100.0, Ahorros, 1, Activo), 200.0)
              == Fail(SaldoInsuficiente(AhorrosSinFondos))
    ensures ValidarSaldo(Cuenta(1, "1234567890", -400.0, Corriente, 1, Activo), 200.0)
              == Fail(SaldoInsuficiente(SobregiroExcedido))
    ensures ValidarEstadoActivo(Cuenta(1, "1234567890", 0.0, Ahorros, 1, Inactivo)).Fail?
  {
  }
}
