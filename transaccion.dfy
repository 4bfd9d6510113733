/** The transaction service (CuentaTransaccionServiceImpl): deposit, withdraw
    and transfer by account number, built on the validation service. Each
    operation loads the account, checks it, writes back the new balance and
    returns the saved account. */
module Transaccion {
  import opened Wrappers
  import opened CuentaModelo
  import opened Fallas
  import opened Repositorio
  import opened Validacion

  /** The outcome of a deposit into the account found by the lookup `buscada`:
      amount first, then existence, then ACTIVO status. */
  function Deposito(buscada: Option<Cuenta>, monto: real): (r: Result<Cuenta, Falla>)
    ensures monto <= 0.0 ==> r == Failure(MontoInvalido)
    ensures monto > 0.0 && buscada.None? ==> r == Failure(CuentaNoEncontrada(None))
    ensures monto > 0.0 && buscada.Some? && buscada.value.estado != Activo ==> r == Failure(CuentaInactiva(None))
    ensures r.Success? <==> monto > 0.0 && buscada.Some? && buscada.value.estado == Activo
    ensures r.Success? ==> r.value == buscada.value.(saldo := buscada.value.saldo + monto)
    ensures r.Success? && DentroDelPiso(buscada.value) ==> DentroDelPiso(r.value)
  {
    var vm := ValidarMonto(monto);
    if vm.Fail? then Failure(vm.error)
    else if buscada.None? then Failure(CuentaNoEncontrada(None))
    else
      var va := ValidarEstadoActivo(buscada.value);
      if va.Fail? then Failure(va.error)
      else Success(buscada.value.(saldo := buscada.value.saldo + monto))
  }

  /** The outcome of a withdrawal through the validation service: amount, then
      existence, then ACTIVO status, then the type-specific funds rule. */
  function RetiroValidado(buscada: Option<Cuenta>, monto: real): (r: Result<Cuenta, Falla>)
    ensures monto <= 0.0 ==> r == Failure(MontoInvalido)
    ensures monto > 0.0 && buscada.None? ==> r == Failure(CuentaNoEncontrada(None))
    ensures monto > 0.0 && buscada.Some? && buscada.value.estado != Activo ==> r == Failure(CuentaInactiva(None))
    ensures (monto > 0.0 && buscada.Some? && buscada.value.estado == Activo && ValidarSaldo(buscada.value, monto).Fail?) ==>
              r == Failure(ValidarSaldo(buscada.value, monto).error)
    ensures r.Success? <==> monto > 0.0 && buscada.Some? && buscada.value.estado == Activo
                            && ValidarSaldo(buscada.value, monto).Pass?
    ensures r.Success? ==> r.value == buscada.value.(saldo := buscada.value.saldo - monto)
    ensures r.Success? ==> DentroDelPiso(r.value)
  {
    var vm := ValidarMonto(monto);
    if vm.Fail? then Failure(vm.error)
    else if buscada.None? then Failure(CuentaNoEncontrada(None))
    else
      var va := ValidarEstadoActivo(buscada.value);
      if va.Fail? then Failure(va.error)
      else
        var vs := ValidarSaldo(buscada.value, monto);
        if vs.Fail? then Failure(vs.error)
        else Success(buscada.value.(saldo := buscada.value.saldo - monto))
  }

  /** A positive deposit into an ACTIVO account always goes through. */
  lemma DepositoEnActiva(c: Cuenta, monto: real)
    requires monto > 0.0 && c.estado == Activo
    ensures Deposito(Some(c), monto) == Success(c.(saldo := c.saldo + monto))
  {
  }

  /** A withdrawal that goes through debits exactly `monto`. */
  lemma RetiroExitoso(c: Cuenta, monto: real)
    requires RetiroValidado(Some(c), monto).Success?
    ensures RetiroValidado(Some(c), monto) == Success(c.(saldo := c.saldo - monto))
  {
  }

  /** Withdrawing what was just deposited gives back the account, for any
      AHORROS or CORRIENTE account within its floor. */
  lemma RetiroDeshaceDeposito(c: Cuenta, monto: real)
    requires Deposito(Some(c), monto).Success?
    requires DentroDelPiso(c) && !c.tipoCuenta.Otro?
    ensures RetiroValidado(Some(Deposito(Some(c), monto).value), monto) == Success(c)
  {
    var d := Deposito(Some(c), monto).value;
    assert d.saldo - monto == c.saldo;
  }

  /** Depositing what was just withdrawn gives back the account. */
  lemma DepositoDeshaceRetiro(c: Cuenta, monto: real)
    requires RetiroValidado(Some(c), monto).Success?
    ensures Deposito(Some(RetiroValidado(Some(c), monto).value), monto) == Success(c)
  {
    var w := RetiroValidado(Some(c), monto).value;
    assert w.saldo + monto == c.saldo;
  }

  /** The funds rule and the entity's `saldo >= 0` constraint disagree: the
      withdrawal that `validarSaldo` allows on a well-formed CORRIENTE account
      leaves a balance the declared constraints forbid. This model checks the
      constraints on insert only, so here the withdrawal goes through; a store
      that also validates on update would refuse its save. */
  lemma SobregiroFueraDeRestricciones()
    ensures var c := Cuenta(1, "1234567890", 100.0, Corriente, 1, Activo);
            && CuentaBienFormada(c)
            && RetiroValidado(Some(c), 300.0) == Success(c.(saldo := -200.0))
            && !CuentaBienFormada(RetiroValidado(Some(c), 300.0).value)
  {
  }

  /** The outcome of `transferir`: the origin check (with the amount), the
      destination check (with 0.0), then the inner withdrawal from the origin;
      the inner deposit cannot fail once these have passed. */
  function ResultadoTransferencia(repo: CuentaRepositorio, origen: string, destino: string, monto: real): (r: Result<bool, Falla>)
    reads repo
    requires repo.Valid()
    ensures r.Success? ==> r.value
    ensures var o := repo.FindByNumeroCuenta(origen); var d := repo.FindByNumeroCuenta(destino);
            r.Success? <==> && o.Some? && d.Some?
                            && o.value.estado == Activo && d.value.estado == Activo
                            && monto > 0.0 && ValidarSaldo(o.value, monto).Pass?
    ensures (ValidarCuenta(repo, origen, monto, "origen").Success? && repo.FindByNumeroCuenta(destino).None?) ==>
              r == Failure(CuentaNoEncontrada(Some("destino")))
    ensures (ValidarCuenta(repo, origen, monto, "origen").Success? && monto <= 0.0
             && ValidarCuenta(repo, destino, 0.0, "destino").Success?) ==>
              r == Failure(MontoInvalido)
  {
    var vo := ValidarCuenta(repo, origen, monto, "origen");
    if vo.Failure? then Failure(vo.error)
    else
      var vd := ValidarCuenta(repo, destino, 0.0, "destino");
      if vd.Failure? then Failure(vd.error)
      else
        var w := RetiroValidado(Some(vo.value), monto);
        if w.Failure? then Failure(w.error) else Success(true)
  }

  /** The state a successful transfer leaves: the origin debited and the
      destination credited by `monto`, or no change for a self-transfer. */
  ghost predicate EfectoTransferencia(antes: map<int, Cuenta>, despues: map<int, Cuenta>, o: Cuenta, d: Cuenta, monto: real) {
    if o.id == d.id then despues == antes
    else despues == antes[o.id := o.(saldo := o.saldo - monto)][d.id := d.(saldo := d.saldo + monto)]
  }

  /** After the origin is debited, the destination row is still the
      validated destination, debited too when it is the same account. */
  lemma DestinoTrasRetiro(antes: map<int, Cuenta>, o: Cuenta, d: Cuenta, o': Cuenta, d': Cuenta)
    requires o.id in antes && antes[o.id] == o && d.id in antes && antes[d.id] == d
    requires o' == o.(saldo := o'.saldo)
    requires d' == if o.id == d.id then o' else d
    ensures d.id in antes[o.id := o'] && antes[o.id := o'][d.id] == d'
    ensures d'.id == d.id && d'.numeroCuenta == d.numeroCuenta && d'.estado == d.estado
  {
  }

  /** Debiting the origin and then crediting the destination, as the two
      legs of a transfer do, yields the transfer's effect. */
  lemma EfectoDeDosPasos(antes: map<int, Cuenta>, o: Cuenta, d: Cuenta, o': Cuenta, d': Cuenta, monto: real)
    requires o.id in antes && antes[o.id] == o && d.id in antes && antes[d.id] == d
    requires o' == o.(saldo := o.saldo - monto)
    requires d' == if o.id == d.id then o' else d
    ensures EfectoTransferencia(antes, antes[o.id := o'][d.id := d'.(saldo := d'.saldo + monto)], o, d, monto)
  {
    if o.id == d.id {
      assert d'.(saldo := d'.saldo + monto) == o;
      assert antes[o.id := o] == antes;
    }
  }

  /** `depositar`. */
  method Depositar(repo: CuentaRepositorio, numero: string, monto: real) returns (r: Result<Cuenta, Falla>)
    requires repo.Valid()
    modifies repo
    ensures repo.Valid()
    ensures r == Deposito(old(repo.FindByNumeroCuenta(numero)), monto)
    ensures r.Failure? ==> unchanged(repo)
    ensures r.Success? ==> repo.cuentas == old(repo.cuentas)[r.value.id := r.value]
    ensures repo.orden == old(repo.orden) && repo.siguienteId == old(repo.siguienteId)
    ensures repo.SaldoTotalStore() == old(repo.SaldoTotalStore()) + (if r.Success? then monto else 0.0)
    ensures old(repo.PisosRespetados()) ==> repo.PisosRespetados()
  {
    var vm := ValidarMonto(monto);
    if vm.Fail? {
      return Failure(vm.error);
    }
    var buscada := repo.FindByNumeroCuenta(numero);
    if buscada.None? {
      return Failure(CuentaNoEncontrada(None));
    }
    var cuenta := buscada.value;
    var va := ValidarEstadoActivo(cuenta);
    if va.Fail? {
      return Failure(va.error);
    }
    DepositoEnActiva(cuenta, monto);
    cuenta := cuenta.(saldo := cuenta.saldo + monto);
    repo.Guardar(cuenta);
    r := Success(cuenta);
  }

  /** `retirar`. */
  method Retirar(repo: CuentaRepositorio, numero: string, monto: real) returns (r: Result<Cuenta, Falla>)
    requires repo.Valid()
    modifies repo
    ensures repo.Valid()
    ensures r == RetiroValidado(old(repo.FindByNumeroCuenta(numero)), monto)
    ensures r.Failure? ==> unchanged(repo)
    ensures r.Success? ==> repo.cuentas == old(repo.cuentas)[r.value.id := r.value]
    ensures repo.orden == old(repo.orden) && repo.siguienteId == old(repo.siguienteId)
    ensures repo.SaldoTotalStore() == old(repo.SaldoTotalStore()) - (if r.Success? then monto else 0.0)
    ensures old(repo.PisosRespetados()) ==> repo.PisosRespetados()
  {
    var vm := ValidarMonto(monto);
    if vm.Fail? {
      return Failure(vm.error);
    }
    var buscada := repo.FindByNumeroCuenta(numero);
    if buscada.None? {
      return Failure(CuentaNoEncontrada(None));
    }
    var cuenta := buscada.value;
    var va := ValidarEstadoActivo(cuenta);
    if va.Fail? {
      return Failure(va.error);
    }
    var vs := ValidarSaldo(cuenta, monto);
    if vs.Fail? {
      return Failure(vs.error);
    }
    RetiroExitoso(cuenta, monto);
    cuenta := cuenta.(saldo := cuenta.saldo - monto);
    repo.Guardar(cuenta);
    r := Success(cuenta);
  }

  /** The deposit leg of `transferir`: once the destination has passed
      validation and the origin has been debited, the deposit cannot fail. */
  method AcreditarDestino(repo: CuentaRepositorio, destino: string, monto: real, ghost d: Cuenta)
    returns (deposito: Result<Cuenta, Falla>)
    requires repo.Valid()
    requires d.id in repo.cuentas && repo.cuentas[d.id] == d
    requires d.numeroCuenta == destino && d.estado == Activo && monto > 0.0
    modifies repo
    ensures repo.Valid()
    ensures deposito == Success(d.(saldo := d.saldo + monto))
    ensures repo.cuentas == old(repo.cuentas)[d.id := d.(saldo := d.saldo + monto)]
    ensures repo.orden == old(repo.orden) && repo.siguienteId == old(repo.siguienteId)
    ensures repo.SaldoTotalStore() == old(repo.SaldoTotalStore()) + monto
    ensures old(repo.PisosRespetados()) ==> repo.PisosRespetados()
  {
    repo.BuscarRegistrado(destino, d.id);
    DepositoEnActiva(d, monto);
    deposito := Depositar(repo, destino, monto);
  }

  /** The two inner calls of `transferir` (withdraw from the origin, then
      deposit into the destination) once both accounts have passed
      validation. */
  method MoverFondos(repo: CuentaRepositorio, origen: string, destino: string, monto: real, ghost o: Cuenta, ghost d: Cuenta)
    returns (r: Result<bool, Falla>)
    requires repo.Valid()
    requires repo.FindByNumeroCuenta(origen) == Some(o) && repo.FindByNumeroCuenta(destino) == Some(d)
    requires o.estado == Activo && d.estado == Activo
    modifies repo
    ensures repo.Valid()
    ensures var w := RetiroValidado(Some(o), monto); r == if w.Failure? then Failure(w.error) else Success(true)
    ensures r.Failure? ==> repo.cuentas == old(repo.cuentas)
    ensures r.Success? ==> EfectoTransferencia(old(repo.cuentas), repo.cuentas, o, d, monto)
    ensures repo.orden == old(repo.orden) && repo.siguienteId == old(repo.siguienteId)
    ensures repo.SaldoTotalStore() == old(repo.SaldoTotalStore())
    ensures old(repo.PisosRespetados()) ==> repo.PisosRespetados()
  {
    ghost var antes := repo.cuentas;
    ghost var total := repo.SaldoTotalStore();
    var retiro := Retirar(repo, origen, monto);
    if retiro.Failure? {
      assert unchanged(repo);
      return Failure(retiro.error);
    }
    ghost var totalIntermedio := repo.SaldoTotalStore();
    ghost var o' := o.(saldo := o.saldo - monto);
    assert retiro == RetiroValidado(Some(o), monto);
    RetiroExitoso(o, monto);
    assert repo.cuentas == antes[o.id := o'];
    ghost var d' := if o.id == d.id then o' else d;
    DestinoTrasRetiro(antes, o, d, o', d');
    var deposito := AcreditarDestino(repo, destino, monto, d');
    assert repo.SaldoTotalStore() == totalIntermedio + monto == total;
    EfectoDeDosPasos(antes, o, d, o', d', monto);
    r := Success(true);
  }

  /** `transferir`: both counterparties are validated before any balance
      changes, and the whole call is all-or-nothing. */
  method Transferir(repo: CuentaRepositorio, origen: string, destino: string, monto: real) returns (r: Result<bool, Falla>)
    requires repo.Valid()
    modifies repo
    ensures repo.Valid()
    ensures r == old(ResultadoTransferencia(repo, origen, destino, monto))
    ensures r.Failure? ==> repo.cuentas == old(repo.cuentas)
    ensures r.Success? ==> && old(repo.FindByNumeroCuenta(origen)).Some?
                           && old(repo.FindByNumeroCuenta(destino)).Some?
                           && EfectoTransferencia(old(repo.cuentas), repo.cuentas,
                                                  old(repo.FindByNumeroCuenta(origen)).value,
                                                  old(repo.FindByNumeroCuenta(destino)).value, monto)
    ensures repo.orden == old(repo.orden) && repo.siguienteId == old(repo.siguienteId)
    ensures repo.SaldoTotalStore() == old(repo.SaldoTotalStore())
    ensures old(repo.PisosRespetados()) ==> repo.PisosRespetados()
  {
    var cuentaOrigen := ValidarCuenta(repo, origen, monto, "origen");
    if cuentaOrigen.Failure? {
      return Failure(cuentaOrigen.error);
    }
    var cuentaDestino := ValidarCuenta(repo, destino, 0.0, "destino");
    if cuentaDestino.Failure? {
      return Failure(cuentaDestino.error);
    }
    r := MoverFondos(repo, origen, destino, monto, cuentaOrigen.value, cuentaDestino.value);
  }
}
