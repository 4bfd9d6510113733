/** The id-keyed Account service (AccountServiceImpl) over its own `accounts`
    table, a second store instance. Listing, lookup by id or owner, create,
    update and delete are the members of `CuentaServicio`, `Consulta` and
    `Gestion` (create with `Tabla.Accounts`); deposit and withdraw address the
    account by id and are modelled here. */
module AccountServicio {
  import opened Wrappers
  import opened CuentaModelo
  import opened AccountModelo
  import opened Fallas
  import opened Repositorio
  import opened Transaccion
  import opened CuentaServicio
  import opened Gestion
  import opened Numeracion

  /** `deposit`: amount, then existence by id, then ACTIVO status. */
  method Deposit(repo: CuentaRepositorio, id: int, amount: real) returns (r: Result<Account, Falla>)
    requires repo.Valid()
    modifies repo
    ensures repo.Valid()
    ensures r == Deposito(old(repo.FindById(id)), amount)
    ensures r.Failure? ==> unchanged(repo)
    ensures r.Success? ==> r.value.id == id && repo.cuentas == old(repo.cuentas)[id := r.value]
    ensures repo.orden == old(repo.orden) && repo.siguienteId == old(repo.siguienteId)
    ensures repo.SaldoTotalStore() == old(repo.SaldoTotalStore()) + (if r.Success? then amount else 0.0)
    ensures old(repo.PisosRespetados()) ==> repo.PisosRespetados()
  {
    if amount <= 0.0 {
      return Failure(MontoInvalido);
    }
    var buscada := repo.FindById(id);
    if buscada.None? {
      return Failure(CuentaNoEncontrada(None));
    }
    var account := buscada.value;
    if account.estado != Activo {
      return Failure(CuentaInactiva(None));
    }
    DepositoEnActiva(account, amount);
    account := account.(saldo := account.saldo + amount);
    repo.Guardar(account);
    r := Success(account);
  }

  /** `withdraw`: amount, existence by id, ACTIVO status, then the inline
      funds rule (AHORROS and CORRIENTE only). */
  method Withdraw(repo: CuentaRepositorio, id: int, amount: real) returns (r: Result<Account, Falla>)
    requires repo.Valid()
    modifies repo
    ensures repo.Valid()
    ensures r == RetiroEnLinea(old(repo.FindById(id)), amount)
    ensures r.Failure? ==> unchanged(repo)
    ensures r.Success? ==> r.value.id == id && repo.cuentas == old(repo.cuentas)[id := r.value]
    ensures repo.orden == old(repo.orden) && repo.siguienteId == old(repo.siguienteId)
    ensures repo.SaldoTotalStore() == old(repo.SaldoTotalStore()) - (if r.Success? then amount else 0.0)
    ensures old(repo.PisosRespetados()) ==> repo.PisosRespetados()
  {
    if amount <= 0.0 {
      return Failure(MontoInvalido);
    }
    var buscada := repo.FindById(id);
    if buscada.None? {
      return Failure(CuentaNoEncontrada(None));
    }
    var account := buscada.value;
    if account.estado != Activo {
      return Failure(CuentaInactiva(None));
    }
    var fondos := FondosEnLinea(account, amount);
    if fondos.Fail? {
      return Failure(fondos.error);
    }
    account := account.(saldo := account.saldo - amount);
    repo.Guardar(account);
    r := Success(account);
  }

  /** Withdrawing by id what was just deposited gives back the account, for
      every account within its floor, whatever its type. */
  lemma WithdrawDeshaceDeposit(a: Account, amount: real)
    requires Deposito(Some(a), amount).Success? && DentroDelPiso(a)
    ensures RetiroEnLinea(Some(Deposito(Some(a), amount).value), amount) == Success(a)
  {
    var d := Deposito(Some(a), amount).value;
    assert d.saldo - amount == a.saldo;
    assert d.(saldo := d.saldo - amount) == a;
  }

  /** A create that the `accounts` table accepts is accepted by the `cuentas`
      table too, and the created number then has exactly ten digits. */
  lemma CreateAccountMasEstricta(repo: CuentaRepositorio, s: SolicitudCuenta, respuesta: RespuestaCliente, sorteo: nat)
    requires repo.Valid() && sorteo < Tope
    requires ResultadoCreacion(repo, Accounts, s, respuesta, sorteo).Success?
    ensures ResultadoCreacion(repo, Cuentas, s, respuesta, sorteo) == ResultadoCreacion(repo, Accounts, s, respuesta, sorteo)
    ensures |ResultadoCreacion(repo, Accounts, s, respuesta, sorteo).value.numeroCuenta| == 10
  {
    AccountMasEstrictaQueCuenta(PrepararCuenta(s, sorteo));
  }
}
