/** The management service (CuentaGestionServiceImpl): create, update and
    delete accounts. The owner lookup and the random draw are inputs. */
module Gestion {
  import opened Wrappers
  import opened CuentaModelo
  import opened AccountModelo
  import opened Fallas
  import opened Repositorio
  import opened Numeracion

  /** The request body of create and update (CuentaDTO / AccountDTO).
      `numeroCuenta` is None when the client sends no number. */
  datatype SolicitudCuenta = SolicitudCuenta(
    numeroCuenta: Option<string>,
    saldo: real,
    tipoCuenta: TipoCuenta,
    clienteId: int,
    estado: EstadoCuenta)

  /** The owner service's reply to the lookup of `clienteId`: no body, a body
      without data, or a body carrying the owner. */
  datatype RespuestaCliente = SinCuerpo | SinDatos | ConDatos

  /** Which table (and so which entity constraints) a create targets. */
  datatype Tabla = Cuentas | Accounts

  /** The declared constraints of the table's entity. */
  predicate Restricciones(t: Tabla, c: Cuenta)
    ensures Restricciones(t, c) ==> CuentaBienFormada(c) && DentroDelPiso(c)
  {
    match t
    case Cuentas => CuentaBienFormada(c)
    case Accounts => AccountBienFormada(c)
  }

  /** A number counts as supplied when it is neither null nor empty. */
  predicate NumeroSuministrado(s: SolicitudCuenta)
    ensures NumeroSuministrado(s) <==> s.numeroCuenta != None && s.numeroCuenta != Some([])
  {
    s.numeroCuenta.Some? && s.numeroCuenta.value != []
  }

  /** The entity built from the request: status forced to ACTIVO and, when no
      number was supplied, a number generated from the draw `sorteo`. The id
      is left at 0 for the store to assign. */
  function PrepararCuenta(s: SolicitudCuenta, sorteo: nat): (c: Cuenta)
    requires sorteo < Tope
    ensures c.estado == Activo && c.numeroCuenta != []
    ensures c.saldo == s.saldo && c.tipoCuenta == s.tipoCuenta && c.clienteId == s.clienteId
    ensures NumeroSuministrado(s) ==> c.numeroCuenta == s.numeroCuenta.value
    ensures !NumeroSuministrado(s) ==>
              && c.numeroCuenta == GenerarNumeroCuenta(sorteo)
              && |c.numeroCuenta| <= 10 && SoloDigitos(c.numeroCuenta) && Valor(c.numeroCuenta) == sorteo
  {
    var numero := if NumeroSuministrado(s) then s.numeroCuenta.value else GenerarNumeroCuenta(sorteo);
    Cuenta(0, numero, s.saldo, s.tipoCuenta, s.clienteId, Activo)
  }

  /** The outcome of `crearCuenta` on the store as it stands: the owner must
      exist, the requested number must be new, the built entity must meet the
      table's constraints, and the insert must not clash on the number. */
  function ResultadoCreacion(repo: CuentaRepositorio, t: Tabla, s: SolicitudCuenta, respuesta: RespuestaCliente, sorteo: nat)
    : (r: Result<Cuenta, Falla>)
    reads repo
    requires repo.Valid() && sorteo < Tope
    ensures respuesta != ConDatos ==> r == Failure(ClienteNoEncontrado)
    ensures (respuesta == ConDatos && repo.ExistsByNumeroCuenta(s.numeroCuenta)) ==> r == Failure(CuentaYaExiste)
    ensures r.Success? ==> && r.value.id == repo.siguienteId && r.value.id !in repo.cuentas
                           && r.value.estado == Activo && Restricciones(t, r.value)
                           && r.value.saldo == s.saldo && r.value.tipoCuenta == s.tipoCuenta
                           && r.value.clienteId == s.clienteId
                           && (forall id :: id in repo.cuentas ==> repo.cuentas[id].numeroCuenta != r.value.numeroCuenta)
    ensures (NumeroSuministrado(s) && r.Success?) ==> r.value.numeroCuenta == s.numeroCuenta.value
    ensures r == Failure(NumeroDuplicado) ==> !NumeroSuministrado(s)
    ensures (respuesta == ConDatos && !repo.ExistsByNumeroCuenta(s.numeroCuenta)
             && !Restricciones(t, PrepararCuenta(s, sorteo))) ==> r == Failure(RestriccionViolada)
    ensures r.Success? <==> && respuesta == ConDatos && !repo.ExistsByNumeroCuenta(s.numeroCuenta)
                            && Restricciones(t, PrepararCuenta(s, sorteo))
                            && repo.FindByNumeroCuenta(PrepararCuenta(s, sorteo).numeroCuenta).None?
    ensures (&& respuesta == ConDatos && NumeroSuministrado(s) && !repo.ExistsByNumeroCuenta(s.numeroCuenta)
             && Restricciones(t, PrepararCuenta(s, sorteo))) ==> r.Success?
  {
    if respuesta != ConDatos then Failure(ClienteNoEncontrado)
    else if repo.ExistsByNumeroCuenta(s.numeroCuenta) then Failure(CuentaYaExiste)
    else
      var c := PrepararCuenta(s, sorteo);
      if !Restricciones(t, c) then Failure(RestriccionViolada)
      else if repo.FindByNumeroCuenta(c.numeroCuenta).Some? then Failure(NumeroDuplicado)
      else Success(c.(id := repo.siguienteId))
  }

  /** `crearCuenta` (also `crearCuenta` of the monolithic service and
      `createAccount` of the Account service, for `t == Accounts`). */
  method CrearCuenta(repo: CuentaRepositorio, t: Tabla, s: SolicitudCuenta, respuesta: RespuestaCliente, sorteo: nat)
    returns (r: Result<Cuenta, Falla>)
    requires repo.Valid() && sorteo < Tope
    modifies repo
    ensures repo.Valid()
    ensures r == old(ResultadoCreacion(repo, t, s, respuesta, sorteo))
    ensures r.Failure? ==> unchanged(repo)
    ensures r.Success? ==> && repo.cuentas == old(repo.cuentas)[r.value.id := r.value]
                           && repo.orden == old(repo.orden) + [r.value.id]
                           && repo.siguienteId == old(repo.siguienteId) + 1
    ensures r.Success? ==> repo.FindById(r.value.id) == Some(r.value)
                           && repo.FindByNumeroCuenta(r.value.numeroCuenta) == Some(r.value)
  {
    if respuesta != ConDatos {
      return Failure(ClienteNoEncontrado);
    }
    if repo.ExistsByNumeroCuenta(s.numeroCuenta) {
      return Failure(CuentaYaExiste);
    }
    var cuenta := PrepararCuenta(s, sorteo);
    if !Restricciones(t, cuenta) {
      return Failure(RestriccionViolada);
    }
    r := repo.Insertar(cuenta);
    if r.Success? {
      repo.BuscarRegistrado(r.value.numeroCuenta, r.value.id);
    }
  }

  /** A draw below 10^9 yields a number too short for the `Cuenta` pattern, so
      a create without a number then fails on the entity constraints. */
  lemma CreacionConNumeroCortoFalla(repo: CuentaRepositorio, s: SolicitudCuenta, sorteo: nat)
    requires repo.Valid() && sorteo < Pow10(9)
    requires !NumeroSuministrado(s) && !repo.ExistsByNumeroCuenta(s.numeroCuenta)
    ensures ResultadoCreacion(repo, Cuentas, s, ConDatos, sorteo) == Failure(RestriccionViolada)
  {
    assert Pow10(9) < Tope;
    NumeroGeneradoCumplePatron(sorteo);
  }

  /** Without a supplied number, a well-formed request (non-negative balance,
      positive owner) creates an account exactly when the draw has ten digits
      and does not collide with a stored number. */
  lemma CreacionSinNumero(repo: CuentaRepositorio, t: Tabla, s: SolicitudCuenta, sorteo: nat)
    requires repo.Valid() && sorteo < Tope
    requires !NumeroSuministrado(s) && !repo.ExistsByNumeroCuenta(s.numeroCuenta)
    requires s.saldo >= 0.0 && s.clienteId > 0
    ensures ResultadoCreacion(repo, t, s, ConDatos, sorteo).Success? <==>
              sorteo >= Pow10(9) && repo.FindByNumeroCuenta(GenerarNumeroCuenta(sorteo)).None?
  {
    NumeroGeneradoCumplePatron(sorteo);
  }

  /** The entity after `actualizarCuenta`: balance, type and status are taken
      from the request; id, number and owner are kept. */
  function Actualizada(c: Cuenta, s: SolicitudCuenta): (r: Cuenta)
    ensures r.id == c.id && r.numeroCuenta == c.numeroCuenta && r.clienteId == c.clienteId
    ensures r.saldo == s.saldo && r.tipoCuenta == s.tipoCuenta && r.estado == s.estado
  {
    c.(saldo := s.saldo, tipoCuenta := s.tipoCuenta, estado := s.estado)
  }

  /** Updating twice with the same request is the same as updating once. */
  lemma ActualizacionIdempotente(c: Cuenta, s: SolicitudCuenta)
    ensures Actualizada(Actualizada(c, s), s) == Actualizada(c, s)
  {
  }

  /** The update path runs none of the transaction checks: the entity it
      builds can lie below the type's floor and be reactivated. (Whether the
      store then accepts it depends on the entity constraints, which this
      model checks on insert only.) */
  lemma ActualizacionSinValidar()
    ensures var c := Cuenta(1, "1234567890", 0.0, Ahorros, 1, Inactivo);
            var u := Actualizada(c, SolicitudCuenta(None, -1000.0, Corriente, 7, Activo));
            DentroDelPiso(c) && !DentroDelPiso(u) && u.estado == Activo && u.clienteId == 1
  {
  }

  /** `actualizarCuenta` (also `actualizarCuenta` of the monolithic service and
      `updateAccount` of the Account service). */
  method ActualizarCuenta(repo: CuentaRepositorio, id: int, s: SolicitudCuenta) returns (r: Result<Cuenta, Falla>)
    requires repo.Valid()
    modifies repo
    ensures repo.Valid()
    ensures old(repo.FindById(id)).None? ==> r == Failure(CuentaNoEncontrada(None)) && unchanged(repo)
    ensures old(repo.FindById(id)).Some? ==>
              && r == Success(Actualizada(old(repo.cuentas[id]), s))
              && repo.cuentas == old(repo.cuentas)[id := r.value]
              && repo.SaldoTotalStore() == old(repo.SaldoTotalStore()) - old(repo.cuentas[id].saldo) + s.saldo
    ensures repo.orden == old(repo.orden) && repo.siguienteId == old(repo.siguienteId)
  {
    var existente := repo.FindById(id);
    if existente.None? {
      return Failure(CuentaNoEncontrada(None));
    }
    var cuenta := Actualizada(existente.value, s);
    repo.Guardar(cuenta);
    r := Success(cuenta);
  }

  /** `eliminarCuenta` (also `eliminarCuenta` of the monolithic service and
      `deleteAccount` of the Account service). */
  method EliminarCuenta(repo: CuentaRepositorio, id: int) returns (r: Outcome<Falla>)
    requires repo.Valid()
    modifies repo
    ensures repo.Valid()
    ensures r.Fail? <==> id !in old(repo.cuentas)
    ensures r.Fail? ==> r.error == CuentaNoEncontrada(None) && unchanged(repo)
    ensures r.Pass? ==> && repo.cuentas == old(repo.cuentas) - {id}
                        && repo.orden == Quitar(old(repo.orden), id)
                        && |repo.orden| == |old(repo.orden)| - 1
                        && repo.FindById(id).None?
    ensures repo.siguienteId == old(repo.siguienteId)
  {
    if !repo.ExistsById(id) {
      return Fail(CuentaNoEncontrada(None));
    }
    repo.EliminarPorId(id);
    r := Pass;
  }
}
