/** The monolithic account service (CuentaServiceImpl). Its reads, deposit,
    create, update and delete behave exactly as the split services and are
    the members of `Consulta`, `Transaccion` and `Gestion`; what differs is the
    listing order and the withdrawal rule, which this module models. */
module CuentaServicio {
  import opened Wrappers
  import opened CuentaModelo
  import opened Fallas
  import opened Repositorio
  import opened Validacion
  import opened Transaccion
  import Consulta

  /** Each id is at least the next one. */
  predicate DescendentePorId(s: seq<Cuenta>) {
    forall i :: 0 < i < |s| ==> s[i - 1].id >= s[i].id
  }

  /** Each id is greater than the next one. */
  predicate EstrictoPorId(s: seq<Cuenta>) {
    forall i :: 0 < i < |s| ==> s[i - 1].id > s[i].id
  }

  /** Ids strictly decrease from left to right. */
  predicate EstrictamenteDescendente(s: seq<Cuenta>) {
    forall i, j :: 0 <= i < j < |s| ==> s[i].id > s[j].id
  }

  /** Neighbour-wise strict order is a strict order on every pair. */
  lemma {:induction false} OrdenEstrictoTransitivo(s: seq<Cuenta>)
    requires EstrictoPorId(s)
    ensures EstrictamenteDescendente(s)
  {
    if |s| > 1 {
      OrdenEstrictoTransitivo(s[1..]);
      forall j | 0 < j < |s| ensures s[0].id > s[j].id {
        if j > 1 {
          assert s[1..][0].id > s[1..][j - 1].id;
        }
      }
    }
  }

  /** Insert `c` ahead of the first element whose id is not greater than
      its own. */
  function InsertarPorIdDesc(c: Cuenta, s: seq<Cuenta>): (r: seq<Cuenta>)
    ensures |r| == |s| + 1 && multiset(r) == multiset(s) + multiset{c}
    ensures if |s| == 0 then r == [c] else r[0] == c || r[0] == s[0]
  {
    if |s| == 0 then [c]
    else if c.id >= s[0].id then [c] + s
    else
      assert s == [s[0]] + s[1..];
      [s[0]] + InsertarPorIdDesc(c, s[1..])
  }

  /** Dropping the head keeps both neighbour-wise orders. */
  lemma ColaOrdenada(s: seq<Cuenta>)
    requires |s| > 0
    ensures DescendentePorId(s) ==> DescendentePorId(s[1..])
    ensures EstrictoPorId(s) ==> EstrictoPorId(s[1..])
  {
    forall i | 0 < i < |s| - 1 ensures s[1..][i - 1] == s[i] && s[1..][i] == s[i + 1] {
    }
  }

  /** Putting an element with a large enough id in front keeps both
      neighbour-wise orders. */
  lemma AnteponerOrdenado(x: Cuenta, t: seq<Cuenta>)
    ensures (DescendentePorId(t) && (|t| > 0 ==> x.id >= t[0].id)) ==> DescendentePorId([x] + t)
    ensures (EstrictoPorId(t) && (|t| > 0 ==> x.id > t[0].id)) ==> EstrictoPorId([x] + t)
  {
    var u := [x] + t;
    forall i | 0 < i < |u| ensures u[i] == t[i - 1] {
    }
  }

  /** Inserting into a list ordered by descending id keeps it ordered, and
      keeps it strictly ordered when `c`'s id is new. */
  lemma {:induction false} InsertarConservaOrden(c: Cuenta, s: seq<Cuenta>)
    requires DescendentePorId(s)
    ensures DescendentePorId(InsertarPorIdDesc(c, s))
    ensures (EstrictoPorId(s) && forall x :: x in s ==> x.id != c.id) ==> EstrictoPorId(InsertarPorIdDesc(c, s))
  {
    if |s| == 0 {
    } else if c.id >= s[0].id {
      assert s[0] in s;
      AnteponerOrdenado(c, s);
    } else {
      var cola := s[1..];
      ColaOrdenada(s);
      assert forall x :: x in cola ==> x in s;
      InsertarConservaOrden(c, cola);
      var resto := InsertarPorIdDesc(c, cola);
      assert InsertarPorIdDesc(c, s) == [s[0]] + resto;
      assert |cola| > 0 ==> s[0].id >= cola[0].id && (EstrictoPorId(s) ==> s[0].id > cola[0].id) by {
        if |cola| > 0 {
          assert cola[0] == s[1];
        }
      }
      AnteponerOrdenado(s[0], resto);
    }
  }

  /** The listing order of `obtenerTodasLasCuentas` and `getAllAccounts`:
      a stable insertion sort by id, descending. */
  function OrdenarPorIdDesc(s: seq<Cuenta>): (r: seq<Cuenta>)
    ensures multiset(r) == multiset(s) && |r| == |s|
  {
    if |s| == 0 then []
    else
      assert s == [s[0]] + s[1..];
      InsertarPorIdDesc(s[0], OrdenarPorIdDesc(s[1..]))
  }

  /** The sort orders by descending id, strictly when the ids are distinct. */
  lemma {:induction false} OrdenarOrdena(s: seq<Cuenta>)
    ensures DescendentePorId(OrdenarPorIdDesc(s))
    ensures IdsDistintos(s) ==> EstrictoPorId(OrdenarPorIdDesc(s))
  {
    if |s| > 0 {
      var cola := s[1..];
      var resto := OrdenarPorIdDesc(cola);
      OrdenarOrdena(cola);
      assert IdsDistintos(s) ==> IdsDistintos(cola) by {
        if IdsDistintos(s) {
          forall i, j | 0 <= i < j < |cola| ensures cola[i].id != cola[j].id {
            assert cola[i] == s[i + 1] && cola[j] == s[j + 1];
          }
        }
      }
      assert IdsDistintos(s) ==> forall x :: x in resto ==> x.id != s[0].id by {
        if IdsDistintos(s) {
          forall x | x in resto ensures x.id != s[0].id {
            assert x in multiset(cola);
            var k :| 0 <= k < |cola| && cola[k] == x;
            assert s[k + 1] == x;
          }
        }
      }
      InsertarConservaOrden(s[0], resto);
    }
  }

  /** `obtenerTodasLasCuentas` of the monolithic service (and `getAllAccounts`):
      every stored account exactly once, newest id first. */
  function ObtenerTodasLasCuentasOrdenadas(repo: CuentaRepositorio): (r: seq<Cuenta>)
    reads repo
    requires repo.Valid()
    ensures |r| == |repo.cuentas|
    ensures forall i :: 0 <= i < |r| ==> r[i].id in repo.cuentas && repo.cuentas[r[i].id] == r[i]
    ensures forall id :: id in repo.cuentas ==> repo.cuentas[id] in r
    ensures EstrictamenteDescendente(r)
  {
    var todas := Consulta.ObtenerTodasLasCuentas(repo);
    var r := OrdenarPorIdDesc(todas);
    OrdenarOrdena(todas);
    OrdenEstrictoTransitivo(r);
    FilasReordenadas(r, todas, repo.cuentas);
    r
  }

  /** A reordering of rows that all come from `m`, and cover it, still does. */
  lemma FilasReordenadas(a: seq<Cuenta>, b: seq<Cuenta>, m: map<int, Cuenta>)
    requires multiset(a) == multiset(b)
    requires forall i :: 0 <= i < |b| ==> b[i].id in m && m[b[i].id] == b[i]
    requires forall id :: id in m ==> m[id] in b
    ensures forall i :: 0 <= i < |a| ==> a[i].id in m && m[a[i].id] == a[i]
    ensures forall id :: id in m ==> m[id] in a
  {
    MismosElementos(a, b);
    forall i | 0 <= i < |a| ensures a[i].id in m && m[a[i].id] == a[i] {
      assert a[i] in b;
      var k :| 0 <= k < |b| && b[k] == a[i];
    }
  }

  /** Two lists with the same multiset have the same members. */
  lemma MismosElementos(a: seq<Cuenta>, b: seq<Cuenta>)
    requires multiset(a) == multiset(b)
    ensures forall x :: x in a <==> x in b
  {
    forall x ensures x in a <==> x in b {
      assert x in a <==> x in multiset(a);
      assert x in b <==> x in multiset(b);
    }
  }

  /** The funds rule written inline in `retirar` of the monolithic service
      (and `withdraw`): AHORROS needs `saldo >= monto`, CORRIENTE may not go
      below the overdraft limit, and any other type passes. */
  function FondosEnLinea(c: Cuenta, monto: real): (r: Outcome<Falla>)
    ensures c.tipoCuenta.Otro? ==> r.Pass?
    ensures r.Pass? ==> DentroDelPiso(c.(saldo := c.saldo - monto))
    ensures !c.tipoCuenta.Otro? ==> r == ValidarSaldo(c, monto)
  {
    if c.tipoCuenta == Ahorros && c.saldo < monto then Fail(SaldoInsuficiente(AhorrosSinFondos))
    else if c.tipoCuenta == Corriente && c.saldo - monto < LimiteSobregiro then Fail(SaldoInsuficiente(SobregiroExcedido))
    else Pass
  }

  /** The outcome of the inline `retirar` on the account found by the lookup. */
  function RetiroEnLinea(buscada: Option<Cuenta>, monto: real): (r: Result<Cuenta, Falla>)
    ensures r.Success? <==> monto > 0.0 && buscada.Some? && buscada.value.estado == Activo
                            && FondosEnLinea(buscada.value, monto).Pass?
    ensures r.Success? ==> r.value == buscada.value.(saldo := buscada.value.saldo - monto) && DentroDelPiso(r.value)
    ensures monto <= 0.0 ==> r == Failure(MontoInvalido)
    ensures (monto > 0.0 && buscada.None?) ==> r == Failure(CuentaNoEncontrada(None))
  {
    if monto <= 0.0 then Failure(MontoInvalido)
    else if buscada.None? then Failure(CuentaNoEncontrada(None))
    else if buscada.value.estado != Activo then Failure(CuentaInactiva(None))
    else
      var f := FondosEnLinea(buscada.value, monto);
      if f.Fail? then Failure(f.error) else Success(buscada.value.(saldo := buscada.value.saldo - monto))
  }

  /** The inline withdrawal agrees with the validated one on AHORROS and
      CORRIENTE accounts, and on every input that fails before the funds check. */
  lemma RetirosCoinciden(buscada: Option<Cuenta>, monto: real)
    requires buscada.None? || !buscada.value.tipoCuenta.Otro? || buscada.value.estado != Activo || monto <= 0.0
    ensures RetiroEnLinea(buscada, monto) == RetiroValidado(buscada, monto)
  {
    if buscada.Some? && monto > 0.0 && buscada.value.estado == Activo {
      assert FondosEnLinea(buscada.value, monto) == ValidarSaldo(buscada.value, monto);
    }
  }

  /** On an active account of any other type, the inline withdrawal goes
      through while the validated one is rejected as unsupported. */
  lemma RetirosDifierenEnOtroTipo(c: Cuenta, monto: real)
    requires c.tipoCuenta.Otro? && c.estado == Activo && monto > 0.0
    ensures RetiroEnLinea(Some(c), monto) == Success(c.(saldo := c.saldo - monto))
    ensures RetiroValidado(Some(c), monto) == Failure(TipoNoSoportado(c.tipoCuenta))
  {
  }

  /** An inline withdrawal that goes through debits exactly `monto`. */
  lemma RetiroEnLineaExitoso(c: Cuenta, monto: real)
    requires RetiroEnLinea(Some(c), monto).Success?
    ensures RetiroEnLinea(Some(c), monto) == Success(c.(saldo := c.saldo - monto))
  {
  }

  /** `retirar` of the monolithic service. */
  method RetirarEnLinea(repo: CuentaRepositorio, numero: string, monto: real) returns (r: Result<Cuenta, Falla>)
    requires repo.Valid()
    modifies repo
    ensures repo.Valid()
    ensures r == RetiroEnLinea(old(repo.FindByNumeroCuenta(numero)), monto)
    ensures r.Failure? ==> unchanged(repo)
    ensures r.Success? ==> repo.cuentas == old(repo.cuentas)[r.value.id := r.value]
    ensures repo.orden == old(repo.orden) && repo.siguienteId == old(repo.siguienteId)
    ensures repo.SaldoTotalStore() == old(repo.SaldoTotalStore()) - (if r.Success? then monto else 0.0)
    ensures old(repo.PisosRespetados()) ==> repo.PisosRespetados()
  {
    if monto <= 0.0 {
      return Failure(MontoInvalido);
    }
    var buscada := repo.FindByNumeroCuenta(numero);
    if buscada.None? {
      return Failure(CuentaNoEncontrada(None));
    }
    var cuenta := buscada.value;
    if cuenta.estado != Activo {
      return Failure(CuentaInactiva(None));
    }
    var fondos := FondosEnLinea(cuenta, monto);
    if fondos.Fail? {
      return Failure(fondos.error);
    }
    RetiroEnLineaExitoso(cuenta, monto);
    cuenta := cuenta.(saldo := cuenta.saldo - monto);
    repo.Guardar(cuenta);
    r := Success(cuenta);
  }

  /** The outcome of `transferir` of the monolithic service: the same two
      checks, then the inline withdrawal from the origin. */
  function ResultadoTransferenciaEnLinea(repo: CuentaRepositorio, origen: string, destino: string, monto: real)
    : (r: Result<bool, Falla>)
    reads repo
    requires repo.Valid()
    ensures r.Success? ==> r.value
    ensures var o := repo.FindByNumeroCuenta(origen); var d := repo.FindByNumeroCuenta(destino);
            r.Success? <==> && o.Some? && d.Some?
                            && o.value.estado == Activo && d.value.estado == Activo
                            && monto > 0.0 && FondosEnLinea(o.value, monto).Pass?
  {
    var vo := ValidarCuenta(repo, origen, monto, "origen");
    if vo.Failure? then Failure(vo.error)
    else
      var vd := ValidarCuenta(repo, destino, 0.0, "destino");
      if vd.Failure? then Failure(vd.error)
      else
        var w := RetiroEnLinea(Some(vo.value), monto);
        if w.Failure? then Failure(w.error) else Success(true)
  }

  /** The two transfers agree unless the origin is an active account of a
      type other than AHORROS and CORRIENTE. */
  lemma TransferenciasCoinciden(repo: CuentaRepositorio, origen: string, destino: string, monto: real)
    requires repo.Valid()
    requires var o := repo.FindByNumeroCuenta(origen); o.None? || !o.value.tipoCuenta.Otro?
    ensures ResultadoTransferenciaEnLinea(repo, origen, destino, monto) == ResultadoTransferencia(repo, origen, destino, monto)
  {
    var vo := ValidarCuenta(repo, origen, monto, "origen");
    if vo.Success? {
      RetirosCoinciden(Some(vo.value), monto);
    }
  }

  /** From an active origin of any other type to an active destination, the
      monolith's transfer goes through while the split service's is rejected
      as unsupported. */
  lemma TransferenciasDifierenEnOtroTipo(repo: CuentaRepositorio, origen: string, destino: string, monto: real)
    requires repo.Valid() && monto > 0.0
    requires var o := repo.FindByNumeroCuenta(origen);
             o.Some? && o.value.tipoCuenta.Otro? && o.value.estado == Activo
    requires var d := repo.FindByNumeroCuenta(destino); d.Some? && d.value.estado == Activo
    ensures ResultadoTransferenciaEnLinea(repo, origen, destino, monto) == Success(true)
    ensures ResultadoTransferencia(repo, origen, destino, monto)
              == Failure(TipoNoSoportado(repo.FindByNumeroCuenta(origen).value.tipoCuenta))
  {
    var o := repo.FindByNumeroCuenta(origen).value;
    RetirosDifierenEnOtroTipo(o, monto);
  }

  /** The two inner calls of the monolithic `transferir` once both accounts
      have passed validation. */
  method MoverFondosEnLinea(repo: CuentaRepositorio, origen: string, destino: string, monto: real, ghost o: Cuenta, ghost d: Cuenta)
    returns (r: Result<bool, Falla>)
    requires repo.Valid()
    requires repo.FindByNumeroCuenta(origen) == Some(o) && repo.FindByNumeroCuenta(destino) == Some(d)
    requires o.estado == Activo && d.estado == Activo
    modifies repo
    ensures repo.Valid()
    ensures var w := RetiroEnLinea(Some(o), monto); r == if w.Failure? then Failure(w.error) else Success(true)
    ensures r.Failure? ==> repo.cuentas == old(repo.cuentas)
    ensures r.Success? ==> EfectoTransferencia(old(repo.cuentas), repo.cuentas, o, d, monto)
    ensures repo.orden == old(repo.orden) && repo.siguienteId == old(repo.siguienteId)
    ensures repo.SaldoTotalStore() == old(repo.SaldoTotalStore())
    ensures old(repo.PisosRespetados()) ==> repo.PisosRespetados()
  {
    ghost var antes := repo.cuentas;
    ghost var total := repo.SaldoTotalStore();
    var retiro := RetirarEnLinea(repo, origen, monto);
    if retiro.Failure? {
      assert unchanged(repo);
      return Failure(retiro.error);
    }
    ghost var totalIntermedio := repo.SaldoTotalStore();
    ghost var o' := o.(saldo := o.saldo - monto);
    assert retiro == RetiroEnLinea(Some(o), monto);
    RetiroEnLineaExitoso(o, monto);
    assert repo.cuentas == antes[o.id := o'];
    ghost var d' := if o.id == d.id then o' else d;
    DestinoTrasRetiro(antes, o, d, o', d');
    var deposito := AcreditarDestino(repo, destino, monto, d');
    assert repo.SaldoTotalStore() == totalIntermedio + monto == total;
    EfectoDeDosPasos(antes, o, d, o', d', monto);
    r := Success(true);
  }

  /** `transferir` of the monolithic service: validated before any balance
      changes, and all-or-nothing. */
  method TransferirEnLinea(repo: CuentaRepositorio, origen: string, destino: string, monto: real) returns (r: Result<bool, Falla>)
    requires repo.Valid()
    modifies repo
    ensures repo.Valid()
    ensures r == old(ResultadoTransferenciaEnLinea(repo, origen, destino, monto))
    ensures r.Failure? ==> repo.cuentas == old(repo.cuentas)
    ensures r.Success? ==> && old(repo.FindByNumeroCuenta(origen)).Some?
                           && old(repo.FindByNumeroCuenta(destino)).Some?
                           && EfectoTransferencia(old(repo.cuentas), repo.cuentas,
                                                  old(repo.FindByNumeroCuenta(origen)).value,
                                                  old(repo.FindByNumeroCuenta(destino)).value, monto)
    ensures repo.orden == old(repo.orden) && repo.siguienteId == old(repo.siguienteId)
    ensures repo.SaldoTotalStore() == old(repo.SaldoTotalStore())
    ensures old(repo.PisosRespetados()) ==> repo.PisosRespetados()
  {
    var cuentaOrigen := ValidarCuenta(repo, origen, monto, "origen");
    if cuentaOrigen.Failure? {
      return Failure(cuentaOrigen.error);
    }
    var cuentaDestino := ValidarCuenta(repo, destino, 0.0, "destino");
    if cuentaDestino.Failure? {
      return Failure(cuentaDestino.error);
    }
    r := MoverFondosEnLinea(repo, origen, destino, monto, cuentaOrigen.value, cuentaDestino.value);
  }
}
