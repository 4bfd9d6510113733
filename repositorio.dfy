/** The account store behind CuentaRepository and AccountRepository: a table of
    account rows keyed by id, with a unique account-number column and an
    id generated by the store. `findByNumeroCuenta`, which the services call
    but the repository interface does not declare, is supplied here as a lookup
    by number that yields at most one account. */
module Repositorio {
  import opened Wrappers
  import opened CuentaModelo
  import opened Fallas

  predicate SinRepetidos(ids: seq<int>) {
    forall i, j :: 0 <= i < j < |ids| ==> ids[i] != ids[j]
  }

  /** The rows stored under `ids`, in that order. */
  function FilasDe(m: map<int, Cuenta>, ids: seq<int>): (filas: seq<Cuenta>)
    requires forall i :: 0 <= i < |ids| ==> ids[i] in m
    ensures |filas| == |ids|
    ensures forall i :: 0 <= i < |ids| ==> filas[i] == m[ids[i]]
  {
    if ids == [] then [] else [m[ids[0]]] + FilasDe(m, ids[1..])
  }

  /** The first row carrying `numero`, if any. */
  function BuscarPorNumero(filas: seq<Cuenta>, numero: string): (r: Option<Cuenta>)
    ensures r.Some? ==> r.value in filas && r.value.numeroCuenta == numero
    ensures r.None? <==> forall i :: 0 <= i < |filas| ==> filas[i].numeroCuenta != numero
  {
    if filas == [] then None
    else if filas[0].numeroCuenta == numero then Some(filas[0])
    else BuscarPorNumero(filas[1..], numero)
  }

  /** No two rows share an id. */
  predicate IdsDistintos(s: seq<Cuenta>) {
    forall i, j :: 0 <= i < j < |s| ==> s[i].id != s[j].id
  }

  /** The rows owned by `clienteId`, in table order: each owned row as often
      as it occurs, and no other row. */
  function FiltrarPorCliente(filas: seq<Cuenta>, clienteId: int): (r: seq<Cuenta>)
    ensures forall c :: c in r ==> c in filas && c.clienteId == clienteId
    ensures forall c :: c in filas && c.clienteId == clienteId ==> c in r
    ensures |r| <= |filas|
    ensures forall c :: multiset(r)[c] == if c.clienteId == clienteId then multiset(filas)[c] else 0
  {
    if filas == [] then []
    else
      assert filas == [filas[0]] + filas[1..];
      if filas[0].clienteId == clienteId then [filas[0]] + FiltrarPorCliente(filas[1..], clienteId)
      else FiltrarPorCliente(filas[1..], clienteId)
  }

  /** Filtering rows with distinct ids keeps the ids distinct. */
  lemma {:induction false} FiltrarConservaIdsDistintos(filas: seq<Cuenta>, clienteId: int)
    requires IdsDistintos(filas)
    ensures IdsDistintos(FiltrarPorCliente(filas, clienteId))
    decreases |filas|
  {
    if filas != [] {
      var cola := filas[1..];
      ColaIdsDistintos(filas);
      FiltrarConservaIdsDistintos(cola, clienteId);
      if filas[0].clienteId == clienteId {
        var resto := FiltrarPorCliente(cola, clienteId);
        CabezaIdNuevo(filas, resto);
        AnteponerIdNuevo(filas[0], resto);
      }
    }
  }

  /** Dropping the first row keeps the ids distinct. */
  lemma ColaIdsDistintos(s: seq<Cuenta>)
    requires IdsDistintos(s) && s != []
    ensures IdsDistintos(s[1..])
  {
    var cola := s[1..];
    forall i, j | 0 <= i < j < |cola| ensures cola[i].id != cola[j].id {
      assert cola[i] == s[i + 1] && cola[j] == s[j + 1];
    }
  }

  /** No row taken from the tail shares the first row's id. */
  lemma CabezaIdNuevo(s: seq<Cuenta>, t: seq<Cuenta>)
    requires IdsDistintos(s) && s != []
    requires forall c :: c in t ==> c in s[1..]
    ensures forall k :: 0 <= k < |t| ==> t[k].id != s[0].id
  {
    forall k | 0 <= k < |t| ensures t[k].id != s[0].id {
      assert t[k] in t;
      var m :| 0 <= m < |s| - 1 && s[1..][m] == t[k];
      assert s[m + 1] == t[k];
    }
  }

  /** Putting a row with a new id in front keeps the ids distinct. */
  lemma AnteponerIdNuevo(x: Cuenta, t: seq<Cuenta>)
    requires IdsDistintos(t)
    requires forall k :: 0 <= k < |t| ==> t[k].id != x.id
    ensures IdsDistintos([x] + t)
  {
    var u := [x] + t;
    forall i, j | 0 <= i < j < |u| ensures u[i].id != u[j].id {
      assert u[j] == t[j - 1];
      if i > 0 {
        assert u[i] == t[i - 1];
      }
    }
  }

  /** The sum of the balances of `filas`. */
  function SaldoTotal(filas: seq<Cuenta>): real {
    if filas == [] then 0.0 else filas[0].saldo + SaldoTotal(filas[1..])
  }

  /** Changing the balance of one row changes the total by the same amount. */
  lemma {:induction false} SaldoTotalTrasCambio(a: seq<Cuenta>, b: seq<Cuenta>, k: int)
    requires |a| == |b| && 0 <= k < |a|
    requires forall i :: 0 <= i < |a| && i != k ==> a[i].saldo == b[i].saldo
    ensures SaldoTotal(b) == SaldoTotal(a) - a[k].saldo + b[k].saldo
    decreases |a|
  {
    if k == 0 {
      SaldoTotalIgual(a[1..], b[1..]);
    } else {
      SaldoTotalTrasCambio(a[1..], b[1..], k - 1);
    }
  }

  lemma {:induction false} SaldoTotalIgual(a: seq<Cuenta>, b: seq<Cuenta>)
    requires |a| == |b|
    requires forall i :: 0 <= i < |a| ==> a[i].saldo == b[i].saldo
    ensures SaldoTotal(a) == SaldoTotal(b)
    decreases |a|
  {
    if a != [] {
      SaldoTotalIgual(a[1..], b[1..]);
    }
  }

  /** Appending a row adds its balance to the total. */
  lemma {:induction false} SaldoTotalAnexo(a: seq<Cuenta>, c: Cuenta)
    ensures SaldoTotal(a + [c]) == SaldoTotal(a) + c.saldo
    decreases |a|
  {
    if a != [] {
      assert (a + [c])[1..] == a[1..] + [c];
      SaldoTotalAnexo(a[1..], c);
    }
  }

  /** `ids` without `id`. */
  function Quitar(ids: seq<int>, id: int): (r: seq<int>)
    ensures forall x :: x in r <==> x in ids && x != id
    ensures SinRepetidos(ids) ==> SinRepetidos(r)
    ensures SinRepetidos(ids) && id in ids ==> |r| == |ids| - 1
    ensures id !in ids ==> r == ids
  {
    if ids == [] then []
    else if ids[0] == id then Quitar(ids[1..], id)
    else
      var resto := Quitar(ids[1..], id);
      assert SinRepetidos(ids) ==> SinRepetidos(ids[1..]) && ids[0] !in resto;
      assert SinRepetidos(ids) ==> SinRepetidos([ids[0]] + resto) by {
        if SinRepetidos(ids) {
          forall i, j | 0 <= i < j < |resto| + 1 ensures ([ids[0]] + resto)[i] != ([ids[0]] + resto)[j] {
            if i == 0 {
              assert ([ids[0]] + resto)[j] == resto[j - 1];
            }
          }
        }
      }
      [ids[0]] + resto
  }

  /** Overwriting the row of one listed id changes the total of the listed
      rows by the change in that row's balance. */
  lemma SaldoTrasSobrescribir(m: map<int, Cuenta>, ids: seq<int>, c: Cuenta)
    requires forall i :: 0 <= i < |ids| ==> ids[i] in m
    requires SinRepetidos(ids) && c.id in ids
    ensures SaldoTotal(FilasDe(m[c.id := c], ids)) == SaldoTotal(FilasDe(m, ids)) - m[c.id].saldo + c.saldo
  {
    var antes := FilasDe(m, ids);
    var despues := FilasDe(m[c.id := c], ids);
    var k :| 0 <= k < |ids| && ids[k] == c.id;
    forall i | 0 <= i < |ids| && i != k
      ensures antes[i].saldo == despues[i].saldo
    {
      assert ids[i] != c.id;
    }
    SaldoTotalTrasCambio(antes, despues, k);
  }

  /** Appending a new key's row adds its balance to the total of the listed
      rows. */
  lemma SaldoTrasAnexar(m: map<int, Cuenta>, ids: seq<int>, c: Cuenta)
    requires forall i :: 0 <= i < |ids| ==> ids[i] in m
    requires c.id !in m
    ensures SaldoTotal(FilasDe(m[c.id := c], ids + [c.id])) == SaldoTotal(FilasDe(m, ids)) + c.saldo
  {
    var antes := FilasDe(m, ids);
    var despues := FilasDe(m[c.id := c], ids + [c.id]);
    assert despues == antes + [c] by {
      forall i | 0 <= i < |antes| ensures despues[i] == antes[i] {
        assert ids[i] in m;
      }
    }
    SaldoTotalAnexo(antes, c);
  }

  class CuentaRepositorio {
    /** The stored accounts by id. */
    var cuentas: map<int, Cuenta>
    /** The ids in table order: the order in which `findAll` returns rows. */
    var orden: seq<int>
    /** The next identity value the store will assign. */
    var siguienteId: int

    ghost predicate Valid()
      reads this
    {
      TablaValida(cuentas, orden, siguienteId)
    }

    /** The table invariant: the listed ids are exactly the stored ones, each
        once; every row carries its own key, below the next identity value;
        and no two rows share a number. */
    static ghost predicate TablaValida(m: map<int, Cuenta>, ids: seq<int>, sig: int) {
      && 1 <= sig
      && (forall i :: 0 <= i < |ids| ==> ids[i] in m)
      && (forall id :: id in m ==> id in ids)
      && SinRepetidos(ids)
      && |ids| == |m|
      && (forall id :: id in m ==> m[id].id == id && 1 <= id < sig)
      && NumerosUnicos(m)
    }

    /** Deleting a key, present or not, keeps the table invariant. */
    static lemma BajaValida(m: map<int, Cuenta>, ids: seq<int>, sig: int, id: int)
      requires TablaValida(m, ids, sig)
      ensures TablaValida(m - {id}, Quitar(ids, id), sig)
    {
      if id !in m {
        assert m - {id} == m;
        assert id !in ids;
      } else {
        BajaPresenteValida(m, ids, sig, id);
      }
    }

    static lemma BajaPresenteValida(m: map<int, Cuenta>, ids: seq<int>, sig: int, id: int)
      requires TablaValida(m, ids, sig) && id in m
      ensures TablaValida(m - {id}, Quitar(ids, id), sig)
    {
      var m' := m - {id};
      var ids' := Quitar(ids, id);
      assert |m'| == |m| - 1 by {
        assert m'.Keys == m.Keys - {id};
      }
      assert |ids'| == |ids| - 1 by {
        assert id in ids;
      }
      assert forall i :: 0 <= i < |ids'| ==> ids'[i] in m' by {
        forall i | 0 <= i < |ids'| ensures ids'[i] in m' {
          assert ids'[i] in ids';
          var j :| 0 <= j < |ids| && ids[j] == ids'[i];
        }
      }
      NumerosTrasBaja(m, id);
    }

    /** Adding a row under the next identity value, with a number no row
        has, keeps the table invariant. */
    static lemma AltaValida(m: map<int, Cuenta>, ids: seq<int>, sig: int, c: Cuenta)
      requires TablaValida(m, ids, sig) && c.id == sig
      requires forall id :: id in m ==> m[id].numeroCuenta != c.numeroCuenta
      ensures sig !in m
      ensures TablaValida(m[sig := c], ids + [sig], sig + 1)
    {
      var ids' := ids + [sig];
      assert SinRepetidos(ids') by {
        forall i | 0 <= i < |ids| ensures ids'[i] != sig {
          assert ids[i] in m;
        }
      }
      NumerosTrasAlta(m, c);
    }

    static lemma NumerosTrasBaja(m: map<int, Cuenta>, id: int)
      requires NumerosUnicos(m)
      ensures NumerosUnicos(m - {id})
    {
      var m' := m - {id};
      forall a, b | a in m' && b in m' && m'[a].numeroCuenta == m'[b].numeroCuenta
        ensures a == b
      {
        assert m'[a] == m[a] && m'[b] == m[b];
      }
    }

    /** The unique constraint on the account-number column. */
    static ghost predicate NumerosUnicos(m: map<int, Cuenta>) {
      forall a, b :: a in m && b in m && m[a].numeroCuenta == m[b].numeroCuenta ==> a == b
    }

    /** Every stored account respects its type's balance floor. */
    ghost predicate PisosRespetados()
      reads this
    {
      forall id :: id in cuentas ==> DentroDelPiso(cuentas[id])
    }

    constructor ()
      ensures Valid()
      ensures cuentas == map[] && orden == [] && siguienteId == 1
    {
      cuentas, orden, siguienteId := map[], [], 1;
    }

    /** `findAll`: every stored account, in table order. */
    function Filas(): (filas: seq<Cuenta>)
      reads this
      requires Valid()
      ensures |filas| == |orden|
      ensures forall i :: 0 <= i < |orden| ==> filas[i] == cuentas[orden[i]]
    {
      FilasDe(cuentas, orden)
    }

    function SaldoTotalStore(): real
      reads this
      requires Valid()
    {
      SaldoTotal(Filas())
    }

    /** `findById`. */
    function FindById(id: int): (r: Option<Cuenta>)
      reads this
      ensures r.Some? <==> id in cuentas
      ensures r.Some? ==> r.value == cuentas[id]
      ensures Valid() && r.Some? ==> r.value.id == id
    {
      if id in cuentas then Some(cuentas[id]) else None
    }

    /** `existsById`. */
    predicate ExistsById(id: int)
      reads this
      ensures ExistsById(id) <==> FindById(id).Some?
    {
      id in cuentas
    }

    /** `findByNumeroCuenta`: the account stored with `numero`; there is at most one. */
    function FindByNumeroCuenta(numero: string): (r: Option<Cuenta>)
      reads this
      requires Valid()
      ensures r.Some? ==> r.value.id in cuentas && cuentas[r.value.id] == r.value
      ensures r.Some? ==> r.value.numeroCuenta == numero
      ensures r.Some? ==> forall id :: id in cuentas && cuentas[id].numeroCuenta == numero ==> id == r.value.id
      ensures r.None? <==> forall id :: id in cuentas ==> cuentas[id].numeroCuenta != numero
    {
      var filas := Filas();
      var r := BuscarPorNumero(filas, numero);
      if r.Some? then
        var i :| 0 <= i < |filas| && filas[i] == r.value;
        assert cuentas[orden[i]] == r.value;
        r
      else
        assert forall id :: id in cuentas ==> cuentas[id] in filas by {
          forall id | id in cuentas ensures cuentas[id] in filas {
            var i :| 0 <= i < |orden| && orden[i] == id;
            assert filas[i] == cuentas[id];
          }
        }
        r
    }

    /** A stored account's number looks up that account. */
    lemma BuscarRegistrado(numero: string, id: int)
      requires Valid()
      requires id in cuentas && cuentas[id].numeroCuenta == numero
      ensures FindByNumeroCuenta(numero) == Some(cuentas[id])
    {
      var r := FindByNumeroCuenta(numero);
      assert r.Some?;
      assert r.value.id == id;
    }

    /** `existsByNumeroCuenta`; a null number (None) matches no row, since the
        column is not nullable. */
    predicate ExistsByNumeroCuenta(numero: Option<string>)
      reads this
      requires Valid()
      ensures ExistsByNumeroCuenta(numero) <==>
                numero.Some? && exists id :: id in cuentas && cuentas[id].numeroCuenta == numero.value
    {
      numero.Some? && FindByNumeroCuenta(numero.value).Some?
    }

    /** `findByClienteId`. */
    function FindByClienteId(clienteId: int): (r: seq<Cuenta>)
      reads this
      requires Valid()
      ensures forall c :: c in r ==> c.clienteId == clienteId && c.id in cuentas && cuentas[c.id] == c
      ensures forall id :: id in cuentas && cuentas[id].clienteId == clienteId ==> cuentas[id] in r
      ensures |r| <= |cuentas|
      ensures IdsDistintos(r)
    {
      var filas := Filas();
      FilasCubren();
      FiltrarConservaIdsDistintos(filas, clienteId);
      FiltrarPorCliente(filas, clienteId)
    }

    /** The listed rows are exactly the stored accounts, each once. */
    lemma FilasCubren()
      requires Valid()
      ensures forall c :: c in Filas() ==> c.id in cuentas && cuentas[c.id] == c
      ensures forall id :: id in cuentas ==> cuentas[id] in Filas()
      ensures IdsDistintos(Filas())
    {
      var filas := Filas();
      forall c | c in filas ensures c.id in cuentas && cuentas[c.id] == c {
        var i :| 0 <= i < |filas| && filas[i] == c;
      }
      forall id | id in cuentas ensures cuentas[id] in filas {
        var i :| 0 <= i < |orden| && orden[i] == id;
        assert filas[i] == cuentas[id];
      }
      forall i, j | 0 <= i < j < |filas| ensures filas[i].id != filas[j].id {
        assert filas[i].id == orden[i] && filas[j].id == orden[j];
      }
    }

    /** `save` of an entity loaded from the store: the row is overwritten in place.
        Callers only change balance, type and status, never the number. */
    method Guardar(c: Cuenta)
      requires Valid()
      requires c.id in cuentas && c.numeroCuenta == cuentas[c.id].numeroCuenta
      modifies this
      ensures Valid()
      ensures cuentas == old(cuentas)[c.id := c]
      ensures orden == old(orden) && siguienteId == old(siguienteId)
      ensures SaldoTotalStore() == old(SaldoTotalStore()) - old(cuentas[c.id].saldo) + c.saldo
    {
      NumerosTrasCambio(cuentas, c);
      SaldoTrasSobrescribir(cuentas, orden, c);
      cuentas := cuentas[c.id := c];
    }

    static lemma NumerosTrasCambio(m: map<int, Cuenta>, c: Cuenta)
      requires NumerosUnicos(m)
      requires c.id in m && c.numeroCuenta == m[c.id].numeroCuenta
      ensures NumerosUnicos(m[c.id := c])
    {
      var m' := m[c.id := c];
      forall a, b | a in m' && b in m' && m'[a].numeroCuenta == m'[b].numeroCuenta
        ensures a == b
      {
        assert m'[a].numeroCuenta == m[a].numeroCuenta;
        assert m'[b].numeroCuenta == m[b].numeroCuenta;
      }
    }

    static lemma NumerosTrasAlta(m: map<int, Cuenta>, c: Cuenta)
      requires NumerosUnicos(m)
      requires c.id !in m
      requires forall id :: id in m ==> m[id].numeroCuenta != c.numeroCuenta
      ensures NumerosUnicos(m[c.id := c])
    {
    }

    /** `save` of a new entity: the store assigns the next id, or the unique
        number column rejects the row. */
    method Insertar(c: Cuenta) returns (r: Result<Cuenta, Falla>)
      requires Valid()
      modifies this
      ensures Valid()
      ensures old(FindByNumeroCuenta(c.numeroCuenta)).Some? ==>
                r == Failure(NumeroDuplicado) && cuentas == old(cuentas)
                && orden == old(orden) && siguienteId == old(siguienteId)
      ensures old(FindByNumeroCuenta(c.numeroCuenta)).None? ==>
                && r == Success(c.(id := old(siguienteId)))
                && old(siguienteId) !in old(cuentas)
                && cuentas == old(cuentas)[old(siguienteId) := c.(id := old(siguienteId))]
                && orden == old(orden) + [old(siguienteId)]
                && siguienteId == old(siguienteId) + 1
      ensures r.Failure? ==> unchanged(this)
      ensures r.Success? ==> SaldoTotalStore() == old(SaldoTotalStore()) + c.saldo
    {
      if FindByNumeroCuenta(c.numeroCuenta).Some? {
        return Failure(NumeroDuplicado);
      }
      var nueva := c.(id := siguienteId);
      AltaValida(cuentas, orden, siguienteId, nueva);
      SaldoTrasAnexar(cuentas, orden, nueva);
      cuentas := cuentas[siguienteId := nueva];
      orden := orden + [siguienteId];
      siguienteId := siguienteId + 1;
      r := Success(nueva);
    }

    /** `deleteById`. */
    method EliminarPorId(id: int)
      requires Valid()
      modifies this
      ensures Valid()
      ensures cuentas == old(cuentas) - {id}
      ensures orden == Quitar(old(orden), id) && siguienteId == old(siguienteId)
    {
      BajaValida(cuentas, orden, siguienteId, id);
      cuentas := cuentas - {id};
      orden := Quitar(orden, id);
    }
  }
}
