/** The query service (CuentaConsultaServiceImpl): read-only views of the
    store. The entity-to-DTO mapping copies every field and is the identity
    here. */
module Consulta {
  import opened Wrappers
  import opened CuentaModelo
  import opened Repositorio

  /** `obtenerTodasLasCuentas`: every stored account exactly once, in table
      order. */
  function ObtenerTodasLasCuentas(repo: CuentaRepositorio): (r: seq<Cuenta>)
    reads repo
    requires repo.Valid()
    ensures |r| == |repo.cuentas| == |repo.orden|
    ensures forall i :: 0 <= i < |r| ==> r[i] == repo.cuentas[repo.orden[i]]
    ensures forall i :: 0 <= i < |r| ==> r[i].id in repo.cuentas && repo.cuentas[r[i].id] == r[i]
    ensures forall id :: id in repo.cuentas ==> repo.cuentas[id] in r
    ensures forall i, j :: 0 <= i < j < |r| ==> r[i].id != r[j].id
  {
    repo.FilasCubren();
    repo.Filas()
  }

  /** `obtenerCuentaPorId`. */
  function ObtenerCuentaPorId(repo: CuentaRepositorio, id: int): (r: Option<Cuenta>)
    reads repo
    requires repo.Valid()
    ensures r.Some? <==> id in repo.cuentas
    ensures r.Some? ==> r.value == repo.cuentas[id] && r.value.id == id
  {
    repo.FindById(id)
  }

  /** `obtenerCuentasPorClienteId`: exactly the stored accounts of that owner. */
  function ObtenerCuentasPorClienteId(repo: CuentaRepositorio, clienteId: int): (r: seq<Cuenta>)
    reads repo
    requires repo.Valid()
    ensures forall c :: c in r ==> c.clienteId == clienteId && c.id in repo.cuentas && repo.cuentas[c.id] == c
    ensures forall id :: id in repo.cuentas && repo.cuentas[id].clienteId == clienteId ==> repo.cuentas[id] in r
    ensures |r| <= |repo.cuentas|
    ensures forall i, j :: 0 <= i < j < |r| ==> r[i].id != r[j].id
  {
    repo.FindByClienteId(clienteId)
  }
}
