# account-ms: the account transaction engine, in Dafny

This project models the core of account-ms, a Spring service that keeps bank
accounts (`Cuenta`, and the parallel `Account` entity). The service lets
clients:

- deposit into an account and withdraw from it;
- transfer between two accounts;
- create, update and delete accounts;
- query accounts.

The model states and proves what each operation does to an abstract account store.

The store (`Repositorio.CuentaRepositorio`) is a class:

- `cuentas`: a map from id to account;
- `orden`: the table's row order;
- `siguienteId`: the next identity value.

Its invariant says that:

- the listed ids are exactly the stored ones;
- every row carries its own key;
- ids are below the next identity value;
- no two rows share an account number (the unique column).

`findByNumeroCuenta` is called by the services but the repository interface
does not declare it. It is modelled as a lookup by number that yields at most
one account, which the unique column guarantees.

The modules follow the services:

- **Wrappers, CuentaModelo, AccountModelo, Fallas**: Option, Result and Outcome; the two entities and their declared constraints; the type-specific balance floor; one error datatype for the exceptions.
- **Numeracion**: the account-number generator. The random draw is a parameter `sorteo` in [0, 10^10); the generator is its decimal rendering.
- **Validacion**: `validarMonto`, `validarEstadoActivo`, `validarSaldo` and `validarCuenta`, as functions that pass or fail.
- **Transaccion**: `depositar`, `retirar` and `transferir`.
  - Each is a method on the store.
  - Each is proved equal to a pure outcome function.
  - Each is proved to change exactly one row, or the two rows of a transfer; nothing else changes.
  - Each shifts the sum of balances by exactly the amount (a transfer conserves it).
  - A failure leaves the store untouched, and the type floors are kept.
- **Gestion**: create, update and delete. The owner lookup's reply is a parameter.
- **Consulta**: the three read-only queries. Being functions that only read the store, they cannot modify it.
- **CuentaServicio**: what the monolithic CuentaServiceImpl does differently:
  - the listing sorted by id, descending;
  - the withdrawal with the funds rules written inline, which let accounts of other types through;
  - the transfer built on that withdrawal.

  Its other operations are the same code as the split services and reuse their members.
- **AccountServicio**: the id-keyed `deposit` and `withdraw` of AccountServiceImpl, and how its stricter table relates to the `cuentas` table. Its other operations reuse the members above, with `Tabla.Accounts` for create.

Where a specification-level reading and the code differ, the model follows the code.

- **Entity constraints:** this model checks the entity constraints (`saldo >= 0`, the number pattern, a positive owner) once, when a row is inserted. In the model, therefore, an update or a CORRIENTE withdrawal can take a row outside them. `SobregiroFueraDeRestricciones` shows the conflict: `validarSaldo` allows an overdraft that `saldo >= 0` forbids. In the running service, Bean Validation also runs before each update, so such a save would most likely be refused with a constraint violation instead of succeeding.
- **Generated numbers:** a generated number is not padded, so a draw below 10^9 yields a number shorter than either entity's pattern. In that case the create fails (`CreacionConNumeroCortoFalla`).

## Model

| member | source | states |
|---|---|---|
| CuentaModelo.NumeroCuentaValido | src/main/java/com/paucar/accountms/model/Cuenta.java:24-27 | the `\d{10,12}` pattern on a non-null number: 10 to 12 decimal digits, so never empty |
| CuentaModelo.CuentaBienFormada | src/main/java/com/paucar/accountms/model/Cuenta.java:24-44 | number pattern, `saldo >= 0.0` inclusive and a positive owner id; a well-formed account is within its type floor |
| CuentaModelo.DentroDelPiso | src/main/java/com/paucar/accountms/service/validacion/CuentaValidacionServiceImpl.java:35-45 | the type floors the funds rules protect: AHORROS at 0, CORRIENTE at -500, other types none; any floored account is at least -500 |
| AccountModelo.NumeroAccountValido | src/main/java/com/paucar/accountms/model/Account.java:22-25 | the `\d{10}` pattern: exactly 10 digits, which also meets the Cuenta pattern |
| AccountModelo.AccountBienFormada | src/main/java/com/paucar/accountms/model/Account.java:22-41 | the Account constraints; a well-formed Account is a well-formed Cuenta |
| AccountModelo.AccountMasEstrictaQueCuenta | src/main/java/com/paucar/accountms/model/Account.java:22-41 | a well-formed Account is a well-formed Cuenta; an 11- or 12-digit number is a valid Cuenta but never a valid Account |
| Numeracion.Decimal | src/main/java/com/paucar/accountms/service/gestion/CuentaGestionServiceImpl.java:82-84 | the rendering of a long is non-empty, all digits, and has no leading zero unless the value is 0 |
| Numeracion.ValorDeDecimal | src/main/java/com/paucar/accountms/service/gestion/CuentaGestionServiceImpl.java:82-84 | reading the rendered digits back gives the drawn number (round trip) |
| Numeracion.LongitudDecimal | src/main/java/com/paucar/accountms/service/gestion/CuentaGestionServiceImpl.java:82-84 | the rendering has at most k digits exactly when the number is below 10^k |
| Numeracion.GenerarNumeroCuenta | src/main/java/com/paucar/accountms/service/gestion/CuentaGestionServiceImpl.java:82-84 | a generated number has 1 to 10 digits, all decimal, and denotes the draw |
| Numeracion.NumeroGeneradoCumplePatron | src/main/java/com/paucar/accountms/service/impl/AccountServiceImpl.java:157-159 | a generated number meets the Cuenta pattern, and the Account pattern, exactly when the draw is at least 10^9 |
| Validacion.ValidarMonto | src/main/java/com/paucar/accountms/service/validacion/CuentaValidacionServiceImpl.java:48-52 | fails, with MontoInvalido, if and only if the amount is not positive |
| Validacion.ValidarEstadoActivo | src/main/java/com/paucar/accountms/service/validacion/CuentaValidacionServiceImpl.java:19-23 | fails, with CuentaInactiva, if and only if the account is not ACTIVO |
| Validacion.ValidarSaldoAhorros | src/main/java/com/paucar/accountms/service/validacion/CuentaValidacionServiceImpl.java:35-39 | passes iff `saldo >= monto`, leaving a non-negative balance; fails with the AHORROS funds error |
| Validacion.ValidarSaldoCorriente | src/main/java/com/paucar/accountms/service/validacion/CuentaValidacionServiceImpl.java:41-45 | passes iff `saldo - monto >= -500`; fails with the overdraft error |
| Validacion.ValidarSaldo | src/main/java/com/paucar/accountms/service/validacion/CuentaValidacionServiceImpl.java:26-45 | AHORROS passes iff `saldo >= monto`; CORRIENTE passes iff `saldo - monto >= -500`; any other type fails as unsupported; passing means the debited account stays within its floor |
| Validacion.ValidarCuenta | src/main/java/com/paucar/accountms/service/validacion/CuentaValidacionServiceImpl.java:55-76 | checks existence, then ACTIVO, then funds (role "origen" and AHORROS only); each failure names the role; success returns the stored account unchanged |
| Validacion.ContraparteCorrienteSinPiso | src/main/java/com/paucar/accountms/service/validacion/CuentaValidacionServiceImpl.java:70-73 | an active CORRIENTE origin always passes the counterparty check, even when `validarSaldo` would reject the overdraft |
| Validacion.CasosDeValidacion | src/main/java/com/paucar/accountms/service/validacion/CuentaValidacionServiceImpl.java:35-52 | the cases of the unit tests: amount -1.0 rejected; AHORROS 100 vs 200 rejected; CORRIENTE -400 minus 200 rejected; inactive rejected |
| Repositorio.FilasDe | src/main/java/com/paucar/accountms/repository/CuentaRepository.java:9 | `findAll` yields one row per listed id, in table order |
| Repositorio.BuscarPorNumero | src/main/java/com/paucar/accountms/model/Cuenta.java:24-27 | the lookup by number finds a row carrying that number, and finds none exactly when no row carries it |
| Repositorio.FiltrarPorCliente | src/main/java/com/paucar/accountms/repository/CuentaRepository.java:12 | `findByClienteId` keeps each row of that owner exactly as often as it occurs, and no other row |
| Repositorio.FiltrarConservaIdsDistintos | src/main/java/com/paucar/accountms/repository/CuentaRepository.java:12 | filtering rows with distinct ids yields rows with distinct ids |
| Repositorio.Quitar | src/main/java/com/paucar/accountms/repository/CuentaRepository.java:9 | the row order after `deleteById` lists every other id, still without repeats, one shorter when the id was listed |
| Repositorio.SaldoTotalTrasCambio | src/main/java/com/paucar/accountms/service/transaccion/CuentaTransaccionServiceImpl.java:30-31 | overwriting one row changes the sum of balances by the change in that row |
| Repositorio.SaldoTrasSobrescribir | src/main/java/com/paucar/accountms/service/transaccion/CuentaTransaccionServiceImpl.java:30-31 | saving an existing row changes the store's total by the change in its balance |
| Repositorio.SaldoTrasAnexar | src/main/java/com/paucar/accountms/service/gestion/CuentaGestionServiceImpl.java:50 | inserting a row adds its balance to the store's total |
| Repositorio.CuentaRepositorio.BajaValida | src/main/java/com/paucar/accountms/service/gestion/CuentaGestionServiceImpl.java:78 | `deleteById` keeps the store invariant, unique numbers included |
| Repositorio.CuentaRepositorio.AltaValida | src/main/java/com/paucar/accountms/model/Cuenta.java:20-27 | inserting a row under the next identity value, with a new number, keeps the store invariant |
| Repositorio.CuentaRepositorio.constructor | src/main/java/com/paucar/accountms/repository/CuentaRepository.java:9 | an empty table satisfies the invariant |
| Repositorio.CuentaRepositorio.Filas | src/main/java/com/paucar/accountms/repository/CuentaRepository.java:9 | `findAll` returns each stored account once, in table order |
| Repositorio.CuentaRepositorio.FilasCubren | src/main/java/com/paucar/accountms/repository/CuentaRepository.java:9 | `findAll` lists exactly the stored accounts, each under its own id and each once |
| Repositorio.CuentaRepositorio.FindById | src/main/java/com/paucar/accountms/repository/CuentaRepository.java:9 | `findById` is present iff the id is stored, and then returns the stored row, which carries that id |
| Repositorio.CuentaRepositorio.ExistsById | src/main/java/com/paucar/accountms/service/gestion/CuentaGestionServiceImpl.java:73 | `existsById` holds exactly when `findById` finds the row |
| Repositorio.CuentaRepositorio.FindByNumeroCuenta | src/main/java/com/paucar/accountms/model/Cuenta.java:24 | the lookup by number returns the one stored account with that number, or nothing exactly when none has it |
| Repositorio.CuentaRepositorio.BuscarRegistrado | src/main/java/com/paucar/accountms/model/Cuenta.java:24 | a stored account's number looks up that very account |
| Repositorio.CuentaRepositorio.ExistsByNumeroCuenta | src/main/java/com/paucar/accountms/repository/CuentaRepository.java:11 | `existsByNumeroCuenta` holds iff the number is non-null and some stored account has it |
| Repositorio.CuentaRepositorio.FindByClienteId | src/main/java/com/paucar/accountms/repository/CuentaRepository.java:12 | exactly the stored accounts of that owner, each once (distinct ids), never more than the table holds |
| Repositorio.CuentaRepositorio.Guardar | src/main/java/com/paucar/accountms/service/transaccion/CuentaTransaccionServiceImpl.java:31 | `save` of a loaded entity overwrites its row only, keeps the invariant and shifts the total by the balance change |
| Repositorio.CuentaRepositorio.Insertar | src/main/java/com/paucar/accountms/model/Cuenta.java:20-27 | `save` of a new entity assigns the next id and appends the row, or fails on a duplicate number and changes nothing |
| Repositorio.CuentaRepositorio.EliminarPorId | src/main/java/com/paucar/accountms/service/gestion/CuentaGestionServiceImpl.java:78 | `deleteById` removes exactly that id from the map and from the row order |
| Transaccion.Deposito | src/main/java/com/paucar/accountms/service/transaccion/CuentaTransaccionServiceImpl.java:22-33 | amount first, then existence, then ACTIVO; succeeds iff all pass, with the balance raised by exactly the amount and the floor kept |
| Transaccion.RetiroValidado | src/main/java/com/paucar/accountms/service/transaccion/CuentaTransaccionServiceImpl.java:36-48 | amount, existence, ACTIVO, then `validarSaldo`, each error as thrown; on success the balance drops by exactly the amount and stays within its floor |
| Transaccion.RetiroDeshaceDeposito | src/main/java/com/paucar/accountms/service/transaccion/CuentaTransaccionServiceImpl.java:22-48 | withdrawing what was just deposited restores an AHORROS or CORRIENTE account within its floor |
| Transaccion.DepositoDeshaceRetiro | src/main/java/com/paucar/accountms/service/transaccion/CuentaTransaccionServiceImpl.java:22-48 | depositing what was just withdrawn restores the account |
| Transaccion.SobregiroFueraDeRestricciones | src/main/java/com/paucar/accountms/model/Cuenta.java:29-31 | the funds rule and the `saldo >= 0` constraint disagree: a withdrawal `validarSaldo` allows on a well-formed CORRIENTE account leaves a balance the constraint forbids |
| Transaccion.ResultadoTransferencia | src/main/java/com/paucar/accountms/service/transaccion/CuentaTransaccionServiceImpl.java:50-61 | a transfer succeeds, with true, exactly when both accounts exist and are ACTIVO, the amount is positive and the origin passes `validarSaldo`; a missing destination or non-positive amount fails |
| Transaccion.EfectoDeDosPasos | src/main/java/com/paucar/accountms/service/transaccion/CuentaTransaccionServiceImpl.java:57-58 | debiting the origin and then crediting the destination gives the transfer's effect, also for a self-transfer |
| Transaccion.DestinoTrasRetiro | src/main/java/com/paucar/accountms/service/transaccion/CuentaTransaccionServiceImpl.java:57-58 | after the debit, the destination row is the validated destination (debited too when it is the origin) |
| Transaccion.Depositar | src/main/java/com/paucar/accountms/service/transaccion/CuentaTransaccionServiceImpl.java:22-33 | the result is `Deposito` of the looked-up account; failure changes nothing; success rewrites that row only and raises the total by the amount (also the monolith's `depositar`) |
| Transaccion.Retirar | src/main/java/com/paucar/accountms/service/transaccion/CuentaTransaccionServiceImpl.java:36-48 | the result is `RetiroValidado` of the looked-up account; failure changes nothing; success rewrites that row only, lowers the total by the amount and keeps every floor |
| Transaccion.AcreditarDestino | src/main/java/com/paucar/accountms/service/transaccion/CuentaTransaccionServiceImpl.java:58 | the inner deposit of a transfer cannot fail once the destination has been validated |
| Transaccion.MoverFondos | src/main/java/com/paucar/accountms/service/transaccion/CuentaTransaccionServiceImpl.java:57-59 | the two inner calls either fail at the withdrawal, leaving the accounts unchanged, or debit the origin and credit the destination by the amount, conserving the total |
| Transaccion.Transferir | src/main/java/com/paucar/accountms/service/transaccion/CuentaTransaccionServiceImpl.java:50-61 | the result is `ResultadoTransferencia` on the store before the call; all-or-nothing; success moves exactly the amount, with the total conserved and a self-transfer a no-op |
| Gestion.PrepararCuenta | src/main/java/com/paucar/accountms/service/gestion/CuentaGestionServiceImpl.java:41-47 | the built entity is ACTIVO whatever the request says; a supplied number is kept; a null or empty one is replaced by exactly the unpadded rendering of the draw, at most 10 digits |
| Gestion.ResultadoCreacion | src/main/java/com/paucar/accountms/service/gestion/CuentaGestionServiceImpl.java:27-52 | owner check, then the supplied number's uniqueness, then the entity constraints (RestriccionViolada), then the unique column; succeeds exactly when all four pass, so always for a new supplied number meeting the constraints; success yields an ACTIVO account under a fresh store-assigned id whose number no stored account has |
| Gestion.Restricciones | src/main/java/com/paucar/accountms/model/Account.java:12-25 | the constraints of the target table: `cuentas` takes the Cuenta pattern, `accounts` the 10-digit one; either implies the Cuenta constraints and the floor |
| Gestion.NumeroSuministrado | src/main/java/com/paucar/accountms/service/gestion/CuentaGestionServiceImpl.java:45 | a number counts as supplied iff it is neither null nor empty |
| Gestion.CrearCuenta | src/main/java/com/paucar/accountms/service/gestion/CuentaGestionServiceImpl.java:27-52 | the result is `ResultadoCreacion`; failure saves nothing; success appends exactly the new row, findable by id and by number (also the monolith's `crearCuenta` and, with `Tabla.Accounts`, `createAccount`) |
| Gestion.CreacionConNumeroCortoFalla | src/main/java/com/paucar/accountms/service/gestion/CuentaGestionServiceImpl.java:44-50 | without a supplied number, a draw below 10^9 makes the create fail on the entity constraints |
| Gestion.CreacionSinNumero | src/main/java/com/paucar/accountms/service/gestion/CuentaGestionServiceImpl.java:44-50 | without a supplied number, a well-formed request creates an account iff the draw has ten digits and its number is not stored |
| Gestion.Actualizada | src/main/java/com/paucar/accountms/service/gestion/CuentaGestionServiceImpl.java:61-63 | update takes balance, type and status from the request and keeps id, number and owner |
| Gestion.ActualizacionIdempotente | src/main/java/com/paucar/accountms/service/gestion/CuentaGestionServiceImpl.java:55-68 | a small consequence of `Actualizada`: since the update keeps nothing of the old balance, type or status, repeating it with the same request changes nothing more |
| Gestion.ActualizacionSinValidar | src/main/java/com/paucar/accountms/service/gestion/CuentaGestionServiceImpl.java:55-68 | the update runs no transaction check: it can break the floor and reactivate an account |
| Gestion.ActualizarCuenta | src/main/java/com/paucar/accountms/service/gestion/CuentaGestionServiceImpl.java:55-68 | a missing id fails with not-found and changes nothing; otherwise only that row changes, as `Actualizada`, and the total moves by the balance change (also the monolith's `actualizarCuenta` and `updateAccount`) |
| Gestion.EliminarCuenta | src/main/java/com/paucar/accountms/service/gestion/CuentaGestionServiceImpl.java:71-79 | fails iff the id is absent, changing nothing; otherwise removes exactly that id (also `eliminarCuenta` of CuentaServiceImpl and `deleteAccount` of AccountServiceImpl) |
| Consulta.ObtenerTodasLasCuentas | src/main/java/com/paucar/accountms/service/consulta/CuentaConsultaServiceImpl.java:21-25 | the stored rows in table order (the i-th entry is the row of the i-th listed id, unsorted), one entry per stored account, distinct ids |
| Consulta.ObtenerCuentaPorId | src/main/java/com/paucar/accountms/service/consulta/CuentaConsultaServiceImpl.java:28-31 | present iff the id is stored, and then the stored account (also the monolith's copy and `getAccountById`) |
| Consulta.ObtenerCuentasPorClienteId | src/main/java/com/paucar/accountms/service/consulta/CuentaConsultaServiceImpl.java:34-38 | exactly the stored accounts of that owner, each once (also the monolith's copy and `getAccountsByCustomerId`) |
| CuentaServicio.OrdenEstrictoTransitivo | src/main/java/com/paucar/accountms/service/impl/CuentaServiceImpl.java:44-49 | ids decreasing between neighbours decrease between every pair |
| CuentaServicio.InsertarPorIdDesc | src/main/java/com/paucar/accountms/service/impl/CuentaServiceImpl.java:47 | insertion adds exactly the one element (a permutation of input plus element) |
| CuentaServicio.InsertarConservaOrden | src/main/java/com/paucar/accountms/service/impl/CuentaServiceImpl.java:47 | insertion keeps a list ordered by descending id, strictly when the id is new |
| CuentaServicio.OrdenarPorIdDesc | src/main/java/com/paucar/accountms/service/impl/CuentaServiceImpl.java:47 | the sort is a permutation of its input |
| CuentaServicio.OrdenarOrdena | src/main/java/com/paucar/accountms/service/impl/CuentaServiceImpl.java:47 | the sort orders by descending id, strictly when the ids are distinct |
| CuentaServicio.ObtenerTodasLasCuentasOrdenadas | src/main/java/com/paucar/accountms/service/impl/CuentaServiceImpl.java:44-49 | every stored account exactly once, ids strictly descending (also `getAllAccounts`) |
| CuentaServicio.FondosEnLinea | src/main/java/com/paucar/accountms/service/impl/CuentaServiceImpl.java:98-103 | inline funds rule: other types pass; on AHORROS and CORRIENTE it equals `validarSaldo`; passing keeps the floor |
| CuentaServicio.RetiroEnLinea | src/main/java/com/paucar/accountms/service/impl/CuentaServiceImpl.java:85-108 | succeeds iff amount positive, account found, ACTIVO and inline rule passes; on success debits exactly the amount within the floor |
| CuentaServicio.RetirosCoinciden | src/main/java/com/paucar/accountms/service/impl/CuentaServiceImpl.java:85-108 | inline and validated withdrawals agree on AHORROS and CORRIENTE accounts and on every input failing before the funds check |
| CuentaServicio.RetirosDifierenEnOtroTipo | src/main/java/com/paucar/accountms/service/validacion/CuentaValidacionServiceImpl.java:26-33 | on an active account of another type, the inline withdrawal succeeds while the validated one fails as unsupported |
| CuentaServicio.RetirarEnLinea | src/main/java/com/paucar/accountms/service/impl/CuentaServiceImpl.java:85-108 | the result is `RetiroEnLinea` of the looked-up account; failure changes nothing; success rewrites that row only and lowers the total by the amount |
| CuentaServicio.ResultadoTransferenciaEnLinea | src/main/java/com/paucar/accountms/service/impl/CuentaServiceImpl.java:110-121 | the monolith's transfer succeeds exactly when both accounts exist and are ACTIVO, the amount is positive and the inline funds rule passes |
| CuentaServicio.TransferenciasCoinciden | src/main/java/com/paucar/accountms/service/impl/CuentaServiceImpl.java:180-198 | both transfers give the same outcome unless the origin is of another type |
| CuentaServicio.TransferenciasDifierenEnOtroTipo | src/main/java/com/paucar/accountms/service/impl/CuentaServiceImpl.java:110-121 | from an active origin of another type to an active destination, with a positive amount, the monolith's transfer succeeds while the split service's fails as unsupported |
| CuentaServicio.MoverFondosEnLinea | src/main/java/com/paucar/accountms/service/impl/CuentaServiceImpl.java:117-118 | the two inner calls either fail at the withdrawal with accounts unchanged or move exactly the amount, total conserved |
| CuentaServicio.TransferirEnLinea | src/main/java/com/paucar/accountms/service/impl/CuentaServiceImpl.java:110-121 | the result is `ResultadoTransferenciaEnLinea` before the call; all-or-nothing; total conserved |
| AccountServicio.Deposit | src/main/java/com/paucar/accountms/service/impl/AccountServiceImpl.java:108-123 | `deposit` by id: the result is `Deposito` of the row under that id; failure changes nothing; success adds exactly the amount to that row only |
| AccountServicio.Withdraw | src/main/java/com/paucar/accountms/service/impl/AccountServiceImpl.java:133-155 | `withdraw` by id: the result is `RetiroEnLinea` of the row under that id; failure changes nothing; success debits exactly the amount, keeping every floor |
| AccountServicio.WithdrawDeshaceDeposit | src/main/java/com/paucar/accountms/service/impl/AccountServiceImpl.java:108-155 | withdrawing by id what was just deposited restores any account within its floor |
| AccountServicio.CreateAccountMasEstricta | src/main/java/com/paucar/accountms/service/impl/AccountServiceImpl.java:55-80 | a create that the `accounts` table accepts is accepted identically by the `cuentas` table, with a number of exactly ten digits |

## Left out

- Floating point: balances and amounts are exact reals. `Double` rounding, NaN and null boxed values are not modelled.
- The random draw of the number generators is the parameter `sorteo`, any natural below 10^10. The floating-point product `Math.random() * 10^10` and its truncation to a long are not modelled.
- The owner lookups (ClienteFeign, CustomerClient) are network calls. Their reply is the parameter `RespuestaCliente`, and network failures are not modelled.
- Controllers, exception handlers and HTTP status mapping are out of scope. Exceptions are the `Falla` datatype, and their message texts are not modelled beyond the role they name.
- Mappers and DTOs are field copies and are the identity here. The DTO's id and any merge of a caller-supplied id are not modelled: create always takes the store's next id.
- Concurrency, the JPA persistence context and the mechanics of `@Transactional` are out of scope. Each service call is one atomic method on the store.
- Bean validation is checked once, when a row is inserted. Validation before an update is not modelled, so in the model update and withdrawal never fail on the entity constraints. In the service, a CORRIENTE withdrawal into overdraft, or an update that breaks a constraint, would probably fail at save with a constraint violation.
- Entities are values: there is no aliasing between a loaded entity and the persistence context.
- Gestion.ActualizarCuenta: the request's number and owner are ignored, as in the code, and a null saldo, type or status in the request is not modelled.
- findAll's order is modelled as insertion order (the store's `orden`), which the database does not promise.
- The Account entity shares the `Cuenta` record type and the store class. Its own table is another `CuentaRepositorio` instance, and only its number pattern differs (`Tabla.Accounts`).
- Operations that are identical in the monolithic and the Account service are modelled once and cited for each copy: the queries, create, update, delete, and the monolith's `depositar`.
- The TipoCuenta enum source is not part of this model. Types other than AHORROS and CORRIENTE are `Otro(nombre)`, which exercises the default branch of `validarSaldo`.
