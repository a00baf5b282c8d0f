# Truck-appointment scheduling engine, modelled in Dafny

This project models the scheduling engine of a service that books time slots
("agendamentos") for truck drivers delivering against contracts. It also models the
in-memory repository the engine runs against. The engine has four operations:

- **`criarAgendamento`** creates an appointment. It refuses a slot that is already taken,
  then refuses a driver who already has a pending or late appointment. Otherwise it stores
  the new appointment with status `pendente`.
- **`alterarStatus`** changes an appointment's status. A cancelled appointment never
  changes, and a completed one cannot be cancelled.
- **`listarAgendamentos`** lists appointments, filtered by any of instant, status and
  driver id.
- **`excluirAntigos`** deletes every appointment created more than three days ago and
  returns how many it deleted.

Modules, one per source file:

- `Model` (`model.dfy`, from `src/models/agendamento.ts`): the status enumeration and its
  string values, the stored record `Agendamento`, and the caller-supplied
  `DadosAgendamento`. It also defines the invariants the rules are about: unique ids,
  unique instants, and one active appointment per driver.
- `Repo` (`repo.dfy`, from `src/tests/mocks/mockRepo.ts`):
  - `Key`/`Value`/`Cond`/`Where` represent query conditions.
  - The `matchWhere` predicate appears twice: as written (`MatchKeyAsWritten`,
    `MatchesAsWritten`), and as evidently intended (`MatchKey`, `Matches`; see Findings).
    The contracts of `MatchKeyAsWritten` and `Matches` relate the two: the corrected
    matcher accepts everything the original accepts, and the two differ only on bounds
    objects and on an operator or array given for `status`.
  - The class `MockRepo` keeps its list in a `seq` field, which `Save`, `Remove` and
    `Reset` reassign. Its lookups `FindOneBy`, `FindOne` and `Find` use the corrected
    matcher, so the engine's queries select what they are meant to select.
- `Service` (`service.dfy`, from `src/services/agendamentoService.ts`):
  - Each operation is a pure rule over the record list: `Criar`, `Alterar`, `Listar`,
    and `Antigos`/`Recentes`.
  - The class `AgendamentoService` runs each operation against a `MockRepo`, as the source
    does: it builds conditions, queries the store, then calls `save` or `remove`. The
    store matches with the corrected matcher. Each
    method is proved equal to its rule, and each keeps the invariant `Valid()`: unique ids,
    unique instants, and every id issued by the id counter.
  - Lemmas state the properties of the rules.
  - Three client methods (`CenarioConflitos`, `CenarioTransicoes`, `CenarioExclusao`)
    run the service on small concrete cases: a slot conflict, a busy driver, a completed
    appointment that cannot be cancelled, and a purge of records created 4, 2 and 0 days
    ago.
- `Seqs` (`seqs.dfy`): `filter` and `find` over sequences, with the lemmas about them.
- `Wrappers` (`wrappers.dfy`): `Option` and `Result`.

Modelling choices:

- Instants are integers in milliseconds, and three days is the constant
  `3 * 24 * 60 * 60 * 1000`.
- The current time is a parameter (`now`) of creation and of the purge.
- The database generates the primary key and the creation time. Here the service does it:
  a counter issues ids and `now` becomes `createdAt`.
- Each thrown error is a value of `Service.Erro`.

What the code enforces, which is less than the status names might suggest:

- Status changes are not a full state machine. The code refuses only two things: any
  change away from `cancelado`, and `concluido → cancelado`. It accepts everything
  else, including `atrasado → pendente`, `concluido → pendente`, `concluido → atrasado`
  and writing the same status again (`Service.TransicoesPermitidas`).
- The listing filter `data` is compared for equality with `dataHora`. It does not
  select a calendar day (`Service.ListarExato`).
- The driver check is not limited to a time window. It looks at all of the driver's
  pending or late appointments (`Service.CriarDecide`).
- A driver holds at most one pending or late appointment after every creation
  (`Service.CriarPreservaExclusividade`). A status change can break this
  (`Service.AlterarQuebraExclusividade`).

## Model

| member | source | states |
|---|---|---|
| `Model.StatusValuesDistinct` | src/models/agendamento.ts:3-8 | the four statuses have four distinct string values, so comparing values is comparing statuses |
| `Seqs.Filter` | src/tests/mocks/mockRepo.ts:42 | `filter` keeps only elements of the list that pass the test and never lengthens the list (that it keeps every passing element, in order, is `Seqs.Positions`) |
| `Seqs.Positions` | src/tests/mocks/mockRepo.ts:42 | `filter` keeps list order: its result is the list read at exactly the positions whose elements pass, in increasing order |
| `Seqs.FilterConcat` | src/tests/mocks/mockRepo.ts:36-37 | filtering a list with an item pushed on the end is filtering the list, then the item |
| `Seqs.First` | src/tests/mocks/mockRepo.ts:32 | `find` returns the first element in list order that passes the test, or nothing exactly when none passes |
| `Repo.Digits` | src/tests/mocks/mockRepo.ts:8 | a number's text is a non-empty string of decimal digits |
| `Repo.DecimalIsNoStatus` | src/tests/mocks/mockRepo.ts:7-9 | a number's text never equals a status value |
| `Repo.TextIsStatus` | src/tests/mocks/mockRepo.ts:7-9 | a value's text is a status value exactly when the value is that status string |
| `Repo.JoinIsStatus` | src/tests/mocks/mockRepo.ts:7-9 | an array's text is a status value only when the array holds just that status string |
| `Repo.StatusTextMatches` | src/tests/mocks/mockRepo.ts:7-9 | the text comparison applied to `status` as written accepts only what the corrected matcher accepts, and exactly the same for a plain value |
| `Repo.MatchKeyAsWritten` | src/tests/mocks/mockRepo.ts:6-27 | one key of `matchWhere` as written. It never accepts what the corrected matcher rejects, and it agrees with it on every condition except a bounds object, and an operator or array given for `status` |
| `Repo.MatchesAsWritten` | src/tests/mocks/mockRepo.ts:4-28 | `matchWhere` as written: a condition with an `In` operator on `status`, or with a bounds object on any key, matches nothing |
| `Repo.MatchKey` | src/tests/mocks/mockRepo.ts:6-27 | one key of the corrected matcher: a plain value on `status` matches exactly the record whose status is that string |
| `Repo.Matches` | src/tests/mocks/mockRepo.ts:4-28 | the corrected matcher accepts every item the matcher as written accepts |
| `Repo.EmptyWhereMatchesAll` | src/tests/mocks/mockRepo.ts:4-5 | an empty condition matches every item |
| `Repo.StatusEqMatches` | src/tests/mocks/mockRepo.ts:7-9 | a plain value on `status` matches exactly the record's own status string, in both readings of the matcher |
| `Repo.StatusInNeverMatchesAsWritten` | src/tests/mocks/mockRepo.ts:7-18 | as written, the `status` text comparison runs before the `in` branch, so an `In` operator on `status` never matches |
| `Repo.StatusSingletonListMatchesAsWritten` | src/tests/mocks/mockRepo.ts:7-9 | as written, a one-element array naming the record's status matches it by its joined text |
| `Repo.StatusListDiffersAsWritten` | src/tests/mocks/mockRepo.ts:7-8 | as written, a plain array of two statuses on `status` is compared with `"pendente,atrasado"` and rejects a pending record; the corrected matcher accepts it |
| `Repo.RangeNeverMatchesAsWritten` | src/tests/mocks/mockRepo.ts:19-27 | as written, a bounds object never matches: failing a bound rejects, and passing all bounds reaches strict equality with an object |
| `Repo.EmptyRangeDiffersAsWritten` | src/tests/mocks/mockRepo.ts:10-27 | a bounds object with no bound: as written it reaches strict equality and matches nothing; the corrected matcher matches every record |
| `Repo.Saved` | src/tests/mocks/mockRepo.ts:35-39 | the list after `save(obj)` ends with `obj`, every earlier item is a stored item of another id, and it grows by at most one |
| `Repo.Found` | src/tests/mocks/mockRepo.ts:40-43 | the result of `find` holds only stored items, never more than the list, and with a condition only matching ones |
| `Repo.Removed` | src/tests/mocks/mockRepo.ts:44-47 | the list after `remove(items)` holds only stored items that are not in `items` |
| `Repo.MockRepo.constructor` | src/tests/mocks/mockRepo.ts:2 | the store starts empty |
| `Repo.MockRepo.FindOneBy` | src/tests/mocks/mockRepo.ts:32 | returns the first stored item in list order that the corrected matcher accepts, or nothing exactly when it accepts none |
| `Repo.MockRepo.FindOne` | src/tests/mocks/mockRepo.ts:33 | the same first-match lookup with the corrected matcher, the condition taken from the options |
| `Repo.MockRepo.Save` | src/tests/mocks/mockRepo.ts:35-39 | the new list is the old one without items of `obj`'s id, with `obj` appended; returns `obj` |
| `Repo.MockRepo.Find` | src/tests/mocks/mockRepo.ts:40-43 | without a condition returns the whole list, otherwise the items the corrected matcher accepts, in list order |
| `Repo.MockRepo.Remove` | src/tests/mocks/mockRepo.ts:44-47 | the new list keeps exactly the items not in `items`, in order; returns `items` |
| `Repo.MockRepo.Reset` | src/tests/mocks/mockRepo.ts:48 | the store is empty afterwards |
| `Repo.SavedShape` | src/tests/mocks/mockRepo.ts:35-39 | after `save(obj)` the list holds `obj` and exactly the stored items of other ids, and those keep their stored order ahead of `obj` |
| `Repo.SavedFreshAppends` | src/tests/mocks/mockRepo.ts:35-39 | saving an item with a new id appends it and leaves the rest as it was |
| `Repo.SavedKeepsIdsUnique` | src/tests/mocks/mockRepo.ts:35-39 | `save` keeps ids unique |
| `Repo.RemovedMembership` | src/tests/mocks/mockRepo.ts:44-47 | `remove(items)` keeps exactly the stored items not in `items`, in their stored order |
| `Repo.FoundMembership` | src/tests/mocks/mockRepo.ts:40-43 | `find` with a condition returns exactly the stored items that match it, in their stored order |
| `Service.HorarioWhereMatches` | src/services/agendamentoService.ts:13 | the slot query matches exactly the records at the requested instant |
| `Service.MotoristaWhereMatches` | src/services/agendamentoService.ts:17-22 | the driver query matches exactly the records of that driver that are pending or late |
| `Service.IdWhereMatches` | src/services/agendamentoService.ts:33 | the lookup query matches exactly the record with that id |
| `Service.ListarWhereMatches` | src/services/agendamentoService.ts:44-47 | the listing condition matches exactly the records that equal every filter present |
| `Service.AntigosWhereMatches` | src/services/agendamentoService.ts:53-54 | the purge query matches exactly the records created before the cutoff |
| `Service.MotoristaWhereNeverMatchesAsWritten` | src/tests/mocks/mockRepo.ts:7-18 | against the matcher as written, the driver query matches no record |
| `Service.AntigosWhereNeverMatchesAsWritten` | src/tests/mocks/mockRepo.ts:19-27 | against the matcher as written, the purge query matches no record |
| `Service.PendenteAntigoMissedAsWritten` | src/tests/mocks/mockRepo.ts:4-28 | shows a pending record created four days ago that both queries should select and the as-written matcher selects for neither |
| `Service.Criar` | src/services/agendamentoService.ts:11-29 | the creation rule: a failure leaves the records as they were, and a success appends the returned record, which is pending |
| `Service.CriarDecide` | src/services/agendamentoService.ts:12-25 | creation fails with the slot error exactly when the instant is taken. It fails with the driver error exactly when the slot is free and the driver has a pending or late record. It succeeds otherwise, and a failure changes nothing |
| `Service.CriarSucesso` | src/services/agendamentoService.ts:26-28 | a successful creation appends exactly one record: pending, with the supplied fields copied, the new id and `createdAt = now` |
| `Service.CriarPreservaHorarios` | src/services/agendamentoService.ts:13-16 | creation keeps every instant held by at most one appointment |
| `Service.CriarPreservaIds` | src/models/agendamento.ts:12-13 | creation with a freshly issued id keeps ids unique |
| `Service.CriarPreservaExclusividade` | src/services/agendamentoService.ts:17-25 | creation never gives a driver a second pending or late appointment |
| `Service.Alterar` | src/services/agendamentoService.ts:31-40 | the status-change rule: a failure leaves the records as they were, and a success returns the record with the requested id and status and leaves it last in the list |
| `Service.BuscarEncontra` | src/services/agendamentoService.ts:33-34 | the lookup by id finds nothing exactly when no record has that id; otherwise it finds a stored record with that id |
| `Service.TransicoesPermitidas` | src/services/agendamentoService.ts:35-36 | `cancelado` changes to nothing and `concluido` cannot become `cancelado`. Every other pair is allowed, including going back to `pendente` and a same-status write |
| `Service.AlterarDecide` | src/services/agendamentoService.ts:33-36 | an unknown id gives the not-found error and a forbidden transition gives its error, both with the store unchanged. A known id succeeds exactly when the transition is allowed |
| `Service.AlterarSoMudaStatus` | src/services/agendamentoService.ts:37-39 | a successful change returns the found record with only its status replaced. The store has the same size, every other record is kept, and the changed record is last |
| `Service.SavedKeepsSlotsUnique` | src/services/agendamentoService.ts:37-38 | saving a record back over itself at the same instant keeps instants unique |
| `Service.AlterarPreservaUnicidade` | src/services/agendamentoService.ts:37-38 | status change keeps ids and instants unique |
| `Service.AlterarQuebraExclusividade` | src/services/agendamentoService.ts:35-37 | status change can give a driver two pending appointments: `concluido → pendente` while another of the driver's records is pending |
| `Service.Listar` | src/services/agendamentoService.ts:42-49 | the listing rule: only stored records that pass every filter present, never more than are stored |
| `Service.ListarExato` | src/services/agendamentoService.ts:42-49 | listing returns exactly the stored records that equal every filter present, in their stored order |
| `Service.ListarAposCriar` | src/services/agendamentoService.ts:26-27 | after a successful creation, a listing is the earlier listing with the new record appended when it passes the filters |
| `Service.ListarSemFiltro` | src/services/agendamentoService.ts:44-48 | with no filter present (an empty driver id counts as absent) listing returns every record, in order |
| `Service.Antigos` | src/services/agendamentoService.ts:53-54 | the records the purge selects are stored records created before `now - 3 days` |
| `Service.Recentes` | src/services/agendamentoService.ts:55 | the records the purge keeps are stored records created at or after `now - 3 days` |
| `Service.ExcluirExato` | src/services/agendamentoService.ts:51-56 | the purge deletes exactly the records with `createdAt < now - 3 days` and keeps every other one in stored order; the two counts add up to the store size |
| `Service.ExcluirIdempotente` | src/services/agendamentoService.ts:53-55 | a second purge with the same `now` keeps everything and deletes nothing |
| `Service.ExcluirPreservaUnicidade` | src/services/agendamentoService.ts:54-55 | the purge keeps ids and instants unique |
| `Service.AgendamentoService.constructor` | src/services/agendamentoService.ts:7-9 | the engine starts over an empty store with its invariant established and its id counter at zero |
| `Service.AgendamentoService.CriarAgendamento` | src/services/agendamentoService.ts:11-29 | the slot query, the driver query and the single `save` give exactly the result and store of the rule `Criar`; the id counter advances by one exactly on success, so no id is issued twice; the invariant is kept |
| `Service.AgendamentoService.AlterarStatus` | src/services/agendamentoService.ts:31-40 | the lookup, the two transition checks and the `save` give exactly the result and store of the rule `Alterar`; the invariant is kept |
| `Service.AgendamentoService.ListarAgendamentos` | src/services/agendamentoService.ts:42-49 | the `find` with the built condition returns exactly `Listar` of the store |
| `Service.AgendamentoService.ExcluirAntigos` | src/services/agendamentoService.ts:51-57 | the store afterwards holds exactly the recent records, the result is the number of stale ones, and the invariant is kept |

## Left out

- The HTTP layer is not part of this model: controllers and their status codes, routes,
  and server startup. Neither are database configuration and API documentation.
- Promises and concurrency are left out, so each call is atomic. The read-then-write race
  in `criarAgendamento` is therefore not modelled.
- Instants are integers in milliseconds. The `date-fns` day arithmetic and its local-time
  and daylight-saving behaviour are replaced by the fixed constant of three days.
- Conversion of the listing `data` string to a timestamp is not modelled. The filter
  takes the instant directly.
- Ids are naturals from a counter in the service, standing in for the generated UUID key.
- The mock's `create` is the identity and has no member. The service gives the record its
  id and `createdAt` itself.
- JavaScript identity is replaced by value equality in two places:
  - the mock compares `Date` values with `===`, which tests identity;
  - `remove` uses `includes`, which also tests identity.

  The model compares instants and records by value. Records with distinct ids are
  distinct values.
- In `alterarStatus`, assigning `agendamento.status` in place changes the object held in
  the mock's list. The model builds a new record value instead. `save` then replaces the
  stored record with that value, so the resulting list is the same.
- `alterarStatus` accepts any status text from a request. The model types it as the
  enumeration.
- Service.Criar: `criarAgendamento` spreads the caller's object into the new record
  (`{ ...dados, status }`). The `Omit` in its type does not remove an `id` or `createdAt`
  at run time, so a caller that passes them keeps them. If that id is already stored,
  `save` replaces the stored record instead of appending one. The model takes only the
  five data fields, so it does not capture this overwrite. `Service.CriarSucesso`'s
  "one more record" holds where a database generates each new id.
- Service.Criar: against the mock, whose `create` returns its argument unchanged, a
  caller that passes no id stores a record whose id is `undefined`. The next such `save`
  removes every stored record without an id, so the store does not grow: all id-less
  records collapse into one. The model's id counter gives every record its own id and
  does not capture this collapse.
- Repo.MockRepo.FindOneBy, Repo.MockRepo.FindOne, Repo.MockRepo.Find: the store matches
  with the corrected matcher, not the one as written. Besides the two Findings, this
  also changes two cases the source handles differently. A plain array of two or more
  statuses on `status` is compared as written with its comma-joined text and rejects
  every record (`Repo.StatusListDiffersAsWritten`). An empty bounds object `{}` as
  written reaches strict equality and rejects every record
  (`Repo.EmptyRangeDiffersAsWritten`). The corrected store accepts the matching records
  in both cases. The engine builds neither condition.
- In the mock, `findOne` called with no argument throws. Called with an options object
  that has no `where`, it returns `undefined` on an empty list and throws on a non-empty
  one, where the matcher reads the keys of `undefined`. None of this is modelled: every
  call of `FindOne` passes a condition.
- `Between` and the `$lt`-style bounds, applied to a string field, are not modelled as
  JavaScript does them (string-to-date and string-to-number conversion). The model treats
  a string as never within numeric bounds.
- Number text is modelled as the decimal numeral. A `Date` object's text is not modelled.
- The `jest.fn` wrappers are not modelled.

## Findings

| source | as written | input that shows it | evidently intended | confidence | as-written member | corrected member |
|---|---|---|---|---|---|---|
| src/tests/mocks/mockRepo.ts:7-18 | The `status` key is compared by text before the operator branches. An `In` operator's text is `[object Object]`, so the driver-busy query of creation matches nothing. | A stored pending appointment of driver `12345678900`, checked against the driver query for `12345678900` (`Service.PendenteAntigoMissedAsWritten`). | An `In` operator on `status` matches when the record's status is one of the listed values, so a busy driver is refused. | medium, not executed | `Service.MotoristaWhereNeverMatchesAsWritten` | `Service.MotoristaWhereMatches` |
| src/tests/mocks/mockRepo.ts:19-27 | A record that passes every `$lt`/`$lte`/`$gt`/`$gte` bound falls through to strict equality with the bounds object, which is always false. The purge query matches nothing. | An appointment created four days before `now`, checked against the purge query with cutoff `now - 3 days` (`Service.PendenteAntigoMissedAsWritten`). | A record within every bound matches, so stale records are purged. | high, not executed | `Service.AntigosWhereNeverMatchesAsWritten` | `Service.AntigosWhereMatches` |
