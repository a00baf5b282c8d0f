/** The scheduling engine `AgendamentoService` of `src/services/agendamentoService.ts`.

    Each operation is given twice: a pure function over the list of records
    (`Criar`, `Alterar`, `Listar`, `Recentes`/`Antigos`) that states the rule, and a
    method of the class `AgendamentoService` that runs the rule against the
    in-memory store the way the source does (queries built as conditions, then
    `save` or `remove`) and is proved to agree with the function. The properties
    the source promises are lemmas about the functions. */
module Service {
  import opened Wrappers
  import opened Seqs
  import opened Model
  import opened Repo

  /** The failures of the engine, one per error it throws. */
  datatype Erro =
    | HorarioOcupado       // an appointment already holds the requested instant
    | MotoristaOcupado     // the driver already has a pending or late appointment
    | NaoEncontrado        // no appointment has the given id
    | CanceladoImutavel    // a cancelled appointment cannot change status
    | ConcluidoNaoCancela  // a completed appointment cannot be cancelled

  /** The outcome of an operation: its result and the list of records after it. */
  datatype Passo = Passo(result: Result<Agendamento, Erro>, store: seq<Agendamento>)

  /** The listing filters; an absent or empty driver id does not filter. */
  datatype Filtros = Filtros(data: Option<int>, status: Option<StatusAgendamento>, motoristaCpf: Option<string>)

  /** The retention period of the purge, in milliseconds. */
  const TresDias: int := 3 * 24 * 60 * 60 * 1000

  // ----- the conditions the engine passes to the store -----

  function HorarioWhere(t: int): Where {
    map[DataHora := Eq(Num(t))]
  }

  function MotoristaWhere(cpf: string): Where {
    map[MotoristaCpf := Eq(Str(cpf)),
        Status := InOp([Str(StatusValue(Pendente)), Str(StatusValue(Atrasado))])]
  }

  function IdWhere(id: nat): Where {
    map[Id := Eq(Num(id))]
  }

  /** The listing condition, one key per filter that is present (a status value is
      never empty, so a present status always filters). */
  function ListarWhere(f: Filtros): Where {
    var w0: Where := map[];
    var w1 := if f.data.Some? then w0[DataHora := Eq(Num(f.data.value))] else w0;
    var w2 := if f.status.Some? then w1[Status := Eq(Str(StatusValue(f.status.value)))] else w1;
    if f.motoristaCpf.Some? && f.motoristaCpf.value != "" then w2[MotoristaCpf := Eq(Str(f.motoristaCpf.value))] else w2
  }

  function AntigosWhere(limite: int): Where {
    map[CreatedAt := Range(Some(limite), None, None, None)]
  }

  // ----- the rules, over the list of records -----

  predicate HorarioTomado(s: seq<Agendamento>, t: int) {
    exists i :: 0 <= i < |s| && s[i].dataHora == t
  }

  predicate MotoristaComAtivo(s: seq<Agendamento>, cpf: string) {
    exists i :: 0 <= i < |s| && s[i].motoristaCpf == cpf && Ativo(s[i].status)
  }

  /** Creation with id `id` at time `now`: the slot check first, then the driver
      check; on success the new record, pending, is appended. */
  function Criar(s: seq<Agendamento>, d: DadosAgendamento, id: nat, now: int): (r: Passo)
    ensures r.result.Err? ==> r.store == s
    ensures r.result.Ok? ==> r.store == s + [r.result.value] && r.result.value.status == Pendente
  {
    if HorarioTomado(s, d.dataHora) then Passo(Err(HorarioOcupado), s)
    else if MotoristaComAtivo(s, d.motoristaCpf) then Passo(Err(MotoristaOcupado), s)
    else
      var a := Novo(d, Pendente, id, now);
      Passo(Ok(a), s + [a])
  }

  function TemId(id: nat): Agendamento -> bool {
    (a: Agendamento) => a.id == id
  }

  /** The record with the given id. */
  function Buscar(s: seq<Agendamento>, id: nat): Option<Agendamento> {
    First(s, TemId(id))
  }

  /** The status transitions the engine accepts. */
  predicate Permitido(de: StatusAgendamento, para: StatusAgendamento) {
    de != Cancelado && !(de == Concluido && para == Cancelado)
  }

  /** Status change: the record, with its new status, is saved back over itself. */
  function Alterar(s: seq<Agendamento>, id: nat, st: StatusAgendamento): (r: Passo)
    ensures r.result.Err? ==> r.store == s
    ensures r.result.Ok? ==> r.result.value.id == id && r.result.value.status == st
    ensures r.result.Ok? ==> |r.store| > 0 && r.store[|r.store| - 1] == r.result.value
  {
    match Buscar(s, id)
    case None => Passo(Err(NaoEncontrado), s)
    case Some(a) =>
      if a.status == Cancelado then Passo(Err(CanceladoImutavel), s)
      else if a.status == Concluido && st == Cancelado then Passo(Err(ConcluidoNaoCancela), s)
      else
        var b := a.(status := st);
        Passo(Ok(b), Saved(s, b))
  }

  /** A record passes every filter that is present. */
  predicate Selecionado(a: Agendamento, f: Filtros) {
    && (f.data.Some? ==> a.dataHora == f.data.value)
    && (f.status.Some? ==> a.status == f.status.value)
    && (f.motoristaCpf.Some? && f.motoristaCpf.value != "" ==> a.motoristaCpf == f.motoristaCpf.value)
  }

  function Selecao(f: Filtros): Agendamento -> bool {
    (a: Agendamento) => Selecionado(a, f)
  }

  function Listar(s: seq<Agendamento>, f: Filtros): (r: seq<Agendamento>)
    ensures |r| <= |s|
    ensures forall i :: 0 <= i < |r| ==> r[i] in s && Selecionado(r[i], f)
  {
    Filter(s, Selecao(f))
  }

  /** A record is stale when it was created before `now` minus three days. */
  predicate Antigo(a: Agendamento, now: int) {
    a.createdAt < now - TresDias
  }

  function AntigoEm(now: int): Agendamento -> bool {
    (a: Agendamento) => Antigo(a, now)
  }

  function RecenteEm(now: int): Agendamento -> bool {
    (a: Agendamento) => !Antigo(a, now)
  }

  /** The records the purge deletes. */
  function Antigos(s: seq<Agendamento>, now: int): (r: seq<Agendamento>)
    ensures forall i :: 0 <= i < |r| ==> r[i] in s && r[i].createdAt < now - TresDias
  {
    Filter(s, AntigoEm(now))
  }

  /** The records the purge keeps. */
  function Recentes(s: seq<Agendamento>, now: int): (r: seq<Agendamento>)
    ensures forall i :: 0 <= i < |r| ==> r[i] in s && r[i].createdAt >= now - TresDias
  {
    Filter(s, RecenteEm(now))
  }

  // ----- what each condition selects -----

  lemma HorarioWhereMatches(a: Agendamento, t: int)
    ensures Matches(a, HorarioWhere(t)) <==> a.dataHora == t
  {
    assert DataHora in HorarioWhere(t);
  }

  lemma MotoristaWhereMatches(a: Agendamento, cpf: string)
    ensures Matches(a, MotoristaWhere(cpf)) <==> a.motoristaCpf == cpf && Ativo(a.status)
  {
    var w := MotoristaWhere(cpf);
    assert MotoristaCpf in w && Status in w;
    StatusValuesDistinct(a.status, Pendente);
    StatusValuesDistinct(a.status, Atrasado);
  }

  lemma IdWhereMatches(a: Agendamento, id: nat)
    ensures Matches(a, IdWhere(id)) <==> a.id == id
  {
    assert Id in IdWhere(id);
  }

  lemma ListarWhereMatches(a: Agendamento, f: Filtros)
    ensures Matches(a, ListarWhere(f)) <==> Selecionado(a, f)
  {
    var w := ListarWhere(f);
    if f.data.Some? {
      assert DataHora in w;
    }
    if f.status.Some? {
      assert Status in w;
      StatusValuesDistinct(a.status, f.status.value);
    }
    if f.motoristaCpf.Some? && f.motoristaCpf.value != "" {
      assert MotoristaCpf in w;
    }
  }

  lemma AntigosWhereMatches(a: Agendamento, limite: int)
    ensures Matches(a, AntigosWhere(limite)) <==> a.createdAt < limite
  {
    assert CreatedAt in AntigosWhere(limite);
  }

  /** Against the matcher as written, the driver query matches no record at all. */
  lemma MotoristaWhereNeverMatchesAsWritten(a: Agendamento, cpf: string)
    ensures !MatchesAsWritten(a, MotoristaWhere(cpf))
  {
    var w := MotoristaWhere(cpf);
    assert Status in w;
    StatusInNeverMatchesAsWritten(a, w[Status].vs);
  }

  /** Against the matcher as written, the purge query matches no record at all. */
  lemma AntigosWhereNeverMatchesAsWritten(a: Agendamento, limite: int)
    ensures !MatchesAsWritten(a, AntigosWhere(limite))
  {
    var w := AntigosWhere(limite);
    assert CreatedAt in w;
    RangeNeverMatchesAsWritten(a, CreatedAt, Some(limite), None, None, None);
  }

  /** The input that shows both discrepancies: a pending appointment created four
      days before `now`. The driver query and the purge query should select it, and
      the matcher as written selects it for neither. */
  lemma PendenteAntigoMissedAsWritten(now: int)
    ensures var a := Agendamento(1, 0, "CT123", "Joao", "12345678900", "ABC-1234", Pendente, now - 4 * 24 * 60 * 60 * 1000);
      && Matches(a, MotoristaWhere("12345678900")) && !MatchesAsWritten(a, MotoristaWhere("12345678900"))
      && Matches(a, AntigosWhere(now - TresDias)) && !MatchesAsWritten(a, AntigosWhere(now - TresDias))
  {
    var a := Agendamento(1, 0, "CT123", "Joao", "12345678900", "ABC-1234", Pendente, now - 4 * 24 * 60 * 60 * 1000);
    MotoristaWhereMatches(a, "12345678900");
    MotoristaWhereNeverMatchesAsWritten(a, "12345678900");
    AntigosWhereMatches(a, now - TresDias);
    AntigosWhereNeverMatchesAsWritten(a, now - TresDias);
  }

  // ----- properties of creation -----

  /** The checks run in a fixed order, the first failure wins, and a failure leaves
      the records as they were. */
  lemma CriarDecide(s: seq<Agendamento>, d: DadosAgendamento, id: nat, now: int)
    ensures var r := Criar(s, d, id, now);
      && (r.result == Err(HorarioOcupado) <==> HorarioTomado(s, d.dataHora))
      && (r.result == Err(MotoristaOcupado) <==> !HorarioTomado(s, d.dataHora) && MotoristaComAtivo(s, d.motoristaCpf))
      && (r.result.Ok? <==> !HorarioTomado(s, d.dataHora) && !MotoristaComAtivo(s, d.motoristaCpf))
      && (r.result.Err? ==> r.store == s)
  {
  }

  /** A successful creation adds exactly one record: pending whatever the input,
      with the supplied fields copied, the generated id and the creation time. */
  lemma CriarSucesso(s: seq<Agendamento>, d: DadosAgendamento, id: nat, now: int)
    requires Criar(s, d, id, now).result.Ok?
    ensures var r := Criar(s, d, id, now); var a := r.result.value;
      && a.status == StatusPadrao && Dados(a) == d && a.id == id && a.createdAt == now
      && r.store == s + [a] && |r.store| == |s| + 1
  {
  }

  /** Creation keeps every instant held by at most one appointment. */
  lemma CriarPreservaHorarios(s: seq<Agendamento>, d: DadosAgendamento, id: nat, now: int)
    requires SlotsUnique(s)
    ensures SlotsUnique(Criar(s, d, id, now).store)
  {
  }

  /** Creation with an id above every stored id keeps ids unique. */
  lemma CriarPreservaIds(s: seq<Agendamento>, d: DadosAgendamento, id: nat, now: int)
    requires IdsUnique(s)
    requires forall i :: 0 <= i < |s| ==> s[i].id < id
    ensures var r := Criar(s, d, id, now);
      IdsUnique(r.store) && forall i :: 0 <= i < |r.store| ==> r.store[i].id <= id
  {
  }

  /** Creation never gives a driver a second active appointment. */
  lemma CriarPreservaExclusividade(s: seq<Agendamento>, d: DadosAgendamento, id: nat, now: int)
    requires MotoristasExclusivos(s)
    ensures MotoristasExclusivos(Criar(s, d, id, now).store)
  {
  }

  // ----- properties of the status change -----

  /** The lookup finds a record with the id exactly when one is stored. */
  lemma BuscarEncontra(s: seq<Agendamento>, id: nat)
    ensures Buscar(s, id).None? <==> forall i :: 0 <= i < |s| ==> s[i].id != id
    ensures Buscar(s, id).Some? ==> Buscar(s, id).value in s && Buscar(s, id).value.id == id
  {
  }

  /** The transition table: a cancelled appointment is final, a completed one cannot
      be cancelled, and every other pair is accepted, the same status included. */
  lemma TransicoesPermitidas()
    ensures forall para :: !Permitido(Cancelado, para)
    ensures !Permitido(Concluido, Cancelado)
    ensures forall de, para :: de != Cancelado && !(de == Concluido && para == Cancelado) ==> Permitido(de, para)
    ensures Permitido(Atrasado, Pendente) && Permitido(Concluido, Pendente) && Permitido(Concluido, Atrasado)
    ensures forall st :: st != Cancelado ==> Permitido(st, st)
  {
  }

  /** Status change fails on an unknown id and on a forbidden transition, leaving
      the records as they were, and succeeds on every other request. */
  lemma AlterarDecide(s: seq<Agendamento>, id: nat, st: StatusAgendamento)
    ensures var r := Alterar(s, id, st);
      && ((forall i :: 0 <= i < |s| ==> s[i].id != id) ==> r == Passo(Err(NaoEncontrado), s))
      && (r.result.Err? ==> r.store == s)
      && (Buscar(s, id).Some? ==> (r.result.Ok? <==> Permitido(Buscar(s, id).value.status, st)))
      && (Buscar(s, id).Some? && Buscar(s, id).value.status == Cancelado ==> r.result == Err(CanceladoImutavel))
      && (Buscar(s, id).Some? && Buscar(s, id).value.status == Concluido && st == Cancelado ==>
            r.result == Err(ConcluidoNaoCancela))
  {
  }

  /** A successful status change changes only the status of the one record with
      the id: that record, with its new status, ends up last, every other record
      stays, and the number of records is unchanged. */
  lemma {:induction false} AlterarSoMudaStatus(s: seq<Agendamento>, id: nat, st: StatusAgendamento)
    requires IdsUnique(s)
    requires Alterar(s, id, st).result.Ok?
    ensures var r := Alterar(s, id, st); var b := r.result.value;
      && (exists i :: 0 <= i < |s| && s[i].id == id && b == s[i].(status := st))
      && |r.store| == |s| && r.store[|s| - 1] == b
      && (forall x :: x in s && x.id != id ==> x in r.store)
      && (forall x :: x in r.store ==> x == b || (x in s && x.id != id))
  {
    var r := Alterar(s, id, st);
    var b := r.result.value;
    BuscarEncontra(s, id);
    var a := Buscar(s, id).value;
    var i :| 0 <= i < |s| && s[i] == a;
    assert b == s[i].(status := st);
    FilterDropsOne(s, IdOf, id, i);
    FilterCongruent(s, OtherId(id), KeyIsNot(IdOf, id));
    SavedShape(s, b);
  }

  /** Saving a record back over the one with its id, at the same instant, keeps
      every instant held at most once. */
  lemma {:induction false} SavedKeepsSlotsUnique(s: seq<Agendamento>, b: Agendamento, i: nat)
    requires SlotsUnique(s)
    requires i < |s| && s[i].id == b.id && s[i].dataHora == b.dataHora
    ensures SlotsUnique(Saved(s, b))
  {
    var f := Filter(s, OtherId(b.id));
    FilterInjective(s, OtherId(b.id), DataHoraOf);
    forall k | 0 <= k < |f| ensures DataHoraOf(f[k]) != DataHoraOf(b) {
      assert OtherId(b.id)(f[k]);
      FilterMembership(s, OtherId(b.id), f[k]);
      var j :| 0 <= j < |s| && s[j] == f[k];
      assert j != i;
    }
  }

  /** Status change keeps ids and instants unique. */
  lemma AlterarPreservaUnicidade(s: seq<Agendamento>, id: nat, st: StatusAgendamento)
    requires IdsUnique(s) && SlotsUnique(s)
    ensures IdsUnique(Alterar(s, id, st).store) && SlotsUnique(Alterar(s, id, st).store)
  {
    var r := Alterar(s, id, st);
    if r.result.Ok? {
      BuscarEncontra(s, id);
      var a := Buscar(s, id).value;
      var i :| 0 <= i < |s| && s[i] == a;
      SavedKeepsIdsUnique(s, r.result.value);
      SavedKeepsSlotsUnique(s, r.result.value, i);
    }
  }

  /** Status change does not keep drivers exclusive: a completed appointment may be
      set back to pending while its driver holds another pending appointment. */
  lemma AlterarQuebraExclusividade()
    ensures exists s, id, st ::
      && MotoristasExclusivos(s) && IdsUnique(s) && SlotsUnique(s)
      && Alterar(s, id, st).result.Ok? && !MotoristasExclusivos(Alterar(s, id, st).store)
  {
    var a := Agendamento(1, 10, "CT123", "Joao", "12345678900", "ABC-1234", Concluido, 0);
    var b := Agendamento(2, 20, "CT456", "Joao", "12345678900", "ABC-1234", Pendente, 0);
    var s := [a, b];
    assert Buscar(s, 1) == Some(a);
    var r := Alterar(s, 1, Pendente);
    assert Filter(s, OtherId(1)) == [b];
    assert r.store == [b, a.(status := Pendente)];
    assert !MotoristasExclusivos(r.store) by {
      assert Ativo(r.store[0].status) && Ativo(r.store[1].status);
    }
  }

  // ----- properties of listing -----

  /** Listing returns exactly the records that pass every filter present, in
      store order. */
  lemma {:induction false} ListarExato(s: seq<Agendamento>, f: Filtros)
    ensures var r := Listar(s, f);
      && (forall x :: x in r <==> x in s && Selecionado(x, f))
      && exists pos :: Picks(s, pos, r) && forall j :: 0 <= j < |s| ==> (j in pos <==> Selecionado(s[j], f))
  {
    forall x ensures x in Listar(s, f) <==> x in s && Selecionado(x, f) {
      FilterMembership(s, Selecao(f), x);
    }
    var pos := Positions(s, Selecao(f));
    assert forall j :: 0 <= j < |s| ==> (j in pos <==> Selecionado(s[j], f));
  }

  /** A record created after a listing shows up last in the same listing taken
      afterwards, when it passes the filters; every earlier result stays in place. */
  lemma {:induction false} ListarAposCriar(s: seq<Agendamento>, d: DadosAgendamento, id: nat, now: int, f: Filtros)
    requires Criar(s, d, id, now).result.Ok?
    ensures var a := Criar(s, d, id, now).result.value;
      Listar(Criar(s, d, id, now).store, f) == Listar(s, f) + (if Selecionado(a, f) then [a] else [])
  {
    var a := Criar(s, d, id, now).result.value;
    FilterConcat(s, [a], Selecao(f));
  }

  /** With no filter present, listing returns every record. */
  lemma {:induction false} ListarSemFiltro(s: seq<Agendamento>, cpf: Option<string>)
    requires cpf.Some? ==> cpf.value == ""
    ensures Listar(s, Filtros(None, None, cpf)) == s
  {
    FilterKeepsAll(s, Selecao(Filtros(None, None, cpf)));
  }

  // ----- properties of the purge -----

  /** The purge deletes exactly the stale records, keeps all others, and the two
      parts account for every record. */
  lemma {:induction false} ExcluirExato(s: seq<Agendamento>, now: int, x: Agendamento)
    ensures x in Antigos(s, now) <==> x in s && x.createdAt < now - TresDias
    ensures x in Recentes(s, now) <==> x in s && x.createdAt >= now - TresDias
    ensures |Antigos(s, now)| + |Recentes(s, now)| == |s|
    ensures exists pos :: Picks(s, pos, Recentes(s, now)) &&
                          forall j :: 0 <= j < |s| ==> (j in pos <==> s[j].createdAt >= now - TresDias)
  {
    FilterMembership(s, AntigoEm(now), x);
    FilterMembership(s, RecenteEm(now), x);
    var pos := Positions(s, RecenteEm(now));
    assert forall j :: 0 <= j < |s| ==> (j in pos <==> s[j].createdAt >= now - TresDias);
    FilterPartitionLength(s, AntigoEm(now));
    FilterCongruent(s, RecenteEm(now), Not(AntigoEm(now)));
  }

  /** The purge is idempotent for a fixed `now`: a second run keeps everything and
      deletes nothing. */
  lemma {:induction false} ExcluirIdempotente(s: seq<Agendamento>, now: int)
    ensures Recentes(Recentes(s, now), now) == Recentes(s, now)
    ensures Antigos(Recentes(s, now), now) == []
  {
    FilterIdempotent(s, RecenteEm(now));
    var t := Recentes(s, now);
    assert forall i :: 0 <= i < |t| ==> RecenteEm(now)(t[i]);
    FilterKeepsNone(t, AntigoEm(now));
  }

  /** Both purging and status changes leave every remaining record's id and instant
      as they were, so uniqueness survives the purge too. */
  lemma {:induction false} ExcluirPreservaUnicidade(s: seq<Agendamento>, now: int)
    requires IdsUnique(s) && SlotsUnique(s)
    ensures IdsUnique(Recentes(s, now)) && SlotsUnique(Recentes(s, now))
  {
    FilterInjective(s, RecenteEm(now), IdOf);
    FilterInjective(s, RecenteEm(now), DataHoraOf);
  }

  /** The engine over its store. Ids are generated by a counter: the stand-in for
      the database's generated primary key. */
  class AgendamentoService {
    const repo: MockRepo
    var nextId: nat

    /** Ids and instants are unique and every id was issued by the counter. */
    ghost predicate Valid()
      reads this, repo
    {
      && IdsUnique(repo.data)
      && SlotsUnique(repo.data)
      && (forall i :: 0 <= i < |repo.data| ==> repo.data[i].id < nextId)
    }

    constructor ()
      ensures Valid() && fresh(repo) && repo.data == [] && nextId == 0
    {
      repo := new MockRepo();
      nextId := 0;
    }

    /** `criarAgendamento`: the two checks, then a single `save`. */
    method CriarAgendamento(dados: DadosAgendamento, now: int) returns (r: Result<Agendamento, Erro>)
      requires Valid()
      modifies this, repo
      ensures Valid()
      ensures Passo(r, repo.data) == Criar(old(repo.data), dados, old(nextId), now)
      ensures nextId == old(nextId) + (if r.Ok? then 1 else 0)
    {
      forall a: Agendamento ensures Matches(a, HorarioWhere(dados.dataHora)) <==> a.dataHora == dados.dataHora {
        HorarioWhereMatches(a, dados.dataHora);
      }
      forall a: Agendamento
        ensures Matches(a, MotoristaWhere(dados.motoristaCpf)) <==> a.motoristaCpf == dados.motoristaCpf && Ativo(a.status)
      {
        MotoristaWhereMatches(a, dados.motoristaCpf);
      }
      ghost var s := repo.data;
      var conflitoHorario := repo.FindOneBy(HorarioWhere(dados.dataHora));
      if conflitoHorario.Some? {
        assert HorarioTomado(s, dados.dataHora);
        return Err(HorarioOcupado);
      }
      assert !HorarioTomado(s, dados.dataHora);
      var motoristaOcupado := repo.FindOne(MotoristaWhere(dados.motoristaCpf));
      if motoristaOcupado.Some? {
        assert MotoristaComAtivo(s, dados.motoristaCpf);
        return Err(MotoristaOcupado);
      }
      assert !MotoristaComAtivo(s, dados.motoristaCpf);
      var novo := Novo(dados, Pendente, nextId, now);
      SavedFreshAppends(s, novo);
      CriarPreservaHorarios(s, dados, nextId, now);
      CriarPreservaIds(s, dados, nextId, now);
      nextId := nextId + 1;
      var _ := repo.Save(novo);
      r := Ok(novo);
    }

    /** `alterarStatus`: look the record up by id, check the transition, save it back. */
    method AlterarStatus(id: nat, status: StatusAgendamento) returns (r: Result<Agendamento, Erro>)
      requires Valid()
      modifies repo
      ensures Valid()
      ensures Passo(r, repo.data) == Alterar(old(repo.data), id, status)
    {
      ghost var s := repo.data;
      forall i | 0 <= i < |s| ensures Matching(IdWhere(id))(s[i]) == TemId(id)(s[i]) {
        IdWhereMatches(s[i], id);
      }
      FirstCongruent(s, Matching(IdWhere(id)), TemId(id));
      var agendamento := repo.FindOneBy(IdWhere(id));
      if agendamento.None? {
        return Err(NaoEncontrado);
      }
      var a := agendamento.value;
      if a.status == Cancelado {
        return Err(CanceladoImutavel);
      }
      if a.status == Concluido && status == Cancelado {
        return Err(ConcluidoNaoCancela);
      }
      a := a.(status := status);
      AlterarPreservaUnicidade(s, id, status);
      SavedShape(s, a);
      var _ := repo.Save(a);
      r := Ok(a);
    }

    /** `listarAgendamentos`: one `find` with the condition built from the filters. */
    method ListarAgendamentos(filtros: Filtros) returns (r: seq<Agendamento>)
      ensures r == Listar(repo.data, filtros)
    {
      var where := ListarWhere(filtros);
      r := repo.Find(Some(where));
      forall i | 0 <= i < |repo.data| ensures Matching(where)(repo.data[i]) == Selecao(filtros)(repo.data[i]) {
        ListarWhereMatches(repo.data[i], filtros);
      }
      FilterCongruent(repo.data, Matching(where), Selecao(filtros));
    }

    /** `excluirAntigos`: find the stale records, remove them, return how many. */
    method ExcluirAntigos(now: int) returns (n: nat)
      requires Valid()
      modifies repo
      ensures Valid()
      ensures repo.data == Recentes(old(repo.data), now)
      ensures n == |Antigos(old(repo.data), now)|
    {
      ghost var s := repo.data;
      var limite := now - TresDias;
      var antigos := repo.Find(Some(AntigosWhere(limite)));
      forall i | 0 <= i < |s| ensures Matching(AntigosWhere(limite))(s[i]) == AntigoEm(now)(s[i]) {
        AntigosWhereMatches(s[i], limite);
      }
      FilterCongruent(s, Matching(AntigosWhere(limite)), AntigoEm(now));
      assert antigos == Antigos(s, now);
      var _ := repo.Remove(antigos);
      forall i | 0 <= i < |s| ensures NotIn(antigos)(s[i]) == RecenteEm(now)(s[i]) {
        ExcluirExato(s, now, s[i]);
      }
      FilterCongruent(s, NotIn(antigos), RecenteEm(now));
      n := |antigos|;
      ExcluirPreservaUnicidade(s, now);
      forall i | 0 <= i < |repo.data| ensures repo.data[i].id < nextId {
        ExcluirExato(s, now, repo.data[i]);
      }
    }
  }

  /** A run of creation: a second appointment at the same instant is
      refused for the slot, and one for the same driver at another instant is
      refused for the driver. */
  method CenarioConflitos(now: int)
  {
    var svc := new AgendamentoService();
    var joao := DadosAgendamento(now, "CT123", "Joao", "12345678900", "ABC-1234");
    var r1 := svc.CriarAgendamento(joao, now);
    assert r1.Ok? && r1.value.status == Pendente;
    assert svc.repo.data == [r1.value] && svc.repo.data[0].dataHora == now;
    var r2 := svc.CriarAgendamento(joao.(motoristaCpf := "98765432100"), now);
    assert r2 == Err(HorarioOcupado);
    assert svc.repo.data == [r1.value] && Ativo(svc.repo.data[0].status);
    var r3 := svc.CriarAgendamento(joao.(dataHora := now + 1), now);
    assert r3 == Err(MotoristaOcupado);
  }

  /** A run of status change: a pending appointment is completed, and
      the completed appointment cannot then be cancelled. */
  method CenarioTransicoes(now: int)
  {
    var svc := new AgendamentoService();
    var r1 := svc.CriarAgendamento(DadosAgendamento(now, "CT123", "Joao", "12345678900", "ABC-1234"), now);
    assert svc.repo.data == [r1.value] && Buscar(svc.repo.data, r1.value.id) == Some(r1.value);
    var r2 := svc.AlterarStatus(r1.value.id, Concluido);
    assert r2.Ok? && r2.value.status == Concluido;
    assert Filter([r1.value], OtherId(r1.value.id)) == [];
    assert svc.repo.data == [r2.value] && Buscar(svc.repo.data, r1.value.id) == Some(r2.value);
    var r3 := svc.AlterarStatus(r1.value.id, Cancelado);
    assert r3 == Err(ConcluidoNaoCancela);
  }

  /** A run of the purge: of three appointments created four days, two
      days and zero days before `now`, only the first is removed. */
  method CenarioExclusao(now: int)
  {
    var dia := 24 * 60 * 60 * 1000;
    var svc := new AgendamentoService();
    var r1 := svc.CriarAgendamento(DadosAgendamento(now + dia, "CT123", "Joao", "12345678900", "ABC-1234"), now - 4 * dia);
    var r2 := svc.CriarAgendamento(DadosAgendamento(now + 2 * dia, "CT456", "Pedro", "98765432100", "XYZ-5678"), now - 2 * dia);
    assert svc.repo.data == [r1.value] + [r2.value];
    var r3 := svc.CriarAgendamento(DadosAgendamento(now + 3 * dia, "CT789", "Maria", "11122233344", "JKL-9101"), now);
    var s := svc.repo.data;
    assert s == [r1.value, r2.value, r3.value];
    assert Antigos(s, now) == [r1.value] by {
      assert Antigo(s[0], now) && !Antigo(s[1], now) && !Antigo(s[2], now);
      assert Filter(s[2..], AntigoEm(now)) == [];
      assert Filter(s[1..], AntigoEm(now)) == [];
    }
    var n := svc.ExcluirAntigos(now);
    assert Recentes(s, now) == [r2.value, r3.value] by {
      assert Filter(s[2..], RecenteEm(now)) == [r3.value];
      assert Filter(s[1..], RecenteEm(now)) == [r2.value, r3.value];
    }
    assert n == 1 && svc.repo.data == [r2.value, r3.value];
  }
}
