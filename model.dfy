/** The appointment entity of `src/models/agendamento.ts`: the four-valued status
    enumeration, the stored record and the data a caller supplies to create one. */
module Model {
  import Seqs

  datatype StatusAgendamento = Pendente | Concluido | Atrasado | Cancelado

  /** The string value of each enumeration member, as stored and as compared by
      the in-memory store. */
  function StatusValue(st: StatusAgendamento): string {
    match st
    case Pendente => "pendente"
    case Concluido => "concluido"
    case Atrasado => "atrasado"
    case Cancelado => "cancelado"
  }

  /** The column default of `status`. */
  const StatusPadrao: StatusAgendamento := Pendente

  /** A stored appointment. `id` stands for the generated primary key and times
      (`dataHora`, `createdAt`) are instants in milliseconds. */
  datatype Agendamento = Agendamento(
    id: nat,
    dataHora: int,
    numeroContrato: string,
    motoristaNome: string,
    motoristaCpf: string,
    placaCaminhao: string,
    status: StatusAgendamento,
    createdAt: int)

  /** What a caller supplies: every field except `id`, `status` and `createdAt`. */
  datatype DadosAgendamento = DadosAgendamento(
    dataHora: int,
    numeroContrato: string,
    motoristaNome: string,
    motoristaCpf: string,
    placaCaminhao: string)

  /** The caller-supplied part of a stored record. */
  function Dados(a: Agendamento): DadosAgendamento {
    DadosAgendamento(a.dataHora, a.numeroContrato, a.motoristaNome, a.motoristaCpf, a.placaCaminhao)
  }

  /** The record the store holds for `d` once it has given it an id and a
      creation time. */
  function Novo(d: DadosAgendamento, status: StatusAgendamento, id: nat, createdAt: int): Agendamento {
    Agendamento(id, d.dataHora, d.numeroContrato, d.motoristaNome, d.motoristaCpf,
                d.placaCaminhao, status, createdAt)
  }

  function IdOf(a: Agendamento): nat { a.id }

  function DataHoraOf(a: Agendamento): int { a.dataHora }

  /** Primary-key uniqueness. */
  ghost predicate IdsUnique(s: seq<Agendamento>) {
    Seqs.Injective(s, IdOf)
  }

  /** The slot rule: no two appointments share the exact same instant. */
  ghost predicate SlotsUnique(s: seq<Agendamento>) {
    Seqs.Injective(s, DataHoraOf)
  }

  /** The statuses in which an appointment keeps its driver busy. */
  predicate Ativo(st: StatusAgendamento) {
    st == Pendente || st == Atrasado
  }

  /** The availability rule: no driver holds two active appointments. */
  ghost predicate MotoristasExclusivos(s: seq<Agendamento>) {
    forall i, j :: 0 <= i < j < |s| && Ativo(s[i].status) && Ativo(s[j].status) ==>
      s[i].motoristaCpf != s[j].motoristaCpf
  }

  /** The enumeration has four members with four distinct string values. */
  lemma StatusValuesDistinct(a: StatusAgendamento, b: StatusAgendamento)
    ensures StatusValue(a) == StatusValue(b) <==> a == b
  {
  }
}
