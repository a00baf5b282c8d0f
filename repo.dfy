/** The in-memory repository `createMockRepo` of `src/tests/mocks/mockRepo.ts`, the
    store the scheduling engine is run against: a list of records that `save`,
    `remove` and `_reset` replace, and lookups through the `matchWhere` predicate.

    A query condition maps record keys to conditions. A condition is a plain value,
    one of the query operators the matcher recognises (`In`, `Between`, a bounds
    object with `$lt`/`$lte`/`$gt`/`$gte`) or a plain array. The matcher is given
    twice: `MatchKeyAsWritten` follows the code line by line, and `MatchKey` is the
    behaviour the code evidently intends, which the store below uses (README,
    "Findings"). */
module Repo {
  import opened Wrappers
  import opened Seqs
  import opened Model

  /** The keys of an appointment record. */
  datatype Key = Id | DataHora | NumeroContrato | MotoristaNome | MotoristaCpf | PlacaCaminhao | Status | CreatedAt

  /** A field value: a number (the id, an instant) or a string. */
  datatype Value = Num(n: int) | Str(str: string)

  datatype Cond =
    | Eq(v: Value)                  // a plain value
    | InOp(vs: seq<Value>)          // In([...]): an operator object of type 'in'
    | BetweenOp(lo: int, hi: int)   // Between(lo, hi): an operator object of type 'between'
    | Range(lt: Option<int>, lte: Option<int>, gt: Option<int>, gte: Option<int>)  // { $lt: ..., ... }
    | List(vs: seq<Value>)          // a plain array

  type Where = map<Key, Cond>

  function Field(a: Agendamento, k: Key): Value {
    match k
    case Id => Num(a.id)
    case DataHora => Num(a.dataHora)
    case NumeroContrato => Str(a.numeroContrato)
    case MotoristaNome => Str(a.motoristaNome)
    case MotoristaCpf => Str(a.motoristaCpf)
    case PlacaCaminhao => Str(a.placaCaminhao)
    case Status => Str(StatusValue(a.status))
    case CreatedAt => Num(a.createdAt)
  }

  function DigitChar(d: nat): char
    requires d < 10
  {
    "0123456789"[d]
  }

  /** The decimal numeral of `n`. */
  function Digits(n: nat): (r: string)
    ensures |r| > 0
    ensures forall i :: 0 <= i < |r| ==> '0' <= r[i] <= '9'
  {
    if n < 10 then [DigitChar(n)] else Digits(n / 10) + [DigitChar(n % 10)]
  }

  /** `toString` of a number. */
  function Decimal(n: int): string {
    if n < 0 then "-" + Digits(-n) else Digits(n)
  }

  /** `toString` of a field value. */
  function Text(v: Value): string {
    match v
    case Num(n) => Decimal(n)
    case Str(t) => t
  }

  /** `toString` of an array: its elements' texts joined by commas. */
  function Join(vs: seq<Value>): string {
    if |vs| == 0 then ""
    else if |vs| == 1 then Text(vs[0])
    else Text(vs[0]) + "," + Join(vs[1..])
  }

  /** `toString` of an operator or bounds object (one with no `toString` of its own). */
  const ObjectText: string := "[object Object]"

  /** `toString` of a condition. */
  function CondText(c: Cond): string {
    match c
    case Eq(v) => Text(v)
    case List(vs) => Join(vs)
    case _ => ObjectText
  }

  /** Between: both ends inclusive; only an instant can lie between two instants. */
  predicate InBetween(f: Value, lo: int, hi: int) {
    f.Num? && lo <= f.n <= hi
  }

  /** Every bound that is present holds; a string never satisfies a numeric bound. */
  predicate WithinBounds(f: Value, lt: Option<int>, lte: Option<int>, gt: Option<int>, gte: Option<int>) {
    && (lt.Some? ==> f.Num? && f.n < lt.value)
    && (lte.Some? ==> f.Num? && f.n <= lte.value)
    && (gt.Some? ==> f.Num? && f.n > gt.value)
    && (gte.Some? ==> f.Num? && f.n >= gte.value)
  }

  /** Strict equality `===` of a field value with a condition: only a plain value
      can be identical to a field value; an object never is. */
  predicate Identical(f: Value, c: Cond) {
    c.Eq? && c.v == f
  }

  /** One key as the matcher evidently intends it: every operator takes effect on
      every key, `status` included, and a bounds object matches exactly the values
      within its bounds. A plain value on `status` is still compared by text, which
      comes to comparing it with the record's status value. */
  predicate MatchKey(a: Agendamento, k: Key, c: Cond): (r: bool)
    ensures k == Status && c.Eq? ==> (r <==> c.v == Str(StatusValue(a.status)))
  {
    var f := Field(a, k);
    match c
    case Eq(v) => if k == Status then TextIsStatus(v, a.status); Text(f) == Text(v) else f == v
    case BetweenOp(lo, hi) => InBetween(f, lo, hi)
    case InOp(vs) => f in vs
    case Range(lt, lte, gt, gte) => WithinBounds(f, lt, lte, gt, gte)
    case List(vs) => f in vs
  }

  /** One key of `matchWhere`, in the order the code tests things: the `status`
      key first, by text; then the operator objects; then a plain array; then
      strict equality, which a bounds object that passed its bounds also reaches.
      It never accepts what `MatchKey` rejects, and the two agree except on a
      bounds object and on an operator or array given for `status`. */
  predicate MatchKeyAsWritten(a: Agendamento, k: Key, c: Cond): (r: bool)
    ensures r ==> MatchKey(a, k, c)
    ensures !c.Range? && (k != Status || c.Eq?) ==> (r <==> MatchKey(a, k, c))
  {
    var f := Field(a, k);
    if k == Status then StatusTextMatches(a, c); Text(f) == CondText(c)
    else match c
      case BetweenOp(lo, hi) => InBetween(f, lo, hi)
      case InOp(vs) => f in vs
      case Range(lt, lte, gt, gte) => WithinBounds(f, lt, lte, gt, gte) && Identical(f, c)
      case List(vs) => f in vs
      case Eq(v) => f == v
  }

  /** `matchWhere` as written: every key of the condition matches. An `In` operator
      on `status`, or a bounds object on any key, makes it match nothing. */
  predicate MatchesAsWritten(a: Agendamento, w: Where): (r: bool)
    ensures Status in w && w[Status].InOp? ==> !r
    ensures (exists k :: k in w && w[k].Range?) ==> !r
  {
    forall k :: k in w ==> MatchKeyAsWritten(a, k, w[k])
  }

  /** The corrected `matchWhere`: the conjunction over all keys of the condition.
      It accepts every item the matcher as written accepts. */
  predicate Matches(a: Agendamento, w: Where): (r: bool)
    ensures MatchesAsWritten(a, w) ==> r
  {
    forall k :: k in w ==> MatchKey(a, k, w[k])
  }

  function Matching(w: Where): Agendamento -> bool {
    (a: Agendamento) => Matches(a, w)
  }

  function OtherId(id: nat): Agendamento -> bool {
    (a: Agendamento) => a.id != id
  }

  function NotIn(items: seq<Agendamento>): Agendamento -> bool {
    (a: Agendamento) => a !in items
  }

  /** The list after `save(obj)`: every item with `obj`'s id removed, `obj` appended. */
  function Saved(s: seq<Agendamento>, obj: Agendamento): (r: seq<Agendamento>)
    ensures 0 < |r| <= |s| + 1 && r[|r| - 1] == obj
    ensures forall i :: 0 <= i < |r| - 1 ==> r[i].id != obj.id && r[i] in s
  {
    Filter(s, OtherId(obj.id)) + [obj]
  }

  /** The result of `find`: everything without a condition, else the matching items. */
  function Found(s: seq<Agendamento>, where: Option<Where>): (r: seq<Agendamento>)
    ensures |r| <= |s|
    ensures forall i :: 0 <= i < |r| ==> r[i] in s
    ensures where.Some? ==> forall i :: 0 <= i < |r| ==> Matches(r[i], where.value)
  {
    match where
    case None => s
    case Some(w) => Filter(s, Matching(w))
  }

  /** The list after `remove(items)`. */
  function Removed(s: seq<Agendamento>, items: seq<Agendamento>): (r: seq<Agendamento>)
    ensures |r| <= |s|
    ensures forall i :: 0 <= i < |r| ==> r[i] in s && r[i] !in items
  {
    Filter(s, NotIn(items))
  }

  class MockRepo {
    var data: seq<Agendamento>

    constructor ()
      ensures data == []
    {
      data := [];
    }

    /** `findOneBy(query)`: the first item in list order matching `query`. */
    method FindOneBy(query: Where) returns (r: Option<Agendamento>)
      ensures r.Some? ==> r.value in data && Matches(r.value, query)
      ensures r.None? <==> forall i :: 0 <= i < |data| ==> !Matches(data[i], query)
      ensures r == First(data, Matching(query))
    {
      r := First(data, Matching(query));
    }

    /** `findOne({ where })`: the same lookup, with the condition wrapped in options. */
    method FindOne(where: Where) returns (r: Option<Agendamento>)
      ensures r == First(data, Matching(where))
    {
      r := FindOneBy(where);
    }

    /** `save(obj)`: an upsert by id. */
    method Save(obj: Agendamento) returns (r: Agendamento)
      modifies this
      ensures data == Saved(old(data), obj)
      ensures r == obj
    {
      data := Filter(data, OtherId(obj.id));
      data := data + [obj];
      r := obj;
    }

    /** `find({ where })`; `find()` without a condition returns the whole list. */
    method Find(where: Option<Where>) returns (r: seq<Agendamento>)
      ensures r == Found(data, where)
    {
      if where.None? {
        return data;
      }
      r := Filter(data, Matching(where.value));
    }

    /** `remove(items)`: drops exactly the given items and hands them back. */
    method Remove(items: seq<Agendamento>) returns (r: seq<Agendamento>)
      modifies this
      ensures data == Removed(old(data), items)
      ensures r == items
    {
      data := Filter(data, NotIn(items));
      r := items;
    }

    /** `_reset()`. */
    method Reset()
      modifies this
      ensures data == []
    {
      data := [];
    }
  }

  /** An empty condition matches every item, in both readings of the matcher. */
  lemma EmptyWhereMatchesAll(a: Agendamento)
    ensures Matches(a, map[]) && MatchesAsWritten(a, map[])
  {
  }

  /** A number's text never equals a status value: a numeral starts with a digit or
      a minus sign, a status value with a letter. */
  lemma DecimalIsNoStatus(n: int, st: StatusAgendamento)
    ensures Decimal(n) != StatusValue(st)
  {
    assert Decimal(n)[0] == '-' || '0' <= Decimal(n)[0] <= '9';
    assert StatusValue(st)[0] in "pca";
  }

  /** A value's text is a status value exactly when the value is that string. */
  lemma TextIsStatus(v: Value, st: StatusAgendamento)
    ensures Text(v) == StatusValue(st) <==> v == Str(StatusValue(st))
  {
    if v.Num? {
      DecimalIsNoStatus(v.n, st);
    }
  }

  /** An array's text is a status value only when the array is that one string:
      two or more elements join with a comma, which no status value contains. */
  lemma JoinIsStatus(vs: seq<Value>, st: StatusAgendamento)
    requires Join(vs) == StatusValue(st)
    ensures vs == [Str(StatusValue(st))]
  {
    if |vs| == 1 {
      TextIsStatus(vs[0], st);
    } else if |vs| > 1 {
      assert Join(vs)[|Text(vs[0])|] == ',';
    }
  }

  /** The text comparison the matcher as written applies to `status` accepts only
      what the corrected matcher accepts, and the same as it for a plain value. */
  lemma StatusTextMatches(a: Agendamento, c: Cond)
    ensures Text(Field(a, Status)) == CondText(c) ==> MatchKey(a, Status, c)
    ensures c.Eq? ==> (Text(Field(a, Status)) == CondText(c) <==> MatchKey(a, Status, c))
  {
    if c.List? && Text(Field(a, Status)) == CondText(c) {
      JoinIsStatus(c.vs, a.status);
    }
    if c.Eq? {
      TextIsStatus(c.v, a.status);
    }
    assert ObjectText[0] == '[';
  }

  /** A plain value on `status` matches exactly the record's own status string. */
  lemma StatusEqMatches(a: Agendamento, v: Value)
    ensures MatchKey(a, Status, Eq(v)) <==> v == Str(StatusValue(a.status))
    ensures MatchKeyAsWritten(a, Status, Eq(v)) <==> v == Str(StatusValue(a.status))
  {
  }

  /** As written, the `status` key is compared by text before any operator is
      recognised, so an `In` operator on `status` matches no record. */
  lemma StatusInNeverMatchesAsWritten(a: Agendamento, vs: seq<Value>)
    ensures !MatchKeyAsWritten(a, Status, InOp(vs))
  {
  }

  /** As written, a plain array on `status` is compared with its comma-joined text,
      so a one-element array naming the record's status matches it. */
  lemma StatusSingletonListMatchesAsWritten(a: Agendamento)
    ensures MatchKeyAsWritten(a, Status, List([Str(StatusValue(a.status))]))
  {
  }

  /** As written, a bounds object never matches: an item that fails a bound is
      rejected, and one that passes them all reaches strict equality with an object. */
  lemma RangeNeverMatchesAsWritten(a: Agendamento, k: Key, lt: Option<int>, lte: Option<int>, gt: Option<int>, gte: Option<int>)
    requires k != Status
    ensures !MatchKeyAsWritten(a, k, Range(lt, lte, gt, gte))
  {
  }

  /** As written, a plain array on `status` is compared with its comma-joined text,
      so an array naming two statuses matches no record, while the corrected
      matcher accepts a record holding either status. */
  lemma StatusListDiffersAsWritten(a: Agendamento)
    requires a.status == Pendente
    ensures var c := List([Str(StatusValue(Pendente)), Str(StatusValue(Atrasado))]);
      MatchKey(a, Status, c) && !MatchKeyAsWritten(a, Status, c)
  {
    var c := List([Str(StatusValue(Pendente)), Str(StatusValue(Atrasado))]);
    assert Text(Field(a, Status)) != CondText(c) by {
      assert |CondText(c)| != |StatusValue(Pendente)|;
    }
  }

  /** A bounds object with no bound at all: the corrected matcher accepts every
      record, and as written it reaches strict equality with an object and accepts
      none. */
  lemma EmptyRangeDiffersAsWritten(a: Agendamento, k: Key)
    ensures MatchKey(a, k, Range(None, None, None, None))
    ensures !MatchKeyAsWritten(a, k, Range(None, None, None, None))
  {
    if k == Status {
      assert ObjectText[0] == '[';
      assert StatusValue(a.status)[0] != '[';
    }
  }

  /** After `save(obj)` the list holds `obj` and exactly the stored items of other
      ids, and those keep their order and come before `obj`. */
  lemma {:induction false} SavedShape(s: seq<Agendamento>, obj: Agendamento)
    ensures var r := Saved(s, obj);
      && (forall x :: x in r <==> x == obj || (x in s && x.id != obj.id))
      && exists kept, pos :: r == kept + [obj] && Picks(s, pos, kept) &&
           forall j :: 0 <= j < |s| ==> (j in pos <==> s[j].id != obj.id)
  {
    var r := Saved(s, obj);
    forall x ensures x in r <==> x == obj || (x in s && x.id != obj.id) {
      FilterMembership(s, OtherId(obj.id), x);
    }
    var kept, pos := Filter(s, OtherId(obj.id)), Positions(s, OtherId(obj.id));
    assert r == kept + [obj];
    assert forall j :: 0 <= j < |s| ==> (j in pos <==> s[j].id != obj.id);
  }

  /** Saving a record whose id is new appends it and keeps the list as it was. */
  lemma {:induction false} SavedFreshAppends(s: seq<Agendamento>, obj: Agendamento)
    requires forall i :: 0 <= i < |s| ==> s[i].id != obj.id
    ensures Saved(s, obj) == s + [obj]
  {
    FilterKeepsAll(s, OtherId(obj.id));
  }

  /** `save` keeps primary keys unique. */
  lemma {:induction false} SavedKeepsIdsUnique(s: seq<Agendamento>, obj: Agendamento)
    requires IdsUnique(s)
    ensures IdsUnique(Saved(s, obj))
  {
    FilterInjective(s, OtherId(obj.id), IdOf);
    var f := Filter(s, OtherId(obj.id));
    forall i | 0 <= i < |f| ensures IdOf(f[i]) != IdOf(obj) {
      assert OtherId(obj.id)(f[i]);
    }
  }

  /** `remove(items)` deletes exactly the given items and keeps the rest, in their
      order. */
  lemma {:induction false} RemovedMembership(s: seq<Agendamento>, items: seq<Agendamento>)
    ensures var r := Removed(s, items);
      && (forall x :: x in r <==> x in s && x !in items)
      && exists pos :: Picks(s, pos, r) && forall j :: 0 <= j < |s| ==> (j in pos <==> s[j] !in items)
  {
    forall x ensures x in Removed(s, items) <==> x in s && x !in items {
      FilterMembership(s, NotIn(items), x);
    }
    var pos := Positions(s, NotIn(items));
    assert forall j :: 0 <= j < |s| ==> (j in pos <==> s[j] !in items);
  }

  /** `find({ where })` returns exactly the matching items, in list order. */
  lemma {:induction false} FoundMembership(s: seq<Agendamento>, w: Where)
    ensures var r := Found(s, Some(w));
      && (forall x :: x in r <==> x in s && Matches(x, w))
      && exists pos :: Picks(s, pos, r) && forall j :: 0 <= j < |s| ==> (j in pos <==> Matches(s[j], w))
  {
    assert Found(s, Some(w)) == Filter(s, Matching(w));
    forall x ensures x in Found(s, Some(w)) <==> x in s && Matches(x, w) {
      FilterMembership(s, Matching(w), x);
    }
    var pos := Positions(s, Matching(w));
    forall j | 0 <= j < |s| ensures j in pos <==> Matches(s[j], w) {
      assert Matching(w)(s[j]) == Matches(s[j], w);
    }
  }
}
