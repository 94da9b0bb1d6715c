/**
 * MetasController: savings goals (Metas) with a progress percentage, a
 * create that starts progress at zero, a field-restricted update, delete,
 * and progress additions capped at the target.
 */
module Goals {
  import opened Wrappers
  import opened Numerics

  const Int32Min := -0x8000_0000
  const Int32Max := 0x7FFF_FFFF

  /** A Metas row. */
  datatype Meta = Meta(idObjetivo: int, idUsuario: int, titulo: string, valorMeta: real, valorAtual: real,
                       dataLimite: int, categoria: string, descricao: Option<string>)

  /** MetaDto. */
  datatype MetaDto = MetaDto(idObjetivo: int, idUsuario: int, titulo: string, valorMeta: real,
                             valorAtual: real, dataLimite: int, percentual: int)

  datatype Status = BadRequest | NotFound | NoContent

  /**
   * Percentual: 0 for a zero target, else ValorAtual / ValorMeta · 100
   * rounded half to even; None where the (int) conversion overflows and throws.
   */
  function Percentual(valorAtual: real, valorMeta: real): Option<int> {
    if valorMeta == 0.0 then Some(0)
    else
      var r := RoundToEven(valorAtual / valorMeta * 100.0);
      if Int32Min <= r <= Int32Max then Some(r) else None
  }

  /** The percentage is the nearest integer to the exact ratio, and an exact tie goes to the even one. */
  lemma PercentualNearest(valorAtual: real, valorMeta: real)
    requires valorMeta != 0.0
    requires Percentual(valorAtual, valorMeta).Some?
    ensures var p := Percentual(valorAtual, valorMeta).value;
            && Abs(p as real - valorAtual / valorMeta * 100.0) <= 0.5
            && (Abs(p as real - valorAtual / valorMeta * 100.0) == 0.5 ==> p % 2 == 0)
  {
  }

  /** Progress between zero and the target gives a percentage between 0 and 100; reaching it gives 100. */
  lemma PercentualInRange(valorAtual: real, valorMeta: real)
    requires valorMeta > 0.0 && 0.0 <= valorAtual <= valorMeta
    ensures Percentual(valorAtual, valorMeta).Some?
    ensures 0 <= Percentual(valorAtual, valorMeta).value <= 100
    ensures valorAtual == valorMeta ==> Percentual(valorAtual, valorMeta) == Some(100)
  {
    var x := valorAtual / valorMeta * 100.0;
    assert 0.0 <= valorAtual / valorMeta <= 1.0 by {
      assert valorAtual / valorMeta * valorMeta == valorAtual;
    }
    var r := RoundToEven(x);
    assert -1 < r < 101 by {
      assert Abs(r as real - x) <= 0.5;
    }
    if valorAtual == valorMeta {
      assert x == 100.0;
      assert Abs(r as real - 100.0) <= 0.5;
    }
  }

  function ToDto(m: Meta, percentual: int): MetaDto {
    MetaDto(m.idObjetivo, m.idUsuario, m.titulo, m.valorMeta, m.valorAtual, m.dataLimite, percentual)
  }

  /** GetMetasPorUsuario: the user's goals with their percentage; None when one percentage overflows. */
  function MetasPorUsuario(goals: map<int, Meta>, idUsuario: int): Option<map<int, MetaDto>> {
    var mine := set id | id in goals && goals[id].idUsuario == idUsuario;
    if forall id :: id in mine ==> Percentual(goals[id].valorAtual, goals[id].valorMeta).Some?
    then Some(map id | id in mine :: ToDto(goals[id], Percentual(goals[id].valorAtual, goals[id].valorMeta).value))
    else None
  }

  /** Every listed goal is the user's, every goal of the user is listed, with its percentage. */
  lemma MetasPorUsuarioCorrect(goals: map<int, Meta>, idUsuario: int)
    requires MetasPorUsuario(goals, idUsuario).Some?
    ensures var r := MetasPorUsuario(goals, idUsuario).value;
            forall id :: id in r <==> id in goals && goals[id].idUsuario == idUsuario
    ensures var r := MetasPorUsuario(goals, idUsuario).value;
            forall id :: id in r ==> r[id].valorAtual == goals[id].valorAtual
                                     && Some(r[id].percentual) == Percentual(goals[id].valorAtual, goals[id].valorMeta)
  {
  }

  /** AtualizarMeta on the goal: only Titulo, ValorMeta and DataLimite are taken from the body. */
  function Update(existente: Meta, dto: Meta): Meta {
    existente.(titulo := dto.titulo, valorMeta := dto.valorMeta, dataLimite := dto.dataLimite)
  }

  /** AtualizarMeta(id, dto): the status and the goals after it. */
  function Atualizar(goals: map<int, Meta>, id: int, dto: Meta): (Status, map<int, Meta>) {
    if id != dto.idObjetivo then (BadRequest, goals)
    else if id !in goals then (NotFound, goals)
    else (NoContent, goals[id := Update(goals[id], dto)])
  }

  /**
   * An update keeps the goal's identity, owner, progress, category and
   * description, takes title, target and deadline from the body, and
   * touches no other goal; a mismatched id or a missing goal changes nothing.
   */
  lemma AtualizarChangesOnlyThreeFields(goals: map<int, Meta>, id: int, dto: Meta)
    ensures var (status, goals') := Atualizar(goals, id, dto);
            && (status == BadRequest <==> id != dto.idObjetivo)
            && (status == NotFound <==> id == dto.idObjetivo && id !in goals)
            && (status != NoContent ==> goals' == goals)
            && goals'.Keys == goals.Keys
            && (forall k :: k in goals && k != id ==> goals'[k] == goals[k])
            && (status == NoContent ==>
                  var before, after := goals[id], goals'[id];
                  && after.idObjetivo == before.idObjetivo && after.idUsuario == before.idUsuario
                  && after.valorAtual == before.valorAtual && after.categoria == before.categoria
                  && after.descricao == before.descricao
                  && after.titulo == dto.titulo && after.valorMeta == dto.valorMeta
                  && after.dataLimite == dto.dataLimite)
  {
  }

  /** ExcluirMeta(id). */
  function Excluir(goals: map<int, Meta>, id: int): (Status, map<int, Meta>) {
    if id !in goals then (NotFound, goals) else (NoContent, goals - {id})
  }

  /** Deleting removes exactly that goal; a missing id changes nothing. */
  lemma ExcluirRemovesOne(goals: map<int, Meta>, id: int)
    ensures var (status, goals') := Excluir(goals, id);
            && (status == NotFound <==> id !in goals)
            && goals'.Keys == goals.Keys - {id}
            && forall k :: k in goals' ==> goals'[k] == goals[k]
  {
  }

  /** AdicionarProgresso on the goal: add, then cap at the target. */
  function AddProgress(m: Meta, valor: real): Meta {
    var atual := m.valorAtual + valor;
    m.(valorAtual := if atual > m.valorMeta then m.valorMeta else atual)
  }

  /** AdicionarProgresso(id, valor). */
  function Adicionar(goals: map<int, Meta>, id: int, valor: real): (Status, map<int, Meta>) {
    if id !in goals then (NotFound, goals) else (NoContent, goals[id := AddProgress(goals[id], valor)])
  }

  /**
   * Progress becomes min(old + valor, target): never above the target, but
   * with no lower bound, so a negative amount can take it below zero.
   */
  lemma ProgressCapped(m: Meta, valor: real)
    ensures AddProgress(m, valor).valorAtual <= m.valorMeta
    ensures AddProgress(m, valor).valorAtual == m.valorAtual + valor || AddProgress(m, valor).valorAtual == m.valorMeta
    ensures m.valorAtual + valor <= m.valorMeta ==> AddProgress(m, valor).valorAtual == m.valorAtual + valor
    ensures AddProgress(m, valor) == m.(valorAtual := AddProgress(m, valor).valorAtual)
  {
  }

  /** Once the target is reached, adding any non-negative amount leaves the goal unchanged. */
  lemma ProgressAtTargetIsFixed(m: Meta, valor: real)
    requires m.valorAtual == m.valorMeta && valor >= 0.0
    ensures AddProgress(m, valor) == m
  {
  }

  /** Two non-negative additions reach the same progress as one of their sum. */
  lemma ProgressAdditive(m: Meta, a: real, b: real)
    requires a >= 0.0 && b >= 0.0 && m.valorAtual <= m.valorMeta
    ensures AddProgress(AddProgress(m, a), b) == AddProgress(m, a + b)
  {
  }

  /** A negative amount is subtracted in full: the progress can fall below zero. */
  lemma NegativeProgressUnbounded(m: Meta, valor: real)
    requires valor < 0.0 && m.valorAtual <= m.valorMeta
    ensures AddProgress(m, valor).valorAtual == m.valorAtual + valor
    ensures m.valorAtual == 0.0 ==> AddProgress(m, valor).valorAtual < 0.0
  {
  }

  /** A missing id is NotFound and no goal is modified or removed. */
  lemma MissingIdChangesNothing(goals: map<int, Meta>, id: int, dto: Meta, valor: real)
    requires id !in goals
    ensures Excluir(goals, id) == (NotFound, goals)
    ensures Adicionar(goals, id, valor) == (NotFound, goals)
    ensures id == dto.idObjetivo ==> Atualizar(goals, id, dto) == (NotFound, goals)
  {
  }

  /** MetasController over the ObjetivosEconomia table; new ids come from the table's identity. */
  class MetasController {
    var goals: map<int, Meta>
    var nextId: int

    ghost predicate Valid()
      reads this
    {
      forall id :: id in goals ==> goals[id].idObjetivo == id && id < nextId
    }

    constructor (goals: map<int, Meta>, nextId: int)
      requires forall id :: id in goals ==> goals[id].idObjetivo == id && id < nextId
      ensures Valid() && this.goals == goals && this.nextId == nextId
    {
      this.goals := goals;
      this.nextId := nextId;
    }

    /** GetMetasPorUsuario(idUsuario): read-only. */
    method GetMetasPorUsuario(idUsuario: int) returns (r: Option<map<int, MetaDto>>)
      ensures r == MetasPorUsuario(goals, idUsuario)
    {
      r := MetasPorUsuario(goals, idUsuario);
    }

    /** CriarMeta(nova): progress forced to zero, stored under a fresh id, reported at 0 %. */
    method CriarMeta(nova: Meta) returns (dto: MetaDto)
      requires Valid()
      modifies this
      ensures Valid()
      ensures old(nextId) !in old(goals)
      ensures goals == old(goals)[old(nextId) := nova.(idObjetivo := old(nextId), valorAtual := 0.0)]
      ensures dto == ToDto(goals[old(nextId)], 0)
      ensures dto.valorAtual == 0.0 && dto.percentual == 0
    {
      var stored := nova.(idObjetivo := nextId, valorAtual := 0.0);
      goals := goals[nextId := stored];
      nextId := nextId + 1;
      dto := ToDto(stored, 0);
    }

    /** AtualizarMeta(id, dto). */
    method AtualizarMeta(id: int, dto: Meta) returns (status: Status)
      requires Valid()
      modifies this
      ensures Valid() && nextId == old(nextId)
      ensures (status, goals) == Atualizar(old(goals), id, dto)
    {
      if id != dto.idObjetivo {
        return BadRequest;
      }
      if id !in goals {
        return NotFound;
      }
      var existente := goals[id];
      existente := existente.(titulo := dto.titulo, valorMeta := dto.valorMeta, dataLimite := dto.dataLimite);
      goals := goals[id := existente];
      return NoContent;
    }

    /** ExcluirMeta(id). */
    method ExcluirMeta(id: int) returns (status: Status)
      requires Valid()
      modifies this
      ensures Valid() && nextId == old(nextId)
      ensures (status, goals) == Excluir(old(goals), id)
    {
      if id !in goals {
        return NotFound;
      }
      goals := goals - {id};
      return NoContent;
    }

    /** AdicionarProgresso(id, valor). */
    method AdicionarProgresso(id: int, valor: real) returns (status: Status)
      requires Valid()
      modifies this
      ensures Valid() && nextId == old(nextId)
      ensures (status, goals) == Adicionar(old(goals), id, valor)
    {
      if id !in goals {
        return NotFound;
      }
      var meta := goals[id];
      meta := meta.(valorAtual := meta.valorAtual + valor);
      if meta.valorAtual > meta.valorMeta {
        meta := meta.(valorAtual := meta.valorMeta);
      }
      goals := goals[id := meta];
      return NoContent;
    }
  }
}
