/** The dashboard page front/src/pages/Index.tsx: the mapping of API rows to
    front-end records and the handlers that replace its three state lists.
    An API call is the parameter `apiError` (`None` when the call resolves,
    `Some(message)` when it throws); a reload after an optimistic update is
    the parameter `reload` (`None` when the listing throws). `Date.now()` is
    the parameter `stamp`, today's `yyyy-mm-dd` the parameter `today`,
    `new Date(s).toISOString().split("T")[0]` the parameter `isoDay`,
    `new Date(s).toISOString()` the parameter `toIso`, and whether
    `new Date(s)` is a valid date (so that `toISOString` does not throw) the
    parameter `validDate`. */
module IndexPage {
  import opened Wrappers
  import opened Seqs
  import opened FrontTypes
  import opened Masks
  import EpisVencidas

  const ErrEpiNaoEncontrado := "EPI não encontrado"
  const MotivoAtribuicao := "Atribuição de EPI"
  /** The message of the `RangeError` that `toISOString` throws for an
      invalid date. */
  const ErrInvalidTime := "Invalid time value"

  /** An employee as the API lists it. */
  datatype ApiFuncionario = ApiFuncionario(nome: string, cpf: string, cargo: string, setor: string)

  /** An equipment record as the API lists it. */
  datatype ApiEpi = ApiEpi(epi: string, ca: string, modoUso: string, validade: string, tipo: string,
                           fabricante: string, dataEntrada: string)

  /** The body of `EPIAPI.registrarSubstituicao`: the employee, the fixed
      reason and the item's fields under the API's names. */
  datatype SubstituicaoRequest = SubstituicaoRequest(identificadorFuncionario: string, motivo: string, epi: string,
                                                     ca: string, modoUso: string, validade: string, tipo: string,
                                                     fabricante: string, dataEntrada: string)

  /** The employee mapping of `loadData` and `handleAddFuncionario`: the raw
      CPF is the id, the masked CPF is shown. */
  function FuncionarioFromApi(row: ApiFuncionario): (r: Funcionario)
    ensures r.id == row.cpf && r.cpf == FormatCpf(row.cpf)
    ensures r.nome == row.nome && r.cargo == row.cargo && r.setor == row.setor
  {
    Funcionario(row.cpf, row.nome, FormatCpf(row.cpf), row.cargo, row.setor)
  }

  /** For a CPF stored as at most eleven digits, the shown CPF gives the id
      back once its punctuation is removed. */
  lemma FuncionarioIdRecoverable(row: ApiFuncionario)
    requires AllDigits(row.cpf) && |row.cpf| <= 11
    ensures Digits(FuncionarioFromApi(row).cpf) == FuncionarioFromApi(row).id
  {
    FormatCpfDigits(row.cpf);
    DigitsOfDigits(row.cpf);
  }

  /** The equipment mapping: the CA is both the id and the shown CA. */
  function EpiFromApi(row: ApiEpi, isoDay: string -> string): (r: EPI)
    ensures r.id == row.ca && r.ca == row.ca
    ensures r.nome == row.epi && r.uso == row.modoUso && r.tipo == row.tipo && r.fabricante == row.fabricante
    ensures r.validade == isoDay(row.validade) && r.entrega == isoDay(row.dataEntrada)
  {
    EPI(row.ca, row.epi, isoDay(row.validade), row.ca, row.tipo, row.modoUso, row.fabricante, isoDay(row.dataEntrada))
  }

  /** Whether every date of the listed rows is a valid date, so that the
      mapping of a reload does not throw. */
  predicate RowsDated(rows: seq<ApiEpi>, validDate: string -> bool)
  {
    forall i :: 0 <= i < |rows| ==> validDate(rows[i].validade) && validDate(rows[i].dataEntrada)
  }

  function FuncionariosFromApi(rows: seq<ApiFuncionario>): (r: seq<Funcionario>)
    ensures |r| == |rows| && forall i :: 0 <= i < |rows| ==> r[i] == FuncionarioFromApi(rows[i])
  {
    Map(rows, FuncionarioFromApi)
  }

  function EpisFromApi(rows: seq<ApiEpi>, isoDay: string -> string): (r: seq<EPI>)
    ensures |r| == |rows| && forall i :: 0 <= i < |rows| ==> r[i] == EpiFromApi(rows[i], isoDay)
  {
    Map(rows, (row: ApiEpi) => EpiFromApi(row, isoDay))
  }

  /** Looking an item up by id in the mapped list finds the first row with
      that CA. */
  lemma LookupByIdIsLookupByCa(rows: seq<ApiEpi>, isoDay: string -> string, ca: string)
    ensures Find(EpisFromApi(rows, isoDay), HasEpiId(ca)).None? <==> forall i :: 0 <= i < |rows| ==> rows[i].ca != ca
    ensures Find(EpisFromApi(rows, isoDay), HasEpiId(ca)).Some? ==>
              exists i :: 0 <= i < |rows| && rows[i].ca == ca &&
                          Find(EpisFromApi(rows, isoDay), HasEpiId(ca)).value == EpiFromApi(rows[i], isoDay)
  {
  }

  function OtherEpiId(id: string): EPI -> bool
  {
    (e: EPI) => e.id != id
  }

  function OtherFuncionarioId(id: string): Funcionario -> bool
  {
    (f: Funcionario) => f.id != id
  }

  function OtherAtribuicaoId(id: string): EPIAtribuicao -> bool
  {
    (at: EPIAtribuicao) => at.id != id
  }

  /** The update of `handleUpdateCA`: new CA and expiry on the items with
      that id; the id itself is kept. */
  function WithCa(id: string, ca: string, validade: string): EPI -> EPI
  {
    (e: EPI) => if e.id == id then e.(ca := ca, validade := validade) else e
  }

  function Replacing(updated: Funcionario): Funcionario -> Funcionario
  {
    (f: Funcionario) => if f.id == updated.id then updated else f
  }

  function WithValidade(id: string, validade: string): EPIAtribuicao -> EPIAtribuicao
  {
    (at: EPIAtribuicao) => if at.id == id then at.(validade := validade) else at
  }

  /** The assignment literal of `handleAssignEPI`: the id joins item,
      employee and stamp; the expiry is the item's, or today when it has
      none. `AssignEPI` reaches it only once the item's expiry has gone
      through `toISOString`, so with `validDate("") == false` the second
      branch is dead (`IndexState.AssignEPI`). */
  function NewAtribuicao(epi: EPI, epiId: string, funcionarioId: string, stamp: string, today: string): (r: EPIAtribuicao)
    ensures r.epiId == epiId && r.funcionarioId == funcionarioId && r.dataEntrega == today
    ensures r.id == epiId + "-" + funcionarioId + "-" + stamp
    ensures epi.validade != "" ==> r.validade == epi.validade
    ensures epi.validade == "" ==> r.validade == today
  {
    EPIAtribuicao(epiId + "-" + funcionarioId + "-" + stamp, epiId, funcionarioId, today,
                  if epi.validade != "" then epi.validade else today)
  }

  /** Removing an assignment right after adding it, when no earlier one had
      its id, gives back the previous list. */
  lemma UnassignUndoesAssign(atribuicoes: seq<EPIAtribuicao>, at: EPIAtribuicao)
    requires forall i :: 0 <= i < |atribuicoes| ==> atribuicoes[i].id != at.id
    ensures Filter(atribuicoes + [at], OtherAtribuicaoId(at.id)) == atribuicoes
  {
    FilterPush(atribuicoes, at, OtherAtribuicaoId(at.id));
    FilterKeepsAll(atribuicoes, OtherAtribuicaoId(at.id));
  }

  /** Once an employee is deleted, the expiry page no longer names it for the
      assignments it leaves behind. */
  lemma DeletedEmployeeNotNamed(funcionarios: seq<Funcionario>, id: string)
    ensures EpisVencidas.NameOf(Filter(funcionarios, OtherFuncionarioId(id)), id) == ""
  {
  }

  class IndexState {
    var epis: seq<EPI>
    var funcionarios: seq<Funcionario>
    var atribuicoes: seq<EPIAtribuicao>

    constructor ()
      ensures epis == [] && funcionarios == [] && atribuicoes == []
    {
      epis := [];
      funcionarios := [];
      atribuicoes := [];
    }

    /** `handleAddEPI`: appends the item, then replaces the list by the
        reloaded one; if the listing throws, or a listed row has a date
        `toISOString` rejects, the append stays. */
    method AddEPI(epi: EPI, reload: Option<seq<ApiEpi>>, isoDay: string -> string, validDate: string -> bool)
      modifies this
      ensures reload.None? || !RowsDated(reload.value, validDate) ==> epis == old(epis) + [epi]
      ensures reload.Some? && RowsDated(reload.value, validDate) ==> epis == EpisFromApi(reload.value, isoDay)
      ensures funcionarios == old(funcionarios) && atribuicoes == old(atribuicoes)
    {
      epis := epis + [epi];
      if reload.Some? && RowsDated(reload.value, validDate) {
        epis := EpisFromApi(reload.value, isoDay);
      }
    }

    /** `handleDeleteEPI`: removes every item with that id once the API call
        succeeds, keeping the others in order; a failed call changes nothing
        and its message is returned. */
    method DeleteEPI(id: string, apiError: Option<string>) returns (error: Option<string>)
      modifies this
      ensures error == apiError
      ensures apiError.Some? ==> epis == old(epis)
      ensures apiError.None? ==> epis == Filter(old(epis), OtherEpiId(id)) &&
                                 forall i :: 0 <= i < |epis| ==> epis[i].id != id
      ensures funcionarios == old(funcionarios) && atribuicoes == old(atribuicoes)
    {
      error := apiError;
      if apiError.None? {
        epis := Filter(epis, OtherEpiId(id));
      }
    }

    /** `handleUpdateCA`: sets CA and expiry on the items with that id, keeping
        their id (the old CA) and every other item; then the reload, when it
        succeeds and every listed date is valid, replaces the list. */
    method UpdateCA(id: string, ca: string, validade: string, reload: Option<seq<ApiEpi>>, isoDay: string -> string,
                    validDate: string -> bool)
      modifies this
      ensures reload.None? || !RowsDated(reload.value, validDate) ==>
                && |epis| == |old(epis)|
                && forall i :: 0 <= i < |epis| ==>
                     && epis[i].id == old(epis)[i].id
                     && (old(epis)[i].id == id ==> epis[i] == old(epis)[i].(ca := ca, validade := validade))
                     && (old(epis)[i].id != id ==> epis[i] == old(epis)[i])
      ensures reload.Some? && RowsDated(reload.value, validDate) ==> epis == EpisFromApi(reload.value, isoDay)
      ensures funcionarios == old(funcionarios) && atribuicoes == old(atribuicoes)
    {
      epis := Map(epis, WithCa(id, ca, validade));
      if reload.Some? && RowsDated(reload.value, validDate) {
        epis := EpisFromApi(reload.value, isoDay);
      }
    }

    /** `handleAddFuncionario`: appends the employee, then replaces the list
        by the reloaded one; if the reload throws, the append stays. */
    method AddFuncionario(f: Funcionario, reload: Option<seq<ApiFuncionario>>)
      modifies this
      ensures reload.None? ==> funcionarios == old(funcionarios) + [f]
      ensures reload.Some? ==> funcionarios == FuncionariosFromApi(reload.value)
      ensures epis == old(epis) && atribuicoes == old(atribuicoes)
    {
      funcionarios := funcionarios + [f];
      if reload.Some? {
        funcionarios := FuncionariosFromApi(reload.value);
      }
    }

    /** `handleDeleteFuncionario`: removes the employees with that id and
        leaves their assignments in place. */
    method DeleteFuncionario(id: string)
      modifies this
      ensures funcionarios == Filter(old(funcionarios), OtherFuncionarioId(id))
      ensures forall i :: 0 <= i < |funcionarios| ==> funcionarios[i].id != id
      ensures epis == old(epis) && atribuicoes == old(atribuicoes)
    {
      funcionarios := Filter(funcionarios, OtherFuncionarioId(id));
    }

    /** `handleAssignEPI`: an unknown item is refused before any call; an
        item whose expiry or delivery date is not a valid date makes
        building the request throw, so nothing is sent; a failed call leaves
        the assignments alone; a successful one appends exactly one
        assignment for the pair. `request` is what was sent, its two dates
        as `toISOString` gives them. */
    method AssignEPI(epiId: string, funcionarioId: string, apiError: Option<string>, stamp: string, today: string,
                     validDate: string -> bool, toIso: string -> string)
      returns (request: Option<SubstituicaoRequest>, r: Result<EPIAtribuicao>)
      modifies this
      ensures Find(old(epis), HasEpiId(epiId)).None? ==>
                request.None? && r == Failure(ErrEpiNaoEncontrado) && atribuicoes == old(atribuicoes)
      ensures Find(old(epis), HasEpiId(epiId)).Some? &&
              !(validDate(Find(old(epis), HasEpiId(epiId)).value.validade) &&
                validDate(Find(old(epis), HasEpiId(epiId)).value.entrega)) ==>
                request.None? && r == Failure(ErrInvalidTime) && atribuicoes == old(atribuicoes)
      ensures Find(old(epis), HasEpiId(epiId)).Some? &&
              validDate(Find(old(epis), HasEpiId(epiId)).value.validade) &&
              validDate(Find(old(epis), HasEpiId(epiId)).value.entrega) ==>
                var epi := Find(old(epis), HasEpiId(epiId)).value;
                && request == Some(SubstituicaoRequest(funcionarioId, MotivoAtribuicao, epi.nome, epi.ca, epi.uso,
                                                       toIso(epi.validade), epi.tipo, epi.fabricante,
                                                       toIso(epi.entrega)))
                && (apiError.Some? ==> r == Failure(apiError.value) && atribuicoes == old(atribuicoes))
                && (apiError.None? ==> r == Success(NewAtribuicao(epi, epiId, funcionarioId, stamp, today)) &&
                                       atribuicoes == old(atribuicoes) + [r.value])
      // As `new Date("")` is invalid, a recorded assignment never falls back to today.
      ensures !validDate("") && r.Success? ==>
                r.value.validade == Find(old(epis), HasEpiId(epiId)).value.validade && validDate(r.value.validade)
      ensures epis == old(epis) && funcionarios == old(funcionarios)
    {
      var found := Find(epis, HasEpiId(epiId));
      if found.None? {
        return None, Failure(ErrEpiNaoEncontrado);
      }
      var epi := found.value;
      if !(validDate(epi.validade) && validDate(epi.entrega)) {
        return None, Failure(ErrInvalidTime);
      }
      request := Some(SubstituicaoRequest(funcionarioId, MotivoAtribuicao, epi.nome, epi.ca, epi.uso,
                                          toIso(epi.validade), epi.tipo, epi.fabricante, toIso(epi.entrega)));
      if apiError.Some? {
        return request, Failure(apiError.value);
      }
      var novaAtribuicao := NewAtribuicao(epi, epiId, funcionarioId, stamp, today);
      atribuicoes := atribuicoes + [novaAtribuicao];
      r := Success(novaAtribuicao);
    }

    /** `handleUnassignEPI`: removes exactly the assignments with that id,
        keeping the rest in order. */
    method UnassignEPI(atribuicaoId: string)
      modifies this
      ensures atribuicoes == Filter(old(atribuicoes), OtherAtribuicaoId(atribuicaoId))
      ensures forall i :: 0 <= i < |atribuicoes| ==> atribuicoes[i].id != atribuicaoId
      ensures epis == old(epis) && funcionarios == old(funcionarios)
    {
      atribuicoes := Filter(atribuicoes, OtherAtribuicaoId(atribuicaoId));
    }

    /** `handleUpdateFuncionario`: every employee with the updated one's id is
        replaced by it; the others and the order are kept. */
    method UpdateFuncionario(updated: Funcionario)
      modifies this
      ensures |funcionarios| == |old(funcionarios)|
      ensures forall i :: 0 <= i < |funcionarios| ==>
                (old(funcionarios)[i].id == updated.id ==> funcionarios[i] == updated) &&
                (old(funcionarios)[i].id != updated.id ==> funcionarios[i] == old(funcionarios)[i])
      ensures epis == old(epis) && atribuicoes == old(atribuicoes)
    {
      funcionarios := Map(funcionarios, Replacing(updated));
    }

    /** `handleUpdateAtribuicaoValidade`: only the expiry of the assignments
        with that id changes. */
    method UpdateAtribuicaoValidade(atribuicaoId: string, validade: string)
      modifies this
      ensures |atribuicoes| == |old(atribuicoes)|
      ensures forall i :: 0 <= i < |atribuicoes| ==>
                (old(atribuicoes)[i].id == atribuicaoId ==> atribuicoes[i] == old(atribuicoes)[i].(validade := validade)) &&
                (old(atribuicoes)[i].id != atribuicaoId ==> atribuicoes[i] == old(atribuicoes)[i])
      ensures epis == old(epis) && funcionarios == old(funcionarios)
    {
      atribuicoes := Map(atribuicoes, WithValidade(atribuicaoId, validade));
    }
  }
}
