/** The per-employee view of front/src/components/FuncionarioEPIManager.tsx:
    expiry status of an assignment, the search filter, the join of an
    employee's assignments to the equipment list, and the guards of the
    export, assign and edit handlers. Its `formatCPF` is `Masks.FormatCpf`.
    Unicode `toLowerCase` is the parameter `lower`. */
module FuncionarioEpiManager {
  import opened Wrappers
  import opened Seqs
  import opened FrontTypes
  import EpisVencidas

  datatype Status = Expired | Warning | Valid
  datatype Variant = Destructive | Default | Secondary

  /** What `getExpirationStatus` returns. */
  datatype ExpirationStatus = ExpirationStatus(status: Status, labelText: string, variant: Variant, days: int)

  const ErrSemEpis := "Funcionário não possui EPIs atribuídos"
  const ErrSelecioneEpi := "Selecione um EPI antes de atribuir"

  /** `getExpirationStatus`, given the whole days left. */
  function GetExpirationStatus(days: int): (r: ExpirationStatus)
    ensures r.days == days
    ensures r.status == Expired <==> days < 0
    ensures r.status == Warning <==> 0 <= days <= 30
    ensures r.status == Valid <==> days > 30
    ensures r.status == Expired ==> r.labelText == "Vencida" && r.variant == Destructive
    ensures r.status == Warning ==> r.labelText == "Vence em breve" && r.variant == Default
    ensures r.status == Valid ==> r.labelText == "Válida" && r.variant == Secondary
  {
    if days < 0 then ExpirationStatus(Expired, "Vencida", Destructive, days)
    else if days <= 30 then ExpirationStatus(Warning, "Vence em breve", Default, days)
    else ExpirationStatus(Valid, "Válida", Secondary, days)
  }

  /** The status agrees with the panels of the expiry page: an expired item
      is "Vencida", an expiring one "Vence em breve", a healthy one
      "Válida". Items with 31 to 60 days left are "Válida" here though the
      panels show them nowhere. */
  lemma StatusAgreesWithPanels(epis: seq<EPI>, daysLeft: string -> int, timeOf: string -> int, e: EPI)
    ensures e in EpisVencidas.ExpiredEPIs(epis, daysLeft, timeOf) ==>
              GetExpirationStatus(daysLeft(e.validade)).status == Expired
    ensures e in EpisVencidas.ExpiringEPIs(epis, daysLeft, timeOf) ==>
              GetExpirationStatus(daysLeft(e.validade)).status == Warning
    ensures e in EpisVencidas.HealthyEPIs(epis, daysLeft, timeOf) ==>
              GetExpirationStatus(daysLeft(e.validade)).status == Valid
  {
  }

  /** The first item with that id, as `epis.find(e => e.id === at.epiId)`. */
  function EpiOf(epis: seq<EPI>, at: EPIAtribuicao): (r: Option<EPI>)
    ensures r.None? <==> forall i :: 0 <= i < |epis| ==> epis[i].id != at.epiId
    ensures r.Some? ==> r.value in epis && r.value.id == at.epiId
    ensures r.Some? ==> exists i :: 0 <= i < |epis| && epis[i] == r.value && r.value.id == at.epiId &&
                                    forall j :: 0 <= j < i ==> epis[j].id != at.epiId
  {
    Find(epis, HasEpiId(at.epiId))
  }

  /** `epi && epi.ca.toLowerCase().includes(term)`. */
  predicate CaMatches(epi: Option<EPI>, term: string, lower: string -> string)
  {
    epi.Some? && Contains(lower(epi.value.ca), lower(term))
  }

  /** The search test of one employee: the name matches, or one of the
      employee's assignments resolves to an item whose CA matches. */
  predicate MatchesSearch(f: Funcionario, atribuicoes: seq<EPIAtribuicao>, epis: seq<EPI>, term: string,
                          lower: string -> string): (r: bool)
    ensures lower(term) == "" ==> r
    ensures (&& !Contains(lower(f.nome), lower(term))
             && forall j :: 0 <= j < |atribuicoes| && atribuicoes[j].funcionarioId == f.id ==>
                              !CaMatches(EpiOf(epis, atribuicoes[j]), term, lower)) ==> !r
  {
    ContainsEmpty(lower(f.nome));
    (|| Contains(lower(f.nome), lower(term))
     || var mine := Filter(atribuicoes, OfFuncionario(f.id));
        exists i | 0 <= i < |mine| :: CaMatches(EpiOf(epis, mine[i]), term, lower))
  }

  function SearchTest(atribuicoes: seq<EPIAtribuicao>, epis: seq<EPI>, term: string,
                      lower: string -> string): Funcionario -> bool
  {
    (f: Funcionario) => MatchesSearch(f, atribuicoes, epis, term, lower)
  }

  /** `filteredFuncionarios`: in order, the employees whose name contains the
      term or who hold an assigned item whose CA contains it. */
  function FilteredFuncionarios(funcionarios: seq<Funcionario>, atribuicoes: seq<EPIAtribuicao>, epis: seq<EPI>,
                                term: string, lower: string -> string): (r: seq<Funcionario>)
    ensures forall i :: 0 <= i < |r| ==> r[i] in funcionarios && MatchesSearch(r[i], atribuicoes, epis, term, lower)
    ensures forall i :: 0 <= i < |funcionarios| && MatchesSearch(funcionarios[i], atribuicoes, epis, term, lower) ==>
              funcionarios[i] in r
    ensures forall f | f in funcionarios ::
              multiset(r)[f] == if MatchesSearch(f, atribuicoes, epis, term, lower) then multiset(funcionarios)[f] else 0
    ensures r == Filter(funcionarios, SearchTest(atribuicoes, epis, term, lower))
  {
    FilterCountAll(funcionarios, SearchTest(atribuicoes, epis, term, lower));
    Filter(funcionarios, SearchTest(atribuicoes, epis, term, lower))
  }

  /** An assignment whose item's CA contains the term makes its employee a
      match, whatever the employee's name. */
  lemma CaMatchSelects(f: Funcionario, atribuicoes: seq<EPIAtribuicao>, epis: seq<EPI>, term: string,
                       lower: string -> string, j: nat)
    requires j < |atribuicoes| && atribuicoes[j].funcionarioId == f.id
    requires CaMatches(EpiOf(epis, atribuicoes[j]), term, lower)
    ensures MatchesSearch(f, atribuicoes, epis, term, lower)
  {
    var mine := Filter(atribuicoes, OfFuncionario(f.id));
    assert atribuicoes[j] in mine;
    var i :| 0 <= i < |mine| && mine[i] == atribuicoes[j];
  }

  /** An empty search keeps every employee, in order (given that
      lower-casing the empty string gives the empty string). */
  lemma EmptyTermKeepsAll(funcionarios: seq<Funcionario>, atribuicoes: seq<EPIAtribuicao>, epis: seq<EPI>,
                          lower: string -> string)
    requires lower("") == ""
    ensures FilteredFuncionarios(funcionarios, atribuicoes, epis, "", lower) == funcionarios
  {
    forall i | 0 <= i < |funcionarios|
      ensures SearchTest(atribuicoes, epis, "", lower)(funcionarios[i])
    {
      ContainsEmpty(lower(funcionarios[i].nome));
    }
    FilterKeepsAll(funcionarios, SearchTest(atribuicoes, epis, "", lower));
  }

  /** An assignment together with the item it refers to. */
  datatype Resolved = Resolved(epi: EPI, atribuicao: EPIAtribuicao)

  /** The assignment's item exists. */
  function Resolvable(epis: seq<EPI>): EPIAtribuicao -> bool
  {
    (at: EPIAtribuicao) => EpiOf(epis, at).Some?
  }

  /** The assignment is the employee's and its item exists. */
  function ResolvableFor(funcionarioId: string, epis: seq<EPI>): EPIAtribuicao -> bool
  {
    (at: EPIAtribuicao) => at.funcionarioId == funcionarioId && EpiOf(epis, at).Some?
  }

  /** The assignments in `ats` whose item exists, each with that item, in
      order: the `map(...).filter(...)` of the export handler and of the
      rows. */
  function Resolve(ats: seq<EPIAtribuicao>, epis: seq<EPI>): (r: seq<Resolved>)
    ensures |r| <= |ats|
    ensures forall i :: 0 <= i < |r| ==> r[i].atribuicao in ats && EpiOf(epis, r[i].atribuicao) == Some(r[i].epi)
    ensures forall j :: 0 <= j < |ats| && EpiOf(epis, ats[j]).Some? ==>
              Resolved(EpiOf(epis, ats[j]).value, ats[j]) in r
  {
    if ats == [] then []
    else
      var rest := Resolve(ats[..|ats| - 1], epis);
      var at := ats[|ats| - 1];
      assert ats == ats[..|ats| - 1] + [at];
      match EpiOf(epis, at)
      case None => rest
      case Some(e) => rest + [Resolved(e, at)]
  }

  /** The i-th resolved pair holds the i-th resolvable assignment: one pair
      per such assignment, repetitions included, in the order of `ats`
      (`Seqs.FilterIndices`). */
  lemma {:induction false} ResolveInOrder(ats: seq<EPIAtribuicao>, epis: seq<EPI>)
    ensures |Resolve(ats, epis)| == |Filter(ats, Resolvable(epis))|
    ensures forall i :: 0 <= i < |Resolve(ats, epis)| ==>
              Resolve(ats, epis)[i].atribuicao == Filter(ats, Resolvable(epis))[i]
  {
    if ats != [] {
      var ats', at := ats[..|ats| - 1], ats[|ats| - 1];
      ResolveInOrder(ats', epis);
      match EpiOf(epis, at)
      case None =>
        ResolveStep(Resolve(ats, epis), Resolve(ats', epis), Filter(ats, Resolvable(epis)),
                    Filter(ats', Resolvable(epis)), [], []);
      case Some(e) =>
        ResolveStep(Resolve(ats, epis), Resolve(ats', epis), Filter(ats, Resolvable(epis)),
                    Filter(ats', Resolvable(epis)), [Resolved(e, at)], [at]);
    }
  }

  /** One step of `ResolveInOrder`: appending matching tails keeps the
      pairs aligned with the assignments. */
  lemma ResolveStep(r: seq<Resolved>, r': seq<Resolved>, kept: seq<EPIAtribuicao>, kept': seq<EPIAtribuicao>,
                    tail: seq<Resolved>, tailAts: seq<EPIAtribuicao>)
    requires |r'| == |kept'| && forall i :: 0 <= i < |r'| ==> r'[i].atribuicao == kept'[i]
    requires |tail| == |tailAts| && forall i :: 0 <= i < |tail| ==> tail[i].atribuicao == tailAts[i]
    requires r == r' + tail && kept == kept' + tailAts
    ensures |r| == |kept| && forall i :: 0 <= i < |r| ==> r[i].atribuicao == kept[i]
  {
  }

  /** The employee's assignments that resolve to an item, each with its
      item. */
  function ResolvedFor(funcionario: Funcionario, atribuicoes: seq<EPIAtribuicao>, epis: seq<EPI>): (r: seq<Resolved>)
    ensures forall i :: 0 <= i < |r| ==> r[i].atribuicao in atribuicoes &&
                                          r[i].atribuicao.funcionarioId == funcionario.id &&
                                          EpiOf(epis, r[i].atribuicao) == Some(r[i].epi)
    ensures forall j :: 0 <= j < |atribuicoes| && atribuicoes[j].funcionarioId == funcionario.id &&
                        EpiOf(epis, atribuicoes[j]).Some? ==>
              Resolved(EpiOf(epis, atribuicoes[j]).value, atribuicoes[j]) in r
  {
    var mine := Filter(atribuicoes, OfFuncionario(funcionario.id));
    var r := Resolve(mine, epis);
    assert forall i :: 0 <= i < |r| ==> r[i].atribuicao in mine;
    r
  }

  /** The i-th pair of an employee holds the i-th of the employee's
      assignments whose item exists: one pair per such assignment, in
      assignment order. */
  lemma ResolvedForInOrder(funcionario: Funcionario, atribuicoes: seq<EPIAtribuicao>, epis: seq<EPI>)
    ensures var r, kept := ResolvedFor(funcionario, atribuicoes, epis), Filter(atribuicoes, ResolvableFor(funcionario.id, epis));
            |r| == |kept| && forall i :: 0 <= i < |r| ==> r[i].atribuicao == kept[i]
  {
    var mine := Filter(atribuicoes, OfFuncionario(funcionario.id));
    FilterFilter(atribuicoes, OfFuncionario(funcionario.id), Resolvable(epis), ResolvableFor(funcionario.id, epis));
    ResolveInOrder(mine, epis);
  }

  /** A row of an employee's table: the item with the assignment's expiry in
      place of its own, and the assignment id. */
  datatype EpiRow = EpiRow(epi: EPI, atribuicaoId: string)

  function RowOf(x: Resolved): EpiRow
  {
    EpiRow(x.epi.(validade := x.atribuicao.validade), x.atribuicao.id)
  }

  /** `funcionarioEPIs`: one row per resolvable assignment of the employee,
      showing the assignment's expiry; assignments to unknown items are
      dropped. */
  function EpiRows(funcionario: Funcionario, atribuicoes: seq<EPIAtribuicao>, epis: seq<EPI>): (r: seq<EpiRow>)
    ensures |r| == |ResolvedFor(funcionario, atribuicoes, epis)|
    ensures forall i :: 0 <= i < |r| ==>
              var x := ResolvedFor(funcionario, atribuicoes, epis)[i];
              && r[i].atribuicaoId == x.atribuicao.id
              && r[i].epi.validade == x.atribuicao.validade
              && r[i].epi.(validade := x.epi.validade) == x.epi
  {
    Map(ResolvedFor(funcionario, atribuicoes, epis), RowOf)
  }

  /** `handleExportPDF`: the employee's resolvable assignments with their
      items, refused with an error when there are none. */
  function ExportPdf(funcionario: Funcionario, atribuicoes: seq<EPIAtribuicao>, epis: seq<EPI>): (r: Result<seq<Resolved>>)
    ensures r.Failure? ==> r.error == ErrSemEpis
    ensures r.Failure? <==> forall j :: 0 <= j < |atribuicoes| && atribuicoes[j].funcionarioId == funcionario.id ==>
                                        EpiOf(epis, atribuicoes[j]).None?
    ensures r.Success? ==> r.value == ResolvedFor(funcionario, atribuicoes, epis) && |r.value| > 0
  {
    var xs := ResolvedFor(funcionario, atribuicoes, epis);
    if |xs| == 0 then Failure(ErrSemEpis)
    else
      assert exists j :: 0 <= j < |atribuicoes| && atribuicoes[j] == xs[0].atribuicao;
      Success(xs)
  }

  /** What the assign button does: call `onAssignEPI` and clear the
      employee's selection, or refuse with a message. */
  datatype AssignClick = Assign(epiId: string, funcionarioId: string, selected: map<string, string>)
                       | Refused(error: string)

  /** The click handler of the assign button. An absent or empty selection
      (both falsy) does not call `onAssignEPI`. */
  function ClickAssign(selected: map<string, string>, funcionarioId: string): (r: AssignClick)
    ensures r.Refused? <==> funcionarioId !in selected || selected[funcionarioId] == ""
    ensures r.Refused? ==> r.error == ErrSelecioneEpi
    ensures r.Assign? ==> r.epiId == selected[funcionarioId] && r.funcionarioId == funcionarioId
    ensures r.Assign? ==> r.selected == selected[funcionarioId := ""]
  {
    if funcionarioId in selected && selected[funcionarioId] != "" then
      Assign(selected[funcionarioId], funcionarioId, selected[funcionarioId := ""])
    else
      Refused(ErrSelecioneEpi)
  }

  /** Clicking twice assigns once: the first click clears the selection the
      second would use. Other employees' selections are untouched. */
  lemma SecondClickRefused(selected: map<string, string>, funcionarioId: string, other: string)
    requires ClickAssign(selected, funcionarioId).Assign?
    requires other != funcionarioId
    ensures ClickAssign(ClickAssign(selected, funcionarioId).selected, funcionarioId).Refused?
    ensures other in selected ==> ClickAssign(selected, funcionarioId).selected[other] == selected[other]
  {
  }

  /** The edit form's fields. */
  datatype EditForm = EditForm(nome: string, cpf: string, cargo: string, setor: string)

  /** `handleEditClick`: the form starts from the employee's own fields. */
  function EditClick(f: Funcionario): (r: EditForm)
    ensures r.nome == f.nome && r.cpf == f.cpf && r.cargo == f.cargo && r.setor == f.setor
  {
    EditForm(f.nome, f.cpf, f.cargo, f.setor)
  }

  /** `handleEditSubmit`: `{...editing, ...editForm}` when an employee is
      being edited: the id is kept, the four form fields overwrite. */
  function EditSubmit(editing: Option<Funcionario>, form: EditForm): (r: Option<Funcionario>)
    ensures r.None? <==> editing.None?
    ensures r.Some? ==> r.value.id == editing.value.id
    ensures r.Some? ==> r.value.nome == form.nome && r.value.cpf == form.cpf &&
                        r.value.cargo == form.cargo && r.value.setor == form.setor
  {
    match editing
    case None => None
    case Some(f) => Some(Funcionario(f.id, form.nome, form.cpf, form.cargo, form.setor))
  }

  /** Opening the editor and saving without a change gives back the same
      employee. */
  lemma EditRoundTrip(f: Funcionario)
    ensures EditSubmit(Some(f), EditClick(f)) == Some(f)
  {
  }
}
