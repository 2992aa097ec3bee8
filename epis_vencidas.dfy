/** The expiry panels of front/src/components/EPIsVencidas.tsx. The whole
    days between an item's expiry and now (date-fns `differenceInDays` of
    `parseISO(validade)` and `new Date()`) are the parameter `daysLeft`, and
    the instant `parseISO(validade).getTime()` the parameter `timeOf`. */
module EpisVencidas {
  import opened Seqs
  import opened FrontTypes

  const NaoAtribuido := "Não atribuído"

  function Expired(daysLeft: string -> int): EPI -> bool
  {
    (e: EPI) => daysLeft(e.validade) < 0
  }

  function Expiring(daysLeft: string -> int): EPI -> bool
  {
    (e: EPI) => 0 <= daysLeft(e.validade) <= 30
  }

  function Healthy(daysLeft: string -> int): EPI -> bool
  {
    (e: EPI) => daysLeft(e.validade) > 60
  }

  /** The sort key of the comparator `parseISO(a.validade).getTime() -
      parseISO(b.validade).getTime()`. */
  function ByValidade(timeOf: string -> int): EPI -> int
  {
    (e: EPI) => timeOf(e.validade)
  }

  /** `epis.filter(keep).sort(by validade)`: the items that pass, earliest
      expiry first. */
  function Panel(epis: seq<EPI>, keep: EPI -> bool, timeOf: string -> int): (r: seq<EPI>)
    ensures SortedBy(r, ByValidade(timeOf))
    ensures multiset(r) == multiset(Filter(epis, keep))
    ensures forall e :: e in r <==> e in epis && keep(e)
  {
    var kept := Filter(epis, keep);
    var r := SortBy(kept, ByValidade(timeOf));
    assert forall e :: e in r <==> e in kept by {
      forall e ensures e in r <==> e in kept {
        assert e in r <==> e in multiset(r);
        assert e in kept <==> e in multiset(kept);
      }
    }
    assert forall e :: e in epis && keep(e) ==> e in kept by {
      forall e | e in epis && keep(e) ensures e in kept {
        var i :| 0 <= i < |epis| && epis[i] == e;
      }
    }
    r
  }

  /** `getExpiredEPIs`: the items whose expiry day has passed, earliest
      first. */
  function ExpiredEPIs(epis: seq<EPI>, daysLeft: string -> int, timeOf: string -> int): (r: seq<EPI>)
    ensures SortedBy(r, ByValidade(timeOf))
    ensures multiset(r) == multiset(Filter(epis, Expired(daysLeft)))
    ensures forall e :: e in r <==> e in epis && daysLeft(e.validade) < 0
  {
    Panel(epis, Expired(daysLeft), timeOf)
  }

  /** `getExpiringEPIs`: the items expiring today or within 30 days, earliest
      first. */
  function ExpiringEPIs(epis: seq<EPI>, daysLeft: string -> int, timeOf: string -> int): (r: seq<EPI>)
    ensures SortedBy(r, ByValidade(timeOf))
    ensures multiset(r) == multiset(Filter(epis, Expiring(daysLeft)))
    ensures forall e :: e in r <==> e in epis && 0 <= daysLeft(e.validade) <= 30
  {
    Panel(epis, Expiring(daysLeft), timeOf)
  }

  /** `getHealthyEPIs`: the items with more than 60 days left, earliest
      first. */
  function HealthyEPIs(epis: seq<EPI>, daysLeft: string -> int, timeOf: string -> int): (r: seq<EPI>)
    ensures SortedBy(r, ByValidade(timeOf))
    ensures multiset(r) == multiset(Filter(epis, Healthy(daysLeft)))
    ensures forall e :: e in r <==> e in epis && daysLeft(e.validade) > 60
  {
    Panel(epis, Healthy(daysLeft), timeOf)
  }

  /** No item is shown in two panels. */
  lemma PanelsDisjoint(epis: seq<EPI>, daysLeft: string -> int, timeOf: string -> int, e: EPI)
    ensures !(e in ExpiredEPIs(epis, daysLeft, timeOf) && e in ExpiringEPIs(epis, daysLeft, timeOf))
    ensures !(e in ExpiredEPIs(epis, daysLeft, timeOf) && e in HealthyEPIs(epis, daysLeft, timeOf))
    ensures !(e in ExpiringEPIs(epis, daysLeft, timeOf) && e in HealthyEPIs(epis, daysLeft, timeOf))
  {
  }

  /** An item with 31 to 60 days left is in no panel at all. */
  lemma MiddleBandShownNowhere(epis: seq<EPI>, daysLeft: string -> int, timeOf: string -> int, e: EPI)
    requires 31 <= daysLeft(e.validade) <= 60
    ensures e !in ExpiredEPIs(epis, daysLeft, timeOf)
    ensures e !in ExpiringEPIs(epis, daysLeft, timeOf)
    ensures e !in HealthyEPIs(epis, daysLeft, timeOf)
  {
  }

  /** Together the panels never show more entries than there are items. */
  lemma {:induction false} PanelsCount(epis: seq<EPI>, daysLeft: string -> int, timeOf: string -> int)
    ensures |ExpiredEPIs(epis, daysLeft, timeOf)| + |ExpiringEPIs(epis, daysLeft, timeOf)| +
            |HealthyEPIs(epis, daysLeft, timeOf)| <= |epis|
  {
    assert |ExpiredEPIs(epis, daysLeft, timeOf)| == |Filter(epis, Expired(daysLeft))| by {
      assert |multiset(ExpiredEPIs(epis, daysLeft, timeOf))| == |multiset(Filter(epis, Expired(daysLeft)))|;
    }
    assert |ExpiringEPIs(epis, daysLeft, timeOf)| == |Filter(epis, Expiring(daysLeft))| by {
      assert |multiset(ExpiringEPIs(epis, daysLeft, timeOf))| == |multiset(Filter(epis, Expiring(daysLeft)))|;
    }
    assert |HealthyEPIs(epis, daysLeft, timeOf)| == |Filter(epis, Healthy(daysLeft))| by {
      assert |multiset(HealthyEPIs(epis, daysLeft, timeOf))| == |multiset(Filter(epis, Healthy(daysLeft)))|;
    }
    FilterCounts(epis, daysLeft);
  }

  /** The three filters select disjoint parts of the list. */
  lemma {:induction false} FilterCounts(epis: seq<EPI>, daysLeft: string -> int)
    ensures |Filter(epis, Expired(daysLeft))| + |Filter(epis, Expiring(daysLeft))| +
            |Filter(epis, Healthy(daysLeft))| <= |epis|
  {
    if epis != [] {
      var s := epis[..|epis| - 1];
      var x := epis[|epis| - 1];
      assert epis == s + [x];
      FilterCounts(s, daysLeft);
      FilterPush(s, x, Expired(daysLeft));
      FilterPush(s, x, Expiring(daysLeft));
      FilterPush(s, x, Healthy(daysLeft));
    }
  }

  /** `getDaysExpired`: the distance in whole days, whatever its sign. */
  function DaysExpired(days: int): (r: nat)
    ensures r == days || r == -days
  {
    if days < 0 then -days else days
  }

  /** For an item in the expired panel the badge counts the days since it
      expired, a positive number. */
  lemma ExpiredBadgePositive(epis: seq<EPI>, daysLeft: string -> int, timeOf: string -> int, e: EPI)
    requires e in ExpiredEPIs(epis, daysLeft, timeOf)
    ensures DaysExpired(daysLeft(e.validade)) == -daysLeft(e.validade) > 0
  {
  }

  /** `funcionarios.find(f => f.id === id)?.nome`, with `undefined` as "". */
  function NameOf(funcionarios: seq<Funcionario>, id: string): (r: string)
    ensures (forall i :: 0 <= i < |funcionarios| ==> funcionarios[i].id != id) ==> r == ""
    ensures (exists i :: 0 <= i < |funcionarios| && funcionarios[i].id == id) ==>
              exists i :: 0 <= i < |funcionarios| && funcionarios[i].id == id && funcionarios[i].nome == r &&
                          forall j :: 0 <= j < i ==> funcionarios[j].id != id
  {
    match Find(funcionarios, HasFuncionarioId(id))
    case None => ""
    case Some(f) => f.nome
  }

  function NonEmpty(s: string): bool
  {
    s != ""
  }

  function FuncionarioIdOf(at: EPIAtribuicao): string
  {
    at.funcionarioId
  }

  /** `atribuicoes.filter(at => at.epiId === epiId).map(at => at.funcionarioId)`. */
  function AssignedIds(epiId: string, atribuicoes: seq<EPIAtribuicao>): (r: seq<string>)
    ensures |r| == |Filter(atribuicoes, OfEpi(epiId))| <= |atribuicoes|
    ensures forall i :: 0 <= i < |r| ==> r[i] == Filter(atribuicoes, OfEpi(epiId))[i].funcionarioId
  {
    Map(Filter(atribuicoes, OfEpi(epiId)), FuncionarioIdOf)
  }

  /** The ids listed for an item are exactly those of its assignments. */
  lemma AssignedIdsExact(epiId: string, atribuicoes: seq<EPIAtribuicao>)
    ensures var r := AssignedIds(epiId, atribuicoes);
            forall i :: 0 <= i < |r| ==> exists at :: at in atribuicoes && at.epiId == epiId && r[i] == at.funcionarioId
    ensures forall at :: at in atribuicoes && at.epiId == epiId ==> at.funcionarioId in AssignedIds(epiId, atribuicoes)
  {
    var ats := Filter(atribuicoes, OfEpi(epiId));
    var ids := AssignedIds(epiId, atribuicoes);
    forall i | 0 <= i < |ids|
      ensures exists at :: at in atribuicoes && at.epiId == epiId && ids[i] == at.funcionarioId
    {
      assert ats[i] in atribuicoes && ats[i].epiId == epiId && ids[i] == ats[i].funcionarioId;
    }
    forall at | at in atribuicoes && at.epiId == epiId
      ensures at.funcionarioId in ids
    {
      var i :| 0 <= i < |ats| && ats[i] == at;
      assert ids[i] == at.funcionarioId;
    }
  }

  /** The assignment gives item `epiId` to employee `funcionarioId`. */
  function AssignsTo(epiId: string, funcionarioId: string): EPIAtribuicao -> bool
  {
    (at: EPIAtribuicao) => at.epiId == epiId && at.funcionarioId == funcionarioId
  }

  /** The i-th id listed is the employee of the item's i-th assignment, and
      each employee is listed once per assignment of the item. */
  lemma AssignedIdsInOrder(epiId: string, atribuicoes: seq<EPIAtribuicao>)
    ensures |AssignedIds(epiId, atribuicoes)| == |Filter(atribuicoes, OfEpi(epiId))|
    ensures forall i :: 0 <= i < |AssignedIds(epiId, atribuicoes)| ==>
              AssignedIds(epiId, atribuicoes)[i] == Filter(atribuicoes, OfEpi(epiId))[i].funcionarioId
    ensures forall id :: multiset(AssignedIds(epiId, atribuicoes))[id] == |Filter(atribuicoes, AssignsTo(epiId, id))|
  {
    forall id
      ensures multiset(AssignedIds(epiId, atribuicoes))[id] == |Filter(atribuicoes, AssignsTo(epiId, id))|
    {
      MapFilterCount(atribuicoes, OfEpi(epiId), FuncionarioIdOf, id, AssignsTo(epiId, id));
    }
  }

  function NameIn(funcionarios: seq<Funcionario>): string -> string
  {
    id => NameOf(funcionarios, id)
  }

  /** `.map(id => ...?.nome).filter(Boolean)`: the known, non-empty names of
      the ids, in order. */
  function KnownNames(ids: seq<string>, funcionarios: seq<Funcionario>): (r: seq<string>)
    ensures |r| <= |ids|
    ensures forall i :: 0 <= i < |r| ==> r[i] != "" && exists j :: 0 <= j < |ids| && NameOf(funcionarios, ids[j]) == r[i]
  {
    Filter(Map(ids, NameIn(funcionarios)), NonEmpty)
  }

  /** The names kept are exactly the non-empty names of the ids, each as
      often as it is looked up. */
  lemma KnownNamesExact(ids: seq<string>, funcionarios: seq<Funcionario>)
    ensures var r := KnownNames(ids, funcionarios);
            forall i :: 0 <= i < |r| ==> r[i] != "" && exists id :: id in ids && r[i] == NameOf(funcionarios, id)
    ensures forall id :: id in ids && NameOf(funcionarios, id) != "" ==> NameOf(funcionarios, id) in KnownNames(ids, funcionarios)
    ensures var names := Map(ids, NameIn(funcionarios));
            forall n | n in names :: multiset(KnownNames(ids, funcionarios))[n] == if n != "" then multiset(names)[n] else 0
  {
    var names := Map(ids, NameIn(funcionarios));
    FilterCountAll(names, NonEmpty);
    var r := KnownNames(ids, funcionarios);
    forall i | 0 <= i < |r|
      ensures r[i] != "" && exists id :: id in ids && r[i] == NameOf(funcionarios, id)
    {
      assert r[i] in names && NonEmpty(r[i]);
      var m :| 0 <= m < |names| && names[m] == r[i];
      assert ids[m] in ids && r[i] == NameOf(funcionarios, ids[m]);
    }
    forall id | id in ids && NameOf(funcionarios, id) != ""
      ensures NameOf(funcionarios, id) in r
    {
      var m :| 0 <= m < |ids| && ids[m] == id;
      assert names[m] == NameOf(funcionarios, id);
    }
  }

  /** The name looked up for an assignment's employee. */
  function AssigneeName(funcionarios: seq<Funcionario>): EPIAtribuicao -> string
  {
    (at: EPIAtribuicao) => NameOf(funcionarios, at.funcionarioId)
  }

  /** The assignment's employee has a non-empty name. */
  function HasAssigneeName(funcionarios: seq<Funcionario>): EPIAtribuicao -> bool
  {
    (at: EPIAtribuicao) => NameOf(funcionarios, at.funcionarioId) != ""
  }

  /** The assignment is of item `epiId` and its employee has a non-empty
      name: the assignments whose name is shown. */
  function ShownAssignment(epiId: string, funcionarios: seq<Funcionario>): EPIAtribuicao -> bool
  {
    (at: EPIAtribuicao) => at.epiId == epiId && NameOf(funcionarios, at.funcionarioId) != ""
  }

  /** The assignment is of item `epiId` and its employee's name is `nome`. */
  function AssignedToNamed(epiId: string, funcionarios: seq<Funcionario>, nome: string): EPIAtribuicao -> bool
  {
    (at: EPIAtribuicao) => at.epiId == epiId && NameOf(funcionarios, at.funcionarioId) == nome
  }

  /** Looking the ids up and dropping empty names is the same as taking the
      item's assignments whose employee has a name, in order, and naming
      each. */
  lemma KnownNamesOfAssignedIds(epiId: string, atribuicoes: seq<EPIAtribuicao>, funcionarios: seq<Funcionario>)
    ensures KnownNames(AssignedIds(epiId, atribuicoes), funcionarios) ==
            Map(Filter(atribuicoes, ShownAssignment(epiId, funcionarios)), AssigneeName(funcionarios))
  {
    var mine := Filter(atribuicoes, OfEpi(epiId));
    MapMap(mine, FuncionarioIdOf, NameIn(funcionarios), AssigneeName(funcionarios));
    FilterMap(mine, AssigneeName(funcionarios), NonEmpty, HasAssigneeName(funcionarios));
    FilterFilter(atribuicoes, OfEpi(epiId), HasAssigneeName(funcionarios), ShownAssignment(epiId, funcionarios));
  }

  /** A non-empty name belongs to the first employee with that id. */
  lemma NameOfKnown(funcionarios: seq<Funcionario>, id: string)
    requires NameOf(funcionarios, id) != ""
    ensures exists k :: 0 <= k < |funcionarios| && funcionarios[k].id == id && funcionarios[k].nome == NameOf(funcionarios, id)
  {
  }

  /** The names shown for an item: for each of its assignments in order, the
      name of the first employee with that id, skipping unknown employees
      and empty names (`filter(Boolean)`). */
  function AssignedNames(epiId: string, atribuicoes: seq<EPIAtribuicao>, funcionarios: seq<Funcionario>): (r: seq<string>)
    ensures forall i :: 0 <= i < |r| ==> r[i] != ""
    ensures forall i :: 0 <= i < |r| ==>
              exists at :: at in atribuicoes && at.epiId == epiId && r[i] == NameOf(funcionarios, at.funcionarioId)
    ensures forall at :: at in atribuicoes && at.epiId == epiId && NameOf(funcionarios, at.funcionarioId) != "" ==>
              NameOf(funcionarios, at.funcionarioId) in r
    ensures r == Map(Filter(atribuicoes, ShownAssignment(epiId, funcionarios)), AssigneeName(funcionarios))
  {
    var ids := AssignedIds(epiId, atribuicoes);
    AssignedIdsExact(epiId, atribuicoes);
    KnownNamesExact(ids, funcionarios);
    AssignedNamesSound(epiId, atribuicoes, funcionarios, ids);
    KnownNamesOfAssignedIds(epiId, atribuicoes, funcionarios);
    KnownNames(ids, funcionarios)
  }

  /** Every name shown is the name looked up for one of the item's
      assignments. */
  lemma AssignedNamesSound(epiId: string, atribuicoes: seq<EPIAtribuicao>, funcionarios: seq<Funcionario>, ids: seq<string>)
    requires ids == AssignedIds(epiId, atribuicoes)
    ensures var r := KnownNames(ids, funcionarios);
            forall i :: 0 <= i < |r| ==>
              exists at :: at in atribuicoes && at.epiId == epiId && r[i] == NameOf(funcionarios, at.funcionarioId)
  {
    var r := KnownNames(ids, funcionarios);
    AssignedIdsExact(epiId, atribuicoes);
    KnownNamesExact(ids, funcionarios);
    forall i | 0 <= i < |r|
      ensures exists at :: at in atribuicoes && at.epiId == epiId && r[i] == NameOf(funcionarios, at.funcionarioId)
    {
      var id :| id in ids && r[i] == NameOf(funcionarios, id);
      var m :| 0 <= m < |ids| && ids[m] == id;
      var at :| at in atribuicoes && at.epiId == epiId && ids[m] == at.funcionarioId;
    }
  }

  /** Each non-empty name is shown once per assignment of the item to an
      employee of that name. */
  lemma AssignedNamesCount(epiId: string, atribuicoes: seq<EPIAtribuicao>, funcionarios: seq<Funcionario>,
                           nome: string)
    requires nome != ""
    ensures multiset(AssignedNames(epiId, atribuicoes, funcionarios))[nome] ==
            |Filter(atribuicoes, AssignedToNamed(epiId, funcionarios, nome))|
  {
    MapFilterCount(atribuicoes, ShownAssignment(epiId, funcionarios), AssigneeName(funcionarios), nome,
                   AssignedToNamed(epiId, funcionarios, nome));
  }

  /** `getFuncionariosComEPI`: the names joined with ", ", or "Não atribuído"
      when none remains. */
  function FuncionariosComEPI(epiId: string, atribuicoes: seq<EPIAtribuicao>, funcionarios: seq<Funcionario>): (r: string)
    ensures AssignedNames(epiId, atribuicoes, funcionarios) == [] ==> r == NaoAtribuido
    ensures AssignedNames(epiId, atribuicoes, funcionarios) != [] ==>
              r == Join(AssignedNames(epiId, atribuicoes, funcionarios), ", ")
  {
    var joined := Join(AssignedNames(epiId, atribuicoes, funcionarios), ", ");
    if joined == "" then NaoAtribuido else joined
  }

  /** An item nobody is assigned to shows "Não atribuído". */
  lemma UnassignedShowsPlaceholder(epiId: string, atribuicoes: seq<EPIAtribuicao>, funcionarios: seq<Funcionario>)
    requires forall at :: at in atribuicoes ==> at.epiId != epiId
    ensures FuncionariosComEPI(epiId, atribuicoes, funcionarios) == NaoAtribuido
  {
  }
}
