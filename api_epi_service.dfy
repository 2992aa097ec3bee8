/** The equipment service of api/src/service/Epi.ts: an in-memory list of
    equipment records and an append-only delivery history. Records are
    validated by the constructor of src/model/Epi.ts (the call at
    api/src/service/Epi.ts:36-44 uses that parameter order). The clock is the
    parameter `now`; `crypto.randomUUID()` is the parameter `id`. */
module ApiEpiService {
  import opened Wrappers
  import opened Seqs
  import opened EpiModel

  /** One day in milliseconds: `Date.setDate(getDate() + d)` moves the limit
      by `d` days. */
  const DayMs := 86_400_000
  const DefaultDiasLimite := 90

  /** The body of `createEPI` and the `novoEpiData` of `substituirEPI`. */
  datatype EpiData = EpiData(epi: string, ca: string, modoUso: string, validade: Option<Date>,
                             tipo: string, fabricante: string, dataEntrada: Option<Date>)

  /** The body of `updateEPI`: every field may be left `undefined` (`None`). */
  datatype EpiPatch = EpiPatch(epi: Option<string>, ca: Option<string>, modoUso: Option<string>,
                               validade: Option<Date>, tipo: Option<string>, fabricante: Option<string>,
                               dataEntrada: Option<Date>)

  /** A history record of `substituirEPI`. */
  datatype Entrega = Entrega(id: string, identificadorFuncionario: string, epi: Epi, dataEntrega: Date,
                             motivoSubstituicao: string, dataVencimentoPrevisto: Date)

  /** What `updateEPI` yields: `null`, a thrown validation error, or the new
      record. */
  datatype UpdateOutcome = NotFound | Invalid(error: string) | Updated(epi: Epi)

  /** `Epi.create` applied to a request body. */
  function CreateFrom(d: EpiData): Result<Epi>
  {
    Create(d.epi, d.ca, d.modoUso, d.validade, d.tipo, d.fabricante, d.dataEntrada)
  }

  /** The expiry window: from `now` up to `dias` days later, both ends included. */
  predicate InWindow(validade: Date, now: Date, dias: int)
  {
    now <= validade <= now + dias * DayMs
  }

  function HasCa(ca: string): Epi -> bool
  {
    (e: Epi) => e.ca == ca
  }

  function OtherCa(ca: string): Epi -> bool
  {
    (e: Epi) => e.ca != ca
  }

  function ExpiresWithin(now: Date, dias: int): Epi -> bool
  {
    (e: Epi) => InWindow(e.validade, now, dias)
  }

  function DeliveredTo(identificadorFuncionario: string): Entrega -> bool
  {
    (h: Entrega) => h.identificadorFuncionario == identificadorFuncionario
  }

  function Or<T>(o: Option<T>, default: T): T
  {
    if o.Some? then o.value else default
  }

  /** The `Epi.create` call of `updateEPI`: every field supplied in the patch,
      the current value for every field left undefined. */
  function Merge(current: Epi, patch: EpiPatch): (r: Result<Epi>)
    ensures r.Success? ==> r.value.nome == Or(patch.epi, current.nome) && r.value.ca == Or(patch.ca, current.ca)
    ensures r.Success? ==> r.value.modoUso == Or(patch.modoUso, current.modoUso)
    ensures r.Success? ==> r.value.validade == Or(patch.validade, current.validade)
    ensures r.Success? ==> r.value.tipo == Or(patch.tipo, current.tipo)
    ensures r.Success? ==> r.value.fabricante == Or(patch.fabricante, current.fabricante)
    ensures r.Success? ==> r.value.dataEntrada == Or(patch.dataEntrada, current.dataEntrada)
    ensures r.Success? ==> Constructed(r.value)
    ensures patch == EpiPatch(None, None, None, None, None, None, None) && Constructed(current) ==>
              r == Success(current)
  {
    var r := Create(Or(patch.epi, current.nome), Or(patch.ca, current.ca), Or(patch.modoUso, current.modoUso),
                    Some(Or(patch.validade, current.validade)), Or(patch.tipo, current.tipo),
                    Or(patch.fabricante, current.fabricante), Some(Or(patch.dataEntrada, current.dataEntrada)));
    if r.Success? then
      CreateYieldsConstructed(Or(patch.epi, current.nome), Or(patch.ca, current.ca), Or(patch.modoUso, current.modoUso),
                              Some(Or(patch.validade, current.validade)), Or(patch.tipo, current.tipo),
                              Or(patch.fabricante, current.fabricante), Some(Or(patch.dataEntrada, current.dataEntrada)));
      r
    else r
  }

  /** `data.CA && data.CA !== caNumero`: the update moves the record to a new CA. */
  predicate CaChanges(ca: string, patch: EpiPatch)
  {
    patch.ca.Some? && patch.ca.value != "" && patch.ca.value != ca
  }

  /** After a removal by CA, looking that CA up finds nothing. */
  lemma RemovedCaNotFound(s: seq<Epi>, ca: string)
    ensures Find(Filter(s, OtherCa(ca)), HasCa(ca)).None?
  {
  }

  class EPIService {
    var epis: seq<Epi>
    var historico: seq<Entrega>

    /** Every stored record came out of the constructor. */
    ghost predicate Valid()
      reads this
    {
      forall i :: 0 <= i < |epis| ==> Constructed(epis[i])
    }

    /** `new EPIService(armazenamentoEPI)`; the source defaults the list to `[]`. */
    constructor (armazenamento: seq<Epi>)
      requires forall i :: 0 <= i < |armazenamento| ==> Constructed(armazenamento[i])
      ensures Valid() && epis == armazenamento && historico == []
    {
      epis := armazenamento;
      historico := [];
    }

    /** `createEPI`: validates, then appends exactly one record at the end on
        success; duplicate CAs are allowed, and a lookup by CA keeps finding
        the earliest record with it. */
    method CreateEPI(data: EpiData) returns (r: Result<Epi>)
      requires Valid()
      modifies this
      ensures Valid()
      ensures r == CreateFrom(data)
      ensures epis == old(epis) + (if r.Success? then [r.value] else [])
      ensures historico == old(historico)
      ensures r.Success? ==> GetEPIByCA(data.ca) ==
                               if old(GetEPIByCA(data.ca)).Some? then old(GetEPIByCA(data.ca)) else Some(r.value)
    {
      r := CreateFrom(data);
      if r.Success? {
        CreateYieldsConstructed(data.epi, data.ca, data.modoUso, data.validade, data.tipo, data.fabricante, data.dataEntrada);
        FindPush(epis, r.value, HasCa(data.ca));
        epis := epis + [r.value];
      }
    }

    /** `getEPIByCA`: the first record with that CA, or none. */
    function GetEPIByCA(ca: string): (r: Option<Epi>)
      reads this
      ensures r.None? <==> forall i :: 0 <= i < |epis| ==> epis[i].ca != ca
      ensures r.Some? ==> exists i :: 0 <= i < |epis| && epis[i] == r.value && r.value.ca == ca &&
                                      forall j :: 0 <= j < i ==> epis[j].ca != ca
    {
      Find(epis, HasCa(ca))
    }

    /** `visualizarCAsProximosDeVencer(diasLimite = 90)`: in list order, the
        records whose expiry lies in the window; the list is only read. */
    function VisualizarCAsProximosDeVencer(now: Date, diasLimite: int := DefaultDiasLimite): (r: seq<Epi>)
      reads this
      ensures forall i :: 0 <= i < |r| ==> r[i] in epis && InWindow(r[i].validade, now, diasLimite)
      ensures forall i :: 0 <= i < |epis| && InWindow(epis[i].validade, now, diasLimite) ==> epis[i] in r
      ensures forall e | e in epis :: multiset(r)[e] == if InWindow(e.validade, now, diasLimite) then multiset(epis)[e] else 0
      ensures r == Filter(epis, ExpiresWithin(now, diasLimite))
    {
      FilterCountAll(epis, ExpiresWithin(now, diasLimite));
      Filter(epis, ExpiresWithin(now, diasLimite))
    }

    /** `substituirEPI`: finds the record by CA, creating it when it is
        unknown, then appends one history record. A known CA leaves the list
        alone and logs the stored record with its stored expiry (the supplied
        fields are ignored); a creation that throws changes nothing. */
    method SubstituirEPI(identificadorFuncionario: string, novo: EpiData, motivo: string,
                         id: string, now: Date) returns (r: Result<Entrega>)
      requires Valid()
      modifies this
      ensures Valid()
      ensures old(GetEPIByCA(novo.ca)).Some? ==>
                epis == old(epis) &&
                r == Success(Entrega(id, identificadorFuncionario, old(GetEPIByCA(novo.ca)).value, now, motivo,
                                     old(GetEPIByCA(novo.ca)).value.validade))
      ensures old(GetEPIByCA(novo.ca)).None? && CreateFrom(novo).Failure? ==>
                epis == old(epis) && r == Failure(CreateFrom(novo).error)
      ensures old(GetEPIByCA(novo.ca)).None? && CreateFrom(novo).Success? ==>
                epis == old(epis) + [CreateFrom(novo).value] &&
                r == Success(Entrega(id, identificadorFuncionario, CreateFrom(novo).value, now, motivo,
                                     CreateFrom(novo).value.validade))
      ensures historico == old(historico) + (if r.Success? then [r.value] else [])
      ensures r.Success? ==> GetHistoricoEntregas(identificadorFuncionario) ==
                             old(GetHistoricoEntregas(identificadorFuncionario)) + [r.value]
    {
      var found := GetEPIByCA(novo.ca);
      var epi: Epi;
      if found.Some? {
        epi := found.value;
      } else {
        var created := CreateEPI(novo);
        if created.Failure? {
          return Failure(created.error);
        }
        epi := created.value;
      }
      var registro := Entrega(id, identificadorFuncionario, epi, now, motivo, epi.validade);
      assert Filter(historico + [registro], DeliveredTo(identificadorFuncionario)) ==
             Filter(historico, DeliveredTo(identificadorFuncionario)) + [registro] by {
        FilterPush(historico, registro, DeliveredTo(identificadorFuncionario));
      }
      historico := historico + [registro];
      r := Success(registro);
    }

    /** `getHistoricoEntregas`: the history records of one employee, in the
        order they were logged. */
    function GetHistoricoEntregas(identificadorFuncionario: string): (r: seq<Entrega>)
      reads this
      ensures forall i :: 0 <= i < |r| ==> r[i] in historico && r[i].identificadorFuncionario == identificadorFuncionario
      ensures forall i :: 0 <= i < |historico| && historico[i].identificadorFuncionario == identificadorFuncionario ==>
                historico[i] in r
      ensures forall h | h in historico ::
                multiset(r)[h] == if h.identificadorFuncionario == identificadorFuncionario then multiset(historico)[h] else 0
      ensures r == Filter(historico, DeliveredTo(identificadorFuncionario))
    {
      FilterCountAll(historico, DeliveredTo(identificadorFuncionario));
      Filter(historico, DeliveredTo(identificadorFuncionario))
    }

    /** `updateEPI`: `null` for an unknown CA; otherwise the merged record is
        validated (a throw leaves the list alone). Without a CA change it
        replaces the first record with that CA in place; with one, every
        record with the old CA is removed and the new one appended. */
    method UpdateEPI(ca: string, patch: EpiPatch) returns (r: UpdateOutcome)
      requires Valid()
      modifies this
      ensures Valid()
      ensures historico == old(historico)
      ensures old(FirstIndex(epis, HasCa(ca))).None? ==> r == NotFound && epis == old(epis)
      ensures old(FirstIndex(epis, HasCa(ca))).Some? ==>
                var i := old(FirstIndex(epis, HasCa(ca))).value;
                var merged := Merge(old(epis)[i], patch);
                && (merged.Failure? ==> r == Invalid(merged.error) && epis == old(epis))
                && (merged.Success? && CaChanges(ca, patch) ==>
                      r == Updated(merged.value) && epis == Filter(old(epis), OtherCa(ca)) + [merged.value])
                && (merged.Success? && !CaChanges(ca, patch) ==>
                      r == Updated(merged.value) && epis == old(epis)[i := merged.value])
    {
      var index := FirstIndex(epis, HasCa(ca));
      if index.None? {
        return NotFound;
      }
      var i := index.value;
      var merged := Merge(epis[i], patch);
      if merged.Failure? {
        return Invalid(merged.error);
      }
      if CaChanges(ca, patch) {
        epis := Filter(epis, OtherCa(ca)) + [merged.value];
      } else {
        epis := epis[i := merged.value];
      }
      r := Updated(merged.value);
    }

    /** `removeEPI`: drops every record with the CA, keeping the others in
        order, and reports whether anything was removed. */
    method RemoveEPI(ca: string) returns (removed: bool)
      requires Valid()
      modifies this
      ensures Valid()
      ensures epis == Filter(old(epis), OtherCa(ca))
      ensures removed <==> exists i :: 0 <= i < |old(epis)| && old(epis)[i].ca == ca
      ensures forall i :: 0 <= i < |epis| ==> epis[i].ca != ca
      ensures historico == old(historico)
    {
      var antes := |epis|;
      FilterShrinks(epis, OtherCa(ca));
      epis := Filter(epis, OtherCa(ca));
      removed := |epis| < antes;
    }
  }
}
