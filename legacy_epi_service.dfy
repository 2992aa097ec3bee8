/** The older equipment service of src/service/Epi.ts. Its `createEPI` hands
    the request fields to `Epi.create` in shuffled positions, and its
    `substituirEPI` always creates a new record. The history record and the
    expiry window are those of api/src/service/Epi.ts. */
module LegacyEpiService {
  import opened Wrappers
  import opened Seqs
  import opened EpiModel
  import Api = ApiEpiService

  /** The body of `createEPI` and `substituirEPI`, in the source's field order. */
  datatype EpiData = EpiData(epi: string, tipo: string, ca: string, validade: Option<Date>, modouso: string,
                             fabricante: string, dataEntrada: Option<Date>, cpfdofuncionario: string)

  /** The `Epi.create` call of `createEPI`: `(epi, tipo, CA, validade, modouso,
      fabricante, data_entrada, cpfdofuncionario)` against the parameters
      `(epi, CA, modo_uso, validade, tipo, fabricante, data_entrada)`. The
      stored CA is the request's `tipo`, the stored usage text its `CA`, the
      stored type its `modouso`; the eighth argument is dropped. */
  function CreateFrom(d: EpiData): (r: Result<Epi>)
    ensures r.Success? <==> d.tipo != "" && d.validade.Some? && d.modouso != "" && d.fabricante != "" &&
                            d.dataEntrada.Some? && d.ca != "" &&
                            |d.epi| <= MaxLength && |d.tipo| <= MaxLength && |d.modouso| <= MaxLength &&
                            |d.fabricante| <= MaxLength
    ensures r.Success? ==> r.value == Epi(d.epi, d.tipo, d.ca, d.validade.value, d.modouso, d.fabricante,
                                          d.dataEntrada.value)
  {
    Create(d.epi, d.tipo, d.ca, d.validade, d.modouso, d.fabricante, d.dataEntrada)
  }

  /** The CA length guard measures the request's `tipo`: a 101-character type
      is rejected as an oversized CA, whatever the request's CA is. */
  lemma CaGuardSeesTipo(d: EpiData)
    requires d.validade.Some? && d.dataEntrada.Some?
    requires d.ca != "" && d.modouso != "" && d.fabricante != "" && |d.epi| <= MaxLength
    requires |d.tipo| == MaxLength + 1
    ensures CreateFrom(d) == Failure(ErrCaTooLong)
  {
  }

  /** The employee's CPF has no effect on the created record. */
  lemma CpfIgnored(d: EpiData, cpf: string)
    ensures CreateFrom(d.(cpfdofuncionario := cpf)) == CreateFrom(d)
  {
  }

  class EPIService {
    var lista: seq<Epi>
    var historico: seq<Api.Entrega>

    /** Every stored record came out of the constructor. */
    ghost predicate Valid()
      reads this
    {
      forall i :: 0 <= i < |lista| ==> Constructed(lista[i])
    }

    /** `new EPIService(armazenamentoEPI)`. */
    constructor (armazenamento: seq<Epi>)
      requires forall i :: 0 <= i < |armazenamento| ==> Constructed(armazenamento[i])
      ensures Valid() && lista == armazenamento && historico == []
    {
      lista := armazenamento;
      historico := [];
    }

    /** `createEPI`: appends exactly one record at the end when validation
        succeeds and nothing otherwise. Looking up the request's `tipo` then
        finds the new record, unless an earlier record shadows it. */
    method CreateEPI(data: EpiData) returns (r: Result<Epi>)
      requires Valid()
      modifies this
      ensures Valid()
      ensures r == CreateFrom(data)
      ensures lista == old(lista) + (if r.Success? then [r.value] else [])
      ensures historico == old(historico)
      ensures r.Success? ==> GetEPIByCA(data.tipo) ==
                               if old(GetEPIByCA(data.tipo)).Some? then old(GetEPIByCA(data.tipo)) else Some(r.value)
    {
      r := CreateFrom(data);
      if r.Success? {
        CreateYieldsConstructed(data.epi, data.tipo, data.ca, data.validade, data.modouso, data.fabricante,
                                data.dataEntrada);
        FindPush(lista, r.value, Api.HasCa(data.tipo));
        lista := lista + [r.value];
      }
    }

    /** `getEPIByCA`: the first record whose stored CA, which is the `tipo` it
        was created with, equals the argument. */
    function GetEPIByCA(ca: string): (r: Option<Epi>)
      reads this
      ensures r.None? <==> forall i :: 0 <= i < |lista| ==> lista[i].ca != ca
      ensures r.Some? ==> exists i :: 0 <= i < |lista| && lista[i] == r.value && r.value.ca == ca &&
                                      forall j :: 0 <= j < i ==> lista[j].ca != ca
    {
      Find(lista, Api.HasCa(ca))
    }

    /** `visualizarCAsProximosDeVencer(diasLimite = 90)`: in list order, the
        records expiring within the window. */
    function VisualizarCAsProximosDeVencer(now: Date, diasLimite: int := Api.DefaultDiasLimite): (r: seq<Epi>)
      reads this
      ensures forall i :: 0 <= i < |r| ==> r[i] in lista && Api.InWindow(r[i].validade, now, diasLimite)
      ensures forall i :: 0 <= i < |lista| && Api.InWindow(lista[i].validade, now, diasLimite) ==> lista[i] in r
      ensures forall e | e in lista ::
                multiset(r)[e] == if Api.InWindow(e.validade, now, diasLimite) then multiset(lista)[e] else 0
      ensures r == Filter(lista, Api.ExpiresWithin(now, diasLimite))
    {
      FilterCountAll(lista, Api.ExpiresWithin(now, diasLimite));
      Filter(lista, Api.ExpiresWithin(now, diasLimite))
    }

    /** `substituirEPI`: never looks for an existing record; every successful
        call appends one record and one history entry that carries the new
        record's expiry. A creation that throws changes nothing. */
    method SubstituirEPI(identificadorFuncionario: string, novo: EpiData, motivo: string,
                         id: string, now: Date) returns (r: Result<Api.Entrega>)
      requires Valid()
      modifies this
      ensures Valid()
      ensures CreateFrom(novo).Failure? ==>
                r == Failure(CreateFrom(novo).error) && lista == old(lista) && historico == old(historico)
      ensures CreateFrom(novo).Success? ==>
                var e := CreateFrom(novo).value;
                && lista == old(lista) + [e]
                && r == Success(Api.Entrega(id, identificadorFuncionario, e, now, motivo, e.validade))
                && historico == old(historico) + [r.value]
      ensures r.Success? ==> GetHistoricoEntregas(identificadorFuncionario) ==
                             old(GetHistoricoEntregas(identificadorFuncionario)) + [r.value]
    {
      var novoEpi := CreateEPI(novo);
      if novoEpi.Failure? {
        return Failure(novoEpi.error);
      }
      var registro := Api.Entrega(id, identificadorFuncionario, novoEpi.value, now, motivo, novoEpi.value.validade);
      assert Filter(historico + [registro], Api.DeliveredTo(identificadorFuncionario)) ==
             Filter(historico, Api.DeliveredTo(identificadorFuncionario)) + [registro] by {
        FilterPush(historico, registro, Api.DeliveredTo(identificadorFuncionario));
      }
      historico := historico + [registro];
      r := Success(registro);
    }

    /** `getHistoricoEntregas`: one employee's history records in the order
        they were logged. */
    function GetHistoricoEntregas(identificadorFuncionario: string): (r: seq<Api.Entrega>)
      reads this
      ensures forall i :: 0 <= i < |r| ==> r[i] in historico && r[i].identificadorFuncionario == identificadorFuncionario
      ensures forall i :: 0 <= i < |historico| && historico[i].identificadorFuncionario == identificadorFuncionario ==>
                historico[i] in r
      ensures forall h | h in historico ::
                multiset(r)[h] == if h.identificadorFuncionario == identificadorFuncionario then multiset(historico)[h] else 0
      ensures r == Filter(historico, Api.DeliveredTo(identificadorFuncionario))
    {
      FilterCountAll(historico, Api.DeliveredTo(identificadorFuncionario));
      Filter(historico, Api.DeliveredTo(identificadorFuncionario))
    }
  }
}
