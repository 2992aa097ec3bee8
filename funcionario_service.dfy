/** The employee service of src/service/Funcionario.ts: a list of employees,
    a list of certificate records and an append-only substitution history.
    Employees are validated by the constructor guards of
    src/model/Funcionario.ts, called with cargo and setor swapped. The clock
    is the parameter `now`; the two `crypto.randomUUID()` calls of
    `substituirEPI` are the parameters `epiId` and `registroId`. */
module FuncionarioService {
  import opened Wrappers
  import opened Seqs
  import opened FuncionarioModel
  import Api = ApiEpiService

  type Date = int

  /** The service's own certificate record. */
  datatype EpiCa = EpiCa(id: string, nomeEPI: string, caNumero: string, caValidade: Date)

  /** The data of a substitution: the certificate fields without an id. */
  datatype NovoEpi = NovoEpi(nomeEPI: string, caNumero: string, caValidade: Date)

  /** A substitution history record. */
  datatype HistoricoEPI = HistoricoEPI(id: string, funcionarioCpf: string, epi: EpiCa, dataEntrega: Date,
                                       dataVencimentoPrevisto: Date, motivoSubstituicao: string)

  /** The body of `createFuncionario`. */
  datatype FuncionarioData = FuncionarioData(nome: string, cpf: string, setor: string, cargo: string)

  function HasCpf(cpf: string): Funcionario -> bool
  {
    (f: Funcionario) => f.cpf == cpf
  }

  function CaExpiresWithin(now: Date, dias: int): EpiCa -> bool
  {
    (e: EpiCa) => Api.InWindow(e.caValidade, now, dias)
  }

  function OfFuncionario(cpf: string): HistoricoEPI -> bool
  {
    (h: HistoricoEPI) => h.funcionarioCpf == cpf
  }

  /** The message of the error `substituirEPI` throws for an unknown CPF. */
  function NotFoundMessage(cpf: string): string
  {
    "Funcionário com CPF " + cpf + " não encontrado."
  }

  /** The constructor call of `createFuncionario`: `(nome, cpf, cargo, setor)`
      against the declared order `(nome, cpf, setor, cargo)`, so the stored
      sector is the request's role and the stored role its sector. */
  function CreateFrom(d: FuncionarioData): (r: Result<Funcionario>)
    ensures r.Success? ==> r.value == Funcionario(d.nome, d.cpf, d.cargo, d.setor)
    ensures r.Success? ==> r.value.setor == d.cargo && r.value.cargo == d.setor
    ensures d.nome == "" ==> r == Failure(ErrNomeRequired)
  {
    Create(d.nome, d.cpf, d.cargo, d.setor)
  }

  class FuncionarioService {
    var lista: seq<Funcionario>
    var listaEPIs: seq<EpiCa>
    var historicoEPI: seq<HistoricoEPI>

    /** Every stored employee came out of the constructor of
        src/model/Funcionario.ts. */
    ghost predicate Valid()
      reads this
    {
      forall i :: 0 <= i < |lista| ==> Constructed(lista[i])
    }

    /** `new FuncionarioService(armazenamentoFuncionario)`. */
    constructor (armazenamento: seq<Funcionario>)
      requires forall i :: 0 <= i < |armazenamento| ==> Constructed(armazenamento[i])
      ensures Valid() && lista == armazenamento && listaEPIs == [] && historicoEPI == []
    {
      lista := armazenamento;
      listaEPIs := [];
      historicoEPI := [];
    }

    /** `createFuncionario`: appends exactly one employee when the guards pass
        and nothing otherwise. */
    method CreateFuncionario(data: FuncionarioData) returns (r: Result<Funcionario>)
      requires Valid()
      modifies this
      ensures Valid()
      ensures r == CreateFrom(data)
      ensures lista == old(lista) + (if r.Success? then [r.value] else [])
      ensures listaEPIs == old(listaEPIs) && historicoEPI == old(historicoEPI)
    {
      r := CreateFrom(data);
      if r.Success? {
        lista := lista + [r.value];
      }
    }

    /** `consultarFuncionario({cpf})`: nothing when the CPF is absent or
        empty, otherwise the first employee with that CPF, if any. */
    function ConsultarFuncionario(cpf: Option<string>): (r: Option<Funcionario>)
      reads this
      ensures cpf.None? || cpf == Some("") ==> r.None?
      ensures cpf.Some? && cpf.value != "" ==>
                (r.None? <==> forall i :: 0 <= i < |lista| ==> lista[i].cpf != cpf.value)
      ensures r.Some? ==> exists i :: 0 <= i < |lista| && lista[i] == r.value && r.value.cpf == cpf.value &&
                                      forall j :: 0 <= j < i ==> lista[j].cpf != cpf.value
      ensures Valid() && r.Some? ==> Constructed(r.value)
      ensures Valid() && cpf.Some? && |cpf.value| > MaxCpfLength ==> r.None?
    {
      if cpf.Some? && cpf.value != "" then Find(lista, HasCpf(cpf.value)) else None
    }

    /** `visualizarCAsProximosDeVencer(diasLimite = 90)`: in list order, the
        certificate records expiring within the window. */
    function VisualizarCAsProximosDeVencer(now: Date, diasLimite: int := Api.DefaultDiasLimite): (r: seq<EpiCa>)
      reads this
      ensures forall i :: 0 <= i < |r| ==> r[i] in listaEPIs && Api.InWindow(r[i].caValidade, now, diasLimite)
      ensures forall i :: 0 <= i < |listaEPIs| && Api.InWindow(listaEPIs[i].caValidade, now, diasLimite) ==>
                listaEPIs[i] in r
      ensures forall e | e in listaEPIs ::
                multiset(r)[e] == if Api.InWindow(e.caValidade, now, diasLimite) then multiset(listaEPIs)[e] else 0
      ensures r == Filter(listaEPIs, CaExpiresWithin(now, diasLimite))
    {
      FilterCountAll(listaEPIs, CaExpiresWithin(now, diasLimite));
      Filter(listaEPIs, CaExpiresWithin(now, diasLimite))
    }

    /** Some stored employee has this CPF. */
    predicate Registered(cpf: string)
      reads this
    {
      exists i :: 0 <= i < |lista| && lista[i].cpf == cpf
    }

    /** `substituirEPI`: throws for an unknown CPF, changing nothing;
        otherwise appends one certificate record (the supplied fields and a
        fresh id) and one history record that expires with it. The employee
        list is never touched. */
    method SubstituirEPI(funcionarioCpf: string, novo: NovoEpi, motivo: string,
                         epiId: string, registroId: string, now: Date) returns (r: Result<HistoricoEPI>)
      requires Valid()
      modifies this`listaEPIs, this`historicoEPI
      ensures Valid()
      ensures lista == old(lista)
      ensures !Registered(funcionarioCpf) ==>
                r == Failure(NotFoundMessage(funcionarioCpf)) &&
                listaEPIs == old(listaEPIs) && historicoEPI == old(historicoEPI)
      ensures Registered(funcionarioCpf) ==>
                var e := EpiCa(epiId, novo.nomeEPI, novo.caNumero, novo.caValidade);
                && listaEPIs == old(listaEPIs) + [e]
                && r == Success(HistoricoEPI(registroId, funcionarioCpf, e, now, e.caValidade, motivo))
                && historicoEPI == old(historicoEPI) + [r.value]
      ensures r.Success? ==> GetHistoricoEPI(funcionarioCpf) == old(GetHistoricoEPI(funcionarioCpf)) + [r.value]
    {
      var funcionario := Find(lista, HasCpf(funcionarioCpf));
      if funcionario.None? {
        assert forall i :: 0 <= i < |lista| ==> !HasCpf(funcionarioCpf)(lista[i]);
        return Failure(NotFoundMessage(funcionarioCpf));
      }
      ghost var k :| 0 <= k < |lista| && lista[k] == funcionario.value && HasCpf(funcionarioCpf)(lista[k]);
      assert lista[k].cpf == funcionarioCpf;
      var novoEpi := EpiCa(epiId, novo.nomeEPI, novo.caNumero, novo.caValidade);
      listaEPIs := listaEPIs + [novoEpi];
      var historico := HistoricoEPI(registroId, funcionarioCpf, novoEpi, now, novoEpi.caValidade, motivo);
      assert Filter(historicoEPI + [historico], OfFuncionario(funcionarioCpf)) ==
             Filter(historicoEPI, OfFuncionario(funcionarioCpf)) + [historico] by {
        FilterPush(historicoEPI, historico, OfFuncionario(funcionarioCpf));
      }
      historicoEPI := historicoEPI + [historico];
      r := Success(historico);
    }

    /** `getFuncionarios`: the stored list itself, duplicates included. */
    function GetFuncionarios(): (r: seq<Funcionario>)
      reads this
      ensures r == lista
    {
      lista
    }

    /** `getHistoricoEPI`: the history records of one CPF, in the order they
        were logged. */
    function GetHistoricoEPI(funcionarioCpf: string): (r: seq<HistoricoEPI>)
      reads this
      ensures forall i :: 0 <= i < |r| ==> r[i] in historicoEPI && r[i].funcionarioCpf == funcionarioCpf
      ensures forall i :: 0 <= i < |historicoEPI| && historicoEPI[i].funcionarioCpf == funcionarioCpf ==>
                historicoEPI[i] in r
      ensures forall h | h in historicoEPI ::
                multiset(r)[h] == if h.funcionarioCpf == funcionarioCpf then multiset(historicoEPI)[h] else 0
      ensures r == Filter(historicoEPI, OfFuncionario(funcionarioCpf))
    {
      FilterCountAll(historicoEPI, OfFuncionario(funcionarioCpf));
      Filter(historicoEPI, OfFuncionario(funcionarioCpf))
    }
  }
}
