/** The company service of src/service/Empresa.ts: registration with cnpj
    and endereco swapped, and a login that checks only the first company with
    the given email. The companies are those of src/model/Empresa.ts; the
    `verifyPassword` it calls exists only in api/src/model/Empresa.ts, where
    it is bcrypt's `compareSync(candidate, stored)`: here the parameter
    `compare`. */
module EmpresaService {
  import opened Wrappers
  import opened Seqs
  import opened EmpresaModel

  /** The body of `createEmpresa`. */
  datatype EmpresaData = EmpresaData(empresa: string, endereco: string, cnpj: string, email: string, senha: string)

  const ErrInvalidCredentials := "Email ou senha inválidos"

  function HasEmail(email: string): Empresa -> bool
  {
    (e: Empresa) => e.email == email
  }

  /** The `Empresa.create` call of `createEmpresa`: the request's cnpj goes
      into the address slot and its address into the cnpj slot. */
  function CreateFrom(d: EmpresaData): (r: Result<Empresa>)
    ensures r.Success? ==> r.value.endereco == d.cnpj && r.value.cnpj == d.endereco
    ensures r.Success? ==> r.value == Empresa(d.empresa, d.cnpj, d.endereco, d.email, d.senha)
    ensures r.Success? ==> |r.value.email| > EmailLimit
  {
    Create(d.empresa, d.cnpj, d.endereco, d.email, d.senha)
  }

  class EmpresaService {
    var empresas: seq<Empresa>

    /** Every stored company came out of the constructor. */
    ghost predicate Valid()
      reads this
    {
      forall i :: 0 <= i < |empresas| ==> Constructed(empresas[i])
    }

    /** `new EmpresaService(armazenamento)`. */
    constructor (armazenamento: seq<Empresa>)
      requires forall i :: 0 <= i < |armazenamento| ==> Constructed(armazenamento[i])
      ensures Valid() && empresas == armazenamento
    {
      empresas := armazenamento;
    }

    /** `createEmpresa`: appends exactly one company when construction
        succeeds and nothing otherwise; duplicate emails are allowed. */
    method CreateEmpresa(data: EmpresaData) returns (r: Result<Empresa>)
      requires Valid()
      modifies this
      ensures Valid()
      ensures r == CreateFrom(data)
      ensures empresas == old(empresas) + (if r.Success? then [r.value] else [])
    {
      r := CreateFrom(data);
      if r.Success? {
        empresas := empresas + [r.value];
      }
    }

    /** `autenticar`: the first company with that email if its password
        check passes; the same error for an unknown email and for a wrong
        password. */
    function Autenticar(email: string, senha: string, compare: (string, string) -> bool): (r: Result<Empresa>)
      reads this
      ensures r.Failure? ==> r.error == ErrInvalidCredentials
      ensures (forall i :: 0 <= i < |empresas| ==> empresas[i].email != email) ==> r.Failure?
      ensures r.Success? <==> exists i :: 0 <= i < |empresas| && empresas[i].email == email &&
                                          (forall j :: 0 <= j < i ==> empresas[j].email != email) &&
                                          compare(senha, empresas[i].senha)
      ensures r.Success? ==> exists i :: 0 <= i < |empresas| && empresas[i] == r.value && r.value.email == email &&
                                         forall j :: 0 <= j < i ==> empresas[j].email != email
    {
      match Find(empresas, HasEmail(email))
      case None => Failure(ErrInvalidCredentials)
      case Some(e) => if compare(senha, e.senha) then Success(e) else Failure(ErrInvalidCredentials)
    }

    /** `getEmpresaByemail`: the first company with that email, or none. */
    function GetEmpresaByEmail(email: string): (r: Option<Empresa>)
      reads this
      ensures r.None? <==> forall i :: 0 <= i < |empresas| ==> empresas[i].email != email
      ensures r.Some? ==> exists i :: 0 <= i < |empresas| && empresas[i] == r.value && r.value.email == email &&
                                      forall j :: 0 <= j < i ==> empresas[j].email != email
    {
      Find(empresas, HasEmail(email))
    }

    /** `getEmpresas`: the stored list itself, duplicates included. */
    function GetEmpresas(): (r: seq<Empresa>)
      reads this
      ensures r == empresas
    {
      empresas
    }

    /** Only the first company with an email is ever checked: if its password
        fails, a later duplicate with the right password is not accepted. */
    lemma LaterDuplicateNeverAccepted(email: string, senha: string, compare: (string, string) -> bool, i: nat, k: nat)
      requires i < k < |empresas|
      requires empresas[i].email == email && empresas[k].email == email
      requires forall j :: 0 <= j < i ==> empresas[j].email != email
      requires !compare(senha, empresas[i].senha) && compare(senha, empresas[k].senha)
      ensures Autenticar(email, senha, compare) == Failure(ErrInvalidCredentials)
    {
    }

    /** Because the inverted email test only lets emails of more than 100
        characters through, no stored company has an ordinary email, and
        logging in with one always fails. */
    lemma OrdinaryEmailNeverAuthenticates(email: string, senha: string, compare: (string, string) -> bool)
      requires Valid()
      requires |email| <= EmailLimit
      ensures Autenticar(email, senha, compare) == Failure(ErrInvalidCredentials)
    {
      forall i | 0 <= i < |empresas|
        ensures empresas[i].email != email
      {
        assert Constructed(empresas[i]);
      }
    }
  }
}
