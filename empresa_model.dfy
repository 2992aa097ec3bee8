/** The company entity of src/model/Empresa.ts: five "required" guards, a
    minimum password length, and an email length test whose comparison is
    inverted, so that only emails longer than 100 characters pass. `create`
    forwards its arguments without hashing. */
module EmpresaModel {
  import opened Wrappers

  /** A constructed company; `getempresa`, `getcnpj`, `getendereco`,
      `getemail` and `getsenha` are the datatype's destructors. */
  datatype Empresa = Empresa(empresa: string, endereco: string, cnpj: string, email: string, senha: string)

  const MinSenhaLength := 7
  const EmailLimit := 100

  const ErrEmpresaRequired := "Nome da empresa Obrigatório"
  const ErrEnderecoRequired := "Endereço Obrigatório"
  const ErrCnpjRequired := "CNPJ da empresa Obrigatório"
  const ErrEmailRequired := "Email Obrigatório"
  const ErrSenhaRequired := "Senha Obrigatório"
  const ErrSenhaTooShort := "Senha muito curta"
  const ErrEmailTooLong := "Email muito grande"

  /** `new Empresa(...)` / `Empresa.create(...)`. The email test reads
      `email.length <= 100`, so it rejects every ordinary email. */
  function Create(empresa: string, endereco: string, cnpj: string, email: string, senha: string): (r: Result<Empresa>)
    ensures r.Success? <==> empresa != "" && endereco != "" && cnpj != "" && email != "" &&
                            |senha| >= MinSenhaLength && |email| > EmailLimit
    ensures r.Success? ==> r.value == Empresa(empresa, endereco, cnpj, email, senha)
    // The guards, in source order: the first failing one names the message.
    ensures empresa == "" ==> r == Failure(ErrEmpresaRequired)
    ensures empresa != "" && endereco == "" ==> r == Failure(ErrEnderecoRequired)
    ensures empresa != "" && endereco != "" && cnpj == "" ==> r == Failure(ErrCnpjRequired)
    ensures empresa != "" && endereco != "" && cnpj != "" && email == "" ==> r == Failure(ErrEmailRequired)
    ensures empresa != "" && endereco != "" && cnpj != "" && email != "" && senha == "" ==>
              r == Failure(ErrSenhaRequired)
    ensures empresa != "" && endereco != "" && cnpj != "" && email != "" && 0 < |senha| < MinSenhaLength ==>
              r == Failure(ErrSenhaTooShort)
    ensures (empresa != "" && endereco != "" && cnpj != "" && email != "" && |senha| >= MinSenhaLength &&
             |email| <= EmailLimit) ==> r == Failure(ErrEmailTooLong)
  {
    if empresa == "" then Failure(ErrEmpresaRequired)
    else if endereco == "" then Failure(ErrEnderecoRequired)
    else if cnpj == "" then Failure(ErrCnpjRequired)
    else if email == "" then Failure(ErrEmailRequired)
    else if senha == "" then Failure(ErrSenhaRequired)
    else if |senha| <= 6 then Failure(ErrSenhaTooShort)
    else if |email| <= EmailLimit then Failure(ErrEmailTooLong)
    else Success(Empresa(empresa, endereco, cnpj, email, senha))
  }

  /** A record some call of the constructor produced. */
  predicate Constructed(e: Empresa)
  {
    Create(e.empresa, e.endereco, e.cnpj, e.email, e.senha) == Success(e)
  }

  /** The inverted test: every email of 1 to 100 characters is rejected as
      "too long" once the other fields pass, and any longer one passes it. */
  lemma EmailTestInverted(empresa: string, endereco: string, cnpj: string, email: string, senha: string)
    requires empresa != "" && endereco != "" && cnpj != "" && |senha| >= MinSenhaLength
    requires email != ""
    ensures |email| <= EmailLimit ==> Create(empresa, endereco, cnpj, email, senha) == Failure(ErrEmailTooLong)
    ensures |email| > EmailLimit ==> Create(empresa, endereco, cnpj, email, senha).Success?
  {
  }

  /** Passwords of six characters or fewer are rejected; the password is
      stored verbatim. */
  lemma SenhaBoundary(empresa: string, endereco: string, cnpj: string, email: string, senha: string)
    requires empresa != "" && endereco != "" && cnpj != "" && email != ""
    ensures 0 < |senha| <= 6 ==> Create(empresa, endereco, cnpj, email, senha) == Failure(ErrSenhaTooShort)
    ensures |senha| >= MinSenhaLength && |email| > EmailLimit ==>
              Create(empresa, endereco, cnpj, email, senha).value.senha == senha
  {
  }
}
