/** The company entity of api/src/model/Empresa.ts. The guards are those of
    src/model/Empresa.ts with the email test the right way round (under 100
    characters), `create` hashes the password before the guards see it,
    `verifyPassword` compares against the stored hash, and `setsenha`
    overwrites the stored hash. bcrypt's `hashSync`/`compareSync` are the
    parameters `hash` and `compare`. */
module ApiEmpresaModel {
  import opened Wrappers

  const MinSenhaLength := 7
  const EmailLimit := 100

  const ErrEmpresaRequired := "Nome da empresa Obrigatório"
  const ErrEnderecoRequired := "Endereço Obrigatório"
  const ErrCnpjRequired := "CNPJ da empresa Obrigatório"
  const ErrEmailRequired := "Email Obrigatório"
  const ErrSenhaRequired := "Senha Obrigatório"
  const ErrSenhaTooShort := "Senha muito curta"
  const ErrEmailTooLong := "Email muito grande"

  /** The constructor's guard chain: `None` when every guard passes,
      otherwise the first failing guard's message. */
  function Check(empresa: string, endereco: string, cnpj: string, email: string, senha: string): (r: Option<string>)
    ensures r.None? <==> empresa != "" && endereco != "" && cnpj != "" && email != "" &&
                         |senha| >= MinSenhaLength && |email| < EmailLimit
    // The guards, in source order: the first failing one names the message.
    ensures empresa == "" ==> r == Some(ErrEmpresaRequired)
    ensures empresa != "" && endereco == "" ==> r == Some(ErrEnderecoRequired)
    ensures empresa != "" && endereco != "" && cnpj == "" ==> r == Some(ErrCnpjRequired)
    ensures empresa != "" && endereco != "" && cnpj != "" && email == "" ==> r == Some(ErrEmailRequired)
    ensures empresa != "" && endereco != "" && cnpj != "" && email != "" && senha == "" ==>
              r == Some(ErrSenhaRequired)
    ensures empresa != "" && endereco != "" && cnpj != "" && email != "" && 0 < |senha| < MinSenhaLength ==>
              r == Some(ErrSenhaTooShort)
    ensures (empresa != "" && endereco != "" && cnpj != "" && email != "" && |senha| >= MinSenhaLength &&
             |email| >= EmailLimit) ==> r == Some(ErrEmailTooLong)
  {
    if empresa == "" then Some(ErrEmpresaRequired)
    else if endereco == "" then Some(ErrEnderecoRequired)
    else if cnpj == "" then Some(ErrCnpjRequired)
    else if email == "" then Some(ErrEmailRequired)
    else if senha == "" then Some(ErrSenhaRequired)
    else if |senha| <= 6 then Some(ErrSenhaTooShort)
    else if |email| >= EmailLimit then Some(ErrEmailTooLong)
    else None
  }

  /** The email bound is strict: 99 characters pass, 100 fail. */
  lemma EmailBoundary(email: string)
    ensures |email| == EmailLimit - 1 ==> Check("e", "r", "c", email, "1234567") == None
    ensures |email| == EmailLimit ==> Check("e", "r", "c", email, "1234567") == Some(ErrEmailTooLong)
  {
  }

  /** The password guards see the hash, never the raw password: whenever the
      hash is at least 7 characters long the password guards pass, even for
      an empty password. */
  lemma CreateGuardsSeeHash(empresa: string, endereco: string, cnpj: string, email: string,
                            senha: string, hash: string -> string)
    requires empresa != "" && endereco != "" && cnpj != "" && email != "" && |email| < EmailLimit
    requires |hash(senha)| >= MinSenhaLength
    ensures Check(empresa, endereco, cnpj, email, hash(senha)) == None
  {
  }

  class Empresa {
    var empresa: string
    var endereco: string
    var cnpj: string
    var email: string
    /** The stored password hash. */
    var senha: string

    /** The constructor, reached only once its guards have passed. */
    constructor (empresa: string, endereco: string, cnpj: string, email: string, senha: string)
      requires Check(empresa, endereco, cnpj, email, senha).None?
      ensures this.empresa == empresa && this.endereco == endereco && this.cnpj == cnpj
      ensures this.email == email && this.senha == senha
    {
      this.empresa := empresa;
      this.endereco := endereco;
      this.cnpj := cnpj;
      this.email := email;
      this.senha := senha;
    }

    /** `Empresa.create`: hashes the password, then runs the constructor on
        the hash. */
    static method Create(empresa: string, endereco: string, cnpj: string, email: string, senha: string,
                         hash: string -> string) returns (r: Result<Empresa>)
      ensures r.Failure? <==> Check(empresa, endereco, cnpj, email, hash(senha)).Some?
      ensures r.Failure? ==> r.error == Check(empresa, endereco, cnpj, email, hash(senha)).value
      ensures r.Success? ==> fresh(r.value) && r.value.senha == hash(senha)
      ensures r.Success? ==> r.value.empresa == empresa && r.value.endereco == endereco &&
                             r.value.cnpj == cnpj && r.value.email == email
    {
      var hashed := hash(senha);
      match Check(empresa, endereco, cnpj, email, hashed)
      case Some(msg) =>
        r := Failure(msg);
      case None =>
        var e := new Empresa(empresa, endereco, cnpj, email, hashed);
        r := Success(e);
    }

    /** `verifyPassword`: bcrypt's comparison of the candidate with the
        stored hash. */
    function VerifyPassword(candidate: string, compare: (string, string) -> bool): (ok: bool)
      reads this
      ensures ok <==> compare(candidate, senha)
    {
      compare(candidate, senha)
    }

    /** `setsenha`: stores the hash of the new password without running any
        guard; nothing else changes. */
    method SetSenha(novaSenha: string, hash: string -> string)
      modifies this`senha
      ensures senha == hash(novaSenha)
    {
      senha := hash(novaSenha);
    }
  }
}
