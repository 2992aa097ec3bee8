/** The employee entity of src/model/Funcionario.ts: constructor guards only.
    Four "required" guards in the order nome, cpf, setor, cargo, then four
    length guards (100 characters, except 11 for the CPF). */
module FuncionarioModel {
  import opened Wrappers

  /** A constructed employee, fields in the constructor's declared order. */
  datatype Funcionario = Funcionario(nome: string, cpf: string, setor: string, cargo: string)

  const MaxLength := 100
  const MaxCpfLength := 11

  const ErrNomeRequired := "Nome do funcionário Obrigatório"
  const ErrCpfRequired := "CPF do funcionário Obrigatório"
  const ErrSetorRequired := "Setor do funcionário Obrigatório"
  const ErrCargoRequired := "Cargo do funcionário Obrigatório"
  const ErrNomeTooLong := "Nome muito grande"
  const ErrCpfTooLong := " Necessário 11 digitos"
  const ErrSetorTooLong := "Setor muito grande"
  const ErrCargoTooLong := "Cargo muito grande"

  const RequiredMessages := {ErrNomeRequired, ErrCpfRequired, ErrSetorRequired, ErrCargoRequired}

  /** Every field the "required" guards test is non-empty. */
  predicate Filled(nome: string, cpf: string, setor: string, cargo: string)
  {
    nome != "" && cpf != "" && setor != "" && cargo != ""
  }

  /** `new Funcionario(nome, cpf, setor, cargo)`. */
  function Create(nome: string, cpf: string, setor: string, cargo: string): (r: Result<Funcionario>)
    ensures r.Success? <==> nome != "" && cpf != "" && setor != "" && cargo != "" &&
                            |nome| <= MaxLength && |cpf| <= MaxCpfLength &&
                            |setor| <= MaxLength && |cargo| <= MaxLength
    ensures r.Success? ==> r.value == Funcionario(nome, cpf, setor, cargo)
    ensures (nome == "" || cpf == "" || setor == "" || cargo == "") ==>
              r.Failure? && r.error in RequiredMessages
    // The required guards, in source order: nome, cpf, setor, cargo.
    ensures nome == "" ==> r == Failure(ErrNomeRequired)
    ensures nome != "" && cpf == "" ==> r == Failure(ErrCpfRequired)
    ensures nome != "" && cpf != "" && setor == "" ==> r == Failure(ErrSetorRequired)
    ensures nome != "" && cpf != "" && setor != "" && cargo == "" ==> r == Failure(ErrCargoRequired)
    // Then the length guards, in the same order.
    ensures Filled(nome, cpf, setor, cargo) && |nome| > MaxLength ==> r == Failure(ErrNomeTooLong)
    ensures Filled(nome, cpf, setor, cargo) && |nome| <= MaxLength && |cpf| > MaxCpfLength ==>
              r == Failure(ErrCpfTooLong)
    ensures (Filled(nome, cpf, setor, cargo) && |nome| <= MaxLength && |cpf| <= MaxCpfLength &&
             |setor| > MaxLength) ==> r == Failure(ErrSetorTooLong)
    ensures (Filled(nome, cpf, setor, cargo) && |nome| <= MaxLength && |cpf| <= MaxCpfLength &&
             |setor| <= MaxLength && |cargo| > MaxLength) ==> r == Failure(ErrCargoTooLong)
  {
    if nome == "" then Failure(ErrNomeRequired)
    else if cpf == "" then Failure(ErrCpfRequired)
    else if setor == "" then Failure(ErrSetorRequired)
    else if cargo == "" then Failure(ErrCargoRequired)
    else if |nome| > MaxLength then Failure(ErrNomeTooLong)
    else if |cpf| > MaxCpfLength then Failure(ErrCpfTooLong)
    else if |setor| > MaxLength then Failure(ErrSetorTooLong)
    else if |cargo| > MaxLength then Failure(ErrCargoTooLong)
    else Success(Funcionario(nome, cpf, setor, cargo))
  }

  /** A record some call of the constructor produced. */
  predicate Constructed(f: Funcionario)
  {
    Create(f.nome, f.cpf, f.setor, f.cargo) == Success(f)
  }

  /** Required guards come first and in order: an empty cargo is reported
      even when the name is oversized. */
  lemma CargoReportedBeforeLengths(nome: string, cpf: string, setor: string)
    requires nome != "" && cpf != "" && setor != ""
    ensures Create(nome, cpf, setor, "") == Failure(ErrCargoRequired)
  {
  }
}
