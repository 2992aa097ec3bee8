/** The employee registration form front/src/components/FuncionarioForm.tsx:
    its own CPF mask, which leaves inputs of more than eleven digits alone,
    and the submit, which sends the bare digits and hands the new employee
    (identified by those digits) to the page. The API call is the parameter
    `apiError` (`None` when it resolves, `Some(message)` when it throws). */
module FuncionarioForm {
  import opened Wrappers
  import opened Masks
  import opened FrontTypes

  /** This component's `formatCPF`: the mask of Index.tsx while there are at
      most eleven digits, the typed value untouched beyond that. */
  function GuardedFormatCpf(value: string): (r: string)
    ensures |Digits(value)| <= 11 ==> r == FormatCpf(value)
    ensures |Digits(value)| > 11 ==> r == value
  {
    if |Digits(value)| <= 11 then CpfChain(Digits(value)) else value
  }

  /** Up to eleven digits the guarded mask is the shared one, and it keeps
      every typed digit. */
  lemma GuardedFormatCpfShort(value: string)
    requires |Digits(value)| <= 11
    ensures GuardedFormatCpf(value) == FormatCpf(value)
    ensures Digits(GuardedFormatCpf(value)) == Digits(value)
  {
    FormatCpfDigits(value);
  }

  /** Beyond eleven digits nothing is masked or cut: the field keeps the
      extra digits, where the shared mask would drop them. */
  lemma GuardedFormatCpfLong(value: string)
    requires |Digits(value)| > 11
    ensures GuardedFormatCpf(value) == value
    ensures |Digits(GuardedFormatCpf(value))| > 11
    ensures |Digits(FormatCpf(value))| == 11
  {
    FormatCpfDigits(value);
  }

  /** Re-applying the mask on the next keystroke changes nothing. */
  lemma GuardedFormatCpfIdempotent(value: string)
    ensures GuardedFormatCpf(GuardedFormatCpf(value)) == GuardedFormatCpf(value)
  {
    if |Digits(value)| <= 11 {
      GuardedFormatCpfShort(value);
      GuardedFormatCpfShort(GuardedFormatCpf(value));
      FormatCpfIdempotent(value);
    }
  }

  /** The form's fields. */
  datatype FormData = FormData(nome: string, cpf: string, cargo: string, setor: string)

  const EmptyForm := FormData("", "", "", "")

  /** The body of `FuncionarioAPI.criar`. */
  datatype CriarRequest = CriarRequest(nome: string, cpf: string, cargo: string, setor: string)

  /** The component after a submit: its form, the request sent, the employee
      handed to `onAdd` (if any) and the error shown (if any). */
  datatype SubmitStep = SubmitStep(form: FormData, request: CriarRequest, added: Option<Funcionario>,
                                   error: Option<string>)

  /** The CPF field's `onChange`: the typed text goes through the mask. */
  function TypeCpf(form: FormData, typed: string): (r: FormData)
    ensures r.nome == form.nome && r.cargo == form.cargo && r.setor == form.setor
    ensures r.cpf == GuardedFormatCpf(typed)
    ensures |Digits(typed)| <= 11 ==> r.cpf == FormatCpf(typed) && Digits(r.cpf) == Digits(typed)
    ensures |Digits(typed)| > 11 ==> r.cpf == typed
  {
    if |Digits(typed)| <= 11 then
      GuardedFormatCpfShort(typed);
      form.(cpf := GuardedFormatCpf(typed))
    else
      form.(cpf := GuardedFormatCpf(typed))
  }

  /** `handleSubmit`: the request always goes out with the CPF's digits; on
      success the new employee has those digits as its id and the typed CPF
      as its `cpf`, and the form is cleared; on failure the form stays. */
  function Submit(form: FormData, apiError: Option<string>): (r: SubmitStep)
    ensures r.request == CriarRequest(form.nome, Digits(form.cpf), form.cargo, form.setor)
    ensures AllDigits(r.request.cpf)
    ensures apiError.None? ==>
              r.added == Some(Funcionario(Digits(form.cpf), form.nome, form.cpf, form.cargo, form.setor)) &&
              r.form == EmptyForm && r.error.None?
    ensures apiError.Some? ==> r.added.None? && r.form == form && r.error == apiError
  {
    var cpfNumeros := Digits(form.cpf);
    var request := CriarRequest(form.nome, cpfNumeros, form.cargo, form.setor);
    match apiError
    case None => SubmitStep(EmptyForm, request, Some(Funcionario(cpfNumeros, form.nome, form.cpf, form.cargo, form.setor)), None)
    case Some(message) => SubmitStep(form, request, None, Some(message))
  }

  /** The id the page receives is the CPF the server stored, and its masked
      form is the CPF shown: typing at most eleven digits and submitting
      yields an employee whose id is those digits and whose `cpf` is their
      mask. */
  lemma SubmittedIdMatchesTypedCpf(form: FormData, typed: string)
    requires |Digits(typed)| <= 11
    ensures var step := Submit(TypeCpf(form, typed), None);
            step.added.Some? && step.added.value.id == Digits(typed) &&
            step.added.value.id == step.request.cpf &&
            step.added.value.cpf == FormatCpf(typed) && FormatCpf(step.added.value.id) == step.added.value.cpf
  {
    GuardedFormatCpfShort(typed);
    DigitsIdempotent(typed);
    assert FormatCpf(Digits(typed)) == CpfChain(Digits(Digits(typed)));
  }
}
