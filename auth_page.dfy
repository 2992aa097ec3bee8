/** The login/registration page front/src/pages/Auth.tsx: the CNPJ and phone
    input masks and the registration submit (password confirmation, request,
    form reset). The API call is the parameter `apiError` (`None` when it
    resolves, `Some(message)` when it throws). */
module AuthPage {
  import opened Wrappers
  import opened Masks

  /** `formatCNPJ`: the first fourteen digits under the mask
      `00.000.000/0000-00`, as far as the digits reach. */
  function FormatCnpj(value: string): (r: string)
    ensures |r| <= 18
    ensures |Digits(value)| <= 2 ==> r == Digits(value)
    ensures AllDigits(value) && |value| <= 14 ==> (r == value <==> |value| <= 2)
  {
    DigitsOfDigitsIf(value);
    CnpjMask(Take(Digits(value), 14))
  }

  /** The branches of `formatCNPJ` on its digit string `numbers`. */
  function CnpjMask(numbers: string): (r: string)
    ensures |numbers| <= 2 ==> r == numbers
    ensures |numbers| >= 3 ==> |r| > |numbers|
    ensures |numbers| <= 14 ==> |r| <= 18
    ensures |numbers| >= 3 ==> r[..2] == numbers[..2] && r[2] == '.'
  {
    if |numbers| <= 2 then numbers
    else if |numbers| <= 5 then numbers[..2] + "." + numbers[2..]
    else if |numbers| <= 8 then numbers[..2] + "." + numbers[2..5] + "." + numbers[5..]
    else if |numbers| <= 12 then numbers[..2] + "." + numbers[2..5] + "." + numbers[5..8] + "/" + numbers[8..]
    else numbers[..2] + "." + numbers[2..5] + "." + numbers[5..8] + "/" + numbers[8..12] + "-" + numbers[12..]
  }

  /** `formatPhone`: the first eleven digits as `(00) 0000-0000` or, with
      eleven digits, `(00) 00000-0000`. */
  function FormatPhone(value: string): (r: string)
    ensures |r| <= 15
    ensures |Digits(value)| <= 2 ==> r == Digits(value)
    ensures AllDigits(value) && |value| <= 11 ==> (r == value <==> |value| <= 2)
  {
    DigitsOfDigitsIf(value);
    PhoneMask(Take(Digits(value), 11))
  }

  /** The branches of `formatPhone` on its digit string `numbers`. */
  function PhoneMask(numbers: string): (r: string)
    ensures |numbers| <= 2 ==> r == numbers
    ensures |numbers| >= 3 ==> |r| > |numbers|
    ensures |numbers| <= 11 ==> |r| <= 15
    ensures |numbers| >= 3 ==> r[..4] == "(" + numbers[..2] + ")"
  {
    if |numbers| <= 2 then numbers
    else if |numbers| <= 6 then "(" + numbers[..2] + ") " + numbers[2..]
    else if |numbers| <= 10 then "(" + numbers[..2] + ") " + numbers[2..6] + "-" + numbers[6..]
    else "(" + numbers[..2] + ") " + numbers[2..7] + "-" + numbers[7..]
  }

  /** Appending a separator adds no digits. */
  lemma DigitsAppendSeparator(prefix: string, c: char)
    requires !IsDigit(c)
    ensures Digits(prefix + [c]) == Digits(prefix)
  {
    DigitsAppendGroup(prefix, c, "");
    assert prefix + [c] + "" == prefix + [c];
  }

  /** The punctuation of `formatCNPJ` carries no digits: removing it gives
      back the first fourteen digits. */
  lemma FormatCnpjDigits(value: string)
    ensures Digits(FormatCnpj(value)) == Take(Digits(value), 14)
  {
    CnpjMaskDigits(Take(Digits(value), 14));
  }

  /** Removing the CNPJ punctuation from a mask gives back its digits. */
  lemma CnpjMaskDigits(x: string)
    requires AllDigits(x)
    ensures Digits(CnpjMask(x)) == x
  {
    if |x| <= 2 {
      DigitsOfDigits(x);
    } else if |x| <= 5 {
      CnpjTwoGroups(x);
    } else if |x| <= 8 {
      CnpjThreeGroups(x);
    } else if |x| <= 12 {
      CnpjFourGroups(x);
    } else {
      CnpjFiveGroups(x);
    }
  }

  lemma CnpjTwoGroups(x: string)
    requires AllDigits(x) && 2 < |x|
    ensures Digits(x[..2] + "." + x[2..]) == x
  {
    var a, b := x[..2], x[2..];
    assert a + b == x;
    GroupsDigits2(a, '.', b);
  }

  lemma CnpjThreeGroups(x: string)
    requires AllDigits(x) && 5 < |x|
    ensures Digits(x[..2] + "." + x[2..5] + "." + x[5..]) == x
  {
    var a, b, c := x[..2], x[2..5], x[5..];
    assert a + b + c == x;
    GroupsDigits3(a, '.', b, '.', c);
  }

  lemma CnpjFourGroups(x: string)
    requires AllDigits(x) && 8 < |x|
    ensures Digits(x[..2] + "." + x[2..5] + "." + x[5..8] + "/" + x[8..]) == x
  {
    var a, b, c, d := x[..2], x[2..5], x[5..8], x[8..];
    assert a + b + c + d == x;
    GroupsDigits4(a, '.', b, '.', c, '/', d);
  }

  lemma CnpjFiveGroups(x: string)
    requires AllDigits(x) && 12 < |x|
    ensures Digits(x[..2] + "." + x[2..5] + "." + x[5..8] + "/" + x[8..12] + "-" + x[12..]) == x
  {
    var a, b, c, d, e := x[..2], x[2..5], x[5..8], x[8..12], x[12..];
    assert a + b + c + d + e == x;
    GroupsDigits5(a, '.', b, '.', c, '/', d, '-', e);
  }

  /** Re-applying `formatCNPJ` to its own output, as every keystroke does,
      changes nothing. */
  lemma FormatCnpjIdempotent(value: string)
    ensures FormatCnpj(FormatCnpj(value)) == FormatCnpj(value)
  {
    FormatCnpjDigits(value);
  }

  /** Fourteen or more digits give the full `dd.ddd.ddd/dddd-dd` of the
      first fourteen. */
  lemma FormatCnpjFull(value: string)
    requires |Digits(value)| >= 14
    ensures var d := Digits(value);
            FormatCnpj(value) == d[..2] + "." + d[2..5] + "." + d[5..8] + "/" + d[8..12] + "-" + d[12..14]
  {
    var d := Digits(value);
    var x := Take(d, 14);
    assert x[..2] == d[..2] && x[2..5] == d[2..5] && x[5..8] == d[5..8] && x[8..12] == d[8..12] && x[12..] == d[12..14];
  }

  /** The punctuation of `formatPhone` carries no digits: removing it gives
      back the first eleven digits. */
  lemma FormatPhoneDigits(value: string)
    ensures Digits(FormatPhone(value)) == Take(Digits(value), 11)
  {
    PhoneMaskDigits(Take(Digits(value), 11));
  }

  /** Removing the phone punctuation from a mask gives back its digits. */
  lemma PhoneMaskDigits(x: string)
    requires AllDigits(x)
    ensures Digits(PhoneMask(x)) == x
  {
    if |x| <= 2 {
      DigitsOfDigits(x);
    } else if |x| <= 6 {
      PhoneShortDigits(x);
    } else if |x| <= 10 {
      PhoneDashDigits(x, 6);
    } else {
      PhoneDashDigits(x, 7);
    }
  }

  lemma PhoneShortDigits(x: string)
    requires AllDigits(x) && 2 < |x|
    ensures Digits("(" + x[..2] + ") " + x[2..]) == x
  {
    var a, b := x[..2], x[2..];
    assert a + b + "" == x;
    PhoneGroupsDigits(a, b, "");
  }

  lemma PhoneDashDigits(x: string, cut: nat)
    requires AllDigits(x) && 2 <= cut <= |x|
    ensures Digits("(" + x[..2] + ") " + x[2..cut] + "-" + x[cut..]) == x
  {
    var a, b, c := x[..2], x[2..cut], x[cut..];
    assert a + b + c == x;
    PhoneGroupsDigits(a, b, c);
  }

  /** The digits of `(a) b` and `(a) b-c`. */
  lemma PhoneGroupsDigits(a: string, b: string, c: string)
    requires AllDigits(a) && AllDigits(b) && AllDigits(c)
    ensures Digits("(" + a + ") " + b) == a + b
    ensures Digits("(" + a + ") " + b + "-" + c) == a + b + c
  {
    var open := "(" + a;
    DigitsConcat("(", a);
    DigitsOfSeparator('(');
    DigitsOfDigits(a);
    assert Digits(open) == a;
    var close := open + ") ";
    DigitsConcat(open, ") ");
    assert Digits(") ") == "";
    assert Digits(close) == a;
    var head := close + b;
    DigitsConcat(close, b);
    DigitsOfDigits(b);
    assert head == "(" + a + ") " + b;
    DigitsAppendGroup(head, '-', c);
  }

  /** Re-applying `formatPhone` to its own output changes nothing. */
  lemma FormatPhoneIdempotent(value: string)
    ensures FormatPhone(FormatPhone(value)) == FormatPhone(value)
  {
    FormatPhoneDigits(value);
  }

  /** Ten digits give a landline number, eleven a mobile number. */
  lemma FormatPhoneShapes(value: string)
    ensures var d := Digits(value);
            |d| == 10 ==> FormatPhone(value) == "(" + d[..2] + ") " + d[2..6] + "-" + d[6..10]
    ensures var d := Digits(value);
            |d| >= 11 ==> FormatPhone(value) == "(" + d[..2] + ") " + d[2..7] + "-" + d[7..11]
  {
    var d := Digits(value);
    if |d| >= 11 {
      var x := Take(d, 11);
      assert x[..2] == d[..2] && x[2..7] == d[2..7] && x[7..] == d[7..11];
    }
  }

  datatype Tab = Login | Register

  /** The registration form's fields. */
  datatype RegisterForm = RegisterForm(razaoSocial: string, ramoAtividade: string, dataFundacao: string, cnpj: string,
                                       telefone: string, endereco: string, email: string, responsavel: string,
                                       senha: string, confirmarSenha: string)

  /** The body of `EmpresaAPI.registrar`. */
  datatype RegistroRequest = RegistroRequest(empresa: string, ramoAtividade: string, dataFundacao: string,
                                             cnpj: string, telefone: string, endereco: string, email: string,
                                             responsavel: string, senha: string)

  /** The page after a submit: its form and tab, the request sent (if any)
      and the error shown (if any). */
  datatype RegisterStep = RegisterStep(form: RegisterForm, tab: Tab, request: Option<RegistroRequest>,
                                       error: Option<string>)

  const ErrSenhasDiferentes := "As senhas não coincidem!"
  const EmptyRegisterForm := RegisterForm("", "", "", "", "", "", "", "", "", "")

  /** The request built from the form: the company name goes as `empresa`,
      the confirmation is not sent. */
  function RequestOf(form: RegisterForm): (r: RegistroRequest)
    ensures r.empresa == form.razaoSocial && r.senha == form.senha && r.cnpj == form.cnpj && r.email == form.email
    ensures r.ramoAtividade == form.ramoAtividade && r.dataFundacao == form.dataFundacao &&
            r.telefone == form.telefone && r.endereco == form.endereco && r.responsavel == form.responsavel
  {
    RegistroRequest(form.razaoSocial, form.ramoAtividade, form.dataFundacao, form.cnpj, form.telefone,
                    form.endereco, form.email, form.responsavel, form.senha)
  }

  /** `handleRegisterSubmit`. */
  function RegisterSubmit(form: RegisterForm, tab: Tab, apiError: Option<string>): (r: RegisterStep)
    ensures form.senha != form.confirmarSenha ==> r == RegisterStep(form, tab, None, Some(ErrSenhasDiferentes))
    ensures form.senha == form.confirmarSenha ==> r.request == Some(RequestOf(form))
    ensures form.senha == form.confirmarSenha && apiError.None? ==>
              r.form == EmptyRegisterForm && r.tab == Login && r.error.None?
    ensures form.senha == form.confirmarSenha && apiError.Some? ==>
              r.form == form && r.tab == tab && r.error == apiError
  {
    if form.senha != form.confirmarSenha then RegisterStep(form, tab, None, Some(ErrSenhasDiferentes))
    else
      var request := RequestOf(form);
      match apiError
      case None => RegisterStep(EmptyRegisterForm, Login, Some(request), None)
      case Some(message) => RegisterStep(form, tab, Some(request), Some(message))
  }

  /** Whatever password is sent has been typed twice. */
  lemma SentPasswordConfirmed(form: RegisterForm, tab: Tab, apiError: Option<string>)
    ensures RegisterSubmit(form, tab, apiError).request.Some? ==>
              RegisterSubmit(form, tab, apiError).request.value.senha == form.confirmarSenha
  {
  }
}
