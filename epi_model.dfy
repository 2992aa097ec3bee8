/** The equipment entity of src/model/Epi.ts: a constructor made of a fixed
    chain of "required" guards followed by "too long" guards, a `create`
    factory that forwards its arguments, getters, and a `setvalidade` whose
    body only reads the field. */
module EpiModel {
  import opened Wrappers

  /** A point in time, in milliseconds since the epoch. */
  type Date = int

  /** A constructed equipment record. `nome` is the source's `epi` field (the
      equipment's name); the getters `getepi`, `getCA`, `getemodo_uso`,
      `getvalidade`, `gettipo`, `getfabricante` and `getdata_entrada` are the
      datatype's destructors. */
  datatype Epi = Epi(
    nome: string,
    ca: string,
    modoUso: string,
    validade: Date,
    tipo: string,
    fabricante: string,
    dataEntrada: Date)

  const MaxLength := 100

  const ErrCaRequired := "Número de CA obrigatório"
  const ErrValidadeRequired := "Validade do EPI Obrigatório"
  const ErrTipoRequired := "Tipo do EPI Obrigatório"
  const ErrFabricanteRequired := "Fabricante Obrigatório"
  const ErrDataEntradaRequired := "Data de entrada de EPI Obrigatório"
  const ErrModoUsoRequired := "Modo de uso do EPI Obrigatório"
  const ErrNomeTooLong := "Nome de EPI muito grande"
  const ErrCaTooLong := "Número de CA muito grande"
  const ErrTipoTooLong := "Tipo de EPI muito grande"
  const ErrFabricanteTooLong := "Nome do fabricante muito grande"

  /** The messages of the "required" guards. The name's own message ("Nome do
      EPI obrigatório") is absent: its guard tests the class `Epi`, which is
      always truthy, so it never fires. */
  const RequiredMessages := {ErrCaRequired, ErrValidadeRequired, ErrTipoRequired,
                             ErrFabricanteRequired, ErrDataEntradaRequired, ErrModoUsoRequired}
  const LengthMessages := {ErrNomeTooLong, ErrCaTooLong, ErrTipoTooLong, ErrFabricanteTooLong}

  /** Every field the guards require is present (a date argument is absent
      when it is `undefined`; a string is falsy when empty). The name is not
      among them. */
  predicate RequiredPresent(ca: string, modoUso: string, validade: Option<Date>, tipo: string,
                            fabricante: string, dataEntrada: Option<Date>)
  {
    ca != "" && validade.Some? && tipo != "" && fabricante != "" && dataEntrada.Some? && modoUso != ""
  }

  /** The length limits: at most 100 characters for name, CA, type and
      manufacturer; none for the usage instructions. */
  predicate WithinLimits(nome: string, ca: string, tipo: string, fabricante: string)
  {
    |nome| <= MaxLength && |ca| <= MaxLength && |tipo| <= MaxLength && |fabricante| <= MaxLength
  }

  /** `new Epi(...)` / `Epi.create(...)`: the first failing guard's message, or
      the record holding exactly the arguments. */
  function Create(nome: string, ca: string, modoUso: string, validade: Option<Date>, tipo: string,
                  fabricante: string, dataEntrada: Option<Date>): (r: Result<Epi>)
    ensures r.Success? <==> RequiredPresent(ca, modoUso, validade, tipo, fabricante, dataEntrada) &&
                            WithinLimits(nome, ca, tipo, fabricante)
    ensures r.Success? ==> r.value == Epi(nome, ca, modoUso, validade.value, tipo, fabricante, dataEntrada.value)
    ensures !RequiredPresent(ca, modoUso, validade, tipo, fabricante, dataEntrada) ==>
              r.Failure? && r.error in RequiredMessages
    ensures RequiredPresent(ca, modoUso, validade, tipo, fabricante, dataEntrada) && r.Failure? ==>
              r.error in LengthMessages
    // The required guards, in source order: the first field missing names the message.
    ensures ca == "" ==> r == Failure(ErrCaRequired)
    ensures ca != "" && validade.None? ==> r == Failure(ErrValidadeRequired)
    ensures ca != "" && validade.Some? && tipo == "" ==> r == Failure(ErrTipoRequired)
    ensures ca != "" && validade.Some? && tipo != "" && fabricante == "" ==> r == Failure(ErrFabricanteRequired)
    ensures ca != "" && validade.Some? && tipo != "" && fabricante != "" && dataEntrada.None? ==>
              r == Failure(ErrDataEntradaRequired)
    ensures ca != "" && validade.Some? && tipo != "" && fabricante != "" && dataEntrada.Some? && modoUso == "" ==>
              r == Failure(ErrModoUsoRequired)
    // Then the length guards, in source order.
    ensures RequiredPresent(ca, modoUso, validade, tipo, fabricante, dataEntrada) && |nome| > MaxLength ==>
              r == Failure(ErrNomeTooLong)
    ensures (RequiredPresent(ca, modoUso, validade, tipo, fabricante, dataEntrada) && |nome| <= MaxLength &&
             |ca| > MaxLength) ==> r == Failure(ErrCaTooLong)
    ensures (RequiredPresent(ca, modoUso, validade, tipo, fabricante, dataEntrada) && |nome| <= MaxLength &&
             |ca| <= MaxLength && |tipo| > MaxLength) ==> r == Failure(ErrTipoTooLong)
    ensures (RequiredPresent(ca, modoUso, validade, tipo, fabricante, dataEntrada) && |nome| <= MaxLength &&
             |ca| <= MaxLength && |tipo| <= MaxLength && |fabricante| > MaxLength) ==> r == Failure(ErrFabricanteTooLong)
  {
    // The name guard `if(!Epi)` tests the class, not the parameter: no check.
    if ca == "" then Failure(ErrCaRequired)
    else if validade.None? then Failure(ErrValidadeRequired)
    else if tipo == "" then Failure(ErrTipoRequired)
    else if fabricante == "" then Failure(ErrFabricanteRequired)
    else if dataEntrada.None? then Failure(ErrDataEntradaRequired)
    else if modoUso == "" then Failure(ErrModoUsoRequired)
    else if |nome| > MaxLength then Failure(ErrNomeTooLong)
    else if |ca| > MaxLength then Failure(ErrCaTooLong)
    else if |tipo| > MaxLength then Failure(ErrTipoTooLong)
    else if |fabricante| > MaxLength then Failure(ErrFabricanteTooLong)
    else Success(Epi(nome, ca, modoUso, validade.value, tipo, fabricante, dataEntrada.value))
  }

  /** A record some call of the constructor produced: what every list of
      `Epi` objects can hold. */
  predicate Constructed(e: Epi)
  {
    Create(e.nome, e.ca, e.modoUso, Some(e.validade), e.tipo, e.fabricante, Some(e.dataEntrada)) == Success(e)
  }

  /** Whatever `Create` returns is a constructed record. */
  lemma CreateYieldsConstructed(nome: string, ca: string, modoUso: string, validade: Option<Date>, tipo: string,
                                fabricante: string, dataEntrada: Option<Date>)
    requires Create(nome, ca, modoUso, validade, tipo, fabricante, dataEntrada).Success?
    ensures Constructed(Create(nome, ca, modoUso, validade, tipo, fabricante, dataEntrada).value)
  {
  }

  /** A constructed record has a non-empty CA of at most 100 characters. */
  lemma ConstructedHasCa(e: Epi)
    requires Constructed(e)
    ensures e.ca != "" && |e.ca| <= MaxLength && e.tipo != "" && e.fabricante != "" && e.modoUso != ""
  {
  }

  /** An empty name is accepted: with every other field valid, `Create`
      succeeds whatever the name, as long as it is not over 100 characters. */
  lemma EmptyNameAccepted(ca: string, modoUso: string, validade: Date, tipo: string,
                          fabricante: string, dataEntrada: Date)
    requires ca != "" && tipo != "" && fabricante != "" && modoUso != ""
    requires WithinLimits("", ca, tipo, fabricante)
    ensures Create("", ca, modoUso, Some(validade), tipo, fabricante, Some(dataEntrada)) ==
            Success(Epi("", ca, modoUso, validade, tipo, fabricante, dataEntrada))
  {
  }

  /** Required guards come first: an empty usage text is reported even when
      the name, CA, type and manufacturer are all oversized. */
  lemma ModoUsoReportedBeforeLengths(nome: string, ca: string, validade: Date, tipo: string,
                                     fabricante: string, dataEntrada: Date)
    requires ca != "" && tipo != "" && fabricante != ""
    ensures Create(nome, ca, "", Some(validade), tipo, fabricante, Some(dataEntrada)) ==
            Failure(ErrModoUsoRequired)
  {
  }

  /** The limit is strict: exactly 100 characters pass, 101 fail, and the
      usage text may be of any length. */
  lemma LengthBoundary(s: string, modoUso: string, validade: Date, dataEntrada: Date)
    requires |s| == MaxLength && modoUso != ""
    ensures Create(s, s, modoUso, Some(validade), s, s, Some(dataEntrada)).Success?
    ensures Create(s + "x", s, modoUso, Some(validade), s, s, Some(dataEntrada)) == Failure(ErrNomeTooLong)
    ensures Create(s, s + "x", modoUso, Some(validade), s, s, Some(dataEntrada)) == Failure(ErrCaTooLong)
    ensures Create(s, s, modoUso, Some(validade), s + "x", s, Some(dataEntrada)) == Failure(ErrTipoTooLong)
    ensures Create(s, s, modoUso, Some(validade), s, s + "x", Some(dataEntrada)) == Failure(ErrFabricanteTooLong)
  {
  }

  /** `setvalidade`: its body only reads the field, so the record is the same
      afterwards, whatever date is passed. */
  function SetValidade(e: Epi, validade: Date): (r: Epi)
    ensures r.validade == e.validade && r == e
  {
    e
  }
}
