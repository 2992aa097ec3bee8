# PPE (EPI) tracking — a Dafny model

This project models the domain logic of a small application that tracks personal
protective equipment (EPI):

- **Equipment records.** Each record is identified by its approval certificate (CA) and carries an expiry date.
- **Employees and companies.** Employees receive the equipment. Companies register and log in.
- **Back end.** It keeps everything in in-memory lists: equipment records, employees, companies and an append-only delivery history.
- **Front end.**
  - It classifies equipment by the days left before expiry.
  - It joins employees to their assignments.
  - It masks CPF, CNPJ and phone inputs.
  - It updates three state lists through page handlers.

The model has one Dafny module per source file:

- **Entity validators.** `EpiModel`, `FuncionarioModel`, `EmpresaModel` and `ApiEmpresaModel` are guard chains. Each returns a `Result`: the first failing guard's message, or the record holding the arguments.
- **Repository services.** `ApiEpiService`, `LegacyEpiService`, `FuncionarioService` and `EmpresaService` are classes.
  - Their lists are `seq` fields.
  - Their state-changing methods state exactly what was appended, removed or replaced, and that nothing else changed.
  - Their lookups and filters are functions that read the object.
- **Front-end logic.** Its modules are `Masks`, `EpisVencidas`, `FuncionarioEpiManager`, `IndexPage`, `AuthPage` and `FuncionarioForm`.
  - The pure logic is written as functions.
  - The page state of Index.tsx is a class holding the three lists.
  - Each regular-expression chain is written as slices over the digit string. It is proved equal to a reference mask.
- **Shared helpers.** `Wrappers` (`Option`, `Result`), `Seqs` (filter, first match, insertion sort, join, substring) and `FrontTypes` (the front end's record types).

Everything outside the program becomes a parameter:

| What the source uses | Parameter in the model |
|---|---|
| The clock | `now`, an integer count of milliseconds; a day is `DayMs` = 86 400 000 |
| `crypto.randomUUID()` and `Date.now()` ids | the id parameters |
| bcrypt | `hash` and `compare` |
| date-fns `differenceInDays` and `parseISO(..).getTime()` | `daysLeft` and `timeOf`; for an invalid date `differenceInDays` is NaN, which fails every comparison, so the item is in no panel and `getExpirationStatus` labels it "Válida": the model reproduces that only when `daysLeft` returns a value from 31 to 60 for it |
| `toLowerCase` | `lower` |
| `new Date(s).toISOString().split("T")[0]` | `isoDay` |
| `new Date(s).toISOString()` | `toIso` |
| whether `new Date(s)` is a valid date, so that `toISOString` does not throw | `validDate` |
| An API call | `apiError`: `None` when it resolves, `Some(message)` when it throws |
| A list reload | `reload`: `None` when the listing throws; a listing whose dates `validDate` rejects makes the mapping throw, which the model decides from `validDate` |

The defects of the code are modelled as written and stated as lemmas or contracts:

- **Name guard.** The name guard of `src/model/Epi.ts` tests the class, so it never fires (`EpiModel.EmptyNameAccepted`).
- **Email test.** The email test of `src/model/Empresa.ts` is inverted (`EmpresaModel.EmailTestInverted`, `EmpresaService.OrdinaryEmailNeverAuthenticates`).
- **Swapped arguments.**
  - `src/service/Epi.ts` passes its fields to the constructor in shuffled positions (`LegacyEpiService.CaGuardSeesTipo`).
  - `src/service/Funcionario.ts` swaps cargo and setor (`FuncionarioService.CreateFrom`).
  - `src/service/Empresa.ts` swaps cnpj and endereco (`EmpresaService.CreateFrom`).
- **Dead fallback.** The "today" fallback of the assignment literal in Index.tsx is unreachable: an empty expiry makes `toISOString` throw before it (`IndexPage.IndexState.AssignEPI`).
- **Password hash.** `api/src/model/Empresa.ts` runs its password guards on the hash, never on the raw password (`ApiEmpresaModel.CreateGuardsSeeHash`).

Where the code's evident intent and what it does differ, the model follows what it does:

- **Blank name.** The message "Nome do EPI obrigatório" at `src/model/Epi.ts:12` shows a blank equipment name was meant to be rejected. The guard accepts it.
- **Stored password.** `api/src/model/Empresa.ts:25-29` hashes the password before storing it. `src/model/Empresa.ts:20-21` stores it verbatim.

## Model

| member | source | states |
|---|---|---|
| EpiModel.Create | src/model/Epi.ts:12-36 | construction succeeds iff CA, validade, tipo, fabricante, data_entrada and modo_uso are present and name, CA, tipo and fabricante are at most 100 characters; the record holds exactly the arguments; the first missing field in the order CA, validade, tipo, fabricante, data_entrada, modo_uso names the message, and with all present the first oversized field in the order name, CA, tipo, fabricante names it |
| EpiModel.CreateYieldsConstructed | src/model/Epi.ts:26-36 | whatever `create` returns is a record the constructor accepts again unchanged |
| EpiModel.ConstructedHasCa | src/model/Epi.ts:13-23 | every constructed record has a non-empty CA of at most 100 characters and non-empty tipo, fabricante and modo_uso |
| EpiModel.EmptyNameAccepted | src/model/Epi.ts:12 | an empty name is accepted when the other fields are valid: the name guard never fires |
| EpiModel.ModoUsoReportedBeforeLengths | src/model/Epi.ts:12-23 | an empty modo_uso is reported even when the name and other fields are oversized: required guards precede length guards |
| EpiModel.LengthBoundary | src/model/Epi.ts:20-23 | exactly 100 characters pass for name, CA, tipo and fabricante, 101 fail with the field's own message |
| EpiModel.SetValidade | src/model/Epi.ts:71-73 | `setvalidade` leaves the record, and in particular its validade, unchanged whatever date is passed |
| FuncionarioModel.Create | src/model/Funcionario.ts:8-16 | construction succeeds iff nome, cpf, setor and cargo are non-empty, cpf is at most 11 and the others at most 100 characters (the CPF has no minimum length and no digit check); the record holds the arguments; the first empty field in the order nome, cpf, setor, cargo names the message, and with all filled the first oversized one in the same order names it |
| FuncionarioModel.CargoReportedBeforeLengths | src/model/Funcionario.ts:8-16 | an empty cargo is reported whatever the lengths of the other fields |
| EmpresaModel.Create | src/model/Empresa.ts:10-22 | construction succeeds iff the five fields are non-empty, the password has at least 7 characters and the email more than 100; the record holds the arguments unhashed; the guards report, in order, an empty empresa, endereco, cnpj, email or senha, then a password of 1 to 6 characters, then an email of at most 100 characters, each with its own message |
| EmpresaModel.EmailTestInverted | src/model/Empresa.ts:17 | every email of 1 to 100 characters is rejected as "Email muito grande", every longer one passes |
| EmpresaModel.SenhaBoundary | src/model/Empresa.ts:16-42 | a password of 1 to 6 characters is rejected; an accepted password is stored and returned verbatim |
| ApiEmpresaModel.Check | api/src/model/Empresa.ts:12-21 | the guards pass iff the five fields are non-empty, the password has at least 7 characters and the email fewer than 100; they report, in order, an empty empresa, endereco, cnpj, email or senha, then a password of 1 to 6 characters, then an email of 100 or more characters, each with its own message |
| ApiEmpresaModel.EmailBoundary | api/src/model/Empresa.ts:21 | a 99-character email passes, a 100-character one fails |
| ApiEmpresaModel.CreateGuardsSeeHash | api/src/model/Empresa.ts:25-29 | the password guards see the hash: whenever the hash is 7 characters or longer they pass, even for an empty password |
| ApiEmpresaModel.Empresa.constructor | api/src/model/Empresa.ts:4-22 | a company that passed the guards stores exactly its arguments |
| ApiEmpresaModel.Empresa.Create | api/src/model/Empresa.ts:25-29 | `create` fails iff the guards fail on the hashed password, with their message; on success the new company stores the hash and the other arguments |
| ApiEmpresaModel.Empresa.VerifyPassword | api/src/model/Empresa.ts:31-33 | the check is bcrypt's comparison of the candidate with the stored value, which after `create` or `setsenha` is the hash of the password given there |
| ApiEmpresaModel.Empresa.SetSenha | api/src/model/Empresa.ts:51-54 | the stored value becomes the hash of the new password, no guard runs, and only that field may change |
| ApiEpiService.Merge | api/src/service/Epi.ts:135-143 | the record `updateEPI` builds takes every supplied field from the patch and every missing one from the current record; it is a constructed record; an empty patch gives back the current record |
| ApiEpiService.RemovedCaNotFound | api/src/service/Epi.ts:156-165 | after removing a CA, looking it up finds nothing |
| ApiEpiService.EPIService.constructor | api/src/service/Epi.ts:20-22 | the service starts with the given records and an empty history |
| ApiEpiService.EPIService.CreateEPI | api/src/service/Epi.ts:25-49 | validates first; on success appends exactly one record at the end, otherwise nothing changes; duplicate CAs are allowed and a lookup by that CA still finds the earliest record with it; the history is untouched; every stored record stays constructed |
| ApiEpiService.EPIService.GetEPIByCA | api/src/service/Epi.ts:57-59 | none iff no record has the CA; otherwise the first record that has it |
| ApiEpiService.EPIService.VisualizarCAsProximosDeVencer | api/src/service/Epi.ts:63-71 | in list order and with every repetition, exactly the records with now ≤ validade ≤ now + d days, d defaulting to 90: the result is `Seqs.Filter` of the list and each record occurs as often as in the list when it is in the window, else not at all |
| Seqs.FilterIndices | api/src/service/Epi.ts:67-70 | `Array.prototype.filter` keeps positions: there is a strictly increasing list of positions of the input, covering every position whose element passes, whose elements are the result's in order |
| Seqs.FilterCount | api/src/service/Epi.ts:67-70 | `Array.prototype.filter` keeps every occurrence of a passing value and none of a failing one |
| ApiEpiService.EPIService.SubstituirEPI | api/src/service/Epi.ts:74-110 | a known CA leaves the list unchanged and logs the stored record with its stored validade; an unknown CA is created first (the list grows by one) or the creation's error is returned with nothing changed; each success appends exactly one history record with the employee id and reason, which is also the one new entry in that employee's history |
| ApiEpiService.EPIService.GetHistoricoEntregas | api/src/service/Epi.ts:113-115 | exactly the history records with that employee id, in the order they were logged and with every repetition: the result is `Seqs.Filter` of the history and each record occurs as often as in the history when it is that employee's, else not at all |
| ApiEpiService.EPIService.UpdateEPI | api/src/service/Epi.ts:117-154 | unknown CA: `null` and nothing changes; a merged record that fails validation: the error and nothing changes; no CA change: the first matching slot is replaced in place; a new CA: every record with the old CA is removed and the new one appended |
| ApiEpiService.EPIService.RemoveEPI | api/src/service/Epi.ts:156-165 | returns true iff some record had the CA; afterwards none has it and the others keep their order |
| LegacyEpiService.CreateFrom | src/service/Epi.ts:35-45 | the stored CA is the request's tipo, the stored usage text its CA, the stored type its modouso; success iff the guards pass on those shuffled fields |
| LegacyEpiService.CaGuardSeesTipo | src/service/Epi.ts:35-45 | a 101-character tipo is rejected as an oversized CA, whatever the request's CA |
| LegacyEpiService.CpfIgnored | src/service/Epi.ts:35-45 | the employee's CPF in the request has no effect on the record |
| LegacyEpiService.EPIService.constructor | src/service/Epi.ts:18-20 | the service starts with the given records and an empty history |
| LegacyEpiService.EPIService.CreateEPI | src/service/Epi.ts:23-50 | on success appends exactly one record at the end, otherwise nothing; a lookup by the request's tipo then finds the new record unless an earlier one shadows it |
| LegacyEpiService.EPIService.GetEPIByCA | src/service/Epi.ts:58-60 | none iff no stored CA equals the argument; otherwise the first such record |
| LegacyEpiService.EPIService.VisualizarCAsProximosDeVencer | src/service/Epi.ts:63-71 | in list order and with every repetition, exactly the records with now ≤ validade ≤ now + d days, d defaulting to 90: the result is `Seqs.Filter` of the list and each record occurs as often as in the list when it is in the window, else not at all |
| LegacyEpiService.EPIService.SubstituirEPI | src/service/Epi.ts:74-105 | never looks up an existing record: each success grows the list and the history by exactly one, the history record carrying the employee id, the reason and the new record's validade; a failed creation changes nothing |
| LegacyEpiService.EPIService.GetHistoricoEntregas | src/service/Epi.ts:108-110 | exactly the history records with that employee id, in the order they were logged and with every repetition: the result is `Seqs.Filter` of the history and each record occurs as often as in the history when it is that employee's, else not at all |
| FuncionarioService.CreateFrom | src/service/Funcionario.ts:44-49 | the stored setor is the request's cargo and the stored cargo its setor; an empty name is the first error |
| FuncionarioService.FuncionarioService.constructor | src/service/Funcionario.ts:35-37 | the service starts with the given employees, each of which passed the constructor guards of `src/model/Funcionario.ts` (`Valid()`), and no certificates or history |
| FuncionarioService.FuncionarioService.CreateFuncionario | src/service/Funcionario.ts:41-54 | appends exactly one employee when the guards pass, nothing otherwise; the other lists are untouched; every stored employee still passed the guards |
| FuncionarioService.FuncionarioService.ConsultarFuncionario | src/service/Funcionario.ts:57-63 | nothing for an absent or empty CPF; otherwise none iff no employee has it, else the first one that does; under `Valid()` the employee found passed the guards, so a CPF longer than eleven characters finds nothing |
| FuncionarioService.FuncionarioService.VisualizarCAsProximosDeVencer | src/service/Funcionario.ts:66-74 | in list order and with every repetition, exactly the certificate records with now ≤ caValidade ≤ now + d days, d defaulting to 90: the result is `Seqs.Filter` of the list and each record occurs as often as in the list when it is in the window, else not at all |
| FuncionarioService.FuncionarioService.SubstituirEPI | src/service/Funcionario.ts:77-109 | an unknown CPF fails with its message and changes nothing; otherwise exactly one certificate (the supplied fields, a fresh id) and one history record expiring with it are appended; the employee list is never touched, so every stored employee still passed the guards |
| FuncionarioService.FuncionarioService.GetFuncionarios | src/service/Funcionario.ts:112-114 | returns the stored list itself, duplicates included |
| FuncionarioService.FuncionarioService.GetHistoricoEPI | src/service/Funcionario.ts:117-119 | exactly the history records of that CPF, in the order they were logged and with every repetition: the result is `Seqs.Filter` of the history and each record occurs as often as in the history when it is that CPF's, else not at all |
| EmpresaService.CreateFrom | src/service/Empresa.ts:17-23 | the stored address is the request's cnpj and the stored cnpj its address; any accepted company has an email over 100 characters |
| EmpresaService.EmpresaService.constructor | src/service/Empresa.ts:6-8 | the service starts with the given companies |
| EmpresaService.EmpresaService.CreateEmpresa | src/service/Empresa.ts:10-26 | appends exactly one company when construction succeeds and nothing otherwise; duplicate emails are allowed |
| EmpresaService.EmpresaService.Autenticar | src/service/Empresa.ts:28-34 | succeeds iff the first company with the email passes the password check, returning it; every failure, unknown email or wrong password, carries the same message |
| EmpresaService.EmpresaService.GetEmpresaByEmail | src/service/Empresa.ts:39-41 | none iff no company has the email; otherwise the first one that does |
| EmpresaService.EmpresaService.GetEmpresas | src/service/Empresa.ts:36-38 | returns the stored list itself |
| EmpresaService.EmpresaService.LaterDuplicateNeverAccepted | src/service/Empresa.ts:28-34 | if the first company with an email fails the password check, a later one with the right password is still refused |
| EmpresaService.EmpresaService.OrdinaryEmailNeverAuthenticates | src/service/Empresa.ts:28-34 | since construction only lets emails over 100 characters through, logging in with any email of at most 100 characters fails |
| Masks.Digits | front/src/pages/Index.tsx:76 | the stripped string holds only digits and is no longer than its input |
| Masks.Take | front/src/pages/Auth.tsx:121 | the slice is a prefix of length min(n, length) |
| Masks.CpfFirstDot | front/src/pages/Index.tsx:78 | the first `(\d{3})(\d)` replacement on a digit string: with four or more digits a dot stands at position 3 and removing it gives the input back; shorter strings are unchanged |
| Masks.CpfSecondDot | front/src/pages/Index.tsx:79 | the second replacement, whose first run of four digits now follows the first dot: with eight or more characters a dot stands at position 7 and removing it gives the input back; shorter strings are unchanged |
| Masks.CpfDash | front/src/pages/Index.tsx:80 | the `(\d{3})(\d{1,2})` replacement after both dots: with twelve or more characters a dash stands at position 11 and removing it gives the input back; shorter strings are unchanged |
| Masks.CpfTrim | front/src/pages/Index.tsx:81 | the `(-\d{2})\d+?$` replacement: the result is a prefix of its input of at most 14 characters, and an input of at most 14 is unchanged |
| Masks.CpfChain | front/src/pages/Index.tsx:77-81 | the four replacements in order on the digit string: at most 14 characters; up to three digits unchanged; from four digits on, the first three digits then a dot, so a digit string is left alone iff it has at most three digits (the mask itself is `Masks.CpfChainIsMask`) |
| Masks.FormatCpf | front/src/pages/Index.tsx:75-82 | `formatCPF` strips to the digits and runs the chain: at most 14 characters; up to three digits it is the digits; a digit-only input is returned as it is iff it has at most three digits |
| Masks.CpfChainIsMask | front/src/pages/Index.tsx:75-82 | the four replacements equal the mask `000.000.000-00` of the first eleven digits, group by group |
| Masks.FormatCpfDigits | front/src/pages/Index.tsx:75-82 | removing the punctuation from `formatCPF`'s output gives exactly the first eleven digits of the input |
| Masks.FormatCpfIdempotent | front/src/components/FuncionarioEPIManager.tsx:113-120 | applying `formatCPF` to its own output changes nothing |
| Masks.FormatCpfFull | front/src/pages/Index.tsx:75-82 | eleven or more digits give `ddd.ddd.ddd-dd` of the first eleven, 14 characters |
| Masks.FormatCpfLength | front/src/components/FuncionarioEPIManager.tsx:113-120 | the output never exceeds 14 characters |
| AuthPage.FormatCnpjDigits | front/src/pages/Auth.tsx:120-132 | removing the punctuation from `formatCNPJ`'s output gives exactly the first 14 digits |
| AuthPage.CnpjMaskDigits | front/src/pages/Auth.tsx:122-131 | every branch of the CNPJ mask adds only punctuation to the digits |
| AuthPage.FormatCnpjIdempotent | front/src/pages/Auth.tsx:120-132 | applying `formatCNPJ` to its own output changes nothing |
| AuthPage.FormatCnpjFull | front/src/pages/Auth.tsx:128-131 | 14 or more digits give `dd.ddd.ddd/dddd-dd` of the first 14 |
| AuthPage.FormatPhoneDigits | front/src/pages/Auth.tsx:134-141 | removing the punctuation from `formatPhone`'s output gives exactly the first 11 digits |
| AuthPage.PhoneMaskDigits | front/src/pages/Auth.tsx:136-140 | every branch of the phone mask adds only punctuation to the digits |
| AuthPage.FormatPhoneIdempotent | front/src/pages/Auth.tsx:134-141 | applying `formatPhone` to its own output changes nothing |
| AuthPage.FormatPhoneShapes | front/src/pages/Auth.tsx:138-140 | ten digits give `(dd) dddd-dddd`, eleven or more give `(dd) ddddd-dddd` of the first eleven |
| AuthPage.RequestOf | front/src/pages/Auth.tsx:81-91 | the request carries every form field, the company name as `empresa`, and not the confirmation |
| AuthPage.RegisterSubmit | front/src/pages/Auth.tsx:70-118 | differing passwords are refused with a message before any request; otherwise the request is sent; success clears every field and selects the login tab, failure keeps form and tab and shows the error |
| AuthPage.SentPasswordConfirmed | front/src/pages/Auth.tsx:73-91 | any password sent equals its confirmation |
| AuthPage.FormatCnpj | front/src/pages/Auth.tsx:120-132 | `formatCNPJ`: at most 18 characters; up to two digits it is the digits; a digit-only input of at most 14 is returned as it is iff it has at most two digits |
| AuthPage.CnpjMask | front/src/pages/Auth.tsx:122-131 | the branches on the digit string: up to two digits unchanged, otherwise strictly longer, starting with the first two digits and a dot, and at most 18 characters for at most 14 digits |
| AuthPage.FormatPhone | front/src/pages/Auth.tsx:134-141 | `formatPhone`: at most 15 characters; up to two digits it is the digits; a digit-only input of at most 11 is returned as it is iff it has at most two digits |
| AuthPage.PhoneMask | front/src/pages/Auth.tsx:136-140 | the branches on the digit string: up to two digits unchanged, otherwise strictly longer and starting with the area code in parentheses, and at most 15 characters for at most 11 digits |
| EpisVencidas.Panel | front/src/components/EPIsVencidas.tsx:45-70 | a panel is sorted by expiry time and is a permutation of the filtered items; an item is in it iff it is in the list and passes the filter |
| EpisVencidas.ExpiredEPIs | front/src/components/EPIsVencidas.tsx:45-52 | exactly the items with fewer than 0 days left, sorted by expiry, as a permutation of the filtered list |
| EpisVencidas.ExpiringEPIs | front/src/components/EPIsVencidas.tsx:54-61 | exactly the items with 0 to 30 days left, sorted, as a permutation of the filtered list |
| EpisVencidas.HealthyEPIs | front/src/components/EPIsVencidas.tsx:63-70 | exactly the items with more than 60 days left, sorted, as a permutation of the filtered list |
| EpisVencidas.PanelsDisjoint | front/src/components/EPIsVencidas.tsx:45-70 | no item is in two panels |
| EpisVencidas.MiddleBandShownNowhere | front/src/components/EPIsVencidas.tsx:54-70 | an item with 31 to 60 days left is in no panel |
| EpisVencidas.PanelsCount | front/src/components/EPIsVencidas.tsx:45-70 | the three panels together hold at most as many entries as there are items |
| EpisVencidas.DaysExpired | front/src/components/EPIsVencidas.tsx:72-74 | the absolute value of the days left |
| EpisVencidas.ExpiredBadgePositive | front/src/components/EPIsVencidas.tsx:45-74 | for an expired item the badge shows the positive number of days since expiry |
| EpisVencidas.AssignedIdsExact | front/src/components/EPIsVencidas.tsx:81-83 | the ids listed for an item are exactly the employee ids of its assignments |
| EpisVencidas.AssignedIdsInOrder | front/src/components/EPIsVencidas.tsx:81-83 | the i-th id listed is the employee of the item's i-th assignment, and each employee id occurs once per assignment of the item to that employee |
| EpisVencidas.KnownNamesExact | front/src/components/EPIsVencidas.tsx:85-87 | the names kept are exactly the non-empty names of known employees among the ids, each non-empty name as often as it is looked up and the empty name never |
| EpisVencidas.AssignedNames | front/src/components/EPIsVencidas.tsx:80-87 | every name shown is non-empty and is the looked-up name of one of the item's assignments; every assignment whose employee has a non-empty name contributes it; the list is, in assignment order, the names of the item's assignments whose employee has a non-empty name |
| EpisVencidas.KnownNamesOfAssignedIds | front/src/components/EPIsVencidas.tsx:80-87 | mapping the ids to names and dropping empty ones equals naming, in order, the item's assignments whose employee has a non-empty name |
| EpisVencidas.AssignedNamesCount | front/src/components/EPIsVencidas.tsx:80-87 | each non-empty name is shown once per assignment of the item to an employee with that name |
| EpisVencidas.FuncionariosComEPI | front/src/components/EPIsVencidas.tsx:80-89 | the names joined with ", ", or "Não atribuído" when no name remains |
| EpisVencidas.UnassignedShowsPlaceholder | front/src/components/EPIsVencidas.tsx:80-89 | an item with no assignment shows "Não atribuído" |
| EpisVencidas.NameOf | front/src/components/EPIsVencidas.tsx:86 | the name of the first employee with the id, or "" (for `undefined`) when no employee has it |
| EpisVencidas.AssignedIds | front/src/components/EPIsVencidas.tsx:81-83 | one id per assignment of the item, the i-th being the employee of the item's i-th assignment |
| EpisVencidas.KnownNames | front/src/components/EPIsVencidas.tsx:85-87 | no more names than ids, each non-empty and the looked-up name of one of the ids |
| FuncionarioEpiManager.GetExpirationStatus | front/src/components/FuncionarioEPIManager.tsx:73-82 | every integer gets exactly one status: below 0 "Vencida" (destructive), 0 to 30 "Vence em breve" (default), above 30 "Válida" (secondary); the days are echoed |
| FuncionarioEpiManager.StatusAgreesWithPanels | front/src/components/FuncionarioEPIManager.tsx:73-82 | an item in the expired, expiring or healthy panel of the expiry page has the status "Vencida", "Vence em breve" or "Válida" respectively |
| FuncionarioEpiManager.FilteredFuncionarios | front/src/components/FuncionarioEPIManager.tsx:154-168 | in list order and with every repetition, exactly the employees whose name contains the term or who hold an assigned item whose CA contains it, both lower-cased: the result is `Seqs.Filter` of the list and each matching employee occurs as often as in the list |
| FuncionarioEpiManager.MatchesSearch | front/src/components/FuncionarioEPIManager.tsx:154-168 | the per-employee test: an empty lower-cased term always matches; an employee whose name does not contain the term and none of whose assignments has an item whose CA contains it does not match (the converse direction is `FuncionarioEpiManager.CaMatchSelects`) |
| FuncionarioEpiManager.EpiOf | front/src/components/FuncionarioEPIManager.tsx:138 | the item an assignment names, as `find` returns it: none iff no item has its id, otherwise the first item of the list with that id |
| FuncionarioEpiManager.CaMatchSelects | front/src/components/FuncionarioEPIManager.tsx:160-165 | an assignment to an item whose CA contains the term makes its employee a match whatever the name |
| FuncionarioEpiManager.EmptyTermKeepsAll | front/src/components/FuncionarioEPIManager.tsx:154-168 | an empty term keeps every employee in order |
| FuncionarioEpiManager.Resolve | front/src/components/FuncionarioEPIManager.tsx:137-143 | exactly the assignments whose item exists, each paired with that item |
| FuncionarioEpiManager.ResolveInOrder | front/src/components/FuncionarioEPIManager.tsx:137-143 | the i-th pair holds the i-th assignment whose item exists: one pair per such assignment, repetitions included, in the order of the assignments |
| FuncionarioEpiManager.ResolvedFor | front/src/components/FuncionarioEPIManager.tsx:136-143 | exactly the employee's assignments whose item exists, each with that item |
| FuncionarioEpiManager.ResolvedForInOrder | front/src/components/FuncionarioEPIManager.tsx:136-143 | the i-th pair of the employee holds the i-th of the employee's assignments whose item exists, so there is one pair per such assignment, in assignment order |
| FuncionarioEpiManager.EpiRows | front/src/components/FuncionarioEPIManager.tsx:202-206 | one row per resolvable assignment, showing the item with the assignment's expiry and id, the rest of the item unchanged |
| FuncionarioEpiManager.ExportPdf | front/src/components/FuncionarioEPIManager.tsx:135-152 | refused with "Funcionário não possui EPIs atribuídos" iff no assignment of the employee resolves; otherwise the resolved assignments |
| FuncionarioEpiManager.ClickAssign | front/src/components/FuncionarioEPIManager.tsx:325-333 | an absent or empty selection is refused with a message and assigns nothing; otherwise the selected item is assigned and only that employee's selection is cleared |
| FuncionarioEpiManager.SecondClickRefused | front/src/components/FuncionarioEPIManager.tsx:325-333 | a second click right after an assignment is refused; other employees' selections are untouched |
| FuncionarioEpiManager.EditClick | front/src/components/FuncionarioEPIManager.tsx:102-111 | the edit form starts from the employee's four fields |
| FuncionarioEpiManager.EditSubmit | front/src/components/FuncionarioEPIManager.tsx:122-133 | with an employee being edited, its id is kept and the four fields come from the form; otherwise nothing is submitted |
| FuncionarioEpiManager.EditRoundTrip | front/src/components/FuncionarioEPIManager.tsx:102-133 | opening the editor and saving unchanged gives back the same employee |
| IndexPage.FuncionarioFromApi | front/src/pages/Index.tsx:29-35 | the id is the raw CPF, the shown CPF its mask, the other fields copied |
| IndexPage.FuncionarioIdRecoverable | front/src/pages/Index.tsx:29-35 | for a stored CPF of at most eleven digits, stripping the shown CPF gives back the id |
| IndexPage.EpiFromApi | front/src/pages/Index.tsx:40-49 | the CA is both the id and the shown CA; the other fields are renamed copies |
| IndexPage.FuncionariosFromApi | front/src/pages/Index.tsx:29-35 | the rows are mapped one to one, in order |
| IndexPage.EpisFromApi | front/src/pages/Index.tsx:40-49 | the rows are mapped one to one, in order |
| IndexPage.LookupByIdIsLookupByCa | front/src/pages/Index.tsx:164 | looking an item up by id in the mapped list fails iff no row has that CA, and otherwise finds the mapping of a row with that CA |
| IndexPage.NewAtribuicao | front/src/pages/Index.tsx:188-194 | the assignment joins the item and the employee, is delivered today, and expires with the item, or today when the item has no expiry (a fallback `AssignEPI` never reaches, since an empty expiry throws first) |
| IndexPage.UnassignUndoesAssign | front/src/pages/Index.tsx:195-203 | removing a newly appended assignment whose id is new gives back the previous list |
| IndexPage.DeletedEmployeeNotNamed | front/src/pages/Index.tsx:159-161 | after an employee is deleted, the expiry page finds no name for its id |
| IndexPage.IndexState.constructor | front/src/pages/Index.tsx:15-17 | the three lists start empty |
| IndexPage.IndexState.AddEPI | front/src/pages/Index.tsx:84-103 | the item is appended; a reload whose listing succeeds and whose every date is valid then replaces the list by its mapping; a listing that throws, or a row with an invalid date, which makes `toISOString` throw, leaves the append in place |
| IndexPage.IndexState.DeleteEPI | front/src/pages/Index.tsx:105-113 | items with that id are removed, the others kept in order, only when the API call succeeds; on failure nothing changes and the error is returned |
| IndexPage.IndexState.UpdateCA | front/src/pages/Index.tsx:115-139 | before the reload, the items with that id get the new CA and expiry and keep their id; all others are unchanged; a reload whose listing succeeds and whose every date is valid then replaces the list; otherwise the update stays |
| IndexPage.IndexState.AddFuncionario | front/src/pages/Index.tsx:141-157 | the employee is appended; a successful reload then replaces the list |
| IndexPage.IndexState.DeleteFuncionario | front/src/pages/Index.tsx:159-161 | the employees with that id are removed and their assignments stay |
| IndexPage.IndexState.AssignEPI | front/src/pages/Index.tsx:163-200 | an unknown item is refused before any call; an item whose expiry or delivery date is not a valid date throws "Invalid time value" while the request is built, so nothing is sent or appended; a failed call leaves the assignments alone; a successful one appends exactly one assignment for the pair with the item's expiry, which is then a valid date; the request carries the item's fields, its `validade` and `data_entrada` being `toISOString()` of the item's expiry and delivery dates |
| IndexPage.IndexState.UnassignEPI | front/src/pages/Index.tsx:202-205 | exactly the assignments with that id are removed, the rest kept in order |
| IndexPage.IndexState.UpdateFuncionario | front/src/pages/Index.tsx:207-211 | every employee with the updated one's id is replaced by it; the rest and the order are kept |
| IndexPage.IndexState.UpdateAtribuicaoValidade | front/src/pages/Index.tsx:213-217 | only the expiry of the assignments with that id changes; every other field and entry is kept |
| FuncionarioForm.GuardedFormatCpfShort | front/src/components/FuncionarioForm.tsx:63-71 | up to eleven digits the form's mask is the shared CPF mask and keeps every digit |
| FuncionarioForm.GuardedFormatCpfLong | front/src/components/FuncionarioForm.tsx:63-73 | beyond eleven digits the input is returned unchanged, keeping the extra digits the shared mask would drop |
| FuncionarioForm.GuardedFormatCpfIdempotent | front/src/components/FuncionarioForm.tsx:63-73 | applying the form's mask to its own output changes nothing |
| FuncionarioForm.TypeCpf | front/src/components/FuncionarioForm.tsx:97-98 | typing in the CPF field changes only the CPF, which becomes the form's `formatCPF` of the typed text: the shared mask up to eleven digits, keeping every digit, and the typed text unchanged beyond |
| FuncionarioForm.Submit | front/src/components/FuncionarioForm.tsx:24-61 | the request sends only the CPF's digits; on success the new employee has those digits as id and the typed CPF as `cpf`, and the form is cleared; on failure nothing is added and the form stays |
| FuncionarioForm.SubmittedIdMatchesTypedCpf | front/src/components/FuncionarioForm.tsx:30-46 | typing at most eleven digits and submitting yields an employee whose id is the digits sent and whose shown CPF is their mask |
| FuncionarioForm.GuardedFormatCpf | front/src/components/FuncionarioForm.tsx:63-73 | this form's `formatCPF`: the shared mask of the input while it has at most eleven digits, the input untouched beyond that |

## Left out

- HTTP controllers and the server (`api/src/controller`, `src/controller`, `src/server.ts`) are not part of this model. They only parse requests, shape JSON and set status codes.
- The `fetch` wrappers of `front/src/lib/api.ts` are not modelled. Each call is the `apiError` parameter and each listing the `reload` parameter.
- PDF drawing (`front/src/lib/pdfGenerator.ts`), JSX, toasts, `confirm` dialogs, loading flags and dialog open/close state are not modelled. `FuncionarioEpiManager.ExportPdf` stops at the data it hands to the generator.
- The `useEffect` loaders and the `localStorage` persistence of assignments are not modelled. The API-row mappings they use are.
- The login handler of Auth.tsx is not modelled: it is a call followed by navigation.
- Dates are integers and days are given as integer inputs. Calendar arithmetic (`Date.setDate`), time zones, `toLocaleDateString` and date-fns are not modelled; `toISOString` is the parameter `isoDay` or `toIso`. Invalid Date is modelled where it changes control flow: the `validDate` parameter of `IndexPage.IndexState.AddEPI` and `IndexPage.IndexState.UpdateCA` (a reload whose mapping throws keeps the optimistic list) and of `IndexPage.IndexState.AssignEPI` (nothing is sent). Elsewhere the `isoDay` of an invalid date is whatever that parameter gives.
- Unicode lower-casing is the `lower` parameter. Nothing is assumed about it except, in `FuncionarioEpiManager.EmptyTermKeepsAll`, that it maps "" to "".
- A string field left `undefined` is represented by the empty string, and an absent date by `None`. For the required guards both are falsy. They differ for the name of `src/model/Epi.ts`: its required guard tests the class (line 12), so the first code to read the name is the length guard (line 20). That guard throws a `TypeError` on `undefined` and passes an empty string. The model has only the empty string, so `EpiModel.Create` and `EpiModel.EmptyNameAccepted` say nothing about an undefined name.
- The malformed `Funcionario.create` of `src/model/Funcionario.ts` (no body braces, one argument) is not modelled. The service uses the constructor's guards in the argument order of its call.
- The getters of `src/model/Epi.ts`, `src/model/Empresa.ts` and `api/src/model/Empresa.ts` are the datatypes' or the class's fields.
- EmpresaService.EmpresaService.Autenticar: `src/model/Empresa.ts` (lines 1-44) declares no `verifyPassword`, yet `src/service/Empresa.ts:30` calls it. For any email that is found the login would throw a `TypeError`. The model supplies the missing check as the parameter `compare`, the `bcrypt.compareSync` of `api/src/model/Empresa.ts:32`.
- FuncionarioService.FuncionarioService.ConsultarFuncionario and FuncionarioService.FuncionarioService.SubstituirEPI: `src/model/Funcionario.ts` declares no `getcpf` (its `cpf` is private), yet `src/service/Funcionario.ts:60` and `:83` call it. On a non-empty list both lookups would throw a `TypeError`. The model supplies the missing getter and reads the stored CPF.
- `getEPIs` of both equipment services is not a separate member. It returns the stored list, which the model reads as the field.
- IndexPage.IndexState.DeleteEPI, IndexPage.IndexState.AssignEPI, IndexPage.IndexState.AddEPI, IndexPage.IndexState.UpdateCA and IndexPage.IndexState.AddFuncionario: each async handler is modelled as one atomic transition. In Index.tsx they `await` a call and then write state built from the lists captured before it (`setEpis(epis.filter(..))` after the `await` of `handleDeleteEPI`, `setAtribuicoes([...atribuicoes, novaAtribuicao])` after that of `handleAssignEPI`, and the reloads that overwrite the list). An update another handler makes during the wait is then lost, for instance an unassign clicked while an assignment is in flight. The model does not capture these interleavings.
- Aliasing between the constructor argument `armazenamentoEPI` and the service's list is not modelled. The list is a value.
- EpisVencidas.Panel, EpisVencidas.ExpiredEPIs, EpisVencidas.ExpiringEPIs and EpisVencidas.HealthyEPIs: each panel is proved sorted and a permutation of the filtered items, not equal to what JavaScript's stable sort yields for items with equal expiry times.
- FuncionarioEpiManager.GetExpirationStatus: the `days` it echoes is its integer input; computing that input with `differenceInDays` is not modelled.
- The expiry-date dialog of FuncionarioEPIManager.tsx is not modelled separately. It forwards to `handleUpdateAtribuicaoValidade`, which is `IndexPage.IndexState.UpdateAtribuicaoValidade`.
