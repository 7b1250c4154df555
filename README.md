# Create-event validation and response pipeline

This project models the "create event" handler of the events catalogue.
`CriarEventosController.handle` takes a request body with eight fields
(`titulo`, `cat`, `data`, `hora`, `local`, `preco`, `img`, `desc`). It
converts `data` to a date and `preco` to a number (`"Gratuito"` becomes 0).
It then runs the `criarEventoSchema` rules. If every rule passes, it appends
the parsed event to the module-level list `listaEventos` and answers 201. If
any rule fails, it answers 400 with every failing field in schema order. Any
other exception gives 500.

Modules:

- `Wrappers`: `Option` (absent field, `NaN`, invalid date) and `Result`.
- `Decimal`: decimal digits and a stand-in for `parseFloat`. It skips leading
  white space, reads an optional sign, then the longest literal made of
  digits, an optional `.` and digits, and an optional exponent.
- `Dates`: a stand-in for `new Date(text)`. The text must be `YYYY-MM-DD`
  and name a real Gregorian calendar day; anything else is an invalid date.
- `Urls`: a stand-in for the URL check. It accepts a scheme, then `://`,
  then at least one more character.
- `EventSchema`: the eight field rules and their messages (`Check`). It also
  holds the issue collection, which evaluates every field and never stops
  early (`Collect`, `Issues`), and `Parse`.
- `EventController`: the conversion `handle` performs (`Normalise`), the
  outcome (`Process`) and the response (`Respond`, `Reply`). It also holds
  the shared list (`EventList`) and the controller class with its `Handle`
  method.
- `Scenarios`: the two request scenarios of the test suite, plus a method
  (`SharedList`) in which two controllers share one list.

Behaviour of the code worth noting:

- A negative price fails with "Preço deve ser um número não negativo". Only
  a price that is not a number at all fails with "Invalid input: expected
  number, received NaN".
- Text fields are not trimmed. Only the empty string fails its rule, and a
  blank string such as `" "` passes.
- An absent text field is not treated like an empty one. The string schema
  rejects `undefined` with the library's own type message, "Invalid input:
  expected string, received undefined", not with the field's custom
  message. An absent `data` gives an invalid date. An absent `preco` parses
  to `NaN`. An absent `img` fails the URL rule.
- The 500 answer comes from reading fields of a missing request body, which
  throws before the schema runs.

## Model

| member | source | states |
|---|---|---|
| `EventSchema.Path` | test/integration/unit/criar-eventos-controller.spec.ts:65 | an issue's path is the field's key, a single lower-case word, so `join(".")` gives the key itself |
| `EventSchema.Check` | test/integration/unit/criar-eventos-controller.spec.ts:31-38 | each rule reports only its own messages: a text field its custom message or the string type message, the price the number type message or the non-negative message, the date "Data inválida", the image the URL message |
| `EventSchema.Issues` | test/integration/unit/criar-eventos-controller.spec.ts:30-39 | at most one issue per field of the schema, each naming a field whose rule fails with exactly that message |
| `EventSchema.Rank` | test/integration/unit/criar-eventos-controller.spec.ts:30-39 | each field's position in the schema's declaration order `titulo, cat, data, hora, local, preco, img, desc` |
| `EventSchema.Collect` | test/integration/unit/criar-eventos-controller.spec.ts:47-56 | every field is evaluated; at most one issue per field evaluated |
| `EventSchema.CollectSound` | test/integration/unit/criar-eventos-controller.spec.ts:30-39 | every collected issue belongs to a field of the list whose rule fails with exactly that message |
| `EventSchema.CollectComplete` | test/integration/unit/criar-eventos-controller.spec.ts:30-39 | every failing field of the list has its issue in the result: no short-circuit |
| `EventSchema.CollectAscending` | test/integration/unit/criar-eventos-controller.spec.ts:30-39 | over fields in schema order, issues come out in schema order, so no field is reported twice |
| `EventSchema.CollectFull` | test/integration/unit/criar-eventos-controller.spec.ts:30-39 | there is one issue per field exactly when every field of the list fails |
| `EventSchema.CollectAllFailing` | test/integration/unit/criar-eventos-controller.spec.ts:30-39 | when every field fails, issue `k` is field `k`'s issue |
| `EventSchema.IssuesSoundAndComplete` | test/integration/unit/criar-eventos-controller.spec.ts:30-39 | issue (f, m) is reported exactly when the rule for f fails with message m |
| `EventSchema.IssuesAscending` | test/integration/unit/criar-eventos-controller.spec.ts:30-39 | reported issues follow schema field order strictly |
| `EventSchema.IssuesEmptyIffValid` | test/integration/unit/criar-eventos-controller.spec.ts:30-39 | no issue exactly when all eight rules pass |
| `EventSchema.IssuesFullIffAllInvalid` | test/integration/unit/criar-eventos-controller.spec.ts:134-174 | eight issues exactly when all eight rules fail |
| `EventSchema.AllInvalidIssues` | test/integration/unit/criar-eventos-controller.spec.ts:134-174 | with every rule failing the issues are `titulo, cat, data, hora, local, preco, img, desc`, each with its rule's message |
| `EventSchema.Parse` | test/integration/unit/criar-eventos-controller.spec.ts:30-39 | succeeds exactly when no rule fails; the event holds the input's values, every field present, and satisfies every rule; a failure carries the full, non-empty issue list |
| `EventSchema.AcceptedIffValid` | test/integration/unit/criar-eventos-controller.spec.ts:30-39 | an event is accepted, with its values kept, exactly when its text fields are non-empty, its date is a calendar date, its price is non-negative and its image is a URL |
| `EventController.ToDate` | test/integration/unit/criar-eventos-controller.spec.ts:50 | a valid date comes only from a present text that is that calendar day written out |
| `EventController.ToPrice` | test/integration/unit/criar-eventos-controller.spec.ts:53 | "Gratuito" is 0; an absent price is `NaN`; a negative price needs a minus sign at the start of the text after white space |
| `EventController.Normalise` | test/integration/unit/criar-eventos-controller.spec.ts:47-56 | text fields pass through untouched; the date rule fails exactly when the date conversion fails; the number type message appears exactly when the price conversion gives `NaN` |
| `EventController.Process` | test/integration/unit/criar-eventos-controller.spec.ts:44-72 | 500 path exactly when the body is missing; an event is created exactly when every rule passes, and it satisfies every rule; a rejection carries the schema's issue list, never empty |
| `EventController.ToItems` | test/integration/unit/criar-eventos-controller.spec.ts:64-67 | one entry per issue, in order; each entry's path names the issue's field and its message is the issue's |
| `EventController.ItemsMatchIssues` | test/integration/unit/criar-eventos-controller.spec.ts:64-67 | entry (path of f, m) is in the response exactly when issue (f, m) is in the list |
| `EventController.Respond` | test/integration/unit/criar-eventos-controller.spec.ts:58-71 | status is 201, 400 or 500; 201 exactly for a created event; 400 exactly with a validation body, which has "Validation error" and one entry per issue; 500 carries only "Erro interno do servidor" |
| `EventController.Reply` | test/integration/unit/criar-eventos-controller.spec.ts:44-71 | 500 exactly when there is no body; 201 exactly when every rule passes on the converted body; a 400 lists at least one issue |
| `EventController.FieldAt` | test/integration/unit/criar-eventos-controller.spec.ts:65 | a recognised path is the `Path` of the field returned |
| `EventController.FieldAtPath` | test/integration/unit/criar-eventos-controller.spec.ts:65 | every field's path maps back to that field |
| `EventController.StatusIffOutcome` | test/integration/unit/criar-eventos-controller.spec.ts:57-71 | status is 500 exactly without a body, 201 exactly when all rules pass, 400 exactly when some rule fails, and never anything else |
| `EventController.SuccessAndFaultBodies` | test/integration/unit/criar-eventos-controller.spec.ts:58 | a 201 carries "Evento criado com sucesso"; a 500 carries only "Erro interno do servidor" |
| `EventController.RejectionReportsEveryFailure` | test/integration/unit/criar-eventos-controller.spec.ts:61-68 | a 400 carries "Validation error" and 1 to 8 entries; entry (path of f, m) is present exactly when f fails with m; paths name fields and follow schema order |
| `EventController.TextFieldsFailOnlyWhenEmpty` | test/integration/unit/criar-eventos-controller.spec.ts:31-38 | each text field fails with its own message exactly when it is `""`, with the type message exactly when absent, and passes exactly when non-empty |
| `EventController.PriceRule` | test/integration/unit/criar-eventos-controller.spec.ts:36 | "Gratuito" becomes 0 and passes; the NaN message appears exactly when the text is absent or does not start with a number; the non-negative message appears exactly when it reads as a negative number; `""` gives the NaN message |
| `EventController.DateAndImageRules` | test/integration/unit/criar-eventos-controller.spec.ts:50 | the date passes exactly when the text is some calendar date written out, else "Data inválida"; the image fails exactly when absent or not a URL, with "Imagem deve ser uma URL válida" |
| `EventController.EventList.constructor` | test/integration/unit/criar-eventos-controller.spec.ts:41 | the list starts empty |
| `EventController.EventList.Push` | test/integration/unit/criar-eventos-controller.spec.ts:57 | appends exactly one event at the end |
| `EventController.CriarEventosController.constructor` | test/integration/unit/criar-eventos-controller.spec.ts:43 | a controller appends to the list it is given, which every controller shares |
| `EventController.CriarEventosController.Handle` | test/integration/unit/criar-eventos-controller.spec.ts:44-73 | answers `Reply(req)`; appends exactly the created event on success; leaves the list unchanged on 400 and 500; the list grows exactly when the status is 201; an all-valid list stays all-valid |
| `Decimal.ParseFloat` | test/integration/unit/criar-eventos-controller.spec.ts:53 | a negative result needs a leading minus sign after the white space |
| `Decimal.NoDigitIsNaN` | test/integration/unit/criar-eventos-controller.spec.ts:53 | text without any digit, the empty string included, parses to `NaN` |
| `Decimal.ParseFloatOfDigits` | test/integration/unit/criar-eventos-controller.spec.ts:53 | digits followed by text that cannot continue a number read as their value, and as its negation after `-` |
| `Decimal.ParseFloatOfFraction` | test/integration/unit/criar-eventos-controller.spec.ts:53 | `ds.fs` reads as the integer part plus the fraction |
| `Decimal.ParseFloatSkipsSpace` | test/integration/unit/criar-eventos-controller.spec.ts:53 | leading white space, space separators included, does not change what is read |
| `Decimal.ParseFloatOfExponent` | test/integration/unit/criar-eventos-controller.spec.ts:53 | digits, `e` and exponent digits read as the value with the decimal point moved right by the exponent, or left after `e-` |
| `Decimal.ParseFloatNegated` | test/integration/unit/criar-eventos-controller.spec.ts:53 | a leading `-` negates what follows, `NaN` staying `NaN` |
| `Dates.ParseDate` | test/integration/unit/criar-eventos-controller.spec.ts:50 | a date is produced only from `YYYY-MM-DD` text and is a real calendar day |
| `Dates.ParseDateIffFormatted` | test/integration/unit/criar-eventos-controller.spec.ts:50 | text parses to date d exactly when d is a calendar date and the text is d written out |
| `Urls.IsUrl` | test/integration/unit/criar-eventos-controller.spec.ts:37 | an accepted URL starts with a letter and has at least five characters |
| `Urls.IsUrlIffSplit` | test/integration/unit/criar-eventos-controller.spec.ts:37 | the scanner accepts exactly a scheme, `://` and a non-empty rest |
| `Urls.UrlOfParts` | test/integration/unit/criar-eventos-controller.spec.ts:37 | scheme + `://` + non-empty rest is a URL |
| `Urls.NotUrlWithoutColon` | test/integration/unit/criar-eventos-controller.spec.ts:124 | text whose leading scheme characters stop at a character other than `:` is not a URL |
| `Scenarios.ExampleIsCreated` | test/integration/unit/criar-eventos-controller.spec.ts:87-111 | the example request creates the event it describes, with price 0 and date 2025-09-20, and answers 201 with the success message |
| `Scenarios.InvalidItems` | test/integration/unit/criar-eventos-controller.spec.ts:134-176 | the eight issues of the invalid request become the eight path/message entries of the response |
| `Scenarios.InvalidIsRejected` | test/integration/unit/criar-eventos-controller.spec.ts:114-179 | the invalid request answers 400 with the eight exact path/message pairs in schema order |

## Left out

- Express `Request` and `Response`, the `mockResponse` helper and the jest harness, including the trivial `expect(true)` test. A request is a value holding an optional body, and a response is a status with a JSON body value.
- `async` and `Promise`, and concurrent requests against the shared list. Each `Handle` call is one atomic step on the list.
- Decimal.ParseFloat: reads `Infinity` as `NaN`, and does not model binary floating-point rounding or overflow of large exponents to infinity. Values are exact reals.
- Dates.ParseDate: accepts only the `YYYY-MM-DD` form. The other formats `new Date` accepts, time parts and time zones, and the engine's handling of out-of-range days are not modelled. The stored date is a calendar day, not an instant.
- EventSchema.Parse: the stored `img` is the text as given. The URL format of the schema library writes a trimmed or normalised string back into the parsed object, so the source stores `"https://x"` for `"https://x "`. That write-back is library behaviour and is not modelled.
- EventSchema.AcceptedIffValid: "values kept" holds for the model only; with the library's URL write-back the stored `img` can differ from the input's, as on the line above.
- Urls.IsUrl: a syntactic stand-in for the URL parser the schema uses. Opaque-path URLs such as `mailto:x` and the WHATWG host rules are not modelled.
- Request values that are not strings, such as a JSON number for `preco`, are not modelled. A numeric `preco` behaves like its decimal text.
- The schema library's internals are not modelled, for example stripping unknown keys. The model's raw body has only the eight fields.
- The only modelled 500 path is a missing body. Other exceptions, such as a getter that throws, are not modelled.
