/** `CriarEventosController.handle`: builds the schema input from the request
    body, runs the schema, appends the event to the shared list on success
    and answers 201, 400 or 500. */
module EventController {
  import opened Wrappers
  import opened Decimal
  import opened Dates
  import opened EventSchema

  /** The request body; `None` is a field the body does not have. */
  datatype RawBody = RawBody(
    titulo: Option<string>, cat: Option<string>, data: Option<string>, hora: Option<string>,
    local: Option<string>, preco: Option<string>, img: Option<string>, desc: Option<string>)

  /** A request; `None` is a request without a body, on which reading any
      field throws. */
  datatype Request = Request(body: Option<RawBody>)

  const Gratuito := "Gratuito"
  const CreatedMessage := "Evento criado com sucesso"
  const ValidationMessage := "Validation error"
  const InternalErrorMessage := "Erro interno do servidor"

  /** `new Date(text)`; an absent field gives an invalid date. A valid date
      is a calendar day, and the text is that day written out. */
  function ToDate(raw: Option<string>): (d: Option<Date>)
    ensures d.Some? ==> raw.Some? && IsCalendarDate(d.value) && raw.value == FormatDate(d.value)
  {
    match raw
    case None => None
    case Some(s) =>
      if ParseDate(s).Some? then FormatParsed(s); ParseDate(s) else None
  }

  /** `preco === 'Gratuito' ? 0 : parseFloat(preco)`; `parseFloat` of an
      absent field is `NaN`. */
  function ToPrice(raw: Option<string>): (p: Option<real>)
    ensures raw == Some(Gratuito) ==> p == Some(0.0)
    ensures raw.None? ==> p.None?
    ensures p.Some? && p.value < 0.0 ==>
      raw.Some? && TrimStart(raw.value) != [] && TrimStart(raw.value)[0] == '-'
  {
    if raw == Some(Gratuito) then Some(0.0)
    else match raw
      case None => None
      case Some(s) => ParseFloat(s)
  }

  /** The object `handle` passes to the schema: text fields as they are,
      `data` and `preco` converted. A converted date always passes the date
      rule, so "Data inválida" means the conversion failed; likewise the
      number type message means the price conversion gave `NaN`. */
  function Normalise(b: RawBody): (c: Candidate)
    ensures c.titulo == b.titulo && c.cat == b.cat && c.hora == b.hora
    ensures c.local == b.local && c.img == b.img && c.desc == b.desc
    ensures Check(Data, c).None? <==> ToDate(b.data).Some?
    ensures Check(Preco, c) == Some(ExpectedNumber) <==> ToPrice(b.preco).None?
  {
    Candidate(b.titulo, b.cat, ToDate(b.data), b.hora, b.local, ToPrice(b.preco), b.img, b.desc)
  }

  /** How one request ends: the event stored, the issues reported, or an
      exception that is not a validation error. */
  datatype Outcome = Created(event: Event) | Rejected(issues: seq<Issue>) | Faulted

  function Process(req: Request): (o: Outcome)
    ensures o.Faulted? <==> req.body.None?
    ensures o.Created? ==> IsValidEvent(o.event) && Normalise(req.body.value) == Present(o.event)
    ensures o.Rejected? ==> o.issues == Issues(Normalise(req.body.value)) && o.issues != []
    ensures req.body.Some? ==> (o.Created? <==> forall f :: !Fails(f, Normalise(req.body.value)))
  {
    match req.body
    case None => Faulted
    case Some(b) =>
      match Parse(Normalise(b))
      case Ok(e) => Created(e)
      case Err(issues) => Rejected(issues)
  }

  datatype ErrorItem = ErrorItem(path: string, message: string)

  datatype ResponseBody =
    | MessageBody(message: string)
    | ValidationBody(message: string, errors: seq<ErrorItem>)
    | ErrorBody(error: string)

  datatype Response = Response(status: nat, body: ResponseBody)

  /** `issues.map(err => ({path, message}))`: one entry per issue, in the same
      order, whose path names the issue's field and whose message is the issue's. */
  function ToItems(issues: seq<Issue>): (items: seq<ErrorItem>)
    ensures |items| == |issues|
    ensures forall k :: 0 <= k < |items| ==>
      FieldAt(items[k].path) == Some(issues[k].field) && items[k].message == issues[k].message
  {
    seq(|issues|, k requires 0 <= k < |issues| => ErrorItem(Path(issues[k].field), issues[k].message))
  }

  /** The status and JSON body `handle` writes for an outcome: 201 with the
      success message, 400 with "Validation error" and one entry per issue,
      500 with the generic error only. */
  function Respond(o: Outcome): (r: Response)
    ensures r.status in {201, 400, 500}
    ensures r.status == 201 <==> o.Created?
    ensures r.status == 400 <==> r.body.ValidationBody?
    ensures o.Rejected? ==> r.body.ValidationBody? && r.body.message == ValidationMessage && |r.body.errors| == |o.issues|
    ensures o.Faulted? ==> r.body == ErrorBody(InternalErrorMessage)
  {
    match o
    case Created(_) => Response(201, MessageBody(CreatedMessage))
    case Rejected(issues) => Response(400, ValidationBody(ValidationMessage, ToItems(issues)))
    case Faulted => Response(500, ErrorBody(InternalErrorMessage))
  }

  /** The response to a request: 500 exactly when there is no body, 201
      exactly when every rule passes on the converted body, and otherwise a
      400 that lists at least one issue. */
  function Reply(req: Request): (r: Response)
    ensures r.status == 500 <==> req.body.None?
    ensures req.body.Some? ==> (r.status == 201 <==> forall f :: !Fails(f, Normalise(req.body.value)))
    ensures r.status == 400 ==> r.body.ValidationBody? && r.body.errors != []
  {
    Respond(Process(req))
  }

  /** The field a path names, the inverse of `Path`. */
  function FieldAt(p: string): (r: Option<Field>)
    ensures r.Some? ==> Path(r.value) == p
  {
    if p == "titulo" then Some(Titulo)
    else if p == "cat" then Some(Cat)
    else if p == "data" then Some(Data)
    else if p == "hora" then Some(Hora)
    else if p == "local" then Some(Local)
    else if p == "preco" then Some(Preco)
    else if p == "img" then Some(Img)
    else if p == "desc" then Some(Desc)
    else None
  }

  lemma FieldAtPath(f: Field)
    ensures FieldAt(Path(f)) == Some(f)
  {
  }

  /** The status tells the outcome: 201 exactly when every rule passes,
      400 exactly when some rule fails, 500 exactly when there is no body. */
  lemma {:induction false} StatusIffOutcome(req: Request)
    ensures Reply(req).status == 500 <==> req.body.None?
    ensures req.body.Some? ==>
      (Reply(req).status == 201 <==> forall f :: !Fails(f, Normalise(req.body.value)))
    ensures req.body.Some? ==>
      (Reply(req).status == 400 <==> exists f :: Fails(f, Normalise(req.body.value)))
    ensures Reply(req).status in {201, 400, 500}
  {
    var o := Process(req);
    assert Reply(req) == Respond(o);
  }

  /** The body of a 201 is the success message, the body of a 500 the bare
      generic error with no detail. */
  lemma SuccessAndFaultBodies(req: Request)
    ensures Reply(req).status == 201 ==> Reply(req).body == MessageBody(CreatedMessage)
    ensures Reply(req).status == 500 ==> Reply(req).body == ErrorBody(InternalErrorMessage)
  {
  }

  /** A 400 carries "Validation error" and one entry per failing field: an
      entry (path of `f`, `m`) is present exactly when the rule for `f` fails
      with `m`; every path names a field; paths follow schema order. */
  lemma {:induction false} RejectionReportsEveryFailure(req: Request)
    requires Reply(req).status == 400
    ensures req.body.Some?
    ensures Reply(req).body.ValidationBody? && Reply(req).body.message == ValidationMessage
    ensures 1 <= |Reply(req).body.errors| <= 8
    ensures forall f, m :: ErrorItem(Path(f), m) in Reply(req).body.errors <==>
      Check(f, Normalise(req.body.value)) == Some(m)
    ensures forall k :: 0 <= k < |Reply(req).body.errors| ==> FieldAt(Reply(req).body.errors[k].path).Some?
    ensures forall i, j :: 0 <= i < j < |Reply(req).body.errors| ==>
      Rank(FieldAt(Reply(req).body.errors[i].path).value) < Rank(FieldAt(Reply(req).body.errors[j].path).value)
  {
    var c := Normalise(req.body.value);
    var issues := Issues(c);
    var items := ToItems(issues);
    assert Reply(req).body.errors == items;
    IssuesSoundAndComplete(c);
    IssuesAscending(c);
    ItemsMatchIssues(issues);
  }

  /** An entry (path of `f`, `m`) is in the response exactly when the issue
      (`f`, `m`) is in the list it was built from. */
  lemma {:induction false} ItemsMatchIssues(issues: seq<Issue>)
    ensures forall f, m :: ErrorItem(Path(f), m) in ToItems(issues) <==> Issue(f, m) in issues
  {
    var items := ToItems(issues);
    forall f, m ensures ErrorItem(Path(f), m) in items <==> Issue(f, m) in issues {
      if ErrorItem(Path(f), m) in items {
        var k :| 0 <= k < |items| && items[k] == ErrorItem(Path(f), m);
        FieldAtPath(f);
        assert issues[k] == Issue(f, m);
      }
      if Issue(f, m) in issues {
        var k :| 0 <= k < |issues| && issues[k] == Issue(f, m);
        assert items[k] == ErrorItem(Path(f), m);
      }
    }
  }

  /** The raw body value of a text field. */
  function RawText(b: RawBody, f: Field): Option<string>
    requires IsTextField(f)
  {
    if f == Titulo then b.titulo
    else if f == Cat then b.cat
    else if f == Hora then b.hora
    else if f == Local then b.local
    else b.desc
  }

  /** The text fields are taken as they are: each fails with its own message
      exactly when it is the empty string (a blank string passes), with the
      library's type message exactly when it is absent, and passes exactly
      when it has at least one character. */
  lemma TextFieldsFailOnlyWhenEmpty(b: RawBody)
    ensures forall f | IsTextField(f) ::
      Check(f, Normalise(b)) == Some(RequiredMessage(f)) <==> RawText(b, f) == Some("")
    ensures forall f | IsTextField(f) ::
      Check(f, Normalise(b)) == Some(ExpectedString) <==> RawText(b, f) == None
    ensures forall f | IsTextField(f) ::
      Check(f, Normalise(b)) == None <==> RawText(b, f).Some? && |RawText(b, f).value| >= 1
  {
  }

  /** "Gratuito" is free and passes; otherwise the price fails with the NaN
      message exactly when the text does not begin with a number (the empty
      string included) and with the non-negative message exactly when it
      reads as a negative number. */
  lemma {:induction false} PriceRule(b: RawBody)
    ensures b.preco == Some(Gratuito) ==> Normalise(b).preco == Some(0.0) && !Fails(Preco, Normalise(b))
    ensures Check(Preco, Normalise(b)) == Some(ExpectedNumber) <==>
      b.preco != Some(Gratuito) && (b.preco.None? || ParseFloat(b.preco.value).None?)
    ensures Check(Preco, Normalise(b)) == Some(PrecoNegative) <==>
      b.preco != Some(Gratuito) && b.preco.Some? && ParseFloat(b.preco.value).Some? &&
      ParseFloat(b.preco.value).value < 0.0
    ensures b.preco == Some("") ==> Check(Preco, Normalise(b)) == Some(ExpectedNumber)
  {
    if b.preco == Some("") {
      NoDigitIsNaN("");
    }
  }

  /** The date fails exactly when the text is absent or not a date written
      out as `YYYY-MM-DD`; the image fails exactly when it is absent or not
      a URL. */
  lemma {:induction false} DateAndImageRules(b: RawBody)
    ensures !Fails(Data, Normalise(b)) <==> exists d :: IsCalendarDate(d) && b.data == Some(FormatDate(d))
    ensures Fails(Data, Normalise(b)) ==> Check(Data, Normalise(b)) == Some(DataInvalid)
    ensures Fails(Img, Normalise(b)) <==> !(b.img.Some? && Urls.IsUrl(b.img.value))
    ensures Fails(Img, Normalise(b)) ==> Check(Img, Normalise(b)) == Some(ImgInvalid)
  {
    if b.data.Some? {
      var s := b.data.value;
      if ParseDate(s).Some? {
        ParseDateIffFormatted(s, ParseDate(s).value);
      }
      forall d | IsCalendarDate(d) && s == FormatDate(d) ensures ParseDate(s) == Some(d) {
        ParseDateIffFormatted(s, d);
      }
    }
  }

  /** Every event in the list has passed the schema. */
  ghost predicate AllValid(events: seq<Event>)
  {
    forall k :: 0 <= k < |events| ==> IsValidEvent(events[k])
  }

  /** `listaEventos`: the module-level list every controller appends to. */
  class EventList {
    var items: seq<Event>

    constructor ()
      ensures items == []
    {
      items := [];
    }

    /** `listaEventos.push(evento)`. */
    method Push(e: Event)
      modifies this
      ensures items == old(items) + [e]
    {
      items := items + [e];
    }
  }

  class CriarEventosController {
    const eventos: EventList

    constructor (eventos: EventList)
      ensures this.eventos == eventos
    {
      this.eventos := eventos;
    }

    /** One request: the response is `Reply(req)`; the list grows by the
        created event on success and is left exactly as it was on a
        validation failure or an internal error. */
    method Handle(req: Request) returns (res: Response)
      modifies eventos
      ensures res == Reply(req)
      ensures Process(req).Created? ==> eventos.items == old(eventos.items) + [Process(req).event]
      ensures !Process(req).Created? ==> eventos.items == old(eventos.items)
      ensures res.status == 201 <==> |eventos.items| == |old(eventos.items)| + 1
      ensures AllValid(old(eventos.items)) ==> AllValid(eventos.items)
    {
      match req.body {
        case None =>
          res := Response(500, ErrorBody(InternalErrorMessage));
        case Some(b) =>
          var parsed := Parse(Normalise(b));
          match parsed {
            case Ok(evento) =>
              eventos.Push(evento);
              res := Response(201, MessageBody(CreatedMessage));
            case Err(issues) =>
              res := Response(400, ValidationBody(ValidationMessage, ToItems(issues)));
          }
      }
    }
  }
}
