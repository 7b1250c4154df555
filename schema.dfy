/** `criarEventoSchema`: eight field rules applied to the object the handler
    builds from the request body. Every rule is evaluated; every failing
    field contributes one issue, in the order the fields are declared. */
module EventSchema {
  import opened Wrappers
  import opened Dates
  import Urls

  datatype Field = Titulo | Cat | Data | Hora | Local | Preco | Img | Desc

  /** The fields in declaration order, the order issues are reported in. */
  const FieldOrder: seq<Field> := [Titulo, Cat, Data, Hora, Local, Preco, Img, Desc]

  function Rank(f: Field): (k: nat)
    ensures k < |FieldOrder| && FieldOrder[k] == f
  {
    match f
    case Titulo => 0
    case Cat => 1
    case Data => 2
    case Hora => 3
    case Local => 4
    case Preco => 5
    case Img => 6
    case Desc => 7
  }

  /** The issue path, the field's key in the schema object. A key of the
      top-level object is a single lower-case word, so joining the issue's
      one-element path with "." gives the key itself. */
  function Path(f: Field): (p: string)
    ensures p != [] && forall i :: 0 <= i < |p| ==> 'a' <= p[i] <= 'z'
  {
    match f
    case Titulo => "titulo"
    case Cat => "cat"
    case Data => "data"
    case Hora => "hora"
    case Local => "local"
    case Preco => "preco"
    case Img => "img"
    case Desc => "desc"
  }

  const TituloRequired := "Título é obrigatório"
  const CatRequired := "Categoria é obrigatória"
  const DataInvalid := "Data inválida"
  const HoraRequired := "Hora é obrigatória"
  const LocalRequired := "Local é obrigatória"
  const PrecoNegative := "Preço deve ser um número não negativo"
  const ImgInvalid := "Imagem deve ser uma URL válida"
  const DescRequired := "Descrição é obrigatória"
  /** The library's own messages for a value of the wrong type. */
  const ExpectedString := "Invalid input: expected string, received undefined"
  const ExpectedNumber := "Invalid input: expected number, received NaN"

  /** The object passed to the schema. Text fields are the raw body values
      (`None`: absent); `data` is the constructed date (`None`: an invalid
      date); `preco` is the parsed number (`None`: `NaN`). */
  datatype Candidate = Candidate(
    titulo: Option<string>, cat: Option<string>, data: Option<Date>, hora: Option<string>,
    local: Option<string>, preco: Option<real>, img: Option<string>, desc: Option<string>)

  /** The parsed, typed event. */
  datatype Event = Event(
    titulo: string, cat: string, data: Date, hora: string,
    local: string, preco: real, img: string, desc: string)

  datatype Issue = Issue(field: Field, message: string)

  /** The five fields whose rule is "non-empty text". */
  predicate IsTextField(f: Field)
  {
    f == Titulo || f == Cat || f == Hora || f == Local || f == Desc
  }

  /** The message a text field reports when it is empty. */
  function RequiredMessage(f: Field): string
    requires IsTextField(f)
  {
    if f == Titulo then TituloRequired
    else if f == Cat then CatRequired
    else if f == Hora then HoraRequired
    else if f == Local then LocalRequired
    else DescRequired
  }

  /** `z.string().min(1, message)`. */
  function TextRule(v: Option<string>, message: string): Option<string>
  {
    match v
    case None => Some(ExpectedString)
    case Some(s) => if |s| < 1 then Some(message) else None
  }

  /** The message the rule for `f` reports about `c`, or `None` when it passes.
      Each rule reports only its own messages: a text field its custom message
      or the string type message, the price the number type message or the
      non-negative message, the date and the image their custom message. */
  function Check(f: Field, c: Candidate): (m: Option<string>)
    ensures m.Some? && IsTextField(f) ==> m.value in {RequiredMessage(f), ExpectedString}
    ensures m.Some? && f == Preco ==> m.value in {ExpectedNumber, PrecoNegative}
    ensures m.Some? && f == Data ==> m.value == DataInvalid
    ensures m.Some? && f == Img ==> m.value == ImgInvalid
  {
    match f
    case Titulo => TextRule(c.titulo, TituloRequired)
    case Cat => TextRule(c.cat, CatRequired)
    case Data =>
      if c.data.Some? && IsCalendarDate(c.data.value) then None else Some(DataInvalid)
    case Hora => TextRule(c.hora, HoraRequired)
    case Local => TextRule(c.local, LocalRequired)
    case Preco =>
      (match c.preco
       case None => Some(ExpectedNumber)
       case Some(x) => if x < 0.0 then Some(PrecoNegative) else None)
    case Img =>
      if c.img.Some? && Urls.IsUrl(c.img.value) then None else Some(ImgInvalid)
    case Desc => TextRule(c.desc, DescRequired)
  }

  predicate Fails(f: Field, c: Candidate) { Check(f, c).Some? }

  /** The issue a failing field produces. */
  function IssueOf(f: Field, c: Candidate): Issue
    requires Fails(f, c)
  {
    Issue(f, Check(f, c).value)
  }

  /** The issues of the given fields, evaluated one after another without stopping. */
  function Collect(fields: seq<Field>, c: Candidate): (issues: seq<Issue>)
    ensures |issues| <= |fields|
  {
    if fields == [] then []
    else
      var here := if Fails(fields[0], c) then [IssueOf(fields[0], c)] else [];
      here + Collect(fields[1..], c)
  }

  /** The schema's issue list: the eight fields' issues in declaration order.
      There is at most one per field, and each names a field whose rule fails
      with exactly that message. */
  function Issues(c: Candidate): (issues: seq<Issue>)
    ensures |issues| <= |FieldOrder|
    ensures forall k :: 0 <= k < |issues| ==> Check(issues[k].field, c) == Some(issues[k].message)
  {
    CollectSound(FieldOrder, c);
    Collect(FieldOrder, c)
  }

  predicate Ascending(fields: seq<Field>)
  {
    forall i, j :: 0 <= i < j < |fields| ==> Rank(fields[i]) < Rank(fields[j])
  }

  /** Each collected issue belongs to a failing field of the list and
      carries that field's message. */
  lemma {:induction false} CollectSound(fields: seq<Field>, c: Candidate)
    ensures forall k :: 0 <= k < |Collect(fields, c)| ==>
      Collect(fields, c)[k].field in fields &&
      Check(Collect(fields, c)[k].field, c) == Some(Collect(fields, c)[k].message)
  {
    if fields != [] {
      var rest := fields[1..];
      CollectSound(rest, c);
      var tail := Collect(rest, c);
      var all := Collect(fields, c);
      var h := |all| - |tail|;
      forall k | 0 <= k < |all|
        ensures all[k].field in fields && Check(all[k].field, c) == Some(all[k].message)
      {
        if k >= h {
          assert all[k] == tail[k - h];
        }
      }
    }
  }

  /** Each collected issue names a field of the list. */
  lemma {:induction false} CollectFields(fields: seq<Field>, c: Candidate)
    ensures forall k :: 0 <= k < |Collect(fields, c)| ==> Collect(fields, c)[k].field in fields
  {
    if fields != [] {
      var rest := fields[1..];
      CollectFields(rest, c);
      var tail := Collect(rest, c);
      var all := Collect(fields, c);
      var h := |all| - |tail|;
      forall k | 0 <= k < |all| ensures all[k].field in fields {
        if k >= h {
          assert all[k] == tail[k - h];
        }
      }
    }
  }

  /** Each failing field of the list has an issue with its rule's message. */
  lemma {:induction false} CollectComplete(fields: seq<Field>, c: Candidate)
    ensures forall f :: f in fields && Fails(f, c) ==> IssueOf(f, c) in Collect(fields, c)
  {
    if fields != [] {
      var rest := fields[1..];
      CollectComplete(rest, c);
      assert forall f :: f in fields && f != fields[0] ==> f in rest;
    }
  }

  /** Over fields in schema order, the issues come in schema order, so no
      field is reported twice. */
  lemma {:induction false} CollectAscending(fields: seq<Field>, c: Candidate)
    requires Ascending(fields)
    ensures forall i, j :: 0 <= i < j < |Collect(fields, c)| ==>
      Rank(Collect(fields, c)[i].field) < Rank(Collect(fields, c)[j].field)
  {
    if fields != [] {
      var rest := fields[1..];
      assert Ascending(rest);
      CollectAscending(rest, c);
      CollectFields(rest, c);
      var tail := Collect(rest, c);
      var all := Collect(fields, c);
      var h := |all| - |tail|;
      forall i, j | 0 <= i < j < |all|
        ensures Rank(all[i].field) < Rank(all[j].field)
      {
        assert all[j] == tail[j - h];
        if h == 1 && i == 0 {
          assert all[0].field == fields[0];
          assert tail[j - h].field in rest;
          var m :| 0 <= m < |rest| && rest[m] == all[j].field;
          assert rest[m] == fields[m + 1];
        } else {
          assert all[i] == tail[i - h];
        }
      }
    }
  }

  /** Every field of the list fails exactly when there is one issue per field. */
  lemma {:induction false} CollectFull(fields: seq<Field>, c: Candidate)
    ensures |Collect(fields, c)| == |fields| <==> forall k :: 0 <= k < |fields| ==> Fails(fields[k], c)
  {
    if fields != [] {
      CollectFull(fields[1..], c);
      assert forall k :: 1 <= k < |fields| ==> fields[k] == fields[1..][k - 1];
    }
  }

  lemma InFieldOrder(f: Field)
    ensures f in FieldOrder
  {
    assert FieldOrder[Rank(f)] == f;
  }

  /** The issue list of a candidate is sound and complete: an issue for field
      `f` with message `m` is in it exactly when the rule for `f` fails with
      `m`. */
  lemma {:induction false} IssuesSoundAndComplete(c: Candidate)
    ensures forall f, m :: Issue(f, m) in Issues(c) <==> Check(f, c) == Some(m)
  {
    CollectSound(FieldOrder, c);
    CollectComplete(FieldOrder, c);
    forall f, m | Check(f, c) == Some(m) ensures Issue(f, m) in Issues(c) {
      InFieldOrder(f);
    }
  }

  lemma FieldOrderAscending()
    ensures Ascending(FieldOrder)
  {
    assert forall i :: 0 <= i < |FieldOrder| ==> Rank(FieldOrder[i]) == i;
  }

  /** The issues come in schema order, so no field is reported twice. */
  lemma IssuesAscending(c: Candidate)
    ensures forall i, j :: 0 <= i < j < |Issues(c)| ==> Rank(Issues(c)[i].field) < Rank(Issues(c)[j].field)
  {
    FieldOrderAscending();
    CollectAscending(FieldOrder, c);
  }

  /** The issue list is empty exactly when every rule passes. */
  lemma {:induction false} IssuesEmptyIffValid(c: Candidate)
    ensures Issues(c) == [] <==> forall f :: !Fails(f, c)
  {
    IssuesSoundAndComplete(c);
    if Issues(c) != [] {
      var first := Issues(c)[0];
      assert Issue(first.field, first.message) in Issues(c);
      assert Fails(first.field, c);
    }
  }

  /** When every field of the list fails, there is one issue per field, in
      the order of the list. */
  lemma {:induction false} CollectAllFailing(fields: seq<Field>, c: Candidate)
    requires forall k :: 0 <= k < |fields| ==> Fails(fields[k], c)
    ensures |Collect(fields, c)| == |fields|
    ensures forall k :: 0 <= k < |fields| ==> Collect(fields, c)[k] == IssueOf(fields[k], c)
  {
    if fields != [] {
      var rest := fields[1..];
      CollectAllFailing(rest, c);
      var all := Collect(fields, c);
      assert all == [IssueOf(fields[0], c)] + Collect(rest, c);
      forall k | 1 <= k < |fields| ensures all[k] == IssueOf(fields[k], c) {
        assert fields[k] == rest[k - 1];
      }
    }
  }

  /** With every rule failing, the issues are all eight fields in schema order. */
  lemma AllInvalidIssues(c: Candidate)
    requires forall f :: Fails(f, c)
    ensures Issues(c) == [
      IssueOf(Titulo, c), IssueOf(Cat, c), IssueOf(Data, c), IssueOf(Hora, c),
      IssueOf(Local, c), IssueOf(Preco, c), IssueOf(Img, c), IssueOf(Desc, c)]
  {
    CollectAllFailing(FieldOrder, c);
  }

  /** The issue list has eight entries exactly when every rule fails. */
  lemma {:induction false} IssuesFullIffAllInvalid(c: Candidate)
    ensures |Issues(c)| == 8 <==> forall f :: Fails(f, c)
  {
    CollectFull(FieldOrder, c);
    if forall k :: 0 <= k < 8 ==> Fails(FieldOrder[k], c) {
      forall f ensures Fails(f, c) { assert FieldOrder[Rank(f)] == f; }
    }
  }

  /** What a parsed event satisfies: every text field non-empty, a calendar
      date, a non-negative price and a URL image. */
  predicate IsValidEvent(e: Event)
  {
    |e.titulo| >= 1 && |e.cat| >= 1 && IsCalendarDate(e.data) && |e.hora| >= 1 &&
    |e.local| >= 1 && e.preco >= 0.0 && Urls.IsUrl(e.img) && |e.desc| >= 1
  }

  /** The candidate in which every field of `e` is present. */
  function Present(e: Event): Candidate
  {
    Candidate(Some(e.titulo), Some(e.cat), Some(e.data), Some(e.hora),
              Some(e.local), Some(e.preco), Some(e.img), Some(e.desc))
  }

  /** `criarEventoSchema.parse`: the event when no rule fails, otherwise
      every issue. */
  function Parse(c: Candidate): (r: Result<Event, seq<Issue>>)
    ensures r.Ok? <==> forall f :: !Fails(f, c)
    ensures r.Ok? ==> IsValidEvent(r.value) && c == Present(r.value)
    ensures r.Err? ==> r.error == Issues(c) && r.error != []
  {
    IssuesEmptyIffValid(c);
    if Issues(c) == [] then
      assert !Fails(Titulo, c) && !Fails(Cat, c) && !Fails(Data, c) && !Fails(Hora, c);
      assert !Fails(Local, c) && !Fails(Preco, c) && !Fails(Img, c) && !Fails(Desc, c);
      Ok(Event(c.titulo.value, c.cat.value, c.data.value, c.hora.value,
               c.local.value, c.preco.value, c.img.value, c.desc.value))
    else
      Err(Issues(c))
  }

  /** An event passes the schema exactly when it satisfies the event invariant. */
  lemma AcceptedIffValid(e: Event)
    ensures Parse(Present(e)) == Ok(e) <==> IsValidEvent(e)
  {
    var c := Present(e);
    if IsValidEvent(e) {
      assert !Fails(Titulo, c) && !Fails(Cat, c) && !Fails(Data, c) && !Fails(Hora, c);
      assert !Fails(Local, c) && !Fails(Preco, c) && !Fails(Img, c) && !Fails(Desc, c);
      assert forall f :: !Fails(f, c);
    }
  }
}
