/** The two request scenarios of the controller's test suite. */
module Scenarios {
  import opened Wrappers
  import opened Decimal
  import opened Dates
  import Urls
  import opened EventSchema
  import opened EventController

  const ImagePath :=
    "media/posts/390241/dourados-tera-neste-sabado-balaio-festival-com-musica-arte-gastronomia-e-cultura-17522582977313.jpg"

  const ExampleImage := "https" + "://" + "douradosagora.com.br/" + ImagePath

  const BadImage := "douradosagora.com.br" + "@" + ImagePath

  /** The "should handle event creation" request. */
  const ExampleBody := RawBody(
    Some("Festival Gastronômico do Centro"), Some("Gastronomia"), Some("2025-09-20"), Some("18:00"),
    Some("Rua Ponciano, Centro"), Some("Gratuito"), Some(ExampleImage),
    Some("Barracas, food trucks e música ao vivo com artistas locais."))

  const ExampleEvent := Event(
    "Festival Gastronômico do Centro", "Gastronomia", Date(2025, 9, 20), "18:00",
    "Rua Ponciano, Centro", 0.0, ExampleImage,
    "Barracas, food trucks e música ao vivo com artistas locais.")

  /** The "should fail to create event whith invalid data" request. */
  const InvalidBody := RawBody(
    Some(""), Some(""), Some("20-25-09-20"), Some(""), Some(""), Some(""), Some(BadImage), Some(""))

  lemma ExampleImageIsUrl()
    ensures Urls.IsUrl(ExampleImage)
  {
    assert ExampleImage == "https" + "://" + ("douradosagora.com.br/" + ImagePath);
    Urls.UrlOfParts("https", "douradosagora.com.br/" + ImagePath);
  }

  lemma BadImageIsNotUrl()
    ensures !Urls.IsUrl(BadImage)
  {
    Urls.NotUrlWithoutColon("douradosagora.com.br", '@', ImagePath);
  }

  lemma ExampleYear()
    ensures Digits(2025, 4) == "2025"
  {
    assert Digits(2, 1) == "2";
    assert Digits(20, 2) == "20";
    assert Digits(202, 3) == "202";
  }

  lemma ExampleDate()
    ensures ParseDate("2025-09-20") == Some(Date(2025, 9, 20))
  {
    var d := Date(2025, 9, 20);
    ExampleYear();
    assert Digits(9, 2) == "09" by {
      assert Digits(0, 1) == "0";
    }
    assert Digits(20, 2) == "20" by {
      assert Digits(2, 1) == "2";
    }
    assert FormatDate(d) == "2025-09-20";
    ParseFormatted(d);
  }

  /** The valid example is stored as the event it describes and answered
      with 201 and the success message. */
  lemma ExampleIsCreated()
    ensures Process(Request(Some(ExampleBody))) == Created(ExampleEvent)
    ensures Reply(Request(Some(ExampleBody))) == Response(201, MessageBody("Evento criado com sucesso"))
  {
    ExampleImageIsUrl();
    ExampleDate();
    var c := Normalise(ExampleBody);
    assert c == Present(ExampleEvent);
    AcceptedIffValid(ExampleEvent);
  }

  lemma InvalidCandidate()
    ensures Normalise(InvalidBody) ==
      Candidate(Some(""), Some(""), None, Some(""), Some(""), None, Some(BadImage), Some(""))
  {
    NoDigitIsNaN("");
    assert ParseDate("20-25-09-20") == None;
  }

  lemma InvalidIssues()
    ensures Issues(Normalise(InvalidBody)) == [
      Issue(Titulo, TituloRequired), Issue(Cat, CatRequired), Issue(Data, DataInvalid),
      Issue(Hora, HoraRequired), Issue(Local, LocalRequired), Issue(Preco, ExpectedNumber),
      Issue(Img, ImgInvalid), Issue(Desc, DescRequired)]
  {
    InvalidCandidate();
    BadImageIsNotUrl();
    var c := Normalise(InvalidBody);
    assert Check(Titulo, c) == Some(TituloRequired) && Check(Cat, c) == Some(CatRequired);
    assert Check(Data, c) == Some(DataInvalid) && Check(Hora, c) == Some(HoraRequired);
    assert Check(Local, c) == Some(LocalRequired) && Check(Preco, c) == Some(ExpectedNumber);
    assert Check(Img, c) == Some(ImgInvalid) && Check(Desc, c) == Some(DescRequired);
    assert forall f :: Fails(f, c) by {
      forall f ensures Fails(f, c) {
        match f
        case Titulo => case Cat => case Data => case Hora =>
        case Local => case Preco => case Img => case Desc =>
      }
    }
    AllInvalidIssues(c);
  }

  lemma InvalidItems()
    ensures ToItems([
      Issue(Titulo, TituloRequired), Issue(Cat, CatRequired), Issue(Data, DataInvalid),
      Issue(Hora, HoraRequired), Issue(Local, LocalRequired), Issue(Preco, ExpectedNumber),
      Issue(Img, ImgInvalid), Issue(Desc, DescRequired)]) == [
      ErrorItem("titulo", "Título é obrigatório"),
      ErrorItem("cat", "Categoria é obrigatória"),
      ErrorItem("data", "Data inválida"),
      ErrorItem("hora", "Hora é obrigatória"),
      ErrorItem("local", "Local é obrigatória"),
      ErrorItem("preco", "Invalid input: expected number, received NaN"),
      ErrorItem("img", "Imagem deve ser uma URL válida"),
      ErrorItem("desc", "Descrição é obrigatória")]
  {
  }

  /** The invalid example is answered with 400 and all eight errors, in
      schema order, with their exact messages. */
  lemma InvalidIsRejected()
    ensures Reply(Request(Some(InvalidBody))) == Response(400, ValidationBody("Validation error", [
      ErrorItem("titulo", "Título é obrigatório"),
      ErrorItem("cat", "Categoria é obrigatória"),
      ErrorItem("data", "Data inválida"),
      ErrorItem("hora", "Hora é obrigatória"),
      ErrorItem("local", "Local é obrigatória"),
      ErrorItem("preco", "Invalid input: expected number, received NaN"),
      ErrorItem("img", "Imagem deve ser uma URL válida"),
      ErrorItem("desc", "Descrição é obrigatória")]))
  {
    InvalidIssues();
    InvalidItems();
    var issues := Issues(Normalise(InvalidBody));
    assert Process(Request(Some(InvalidBody))) == Rejected(issues);
  }

  /** Two controllers share one list: the valid request adds its event, the
      invalid one that follows adds nothing. */
  method SharedList()
  {
    var lista := new EventList();
    var first := new CriarEventosController(lista);
    ExampleIsCreated();
    var r1 := first.Handle(Request(Some(ExampleBody)));
    assert r1.status == 201 && lista.items == [ExampleEvent];
    var second := new CriarEventosController(lista);
    InvalidIsRejected();
    var r2 := second.Handle(Request(Some(InvalidBody)));
    assert r2.status == 400 && lista.items == [ExampleEvent];
    var r3 := second.Handle(Request(None));
    assert r3 == Response(500, ErrorBody("Erro interno do servidor")) && lista.items == [ExampleEvent];
  }
}
