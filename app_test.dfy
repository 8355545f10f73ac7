/** The service in flask/app_test.py. Its validator and handlers are the same code
    as in flask/app.py (modelled once, in `Validation`, `Movies` and `Handlers`); it
    differs in its two seed records and in the texts of two refusals. */
module AppTest {
  import opened Values
  import opened Validation
  import opened Movies
  import opened Handlers
  import App

  /** The seed rows: id, title, year, director, length, rating. */
  const SeedRows: seq<(int, string, int, string, string, int)> :=
    [ (1, "Побег из Шоушенка", 1994, "Фрэнк Дарабонт", "02:22:00", 9),
      (2, "Крёстный отец", 1972, "Фрэнсис Форд Коппола", "02:55:00", 9) ]

  /** The records the store holds at start-up: 2 records with the ids 1 to 2 in order. */
  function Seed(): (r: seq<Record>)
    ensures |r| == 2 && AllHaveIntIds(r)
    ensures forall j :: 0 <= j < |r| ==> IdOf(r[j]) == j + 1
  {
    seq(|SeedRows|, j requires 0 <= j < |SeedRows| =>
      var row := SeedRows[j];
      Movie(row.0, row.1, row.2, row.3, row.4, row.5))
  }

  /** The seed carries the ids 1 and 2, so its ids are distinct. */
  lemma SeedIdsDistinct()
    ensures DistinctIds(Seed())
  {
  }

  /** The two seed records are the first two of the other copy's seed. */
  lemma SeedIsPrefixOfAppSeed()
    ensures Seed() == App.Seed()[..2]
  {
    assert |App.Seed()| == 10;
  }

  /** The `reason` text sent with each refusal: the field messages are the other
      copy's, the duplicate-id and not-found texts are its own. */
  function ReasonText(r: Reason): (t: string)
    requires !r.ServerError?
    ensures !r.FieldMessage? ==> forall f :: t != FieldMessageText(f)
  {
    match r
    case FieldMessage(f) => FieldMessageText(f)
    case DuplicateId => "Фильм с таким ID уже существует"
    case NotFound => "Не найдено"
  }

  lemma TextLength(r: Reason)
    requires !r.ServerError?
    ensures |ReasonText(r)| == match r
      case FieldMessage(Id) => 42
      case FieldMessage(Title) => 45
      case FieldMessage(Year) => 44
      case FieldMessage(Director) => 48
      case FieldMessage(Length) => 54
      case FieldMessage(Rating) => 46
      case DuplicateId => 31
      case _ => 10
  {
  }

  /** Different refusals carry different texts. */
  lemma ReasonTextsDistinct(a: Reason, b: Reason)
    requires !a.ServerError? && !b.ServerError? && a != b
    ensures ReasonText(a) != ReasonText(b)
  {
    TextLength(a);
    TextLength(b);
  }

  /** The two copies agree on every field message and differ on the other two. */
  lemma TextsAgainstApp(r: Reason)
    requires !r.ServerError?
    ensures r.FieldMessage? <==> ReasonText(r) == App.ReasonText(r)
  {
    TextLength(r);
    App.TextLength(r);
  }

  /** Creation and deletion against the two-record seed: id 1 is refused as a
      duplicate, id 3 is appended, and id 2 is deleted once (202) and then not
      found (404), leaving records 1 and 3 in that order. */
  method Session()
  {
    SeedIdsDistinct();
    var store := new MovieStore(Seed());

    var dup := Movie(1, "Побег из Шоушенка", 1994, "Фрэнк Дарабонт", "02:22:00", 9);
    MovieValidates(1, "Побег из Шоушенка", 1994, "Фрэнк Дарабонт", "02:22:00", 9);
    assert IdOf(store.movies[0]) == 1;
    var r := store.AddMovie(dup);
    assert r == Error(400, DuplicateId);

    var m3 := Movie(3, "Тёмный рыцарь", 2008, "Кристофер Нолан", "02:32:00", 9);
    MovieValidates(3, "Тёмный рыцарь", 2008, "Кристофер Нолан", "02:32:00", 9);
    r := store.AddMovie(m3);
    assert r == Response(200, MovieBody(m3)) && store.movies == Seed() + [m3];

    FindIsFirstMatch(store.movies, 2, 1);
    DeleteRemovesMatched(store.movies, 2, 1);
    r := store.DeleteMovie(2);
    assert r.status == 202 && store.movies == [Seed()[0], m3];
    r := store.DeleteMovie(2);
    assert r == Error(404, NotFound);
  }
}
