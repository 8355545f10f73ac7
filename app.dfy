/** The service in flask/app.py: its ten seed records, its error texts, and
    typical request sequences against a freshly seeded store. */
module App {
  import opened Values
  import opened Validation
  import opened Movies
  import opened Handlers

  /** The seed rows: id, title, year, director, length, rating. */
  const SeedRows: seq<(int, string, int, string, string, int)> :=
    [ (1, "Побег из Шоушенка", 1994, "Фрэнк Дарабонт", "02:22:00", 9),
      (2, "Крёстный отец", 1972, "Фрэнсис Форд Коппола", "02:55:00", 9),
      (3, "Тёмный рыцарь", 2008, "Кристофер Нолан", "02:32:00", 9),
      (4, "Криминальное чтиво", 1994, "Квентин Тарантино", "02:34:00", 8),
      (5, "Властелин колец: Возвращение короля", 2003, "Питер Джексон", "03:21:00", 9),
      (6, "Форрест Гамп", 1994, "Роберт Земекис", "02:22:00", 8),
      (7, "Начало", 2010, "Кристофер Нолан", "02:28:00", 8),
      (8, "Бойцовский клуб", 1999, "Дэвид Финчер", "02:19:00", 8),
      (9, "Матрица", 1999, "Лана Вачовски, Лилли Вачовски", "02:16:00", 8),
      (10, "Славные парни", 1990, "Мартин Скорсезе", "02:26:00", 8) ]

  /** The records the store holds at start-up: 10 records with the ids 1 to 10 in order. */
  function Seed(): (r: seq<Record>)
    ensures |r| == 10 && AllHaveIntIds(r)
    ensures forall j :: 0 <= j < |r| ==> IdOf(r[j]) == j + 1
  {
    assert forall j :: 0 <= j < |SeedRows| ==> SeedRows[j].0 == j + 1;
    seq(|SeedRows|, j requires 0 <= j < |SeedRows| =>
      var row := SeedRows[j];
      Movie(row.0, row.1, row.2, row.3, row.4, row.5))
  }

  /** The seed carries the ids 1 to 10 in order, so its ids are distinct. */
  lemma SeedIdsDistinct()
    ensures DistinctIds(Seed())
  {
  }

  /** Every seed record would itself pass validation. */
  lemma SeedValidates()
    ensures forall j :: 0 <= j < |Seed()| ==> Validate(Seed()[j]) == Ok
  {
    forall j | 0 <= j < |Seed()| ensures Validate(Seed()[j]) == Ok {
      var row := SeedRows[j];
      assert |row.1| <= MaxTextLength && |row.3| <= MaxTextLength;
      assert MinYear <= row.2 <= MaxYear && MinRating <= row.5 <= MaxRating;
      MovieValidates(row.0, row.1, row.2, row.3, row.4, row.5);
    }
  }

  /** The `reason` text sent with each refusal. A server error carries the text of
      the exception, which is not modelled. */
  function ReasonText(r: Reason): (t: string)
    requires !r.ServerError?
    ensures !r.FieldMessage? ==> forall f :: t != FieldMessageText(f)
  {
    match r
    case FieldMessage(f) => FieldMessageText(f)
    case DuplicateId => "Movie with this ID already exists"
    case NotFound => "Not Found"
  }

  /** Different refusals carry different texts. */
  lemma ReasonTextsDistinct(a: Reason, b: Reason)
    requires !a.ServerError? && !b.ServerError? && a != b
    ensures ReasonText(a) != ReasonText(b)
  {
    TextLength(a);
    TextLength(b);
  }

  lemma TextLength(r: Reason)
    requires !r.ServerError?
    ensures |ReasonText(r)| == match r
      case FieldMessage(Id) => 42
      case FieldMessage(Title) => 45
      case FieldMessage(Year) => 44
      case FieldMessage(Director) => 48
      case FieldMessage(Length) => 54
      case FieldMessage(Rating) => 46
      case DuplicateId => 33
      case _ => 9
  {
  }

  /** Patching record 1 with a valid payload that carries id 2 leaves two records
      with id 2: patch does not keep the seed's ids distinct. */
  lemma SeedPatchDuplicatesId()
    ensures AllHaveIntIds(Patch(Seed(), 1, Movie(2, "Крёстный отец", 1972, "Фрэнсис Форд Коппола", "02:55:00", 9)).movies)
    ensures !DistinctIds(Patch(Seed(), 1, Movie(2, "Крёстный отец", 1972, "Фрэнсис Форд Коппола", "02:55:00", 9)).movies)
  {
    var data := Movie(2, "Крёстный отец", 1972, "Фрэнсис Форд Коппола", "02:55:00", 9);
    SeedIdsDistinct();
    MovieValidates(2, "Крёстный отец", 1972, "Фрэнсис Форд Коппола", "02:55:00", 9);
    FindIsFirstMatch(Seed(), 1, 0);
    PatchCanDuplicateId(Seed(), 1, data, 1);
  }

  /** Creation requests against a freshly seeded store:
      id 11 is added and listed last, id 1 is refused as a duplicate, and a title
      of 101 characters is refused with the title's message. */
  method CreateSession()
  {
    SeedIdsDistinct();
    var store := new MovieStore(Seed());

    var m11 := Movie(11, "Интерстеллар", 2014, "Кристофер Нолан", "02:49:00", 9);
    MovieValidates(11, "Интерстеллар", 2014, "Кристофер Нолан", "02:49:00", 9);
    var r := store.AddMovie(m11);
    assert r == Response(200, MovieBody(m11));
    r := store.GetMovies();
    assert r.body.list == Seed() + [m11];

    var dup := Movie(1, "Побег из Шоушенка", 1994, "Фрэнк Дарабонт", "02:22:00", 9);
    MovieValidates(1, "Побег из Шоушенка", 1994, "Фрэнк Дарабонт", "02:22:00", 9);
    assert IdOf(store.movies[0]) == 1;
    r := store.AddMovie(dup);
    assert r == Error(400, DuplicateId);

    var long := Movie(12, seq(101, _ => 'x'), 2000, "Кто-то", "01:00:00", 5);
    r := store.AddMovie(long);
    assert r == Error(400, FieldMessage(Title));
  }

  /** Lookups and patch against a freshly seeded store:
      404 for an unknown id on get and on patch, and a full payload patched onto
      id 3 answered with the merged record. */
  method PatchSession()
  {
    SeedIdsDistinct();
    var store := new MovieStore(Seed());

    var r := store.GetMovie(99);
    assert r == Error(404, NotFound);
    var m3 := Movie(3, "Тёмный рыцарь", 2008, "Кристофер Нолан", "02:32:00", 10);
    MovieValidates(3, "Тёмный рыцарь", 2008, "Кристофер Нолан", "02:32:00", 10);
    r := store.PatchMovie(99, m3);
    assert r == Error(404, NotFound);

    FindIsFirstMatch(store.movies, 3, 2);
    PatchWithFullPayload(store.movies, 3, m3, 2);
    r := store.PatchMovie(3, m3);
    assert r == Response(200, MovieBody(m3));
  }

  /** Deleting id 3 from a freshly seeded store answers 202; deleting it again
      answers 404. */
  method DeleteSession()
  {
    SeedIdsDistinct();
    var store := new MovieStore(Seed());

    assert IdOf(store.movies[2]) == 3;
    DeleteTwiceNotFound(store.movies, 3);
    var r := store.DeleteMovie(3);
    assert r.status == 202;
    r := store.DeleteMovie(3);
    assert r == Error(404, NotFound);
  }
}
