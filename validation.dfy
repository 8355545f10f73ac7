/** The payload validator shared by the create and patch handlers. */
module Validation {
  import opened Values

  /** The six movie fields, each with its own error message. */
  datatype Field = Id | Title | Year | Director | Length | Rating

  /** What a call of the validator comes to: it returns no message (`Ok`), returns
      the message of one field (`Invalid`), or raises an exception that nothing in
      the validator catches (`Fault`). */
  datatype Verdict = Ok | Invalid(field: Field) | Fault

  const MaxTextLength: nat := 100
  const MinYear: int := 1900
  const MaxYear: int := 2100
  const MinRating: int := 0
  const MaxRating: int := 10

  /** The validator, check by check in the source's order; the first failing check
      decides the verdict. The `length` check runs only when the field is absent or
      is not a string, and then `data['length']` raises `KeyError` or `strptime`
      raises `TypeError`; the validator's own `except ValueError` does not catch
      them, and the exception escapes the handler, so the length message is never
      returned. */
  function Validate(data: Record): (r: Verdict)
    ensures r != Invalid(Length)
    ensures r == Ok ==> HasIntId(data)
  {
    if !("id" in data && IsInt(data["id"])) then
      Invalid(Id)
    else if !("title" in data && IsStr(data["title"]) && |data["title"].s| <= MaxTextLength) then
      Invalid(Title)
    else if !("year" in data && IsInt(data["year"]) && MinYear <= AsInt(data["year"]) <= MaxYear) then
      Invalid(Year)
    else if !("director" in data && IsStr(data["director"]) && |data["director"].s| <= MaxTextLength) then
      Invalid(Director)
    else if !("length" in data && IsStr(data["length"])) then
      Fault
    else if !("rating" in data && IsInt(data["rating"]) && MinRating <= AsInt(data["rating"]) <= MaxRating) then
      Invalid(Rating)
    else
      Ok
  }

  /** The message text the validator returns for each field (the same in both
      copies of the service). The `length` text is never returned. */
  function FieldMessageText(f: Field): string
  {
    match f
    case Id => "Поле 'id' не задано или задано некорректно"
    case Title => "Поле 'title' не задано или задано некорректно"
    case Year => "Поле 'year' не задано или задано некорректно"
    case Director => "Поле 'director' не задано или задано некорректно"
    case Length => "Неверный формат поля 'length', должно быть: 'HH:MM:SS'"
    case Rating => "Поле 'rating' не задано или задано некорректно"
  }

  /** A full movie record with the six fields of the data model. */
  function Movie(id: int, title: string, year: int, director: string, length: string, rating: int): Record
  {
    map["id" := VInt(id), "title" := VStr(title), "year" := VInt(year),
        "director" := VStr(director), "length" := VStr(length), "rating" := VInt(rating)]
  }

  /** A full record within the bounds passes validation, whatever its `length` string. */
  lemma MovieValidates(id: int, title: string, year: int, director: string, length: string, rating: int)
    requires |title| <= MaxTextLength && |director| <= MaxTextLength
    requires MinYear <= year <= MaxYear && MinRating <= rating <= MaxRating
    ensures Validate(Movie(id, title, year, director, length, rating)) == Ok
  {
  }

  // ---------------------------------------------------------------------------
  // A table-driven reference: what each field must hold, and the order of checks.

  /** The kind of value a field must hold. */
  datatype Kind = AnyInt | IntRange(lo: int, hi: int) | Text(maxLength: nat) | AnyText

  function Key(f: Field): string
  {
    match f
    case Id => "id"
    case Title => "title"
    case Year => "year"
    case Director => "director"
    case Length => "length"
    case Rating => "rating"
  }

  /** The schema the validator enforces: inclusive bounds, length caps, and for
      `length` only "is a string" (its format is never checked). */
  function KindOf(f: Field): Kind
  {
    match f
    case Id => AnyInt
    case Title => Text(MaxTextLength)
    case Year => IntRange(MinYear, MaxYear)
    case Director => Text(MaxTextLength)
    case Length => AnyText
    case Rating => IntRange(MinRating, MaxRating)
  }

  predicate Conforms(v: Value, k: Kind)
  {
    match k
    case AnyInt => IsInt(v)
    case IntRange(lo, hi) => IsInt(v) && lo <= AsInt(v) && AsInt(v) <= hi
    case Text(n) => IsStr(v) && |v.s| <= n
    case AnyText => IsStr(v)
  }

  predicate FieldOk(data: Record, f: Field)
  {
    Key(f) in data && Conforms(data[Key(f)], KindOf(f))
  }

  /** The order in which the validator checks the fields. */
  const CheckOrder: seq<Field> := [Id, Title, Year, Director, Length, Rating]

  /** The first field of `fs` that `data` gets wrong, if any. */
  function FirstFailing(data: Record, fs: seq<Field>): (r: Option<Field>)
    ensures r.None? <==> forall i :: 0 <= i < |fs| ==> FieldOk(data, fs[i])
    ensures r.Some? ==> exists i :: 0 <= i < |fs| && fs[i] == r.value && !FieldOk(data, fs[i])
                                    && forall j :: 0 <= j < i ==> FieldOk(data, fs[j])
  {
    if fs == [] then None
    else if !FieldOk(data, fs[0]) then Some(fs[0])
    else
      var r := FirstFailing(data, fs[1..]);
      assert forall i :: 1 <= i < |fs| ==> fs[i] == fs[1..][i - 1];
      r
  }

  /** How the first failing field turns into a verdict: a bad `length` escapes as an
      exception, every other field gives its message. */
  function VerdictFor(first: Option<Field>): Verdict
  {
    match first
    case None => Ok
    case Some(Length) => Fault
    case Some(f) => Invalid(f)
  }

  // ---------------------------------------------------------------------------
  // Properties of the validator.

  /** The schema's per-field checks, spelled out as the validator writes them. */
  lemma FieldOkSpelledOut(data: Record)
    ensures FieldOk(data, Id) == ("id" in data && IsInt(data["id"]))
    ensures FieldOk(data, Title) == ("title" in data && IsStr(data["title"]) && |data["title"].s| <= MaxTextLength)
    ensures FieldOk(data, Year) == ("year" in data && IsInt(data["year"]) && MinYear <= AsInt(data["year"]) <= MaxYear)
    ensures FieldOk(data, Director) == ("director" in data && IsStr(data["director"]) && |data["director"].s| <= MaxTextLength)
    ensures FieldOk(data, Length) == ("length" in data && IsStr(data["length"]))
    ensures FieldOk(data, Rating) == ("rating" in data && IsInt(data["rating"]) && MinRating <= AsInt(data["rating"]) <= MaxRating)
  {
  }

  /** The validator is the first-failure rule over the schema, in `CheckOrder`. */
  lemma ValidateIsFirstFailure(data: Record)
    ensures Validate(data) == VerdictFor(FirstFailing(data, CheckOrder))
  {
    var fs := CheckOrder;
    var f1 := FirstFailing(data, fs[5..]);
    var f2 := FirstFailing(data, fs[4..]);
    var f3 := FirstFailing(data, fs[3..]);
    var f4 := FirstFailing(data, fs[2..]);
    var f5 := FirstFailing(data, fs[1..]);
    var f6 := FirstFailing(data, fs);
    assert f1 == (if !FieldOk(data, Rating) then Some(Rating) else None) by {
      assert fs[5..][1..] == [];
    }
    assert f2 == (if !FieldOk(data, Length) then Some(Length) else f1) by {
      assert fs[4..][1..] == fs[5..];
    }
    assert f3 == (if !FieldOk(data, Director) then Some(Director) else f2) by {
      assert fs[3..][1..] == fs[4..];
    }
    assert f4 == (if !FieldOk(data, Year) then Some(Year) else f3) by {
      assert fs[2..][1..] == fs[3..];
    }
    assert f5 == (if !FieldOk(data, Title) then Some(Title) else f4) by {
      assert fs[1..][1..] == fs[2..];
    }
    assert f6 == (if !FieldOk(data, Id) then Some(Id) else f5);
    FieldOkSpelledOut(data);
  }

  /** No message is returned exactly when every field conforms to the schema. */
  lemma ValidateOkIffConforming(data: Record)
    ensures Validate(data) == Ok <==> forall f :: FieldOk(data, f)
  {
    ValidateIsFirstFailure(data);
    var fs := CheckOrder;
    if forall i :: 0 <= i < |fs| ==> FieldOk(data, fs[i]) {
      forall f ensures FieldOk(data, f) {
        match f
        case Id => assert fs[0] == f;
        case Title => assert fs[1] == f;
        case Year => assert fs[2] == f;
        case Director => assert fs[3] == f;
        case Length => assert fs[4] == f;
        case Rating => assert fs[5] == f;
      }
    }
  }

  /** The verdict names a field only when that field is wrong and every field
      checked before it is right. */
  lemma InvalidMeansFirstWrongField(data: Record, f: Field)
    requires Validate(data) == Invalid(f)
    ensures !FieldOk(data, f)
    ensures forall i :: 0 <= i < |CheckOrder| && CheckOrder[i] == f ==>
              forall j :: 0 <= j < i ==> FieldOk(data, CheckOrder[j])
  {
    ValidateIsFirstFailure(data);
  }

  /** `True` and `False` count as the integers 1 and 0: a boolean passes the `id`
      and `rating` checks and fails the `year` range. */
  lemma BooleansAreIntegers(data: Record, b: bool)
    ensures FieldOk(data["id" := VBool(b)], Id)
    ensures FieldOk(data["rating" := VBool(b)], Rating)
    ensures !FieldOk(data["year" := VBool(b)], Year)
  {
  }

  /** A `length` that is a string is never looked at: any other string in its place
      gives the same verdict, so a malformed time such as "abc" is accepted. */
  lemma LengthStringNotInspected(data: Record, t: string, u: string)
    ensures Validate(data["length" := VStr(t)]) == Validate(data["length" := VStr(u)])
  {
  }

  /** An absent or non-string `length` after four good fields is a fault, never a message. */
  lemma LengthNotStringFaults(data: Record)
    requires FieldOk(data, Id) && FieldOk(data, Title) && FieldOk(data, Year) && FieldOk(data, Director)
    requires !("length" in data && IsStr(data["length"]))
    ensures Validate(data) == Fault
  {
  }
}
