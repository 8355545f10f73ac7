/** The store's behaviour as functions on the list of records: what each handler
    answers and what list it leaves behind. The `Handlers` module implements these
    on a mutable store; the lemmas here state what the handlers promise. */
module Movies {
  import opened Values
  import opened Validation

  /** Why a request was refused. Each reason stands for one fixed message text. */
  datatype Reason = FieldMessage(field: Field) | DuplicateId | NotFound | ServerError

  datatype Body = MovieBody(movie: Record) | ListBody(list: seq<Record>) | ErrorBody(reason: Reason) | NoBody

  /** An HTTP status code and the JSON body sent with it. */
  datatype Response = Response(status: int, body: Body)

  /** A handler's response together with the list of records after the request. */
  datatype Outcome = Outcome(response: Response, movies: seq<Record>)

  function Error(status: int, reason: Reason): Response
  {
    Response(status, ErrorBody(reason))
  }

  /** The linear scan `next((m for m in movies if m['id'] == id), None)`:
      the position of the first record carrying `id`. */
  function Find(s: seq<Record>, id: int): (r: Option<nat>)
    requires AllHaveIntIds(s)
    ensures r.Some? ==> r.value < |s| && IdOf(s[r.value]) == id
    ensures r.Some? ==> forall j :: 0 <= j < r.value ==> IdOf(s[j]) != id
    ensures r.None? <==> !HasId(s, id)
  {
    if s == [] then None
    else if IdOf(s[0]) == id then Some(0)
    else
      assert forall j :: 1 <= j < |s| ==> s[j] == s[1..][j - 1];
      match Find(s[1..], id)
      case None => None
      case Some(k) => Some(k + 1)
  }

  /** Python's `list.remove(x)`: drop the first element equal to `x`. The source only
      calls it with an element of the list; on any other list it changes nothing. */
  function RemoveFirst(s: seq<Record>, x: Record): (r: seq<Record>)
    ensures x in s ==> |r| == |s| - 1
    ensures x !in s ==> r == s
  {
    if s == [] then []
    else if s[0] == x then s[1..]
    else [s[0]] + RemoveFirst(s[1..], x)
  }

  // ---------------------------------------------------------------------------
  // The three handlers that change the list.

  /** `add_movie`: validate, refuse a duplicate id, otherwise append the payload. */
  function Add(s: seq<Record>, data: Record): (r: Outcome)
    requires AllHaveIntIds(s)
    ensures AllHaveIntIds(r.movies)
    ensures r.response.status != 200 ==> r.movies == s
  {
    match Validate(data)
    case Fault => Outcome(Error(500, ServerError), s)
    case Invalid(f) => Outcome(Error(400, FieldMessage(f)), s)
    case Ok =>
      if HasId(s, IdOf(data)) then Outcome(Error(400, DuplicateId), s)
      else Outcome(Response(200, MovieBody(data)), s + [data])
  }

  /** `patch_movie`: validate the payload, then find the record by the path id and
      overlay every key of the payload onto it (`dict.update`). */
  function Patch(s: seq<Record>, id: nat, data: Record): (r: Outcome)
    requires AllHaveIntIds(s)
    ensures AllHaveIntIds(r.movies)
    ensures |r.movies| == |s|
    ensures r.response.status != 200 ==> r.movies == s
  {
    match Validate(data)
    case Fault => Outcome(Error(500, ServerError), s)
    case Invalid(f) => Outcome(Error(400, FieldMessage(f)), s)
    case Ok =>
      match Find(s, id)
      case None => Outcome(Error(404, NotFound), s)
      case Some(k) =>
        var merged := s[k] + data;
        Outcome(Response(200, MovieBody(merged)), s[k := merged])
  }

  /** `delete_movie`: find the record by id and `remove` it from the list. */
  function Delete(s: seq<Record>, id: nat): (r: Outcome)
    requires AllHaveIntIds(s)
    ensures AllHaveIntIds(r.movies)
    ensures r.response.status != 202 ==> r.movies == s
  {
    match Find(s, id)
    case None => Outcome(Error(404, NotFound), s)
    case Some(k) =>
      RemoveFirstAtFirstMatch(s, id, k);
      Outcome(Response(202, NoBody), RemoveFirst(s, s[k]))
  }

  // ---------------------------------------------------------------------------
  // Lookup.

  /** The first match is the only position that carries `id` and has no match before it. */
  lemma FindIsFirstMatch(s: seq<Record>, id: int, k: nat)
    requires AllHaveIntIds(s)
    requires k < |s| && IdOf(s[k]) == id
    requires forall j :: 0 <= j < k ==> IdOf(s[j]) != id
    ensures Find(s, id) == Some(k)
  {
  }

  /** A record stored with id `True` answers to id 1, since `True == 1` in Python. */
  lemma TrueIdAnswersToOne(s: seq<Record>)
    requires AllHaveIntIds(s) && |s| > 0 && s[0]["id"] == VBool(true)
    ensures Find(s, 1) == Some(0)
  {
  }

  /** When ids are distinct, the record found is the only one carrying `id`. */
  lemma FindUniqueUnderDistinctIds(s: seq<Record>, id: int, j: nat)
    requires AllHaveIntIds(s) && DistinctIds(s)
    requires j < |s| && IdOf(s[j]) == id
    ensures Find(s, id) == Some(j)
  {
  }

  // ---------------------------------------------------------------------------
  // Create.

  /** A payload the validator refuses gives 400 with the field's message, or a
      server error when the validator raises; the list is untouched either way. */
  lemma AddRefusesInvalid(s: seq<Record>, data: Record)
    requires AllHaveIntIds(s)
    requires Validate(data) != Ok
    ensures Add(s, data).movies == s
    ensures Validate(data).Invalid? ==> Add(s, data).response == Error(400, FieldMessage(Validate(data).field))
    ensures Validate(data) == Fault ==> Add(s, data).response.status == 500
  {
  }

  /** A valid payload whose id is already stored gives 400 and leaves the list alone;
      one with a new id is appended at the end and echoed with 200. */
  lemma AddDuplicateOrAppend(s: seq<Record>, data: Record)
    requires AllHaveIntIds(s)
    requires Validate(data) == Ok
    ensures HasId(s, IdOf(data)) ==> Add(s, data) == Outcome(Error(400, DuplicateId), s)
    ensures !HasId(s, IdOf(data)) ==> Add(s, data) == Outcome(Response(200, MovieBody(data)), s + [data])
  {
  }

  /** Creating never introduces a second record with an id already present. */
  lemma AddKeepsIdsDistinct(s: seq<Record>, data: Record)
    requires AllHaveIntIds(s) && DistinctIds(s)
    ensures DistinctIds(Add(s, data).movies)
  {
    var t := Add(s, data).movies;
    if t != s {
      assert t == s + [data] && !HasId(s, IdOf(data));
      forall i, j | 0 <= i < j < |t| ensures IdOf(t[i]) != IdOf(t[j]) {
        if j == |s| {
          assert t[j] == data && t[i] == s[i];
        }
      }
    }
  }

  // ---------------------------------------------------------------------------
  // Patch.

  /** The payload is validated before the id is looked up: an invalid payload is
      refused the same way for every id, known or not, and changes nothing. */
  lemma PatchValidatesBeforeLookup(s: seq<Record>, id: nat, other: nat, data: Record)
    requires AllHaveIntIds(s)
    requires Validate(data) != Ok
    ensures Patch(s, id, data) == Patch(s, other, data)
    ensures Patch(s, id, data).movies == s
    ensures Validate(data).Invalid? ==> Patch(s, id, data).response == Error(400, FieldMessage(Validate(data).field))
  {
  }

  /** A valid payload for an id nobody carries gives 404 and changes nothing. */
  lemma PatchUnknownIdNotFound(s: seq<Record>, id: nat, data: Record)
    requires AllHaveIntIds(s)
    requires Validate(data) == Ok && !HasId(s, id)
    ensures Patch(s, id, data) == Outcome(Error(404, NotFound), s)
  {
  }

  /** A successful patch overwrites every payload key of the first matching record,
      keeps that record's other keys, and leaves every other record in its place. */
  lemma PatchOverlaysMatchedRecord(s: seq<Record>, id: nat, data: Record, k: nat)
    requires AllHaveIntIds(s)
    requires Validate(data) == Ok && Find(s, id) == Some(k)
    ensures var t := Patch(s, id, data).movies;
      && |t| == |s|
      && (forall j :: 0 <= j < |s| && j != k ==> t[j] == s[j])
      && t[k].Keys == s[k].Keys + data.Keys
      && (forall key :: key in data ==> t[k][key] == data[key])
      && (forall key :: key in s[k] && key !in data ==> t[k][key] == s[k][key])
      && Patch(s, id, data).response == Response(200, MovieBody(t[k]))
  {
  }

  /** A payload holding every key of the matched record replaces that record
      outright: the merged record is the payload itself. */
  lemma PatchWithFullPayload(s: seq<Record>, id: nat, data: Record, k: nat)
    requires AllHaveIntIds(s)
    requires Validate(data) == Ok && Find(s, id) == Some(k)
    requires s[k].Keys <= data.Keys
    ensures Patch(s, id, data) == Outcome(Response(200, MovieBody(data)), s[k := data])
  {
    assert s[k] + data == data;
  }

  /** The payload must carry an `id`, and it replaces the matched record's id:
      after the patch that record answers to the payload's id, not the path's. */
  lemma PatchTakesPayloadId(s: seq<Record>, id: nat, data: Record, k: nat)
    requires AllHaveIntIds(s)
    requires Validate(data) == Ok && Find(s, id) == Some(k)
    ensures IdOf(Patch(s, id, data).movies[k]) == IdOf(data)
  {
  }

  /** Ids stay distinct when the payload keeps the path id, or brings an id that no
      record carries. */
  lemma PatchKeepsIdsDistinctWhenIdFree(s: seq<Record>, id: nat, data: Record)
    requires AllHaveIntIds(s) && DistinctIds(s)
    requires Validate(data) == Ok
    requires IdOf(data) == id || !HasId(s, IdOf(data))
    ensures DistinctIds(Patch(s, id, data).movies)
  {
    var t := Patch(s, id, data).movies;
    if Find(s, id).Some? {
      var k := Find(s, id).value;
      assert IdOf(t[k]) == IdOf(data);
      forall i, j | 0 <= i < j < |t| ensures IdOf(t[i]) != IdOf(t[j]) {
        if i == k {
          assert t[j] == s[j];
        } else if j == k {
          assert t[i] == s[i];
        } else {
          assert t[i] == s[i] && t[j] == s[j];
        }
      }
    }
  }

  /** The other direction: a valid payload whose id belongs to another record makes
      two records share that id after the patch, so patch does not keep ids distinct. */
  lemma PatchCanDuplicateId(s: seq<Record>, id: nat, data: Record, other: nat)
    requires AllHaveIntIds(s)
    requires Validate(data) == Ok && Find(s, id).Some?
    requires other < |s| && other != Find(s, id).value && IdOf(s[other]) == IdOf(data)
    ensures AllHaveIntIds(Patch(s, id, data).movies)
    ensures !DistinctIds(Patch(s, id, data).movies)
  {
    var k := Find(s, id).value;
    var t := Patch(s, id, data).movies;
    assert t[other] == s[other] && IdOf(t[k]) == IdOf(data);
    if other < k {
      assert IdOf(t[other]) == IdOf(t[k]);
    } else {
      assert IdOf(t[k]) == IdOf(t[other]);
    }
  }

  // ---------------------------------------------------------------------------
  // Delete.

  /** `remove` drops the element at the first match: no earlier record can equal it,
      since an equal record would carry the same id. */
  lemma {:induction false} RemoveFirstAtFirstMatch(s: seq<Record>, id: int, k: nat)
    requires AllHaveIntIds(s)
    requires Find(s, id) == Some(k)
    ensures RemoveFirst(s, s[k]) == s[..k] + s[k + 1..]
  {
    if k == 0 {
      assert s[..0] + s[1..] == s[1..];
    } else {
      var t := s[1..];
      assert forall j :: 0 <= j < |t| ==> t[j] == s[j + 1];
      assert s[0] != s[k] by { assert IdOf(s[0]) != id; }
      FindIsFirstMatch(t, id, k - 1);
      RemoveFirstAtFirstMatch(t, id, k - 1);
      assert t[k - 1] == s[k];
      assert [s[0]] + (t[..k - 1] + t[k..]) == s[..k] + s[k + 1..];
    }
  }

  /** `remove` takes away one occurrence of `x` and nothing else. */
  lemma {:induction false} RemoveFirstTakesOneOccurrence(s: seq<Record>, x: Record)
    ensures multiset(RemoveFirst(s, x)) == multiset(s) - multiset{x}
  {
    if s != [] {
      assert s == [s[0]] + s[1..];
      if s[0] != x {
        RemoveFirstTakesOneOccurrence(s[1..], x);
      }
    }
  }

  /** Deleting a known id removes exactly the first record carrying it and keeps
      the others in their order, answering 202 with no body. */
  lemma DeleteRemovesMatched(s: seq<Record>, id: nat, k: nat)
    requires AllHaveIntIds(s)
    requires Find(s, id) == Some(k)
    ensures Delete(s, id) == Outcome(Response(202, NoBody), s[..k] + s[k + 1..])
  {
    RemoveFirstAtFirstMatch(s, id, k);
  }

  /** Deleting an id nobody carries gives 404 and changes nothing. */
  lemma DeleteUnknownNotFound(s: seq<Record>, id: nat)
    requires AllHaveIntIds(s)
    requires !HasId(s, id)
    ensures Delete(s, id) == Outcome(Error(404, NotFound), s)
  {
  }

  /** Deleting keeps every remaining record's id readable and keeps ids distinct. */
  lemma DeleteKeepsIdsDistinct(s: seq<Record>, id: nat)
    requires AllHaveIntIds(s) && DistinctIds(s)
    ensures AllHaveIntIds(Delete(s, id).movies) && DistinctIds(Delete(s, id).movies)
  {
    if Find(s, id).Some? {
      var k := Find(s, id).value;
      DeleteRemovesMatched(s, id, k);
      var t := s[..k] + s[k + 1..];
      assert forall j :: 0 <= j < |t| ==> t[j] == if j < k then s[j] else s[j + 1];
    }
  }

  /** Cutting out the first record carrying `id` from a list with distinct ids leaves
      no record carrying it. */
  lemma CutRemovesId(s: seq<Record>, id: int, k: nat)
    requires AllHaveIntIds(s) && DistinctIds(s)
    requires k < |s| && IdOf(s[k]) == id
    ensures AllHaveIntIds(s[..k] + s[k + 1..])
    ensures !HasId(s[..k] + s[k + 1..], id)
  {
    var t := s[..k] + s[k + 1..];
    forall j | 0 <= j < |t| ensures HasIntId(t[j]) && IdOf(t[j]) != id {
      if j < k {
        assert t[j] == s[j];
      } else {
        assert t[j] == s[j + 1];
        assert IdOf(s[k]) != IdOf(s[j + 1]);
      }
    }
  }

  /** With distinct ids, a second delete of the same id finds nothing. */
  lemma DeleteTwiceNotFound(s: seq<Record>, id: nat)
    requires AllHaveIntIds(s) && DistinctIds(s)
    requires HasId(s, id)
    ensures Delete(s, id).response == Response(202, NoBody)
    ensures AllHaveIntIds(Delete(s, id).movies)
    ensures Delete(Delete(s, id).movies, id) == Outcome(Error(404, NotFound), Delete(s, id).movies)
  {
    var k := Find(s, id).value;
    DeleteRemovesMatched(s, id, k);
    CutRemovesId(s, id, k);
    var t := s[..k] + s[k + 1..];
    assert Find(t, id) == None;
  }
}
