/** The request handlers over the process-wide list of movies. The list is a field
    of a store object that each handler reads or reassigns; each state-changing
    handler is proved to leave exactly the list its counterpart in `Movies` gives. */
module Handlers {
  import opened Values
  import opened Validation
  import opened Movies

  class MovieStore {
    /** The records in insertion order. */
    var movies: seq<Record>

    /** Every stored record has an integer id, so the scans never raise. Distinct ids
        are not part of it: `PatchMovie` can break them. */
    ghost predicate Valid()
      reads this
    {
      AllHaveIntIds(movies)
    }

    /** The store as seeded at start-up. */
    constructor (seed: seq<Record>)
      requires AllHaveIntIds(seed)
      ensures Valid() && movies == seed
    {
      movies := seed;
    }

    /** The scan `next((movie for movie in movies if movie['id'] == id), None)`:
        the position of the first record carrying `id`, or nothing. */
    method FindIndex(id: int) returns (k: Option<nat>)
      requires Valid()
      ensures k.Some? ==> k.value < |movies| && IdOf(movies[k.value]) == id
                          && forall j :: 0 <= j < k.value ==> IdOf(movies[j]) != id
      ensures k.None? <==> !HasId(movies, id)
      ensures k == Find(movies, id)
    {
      var i := 0;
      while i < |movies|
        invariant 0 <= i <= |movies|
        invariant forall j :: 0 <= j < i ==> IdOf(movies[j]) != id
      {
        if IdOf(movies[i]) == id {
          FindIsFirstMatch(movies, id, i);
          return Some(i);
        }
        i := i + 1;
      }
      return None;
    }

    /** `get_movies`: the whole list, in its current order. */
    method GetMovies() returns (resp: Response)
      requires Valid()
      ensures resp.status == 200 && resp.body.ListBody? && resp.body.list == movies
    {
      resp := Response(200, ListBody(movies));
    }

    /** `get_movie`: the first record carrying `id`, or 404. Changes nothing. */
    method GetMovie(id: nat) returns (resp: Response)
      requires Valid()
      ensures !HasId(movies, id) ==> resp == Error(404, NotFound)
      ensures HasId(movies, id) ==> resp.status == 200 && resp.body.MovieBody?
                                    && resp.body.movie == movies[Find(movies, id).value]
    {
      var k := FindIndex(id);
      if k.None? {
        resp := Error(404, NotFound);
      } else {
        resp := Response(200, MovieBody(movies[k.value]));
      }
    }

    /** `add_movie`. The duplicate check `any(movie['id'] == data['id'] ...)` is the
        same scan as `FindIndex`, asked only whether it finds something. This is the
        step-by-step form of `Movies.Add`, which its postcondition matches. */
    method AddMovie(data: Record) returns (resp: Response)
      requires Valid()
      modifies this
      ensures Valid()
      ensures Outcome(resp, movies) == Add(old(movies), data)
      ensures old(DistinctIds(movies)) ==> DistinctIds(movies)
    {
      ghost var before := movies;
      match Validate(data)
      case Fault =>
        resp := Error(500, ServerError);
      case Invalid(f) =>
        resp := Error(400, FieldMessage(f));
      case Ok =>
        var k := FindIndex(IdOf(data));
        if k.Some? {
          resp := Error(400, DuplicateId);
        } else {
          movies := movies + [data];
          resp := Response(200, MovieBody(data));
        }
      if DistinctIds(before) {
        AddKeepsIdsDistinct(before, data);
      }
    }

    /** `patch_movie`: validate first, then find by the path id, then `update` the
        record in place with every key of the payload. This is the step-by-step form
        of `Movies.Patch`, which its postcondition matches. */
    method PatchMovie(id: nat, data: Record) returns (resp: Response)
      requires Valid()
      modifies this
      ensures Valid()
      ensures Outcome(resp, movies) == Patch(old(movies), id, data)
    {
      match Validate(data)
      case Fault =>
        resp := Error(500, ServerError);
      case Invalid(f) =>
        resp := Error(400, FieldMessage(f));
      case Ok =>
        var k := FindIndex(id);
        if k.None? {
          resp := Error(404, NotFound);
        } else {
          var merged := movies[k.value] + data;
          movies := movies[k.value := merged];
          resp := Response(200, MovieBody(merged));
        }
    }

    /** `delete_movie`: find by id and `remove` that record; the rest keep their order.
        This is the step-by-step form of `Movies.Delete`, which its postcondition matches. */
    method DeleteMovie(id: nat) returns (resp: Response)
      requires Valid()
      modifies this
      ensures Valid()
      ensures Outcome(resp, movies) == Delete(old(movies), id)
      ensures resp.status == 202 <==> old(HasId(movies, id))
      ensures old(DistinctIds(movies)) ==> DistinctIds(movies)
    {
      ghost var before := movies;
      var k := FindIndex(id);
      if k.None? {
        resp := Error(404, NotFound);
      } else {
        DeleteRemovesMatched(movies, id, k.value);
        movies := movies[..k.value] + movies[k.value + 1..];
        resp := Response(202, NoBody);
      }
      if DistinctIds(before) {
        DeleteKeepsIdsDistinct(before, id);
      }
    }
  }
}
