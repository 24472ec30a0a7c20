/** The favorites list: membership by id and the no-duplicate-id invariant. */
module Favorites {
  import opened Wrappers
  import opened Movies

  /** `favorites.some(fav => fav.id === movie.id)`, scanning from the front. */
  function IsFavorite(favorites: seq<Record>, movie: Record): (b: bool)
    ensures b <==> exists i :: 0 <= i < |favorites| && IdOf(favorites[i]) == IdOf(movie)
  {
    if favorites == [] then false
    else if IdOf(favorites[0]) == IdOf(movie) then true
    else
      var rest := IsFavorite(favorites[1..], movie);
      assert forall i :: 1 <= i < |favorites| ==> favorites[i] == favorites[1..][i - 1];
      rest
  }

  /** No two entries share an id (in the sense of `===`). */
  predicate DistinctIds(favorites: seq<Record>) {
    forall i, j :: 0 <= i < j < |favorites| ==> IdOf(favorites[i]) != IdOf(favorites[j])
  }

  /** Appending keeps the ids distinct exactly when the list had distinct ids and did not already hold the movie's id. */
  lemma AppendDistinct(favorites: seq<Record>, movie: Record)
    ensures DistinctIds(favorites + [movie]) <==> DistinctIds(favorites) && !IsFavorite(favorites, movie)
  {
    var grown := favorites + [movie];
    if DistinctIds(grown) {
      forall i, j | 0 <= i < j < |favorites| ensures IdOf(favorites[i]) != IdOf(favorites[j]) {
        assert grown[i] == favorites[i] && grown[j] == favorites[j];
      }
      forall i | 0 <= i < |favorites| ensures IdOf(favorites[i]) != IdOf(movie) {
        assert grown[i] == favorites[i] && grown[|favorites|] == movie;
      }
    }
  }
}
