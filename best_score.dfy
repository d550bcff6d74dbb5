/**
 * The best score of game.js: the fewest moves of any finished game, or
 * null before the first one. `finishGame` keeps it as a running minimum.
 */
module BestScore {
  import opened Wrappers

  /** The update at the end of `finishGame`: take `moves` when there is no best yet or it is better. */
  function UpdatedBest(best: Option<nat>, moves: nat): (r: Option<nat>)
    ensures r.Some? && r.value <= moves
    ensures best.Some? ==> r.value <= best.value
    ensures r.value == moves || r == best
  {
    if best.None? || moves < best.value then Some(moves) else best
  }

  /** The best score after games finishing with the given move counts, in order. */
  function BestAfter(best: Option<nat>, results: seq<nat>): Option<nat>
    decreases |results|
  {
    if results == [] then best else BestAfter(UpdatedBest(best, results[0]), results[1..])
  }

  /**
   * Over any history of finished games the best score is their minimum
   * (together with the stored best): it is one of them, no game was better,
   * and it never rises above the stored best.
   */
  lemma {:induction false} BestIsMinimum(best: Option<nat>, results: seq<nat>)
    ensures var r := BestAfter(best, results);
      && (r.None? <==> best.None? && results == [])
      && (r.Some? ==> r == best || r.value in results)
      && (forall i :: 0 <= i < |results| ==> r.value <= results[i])
      && (best.Some? ==> r.value <= best.value)
    decreases |results|
  {
    if results != [] {
      var next := UpdatedBest(best, results[0]);
      BestIsMinimum(next, results[1..]);
      var r := BestAfter(best, results);
      assert r == BestAfter(next, results[1..]);
      forall i | 0 <= i < |results| ensures r.value <= results[i] {
        if i > 0 {
          assert results[i] == results[1..][i - 1];
        }
      }
      if r != next {
        assert r.value in results[1..];
      }
    }
  }
}
