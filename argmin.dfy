/**
 * The selection loops of the scripts keep a best candidate and replace it only
 * when a later one is strictly better (`if error < best_error`). What they
 * return is the first minimiser in visiting order, defined here once.
 */
module ArgMin {
  /** `cands[k]` has the least cost, and every earlier candidate costs strictly more. */
  ghost predicate IsFirstMin<T>(cands: seq<T>, cost: T -> real, k: int)
  {
    0 <= k < |cands|
    && (forall j :: 0 <= j < |cands| ==> cost(cands[k]) <= cost(cands[j]))
    && (forall j :: 0 <= j < k ==> cost(cands[k]) < cost(cands[j]))
  }

  /** The first candidate visited is the best so far. */
  lemma FirstMinSingle<T>(x: T, cost: T -> real)
    ensures IsFirstMin([x], cost, 0)
  {
  }

  /**
   * Visiting one more candidate: the best is replaced exactly when the new
   * candidate costs strictly less.
   */
  lemma FirstMinExtend<T>(cands: seq<T>, cost: T -> real, k: int, x: T)
    requires IsFirstMin(cands, cost, k)
    ensures cost(x) < cost(cands[k]) ==> IsFirstMin(cands + [x], cost, |cands|)
    ensures !(cost(x) < cost(cands[k])) ==> IsFirstMin(cands + [x], cost, k)
  {
    var ext := cands + [x];
    assert ext[|cands|] == x;
    assert forall j :: 0 <= j < |cands| ==> ext[j] == cands[j];
  }

  /** There is only one first minimiser. */
  lemma FirstMinUnique<T>(cands: seq<T>, cost: T -> real, k1: int, k2: int)
    requires IsFirstMin(cands, cost, k1) && IsFirstMin(cands, cost, k2)
    ensures k1 == k2
  {
    var c1, c2 := cost(cands[k1]), cost(cands[k2]);
    assert c1 <= c2 && c2 <= c1;
  }

  /**
   * The state a selection loop keeps after visiting `seen`: `found` says
   * whether anything was visited (the source's `float('inf')` start), and the
   * kept candidate and error are those of the first minimiser.
   */
  ghost predicate BestSoFar<T>(seen: seq<T>, cost: T -> real, found: bool, k: int, best: T, bestError: real)
  {
    (found <==> |seen| > 0)
    && (found ==> IsFirstMin(seen, cost, k) && seen[k] == best && bestError == cost(seen[k]))
  }

  /** Visiting one more candidate under the rule `if not found or error < best_error: keep it`. */
  lemma VisitKeepsBest<T>(seen: seq<T>, cost: T -> real, found: bool, k: int, best: T, bestError: real, x: T)
    requires BestSoFar(seen, cost, found, k, best, bestError)
    ensures var better := !found || cost(x) < bestError;
      BestSoFar(seen + [x], cost, true, if better then |seen| else k,
                if better then x else best, if better then cost(x) else bestError)
  {
    if !found {
      FirstMinSingle(x, cost);
    } else {
      FirstMinExtend(seen, cost, k, x);
    }
  }
}
