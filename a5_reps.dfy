/**
 * The (dimension, weight) states of the A5 representations that the model
 * scripts share: dimensions 1, 3, 4 and 5, and the integer weights each one
 * carries.
 */
module A5Reps {
  /** The dimensions, in the order every catalogue lists them. */
  const Dims: seq<int> := [1, 3, 4, 5]

  /** The weight list of the representation of dimension `dim`, in catalogue order. */
  function Weights(dim: int): (ws: seq<int>)
    ensures dim in Dims ==> |ws| == dim
    ensures dim !in Dims ==> ws == []
  {
    if dim == 1 then [0]
    else if dim == 3 then [-1, 0, 1]
    else if dim == 4 then [-3, -1, 1, 3]
    else if dim == 5 then [-2, -1, 0, 1, 2]
    else []
  }

  /**
   * A state described arithmetically: the trivial representation has weight 0,
   * the 3- and 5-dimensional ones every integer weight from -(dim-1)/2 to
   * (dim-1)/2, and the 4-dimensional one the odd weights from -3 to 3.
   */
  predicate IsState(dim: int, w: int)
  {
    (dim == 1 && w == 0) || (dim == 3 && -1 <= w <= 1)
    || (dim == 4 && -3 <= w <= 3 && w % 2 == 1) || (dim == 5 && -2 <= w <= 2)
  }

  /** The weight lists hold exactly the states of each dimension. */
  lemma WeightsExact(dim: int, w: int)
    ensures w in Weights(dim) <==> IsState(dim, w)
  {
    if dim == 4 && -3 <= w <= 3 && w % 2 == 1 {
      assert w == -3 || w == -1 || w == 1 || w == 3;
    }
  }

  /** The thirteen states, dimension by dimension, weights in list order. */
  const States: seq<(int, int)> := [
    (1, 0),
    (3, -1), (3, 0), (3, 1),
    (4, -3), (4, -1), (4, 1), (4, 3),
    (5, -2), (5, -1), (5, 0), (5, 1), (5, 2)]

  /** The states of one dimension, paired with it. */
  function StatesOf(dim: int): (ps: seq<(int, int)>)
    ensures |ps| == |Weights(dim)|
    ensures forall k :: 0 <= k < |ps| ==> ps[k] == (dim, Weights(dim)[k])
  {
    seq(|Weights(dim)|, k requires 0 <= k < |Weights(dim)| => (dim, Weights(dim)[k]))
  }

  /** The catalogue is the weight lists of 1, 3, 4 and 5, concatenated in that order. */
  lemma StatesByDimension()
    ensures States == StatesOf(1) + StatesOf(3) + StatesOf(4) + StatesOf(5)
  {
    assert StatesOf(1) == [(1, 0)];
    assert StatesOf(3) == [(3, -1), (3, 0), (3, 1)];
    assert StatesOf(4) == [(4, -3), (4, -1), (4, 1), (4, 3)];
    assert StatesOf(5) == [(5, -2), (5, -1), (5, 0), (5, 1), (5, 2)];
  }

  /** Every catalogue entry is a state. */
  lemma StatesSound()
    ensures |States| == 13
    ensures forall i :: 0 <= i < |States| ==> IsState(States[i].0, States[i].1)
  {
  }

  /** No state is listed twice: the entries increase in (dim, w) order. */
  lemma StatesDistinct()
    ensures forall i, j :: 0 <= i < j < |States| ==> States[i] != States[j]
  {
    forall i, j | 0 <= i < j < |States| ensures States[i] != States[j] {
      assert 10 * States[i].0 + States[i].1 < 10 * States[j].0 + States[j].1;
    }
  }

  /** Every state is listed. */
  lemma StatesComplete()
    ensures forall dim, w :: IsState(dim, w) ==> (dim, w) in States
  {
    forall dim, w | IsState(dim, w) ensures (dim, w) in States {
      if dim == 4 {
        assert w == -3 || w == -1 || w == 1 || w == 3;
      }
    }
  }
}
