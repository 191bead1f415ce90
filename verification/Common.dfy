/** Types and sequence facts shared by every other module. */
module Common {

  // Lengths of time, in microseconds

  const SECOND := 1_000_000
  const MINUTE := 60_000_000
  const DAY := 86_400_000_000

  datatype Option<+T> = None | Some(value: T)

  datatype Result<+T, +E> = Ok(value: T) | Err(error: E)

  /** A subset is no larger than the set that contains it. */
  lemma {:induction false} SubsetSize<T>(a: set<T>, b: set<T>)
    requires a <= b
    ensures |a| <= |b|
  {
    if a != {} {
      var x :| x in a;
      SubsetSize(a - {x}, b - {x});
    }
  }

  // Rising positions

  /** n of the positions lie before i. */
  predicate IsRank(at: seq<nat>, i: nat, n: nat) {
    && n <= |at|
    && (forall j :: 0 <= j < n ==> at[j] < i)
    && (forall j :: n <= j < |at| ==> at[j] >= i)
  }

  /** A rank below n is not touched when n is added as the last position. */
  lemma EarlierRank(at: seq<nat>, more: seq<nat>, n: nat, i: nat, k: nat)
    requires at <= more && |more| <= |at| + 1 && (|more| == |at| + 1 ==> more[|at|] == n)
    requires i < n && IsRank(more, i, k)
    ensures k <= |at| && IsRank(at, i, k)
    ensures k < |more| && more[k] == i <==> k < |at| && at[k] == i
  {
    assert forall j :: 0 <= j < |at| ==> more[j] == at[j];
  }

  lemma LastRank(at: seq<nat>, positions: seq<nat>, n: nat, k: nat)
    requires at <= positions && |positions| <= |at| + 1 && (|positions| == |at| + 1 ==> positions[|at|] == n)
    requires at == [] || at[|at| - 1] < n
    requires IsRank(positions, n, k)
    ensures k == |at|
  {
    assert at != [] ==> positions[|at| - 1] < n;
  }
}
