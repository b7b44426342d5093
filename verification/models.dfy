/**
 * The task record, the update request and the package-level id counter
 * (models/Tasks.go). Go's `int` is taken to be 64 bits wide.
 */
module Models {
  import opened Wrappers

  const MinInt64: int := -0x8000_0000_0000_0000
  const MaxInt64: int := 0x7FFF_FFFF_FFFF_FFFF
  const TwoTo64: int := 0x1_0000_0000_0000_0000

  type Int64 = x: int | MinInt64 <= x <= MaxInt64

  /**
   * A task. The id is a pointer in Go: None stands for nil, which is how a
   * request body that names no id is told apart from one that does.
   */
  datatype Task = Task(id: Option<int>, title: string, completed: bool)

  /** An update request: a title and a completed flag, and no id field at all. */
  datatype UpdateReq = UpdateReq(title: string, completed: bool)

  /** Two's-complement reduction of an integer into the 64-bit range. */
  function WrapInt64(x: int): (r: Int64)
    ensures MinInt64 <= x <= MaxInt64 ==> r == x
    ensures (r - x) % TwoTo64 == 0
  {
    (x - MinInt64) % TwoTo64 + MinInt64
  }

  /** The id that the (n+1)-th call of GenerateUniqueID returns in a fresh process. */
  function NthId(n: nat): Int64
  {
    WrapInt64(n + 1)
  }

  /** The package-level `counter` together with GenerateUniqueID. */
  class IdGenerator {
    var counter: Int64
    /** The ids handed out so far, oldest first. */
    ghost var issued: seq<Int64>

    ghost predicate Valid()
      reads this
    {
      && counter == NthId(|issued|)
      && forall i :: 0 <= i < |issued| ==> issued[i] == NthId(i)
    }

    /** The counter starts at 1. */
    constructor ()
      ensures Valid() && issued == [] && counter == 1
    {
      counter := 1;
      issued := [];
    }

    /** Returns the counter's value and increments it (wrapping at the top of the int64 range). */
    method GenerateUniqueID() returns (id: Int64)
      requires Valid()
      modifies this
      ensures Valid()
      ensures id == old(counter)
      ensures issued == old(issued) + [id]
      ensures counter == if old(counter) == MaxInt64 then MinInt64 else old(counter) + 1
    {
      id := counter;
      counter := if counter == MaxInt64 then MinInt64 else counter + 1;
      issued := issued + [id];
      assert WrapInt64(|issued| + 1) == counter by {
        assert (counter - (id + 1)) % TwoTo64 == 0;
      }
    }
  }

  /** The first id of a process is 1. */
  lemma FirstIdIsOne()
    ensures NthId(0) == 1
  {
  }

  /** Before the counter wraps, ids are at least 1 and strictly increasing. */
  lemma IdsIncreaseBeforeWrap(i: nat, j: nat)
    requires i < j < MaxInt64
    ensures 1 <= NthId(i) < NthId(j)
  {
  }

  /** Within any 2^64 consecutive calls no id repeats. */
  lemma IdsDistinct(i: nat, j: nat)
    requires i < TwoTo64 && j < TwoTo64 && i != j
    ensures NthId(i) != NthId(j)
  {
  }

  /** A generator's history holds pairwise distinct ids while fewer than 2^64 were issued. */
  lemma IssuedDistinct(issued: seq<Int64>, i: nat, j: nat)
    requires |issued| <= TwoTo64
    requires forall k :: 0 <= k < |issued| ==> issued[k] == NthId(k)
    requires i < j < |issued|
    ensures issued[i] != issued[j]
  {
  }
}
