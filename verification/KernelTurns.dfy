/** How the kernel answers the reads and writes of a loop. */
module KernelTurns {
  /** One read or write: it moves up to `count` bytes, is interrupted by a signal, or fails. */
  datatype Turn = Move(count: nat) | Interrupted | Broken

  predicate Unbroken(turns: seq<Turn>) {
    forall i :: 0 <= i < |turns| ==> !turns[i].Broken?
  }

  /** The bytes a call moves of the `most` it could. */
  function Moved(count: nat, most: nat): (n: nat)
    ensures n <= most && (most > 0 ==> n > 0)
  {
    if 1 <= count <= most then count else most
  }
}
