/** The abstract transport the driver talks through.  What the device will
    deliver is a script of readings, one per read call; a read past the end
    of the script fails, as does a `ReadFailed` entry.  A failed read writes
    nothing into the read buffer, which the caller has just cleared. */
module Transport {
  import opened Protocol

  datatype Reading = Received(frame: Packet) | ReadFailed

  /** The reading the k-th read call (from 0) gets from script q. */
  function ReadAt(q: seq<Reading>, k: nat): Reading
  {
    if k < |q| then q[k] else ReadFailed
  }

  /** What is left of script q after k read calls. */
  function DropN(q: seq<Reading>, k: nat): (r: seq<Reading>)
    ensures |r| == if k <= |q| then |q| - k else 0
  {
    if k <= |q| then q[k..] else []
  }

  /** The read buffer after a reading: the frame, or the cleared buffer. */
  function Contents(r: Reading): Packet
  {
    if r.Received? then r.frame else Zeros()
  }

  /** After k reads, the j-th further read takes entry k + j of the script. */
  lemma ReadStep(q: seq<Reading>, k: nat, j: nat)
    ensures ReadAt(DropN(q, k), j) == ReadAt(q, k + j)
    ensures DropN(DropN(q, k), j) == DropN(q, k + j)
  {
  }
}
