/** Frame validity filter: a frame whose samples are all identical (a
    disconnected or stuck microphone) is dropped before classification. */
module FrameFilter {

  /** One signed 16-bit PCM sample (`int16_t` / `short`). */
  newtype Sample = x: int | -32768 <= x < 32768

  /** Every sample of the frame equals its first sample. */
  predicate IsConstant(frame: seq<Sample>)
    requires |frame| >= 1
  {
    forall i :: 0 <= i < |frame| ==> frame[i] == frame[0]
  }

  /** `isConstantSignal`: scans `buffer[1..size)` against `buffer[0]` and
      returns false at the first differing sample. */
  method IsConstantSignal(buffer: array<Sample>, size: nat) returns (constant: bool)
    requires 1 <= size <= buffer.Length
    ensures constant <==> IsConstant(buffer[..size])
    ensures !constant <==> exists i :: 0 < i < size && buffer[i] != buffer[0]
  {
    var first := buffer[0];
    var i := 1;
    while i < size
      invariant 1 <= i <= size
      invariant forall j :: 0 <= j < i ==> buffer[j] == first
    {
      if buffer[i] != first {
        return false;
      }
      i := i + 1;
    }
    return true;
  }

}
