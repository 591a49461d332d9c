/** Decoded protocol messages as the tracker receives them: an address pattern and an ordered
    list of typed arguments. OSC strings and blobs both reach the tracker as byte arrays. */
module Osc {

  datatype Arg = I(i: int) | F(f: real) | B(bytes: string)

  datatype Message = Message(pattern: string, args: seq<Arg>)

  /** The arguments after the message-type tag. */
  function Payload(args: seq<Arg>): (p: seq<Arg>)
    ensures |args| > 0 ==> |p| == |args| - 1 && forall i :: 0 <= i < |p| ==> p[i] == args[i + 1]
    ensures |args| == 0 ==> p == []
  {
    if |args| == 0 then [] else args[1..]
  }

  predicate AllInts(s: seq<Arg>) {
    forall i :: 0 <= i < |s| ==> s[i].I?
  }

  /** The integers carried by an all-integer argument list, in order. */
  function Ints(s: seq<Arg>): (ids: seq<int>)
    requires AllInts(s)
    ensures |ids| == |s| && forall i :: 0 <= i < |s| ==> s[i] == I(ids[i])
  {
    seq(|s|, i requires 0 <= i < |s| => s[i].i)
  }

  /** An integer list sent as arguments. */
  function IntArgs(ids: seq<int>): (s: seq<Arg>)
    ensures AllInts(s) && Ints(s) == ids
  {
    seq(|ids|, i requires 0 <= i < |ids| => I(ids[i]))
  }
}
