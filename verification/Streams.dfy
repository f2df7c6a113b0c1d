/** What a snapshot says about the stream it was taken of. */
module Streams {
  import opened Options

  /** The token a snapshot names as following it is the stream's own, wherever the stream is not prompt. */
  predicate Follows<T(==)>(stream: seq<T>, promptLen: nat, position: nat, next: Option<T>) {
    next.Some? && promptLen <= position < |stream| ==> next.value == stream[position]
  }

  /** What comes of a prompt on top of a state that holds `held`: its own first tokens are not looked at. */
  function Resumed<T>(held: seq<T>, prompt: seq<T>): (stream: seq<T>)
    requires |held| <= |prompt|
    ensures held <= prompt ==> stream == prompt
    ensures |stream| == |prompt| && stream[..|held|] == held && stream[|held|..] == prompt[|held|..]
  {
    held + prompt[|held|..]
  }
}
