/** Moving the topmost entries of a stack down by one, over the entry below them: what counting arguments
    does to the value stack (src/src/execute.c:510-531) and to the stack of trees (src/src/decode.c:838-854). */
module Slides {
  /** The n topmost entries moved down; the top is left blank. */
  function Slid<T>(ts: seq<T>, n: nat, blank: T): seq<T>
    requires n <= |ts|
  {
    if n == 0 then ts else ts[..|ts| - n] + ts[|ts| - n + 1..] + [blank]
  }

  lemma SlidStep<T>(ts: seq<T>, n: nat, blank: T)
    requires n < |ts|
    ensures |Slid(ts, n, blank)| == |ts| && Slid(ts, n, blank)[|ts| - n - 1] == ts[|ts| - n - 1]
    ensures Slid(ts, n + 1, blank) == Slid(ts, n, blank)[|ts| - n - 1 := if n == 0 then blank else ts[|ts| - n]]
  {
  }

  /** Dropping the top then takes the entry below out. */
  lemma SlidOver<T>(ts: seq<T>, n: nat, blank: T)
    requires n < |ts|
    ensures Slid(ts, n + 1, blank)[..|ts| - 1] == ts[..|ts| - n - 1] + ts[|ts| - n..]
  {
  }
}
