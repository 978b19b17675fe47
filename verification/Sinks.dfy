/** What the writers of internal/ingress/ingress.go write to. */
module Sinks {
  class Sink<T> {
    var data: seq<T>
    constructor () ensures data == [] { data := []; }

    /** An `io.Writer`: it takes a prefix of the buffer, of at most `takes` elements, and may fail. */
    method Write(p: seq<T>, takes: nat, fails: bool) returns (n: nat, failed: bool)
      modifies this
      ensures n == (if takes < |p| then takes else |p|) && failed == fails
      ensures data == old(data) + p[..n]
    {
      n := if takes < |p| then takes else |p|;
      data := data + p[..n];
      failed := fails;
    }
  }

  lemma PrefixGrows<T>(buffer: seq<T>, done: nat, chunk: seq<T>, n: nat)
    requires done <= |buffer| && chunk <= buffer[done..] && n <= |chunk|
    ensures buffer[..done] + chunk[..n] == buffer[..done + n]
    ensures buffer[done..][n..] == buffer[done + n..]
  {
    assert chunk[..n] == buffer[done..][..n];
  }
}
