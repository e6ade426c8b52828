/** The bounded output buffer of host.exec (capBuf in internal/jobrunner/host.go). */
module CapBuf {

  /** What is kept of an output stream: its first `max` bytes, or all of it if `max` is not positive. */
  function Truncated(max: int, s: string): string {
    if 0 < max < |s| then s[..max] else s
  }

  class CapBuf {
    var contents: string
    const max: int
    /** Everything written so far, kept or not. */
    ghost var written: string

    ghost predicate Valid()
      reads this
    {
      contents == Truncated(max, written)
    }

    constructor (max: int)
      ensures Valid() && this.max == max && written == ""
    {
      this.max := max;
      contents, written := "", "";
    }

    /** Overflow is discarded, not an error: a write always reports its full length. */
    method Write(p: string) returns (n: nat)
      requires Valid()
      modifies this
      ensures Valid() && written == old(written) + p
      ensures contents <= written
      ensures |contents| == if 0 < max < |written| then max else |written|
      ensures n == |p|
    {
      written := written + p;
      if max > 0 {
        var room := max - |contents|;
        if room <= 0 {
          assert written[..max] == old(written)[..max];
          return |p|;
        }
        if |p| > room {
          contents := contents + p[..room];
          return |p|;
        }
      }
      contents := contents + p;
      n := |p|;
    }
  }
}
