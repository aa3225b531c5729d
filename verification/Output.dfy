/** The bounded capture of command output (boundedOutput in internal/command/runner.go). */
module Output {

  const MAX_OUTPUT_BYTES: nat := 8388608

  function Prefix(bytes: seq<bv8>, n: nat): seq<bv8> {
    if |bytes| <= n then bytes else bytes[..n]
  }

  function Joined(writes: seq<seq<bv8>>): seq<bv8> {
    if writes == [] then [] else Joined(writes[..|writes| - 1]) + writes[|writes| - 1]
  }

  class BoundedOutput {
    var buffer: seq<bv8>
    var overflow: bool
    ghost var written: seq<seq<bv8>>

    /** The buffer is the longest allowed prefix of everything written. */
    ghost predicate Valid()
      reads this
    {
      buffer == Prefix(Joined(written), MAX_OUTPUT_BYTES) && (overflow <==> |Joined(written)| > MAX_OUTPUT_BYTES)
    }

    constructor ()
      ensures Valid() && written == []
    {
      buffer, overflow, written := [], false, [];
    }

    /** Write always claims to have taken everything. */
    method Write(p: seq<bv8>) returns (n: nat)
      requires Valid()
      modifies this
      ensures Valid() && written == old(written) + [p] && n == |p|
    {
      n := |p|;
      var kept := p;
      var remaining := MAX_OUTPUT_BYTES - |buffer|;
      if n > remaining {
        overflow := true;
        kept := p[..remaining];
      }
      written := written + [p];
      assert written[..|written| - 1] == old(written);
      buffer := buffer + kept;
    }
  }

  /** After any sequence of writes: the first bytes, and overflow exactly when some are missing. */
  method Capture(writes: seq<seq<bv8>>) returns (bytes: seq<bv8>, overflow: bool)
    ensures bytes <= Joined(writes)
    ensures |bytes| == if |Joined(writes)| <= MAX_OUTPUT_BYTES then |Joined(writes)| else MAX_OUTPUT_BYTES
    ensures overflow <==> bytes != Joined(writes)
  {
    var b := new BoundedOutput();
    for i := 0 to |writes|
      invariant b.Valid() && b.written == writes[..i]
    {
      var _ := b.Write(writes[i]);
      assert writes[..i + 1] == writes[..i] + [writes[i]];
    }
    assert writes[..|writes|] == writes;
    bytes, overflow := b.buffer, b.overflow;
  }
}
