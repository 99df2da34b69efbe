/**
  The per-read transform of the relay: every byte just read from a client
  is passed through `toupper` in place before it is fanned out, so the
  other clients receive the text in capitals. Bytes are mapped as the C
  locale does: only 'a'..'z' change.
 */
module Transform {

  /** 'a' (0x61) through 'z' (0x7A). */
  predicate IsLower(b: bv8)
  {
    0x61 <= b <= 0x7A
  }

  /** 'A' (0x41) through 'Z' (0x5A). */
  predicate IsUpper(b: bv8)
  {
    0x41 <= b <= 0x5A
  }

  /** `toupper` in the C locale: a lower-case letter becomes its capital, any other byte stays. */
  function ToUpper(b: bv8): (r: bv8)
    ensures !IsLower(r)
    ensures r == b <==> !IsLower(b)
    ensures IsLower(b) ==> IsUpper(r) && r + 0x20 == b
  {
    if IsLower(b) then b - 0x20 else b
  }

  /**
    The bytes `s` after the transform, position by position: the length is
    kept, a byte changes exactly when it is a lower-case letter, and no
    lower-case letter remains.
   */
  function Upper(s: seq<bv8>): (u: seq<bv8>)
    ensures |u| == |s|
    ensures forall k :: 0 <= k < |s| ==> u[k] == ToUpper(s[k])
    ensures forall k :: 0 <= k < |s| ==> (u[k] != s[k] <==> IsLower(s[k]))
    ensures forall k :: 0 <= k < |s| ==> !IsLower(u[k])
  {
    seq(|s|, k requires 0 <= k < |s| => ToUpper(s[k]))
  }

  /**
    The loop at the read site: capitalise the first `nbytes` bytes of the
    read buffer in place and leave the rest of the buffer alone.
   */
  method Uppercase(buffer: array<bv8>, nbytes: int)
    requires 0 <= nbytes <= buffer.Length
    modifies buffer
    ensures buffer[..nbytes] == Upper(old(buffer[..nbytes]))
    ensures buffer[nbytes..] == old(buffer[nbytes..])
  {
    var i := 0;
    while i < nbytes
      invariant 0 <= i <= nbytes
      invariant forall k :: 0 <= k < i ==> buffer[k] == ToUpper(old(buffer[k]))
      invariant forall k :: i <= k < buffer.Length ==> buffer[k] == old(buffer[k])
    {
      buffer[i] := ToUpper(buffer[i]);
      i := i + 1;
    }
  }

  /** Transforming twice is transforming once. */
  lemma {:induction false} UpperIdempotent(s: seq<bv8>)
    ensures Upper(Upper(s)) == Upper(s)
  {
  }

  /** The transform works byte by byte, so it commutes with splitting a read. */
  lemma {:induction false} UpperDistributes(s: seq<bv8>, t: seq<bv8>)
    ensures Upper(s + t) == Upper(s) + Upper(t)
  {
  }
}
