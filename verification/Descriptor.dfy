/** A descriptor that may take or give any part of what it is asked for, and the loops around it. */
module Descriptors {
  import opened Bytes

  /** A descriptor: what is still to be read from it, and what was written to it. */
  class Descriptor {
    var incoming: seq<Byte>
    var outgoing: seq<Byte>

    /** read: between one byte and what was asked for, none at the end of the stream. */
    method ReadSome(n: nat) returns (piece: seq<Byte>)
      modifies `incoming
      ensures old(incoming) == piece + incoming
      ensures |piece| <= n
      ensures n > 0 && old(incoming) != [] ==> piece != []
    {
      if n == 0 || incoming == [] {
        return [];
      }
      var k: nat :| 1 <= k <= n && k <= |incoming|;
      piece := incoming[..k];
      incoming := incoming[k..];
    }

    /** write: at least one byte of what was given. */
    method WriteSome(text: seq<Byte>) returns (k: nat)
      requires text != []
      modifies `outgoing
      ensures 1 <= k <= |text| && outgoing == old(outgoing) + text[..k]
    {
      k :| 1 <= k <= |text|;
      outgoing := outgoing + text[..k];
    }

    /** The loop that fills the front of a buffer; false at a premature end. */
    method ReadFully(buf: array<Byte>, n: nat) returns (ok: bool)
      requires n <= buf.Length
      modifies `incoming, buf
      ensures ok <==> 0 < n <= |old(incoming)|
      ensures ok ==> buf[..n] == old(incoming)[..n] && incoming == old(incoming)[n..]
      ensures buf[n..] == old(buf[n..])
    {
      var offset := 0;
      ghost var all := incoming;
      var first := true;
      while first || offset < n
        invariant 0 <= offset <= n && (first ==> offset == 0) && (!first ==> n > 0)
        invariant offset <= |all| && incoming == all[offset..]
        invariant buf[..offset] == all[..offset]
        invariant buf[n..] == old(buf[n..])
        decreases n - offset, first
      {
        first := false;
        var piece := ReadSome(n - offset);
        if piece == [] {
          return false;
        }
        Place(buf, offset, piece);
        assert all[..offset + |piece|] == all[..offset] + piece;
        offset := offset + |piece|;
      }
      return true;
    }

    /** The loop that writes the front of a buffer. */
    method WriteFully(buf: array<Byte>, n: nat)
      requires 0 < n <= buf.Length
      modifies `outgoing
      ensures outgoing == old(outgoing) + buf[..n]
    {
      var offset := 0;
      while offset < n
        invariant 0 <= offset <= n
        invariant outgoing == old(outgoing) + buf[..offset]
      {
        var k := WriteSome(buf[offset..n]);
        assert buf[..offset + k] == buf[..offset] + buf[offset..n][..k];
        offset := offset + k;
      }
    }
  }

  /** Bytes copied into a buffer at an offset. */
  method Place(buf: array<Byte>, at: nat, text: seq<Byte>)
    requires at + |text| <= buf.Length
    modifies buf
    ensures buf[at..at + |text|] == text
    ensures forall i :: 0 <= i < at || at + |text| <= i < buf.Length ==> buf[i] == old(buf[i])
  {
    var i := 0;
    while i < |text|
      invariant 0 <= i <= |text|
      invariant forall j :: 0 <= j < i ==> buf[at + j] == text[j]
      invariant forall j :: 0 <= j < at || at + i <= j < buf.Length ==> buf[j] == old(buf[j])
    {
      buf[at + i] := text[i];
      i := i + 1;
    }
  }
}
