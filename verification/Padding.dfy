/**
 ISO/IEC 7816-4 padding of a plaintext to whole blocks, as the encryption core applies it before
 sealing a message (crates/obby-client/src/e2ee.rs:934-957).
 */
module Padding {
  import opened Wrappers
  import opened Integers

  const PAD_BLOCK: nat := 64

  /** `count` zero bytes. */
  function Zeros(count: nat): (zs: seq<byte>)
    ensures |zs| == count && forall i | 0 <= i < count :: zs[i] == 0
  {
    seq(count, _ => 0)
  }

  function Padded(plaintext: seq<byte>): (out: seq<byte>)
    ensures |out| % PAD_BLOCK == 0 && |plaintext| < |out| <= |plaintext| + PAD_BLOCK
  {
    var marked := plaintext + [0x80];
    var remainder := |marked| % PAD_BLOCK;
    if remainder != 0 then marked + Zeros(PAD_BLOCK - remainder) else marked
  }

  /** The index just past the last non-zero byte; zero when there is none. */
  function SignificantLength(bytes: seq<byte>): (k: nat)
    ensures k <= |bytes|
    ensures forall i | k <= i < |bytes| :: bytes[i] == 0
    ensures k > 0 ==> bytes[k - 1] != 0
  {
    if bytes == [] then 0
    else if bytes[|bytes| - 1] != 0 then |bytes|
    else SignificantLength(bytes[..|bytes| - 1])
  }

  /** What the padding hides, or nothing when the bytes are not well-formed padding. */
  function Unpadded(padded: seq<byte>): Option<seq<byte>> {
    var k := SignificantLength(padded);
    if k == 0 || padded[k - 1] != 0x80 then None else Some(padded[..k - 1])
  }

  /** Every plaintext survives padding, the empty one and one that itself ends in 0x80 or zeros included. */
  lemma UnpadUndoesPad(plaintext: seq<byte>)
    ensures Unpadded(Padded(plaintext)) == Some(plaintext)
  {
    var out := Padded(plaintext);
    assert out[|plaintext|] == 0x80;
    assert SignificantLength(out) == |plaintext| + 1;
    assert out[..|plaintext|] == plaintext;
  }

  /** Padding that reads back as a given plaintext is that plaintext, the marker, then only zeros. */
  lemma UnpaddedShape(padded: seq<byte>, plaintext: seq<byte>)
    ensures Unpadded(padded) == Some(plaintext)
       <==> |plaintext| < |padded| && padded == plaintext + [0x80] + Zeros(|padded| - |plaintext| - 1)
  {
    var k := SignificantLength(padded);
    if Unpadded(padded) == Some(plaintext) {
      assert padded == padded[..k - 1] + [0x80] + Zeros(|padded| - k);
    }
    if |plaintext| < |padded| && padded == plaintext + [0x80] + Zeros(|padded| - |plaintext| - 1) {
      assert padded[|plaintext|] == 0x80;
      assert k == |plaintext| + 1;
      assert padded[..k - 1] == plaintext;
    }
  }

  method Pad(plaintext: seq<byte>) returns (out: seq<byte>)
    ensures out == Padded(plaintext)
  {
    out := plaintext + [0x80];
    var remainder := |out| % PAD_BLOCK;
    if remainder != 0 {
      out := out + Zeros(PAD_BLOCK - remainder);
    }
  }

  /** Scan back for the last non-zero byte, which has to be the marker. */
  method Unpad(padded: seq<byte>) returns (plaintext: Option<seq<byte>>)
    ensures plaintext == Unpadded(padded)
  {
    var end := |padded|;
    while end > 0 && padded[end - 1] == 0
      invariant 0 <= end <= |padded|
      invariant forall i | end <= i < |padded| :: padded[i] == 0
    {
      end := end - 1;
    }
    assert end == SignificantLength(padded);
    if end == 0 || padded[end - 1] != 0x80 {
      return None;
    }
    return Some(padded[..end - 1]);
  }
}
