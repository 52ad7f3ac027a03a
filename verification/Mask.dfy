/** WebSocket payload masking (section 5.3 of RFC 6455): the byte-by-byte
    definition, and the word-at-a-time loops that compute it. */
module Mask {
  import opened Bytes

  type key = k: bytes | |k| == 4 witness [0, 0, 0, 0]

  function Unmasked(s: bytes, mask: key): (r: bytes)
    ensures |r| == |s|
  {
    seq(|s|, i requires 0 <= i < |s| => s[i] ^ mask[i % 4])
  }

  /** Masking twice with one key restores the payload. */
  lemma UnmaskSelfInverse(s: bytes, mask: key)
    ensures Unmasked(Unmasked(s, mask), mask) == s
  {
    forall i | 0 <= i < |s|
      ensures Unmasked(Unmasked(s, mask), mask)[i] == s[i]
    {
      XorTwice(s[i], mask[i % 4]);
    }
  }

  lemma XorTwice(a: byte, b: byte)
    ensures (a ^ b) ^ b == a
  {
  }

  // -------------------------------------------------- native 64-bit words

  function Pack(b0: byte, b1: byte, b2: byte, b3: byte, b4: byte, b5: byte, b6: byte, b7: byte): bv64 {
    (b7 as bv64 << 56) | (b6 as bv64 << 48) | (b5 as bv64 << 40) | (b4 as bv64 << 32)
    | (b3 as bv64 << 24) | (b2 as bv64 << 16) | (b1 as bv64 << 8) | (b0 as bv64)
  }

  function Low(w: bv64): byte {
    (w & 0xFF) as bv8
  }

  /** `u64::from_ne_bytes` on a machine of either byte order. */
  function Load(s: bytes, bigEndian: bool): bv64
    requires |s| == 8
  {
    if bigEndian then Pack(s[7], s[6], s[5], s[4], s[3], s[2], s[1], s[0])
    else Pack(s[0], s[1], s[2], s[3], s[4], s[5], s[6], s[7])
  }

  /** `u64::to_ne_bytes`. */
  function Store(w: bv64, bigEndian: bool): (r: bytes)
    ensures |r| == 8
  {
    if bigEndian then
      [Low(w >> 56), Low(w >> 48), Low(w >> 40), Low(w >> 32), Low(w >> 24), Low(w >> 16), Low(w >> 8), Low(w)]
    else
      [Low(w), Low(w >> 8), Low(w >> 16), Low(w >> 24), Low(w >> 32), Low(w >> 40), Low(w >> 48), Low(w >> 56)]
  }

  lemma PackXor(a0: byte, a1: byte, a2: byte, a3: byte, a4: byte, a5: byte, a6: byte, a7: byte,
                b0: byte, b1: byte, b2: byte, b3: byte, b4: byte, b5: byte, b6: byte, b7: byte)
    ensures Pack(a0, a1, a2, a3, a4, a5, a6, a7) ^ Pack(b0, b1, b2, b3, b4, b5, b6, b7)
         == Pack(a0 ^ b0, a1 ^ b1, a2 ^ b2, a3 ^ b3, a4 ^ b4, a5 ^ b5, a6 ^ b6, a7 ^ b7)
  {
  }

  lemma LoadXor(a: bytes, b: bytes, bigEndian: bool)
    requires |a| == |b| == 8
    ensures Load(a, bigEndian) ^ Load(b, bigEndian) == Load(seq(8, i requires 0 <= i < 8 => a[i] ^ b[i]), bigEndian)
  {
    if bigEndian {
      PackXor(a[7], a[6], a[5], a[4], a[3], a[2], a[1], a[0], b[7], b[6], b[5], b[4], b[3], b[2], b[1], b[0]);
    } else {
      PackXor(a[0], a[1], a[2], a[3], a[4], a[5], a[6], a[7], b[0], b[1], b[2], b[3], b[4], b[5], b[6], b[7]);
    }
  }

  lemma PackBytes(b0: byte, b1: byte, b2: byte, b3: byte, b4: byte, b5: byte, b6: byte, b7: byte)
    ensures var w := Pack(b0, b1, b2, b3, b4, b5, b6, b7);
            && Low(w) == b0 && Low(w >> 8) == b1 && Low(w >> 16) == b2 && Low(w >> 24) == b3
            && Low(w >> 32) == b4 && Low(w >> 40) == b5 && Low(w >> 48) == b6 && Low(w >> 56) == b7
  {
  }

  lemma StoreLoad(s: bytes, bigEndian: bool)
    requires |s| == 8
    ensures Store(Load(s, bigEndian), bigEndian) == s
  {
    if bigEndian {
      PackBytes(s[7], s[6], s[5], s[4], s[3], s[2], s[1], s[0]);
    } else {
      PackBytes(s[0], s[1], s[2], s[3], s[4], s[5], s[6], s[7]);
    }
  }

  /** One word operation unmasks eight bytes, on either byte order. */
  lemma WordXor(a: bytes, b: bytes, bigEndian: bool)
    requires |a| == |b| == 8
    ensures Store(Load(a, bigEndian) ^ Load(b, bigEndian), bigEndian) == seq(8, i requires 0 <= i < 8 => a[i] ^ b[i])
  {
    LoadXor(a, b, bigEndian);
    StoreLoad(seq(8, i requires 0 <= i < 8 => a[i] ^ b[i]), bigEndian);
  }

  // ------------------------------------------------------------- the loops

  ghost predicate DoneUpTo(out: array<byte>, slice: bytes, mask: key, i: nat)
    reads out
  {
    && i <= |slice| == out.Length
    && forall k | 0 <= k < i :: out[k] == slice[k] ^ mask[k % 4]
  }

  /** The doubled mask lines up with every word-aligned position. */
  lemma MaskPhase(mask: key, i: nat, j: nat)
    requires i % 8 == 0 && j < 8
    ensures (mask + mask)[j] == mask[(i + j) % 4]
  {
    assert (i + j) % 4 == j % 4;
  }

  method XorWords(a: bytes, b: bytes, bigEndian: bool) returns (r: bytes)
    requires |a| == |b| == 8
    ensures |r| == 8 && forall i | 0 <= i < 8 :: r[i] == a[i] ^ b[i]
  {
    WordXor(a, b, bigEndian);
    r := Store(Load(a, bigEndian) ^ Load(b, bigEndian), bigEndian);
  }

  method MaskedWord(slice: bytes, i: nat, mask: key, bigEndian: bool) returns (word: bytes)
    requires i % 8 == 0 && i + 8 <= |slice|
    ensures |word| == 8 && forall k | 0 <= k < 8 :: word[k] == slice[i + k] ^ mask[(i + k) % 4]
  {
    word := XorWords(slice[i..i + 8], mask + mask, bigEndian);
    forall k | 0 <= k < 8
      ensures (mask + mask)[k] == mask[(i + k) % 4]
    {
      MaskPhase(mask, i, k);
    }
  }

  /** One 64-bit step at a word-aligned position of the payload. */
  method UnmaskWord(out: array<byte>, slice: bytes, mask: key, i: nat, bigEndian: bool)
    requires DoneUpTo(out, slice, mask, i) && i % 8 == 0 && i + 8 <= |slice|
    modifies out
    ensures DoneUpTo(out, slice, mask, i + 8)
  {
    var word := MaskedWord(slice, i, mask, bigEndian);
    forall k | i <= k < i + 8 {
      out[k] := word[k - i];
    }
    assert forall k | i <= k < i + 8 :: out[k] == slice[i + (k - i)] ^ mask[(i + (k - i)) % 4];
  }

  /** The 32-byte, 8-byte and tail loops compute the byte-by-byte definition. */
  method UnmaskRaw(slice: bytes, mask: key, bigEndian: bool) returns (out: array<byte>)
    ensures fresh(out) && out[..] == Unmasked(slice, mask)
  {
    out := new byte[|slice|];
    var i := 0;
    while i + 32 <= |slice|
      invariant DoneUpTo(out, slice, mask, i) && i % 8 == 0
    {
      UnmaskWord(out, slice, mask, i, bigEndian);
      UnmaskWord(out, slice, mask, i + 8, bigEndian);
      UnmaskWord(out, slice, mask, i + 16, bigEndian);
      UnmaskWord(out, slice, mask, i + 24, bigEndian);
      i := i + 32;
    }
    while i + 8 <= |slice|
      invariant DoneUpTo(out, slice, mask, i) && i % 8 == 0
    {
      UnmaskWord(out, slice, mask, i, bigEndian);
      i := i + 8;
    }
    while i < |slice|
      invariant DoneUpTo(out, slice, mask, i)
    {
      out[i] := slice[i] ^ mask[i % 4];
      i := i + 1;
    }
  }

  /** The same loops over a window of a larger buffer; a window that is out of
      bounds (or whose end does not fit in a machine word) is refused. */
  method UnmaskSlice(payload: bytes, offset: nat, length: nat, mask: key, bigEndian: bool)
    returns (result: Option<bytes>)
    requires |payload| <= USIZE_MAX
    ensures result == if offset + length <= |payload|
                      then Some(Unmasked(payload[offset..offset + length], mask))
                      else None
  {
    if offset + length > USIZE_MAX || offset + length > |payload| {
      return None;
    }
    var out := UnmaskRaw(payload[offset..offset + length], mask, bigEndian);
    result := Some(out[..]);
  }
}
