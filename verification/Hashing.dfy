/**
 HMAC-SHA256 over arrays that are overwritten and reused. SHA-256 is any
 function with a 32-byte result.
 */
module Hashing {
  import opened Bytes

  type Text = seq<byte>

  const BLOCK_SIZE := 64
  const SUM_SIZE := 32

  type Sum = d: seq<byte> | |d| == SUM_SIZE witness seq(SUM_SIZE, _ => 0)
  type Sha = seq<byte> -> Sum

  function Digest(sha: Sha, text: Text): Sum { sha(text) }

  // Keyed hashing: section 2 of RFC 2104

  function XorByte(b: byte, mask: bv8): byte { ((b as bv8) ^ mask) as byte }

  function Xor(s: Text, mask: bv8): Text { seq(|s|, i requires 0 <= i < |s| => XorByte(s[i], mask)) }

  function Zeros(n: nat): Text { seq(n, _ => 0) }

  /** The key as one block: hashed first if it is longer, then filled up with zeros. */
  function BlockKey(sha: Sha, key: Text): (k: Text)
    ensures |k| == BLOCK_SIZE
  {
    var short := if |key| > BLOCK_SIZE then Digest(sha, key) else key;
    short + Zeros(BLOCK_SIZE - |short|)
  }

  function Hmac(sha: Sha, key: Text, text: Text): Sum {
    var k := BlockKey(sha, key);
    Digest(sha, Xor(k, 0x5c) + Digest(sha, Xor(k, 0x36) + text))
  }

  // Reused memory

  /** A slice from the start of an array. */
  datatype Slice = Slice(arr: array<byte>, len: nat)

  ghost predicate InBounds(x: Slice) { x.len <= x.arr.Length }

  ghost function TextOf(x: Slice): (s: Text)
    requires InBounds(x)
    reads x.arr
  {
    x.arr[..x.len]
  }

  method FromText(s: Text) returns (x: Slice)
    ensures fresh(x.arr) && x.arr.Length == x.len && TextOf(x) == s
  {
    var arr := new byte[|s|](i requires 0 <= i < |s| => s[i]);
    x := Slice(arr, |s|);
  }

  /** A slice variable: an array, which may be larger than needed, and a length. */
  class Buffer {
    var data: array<byte>
    var len: nat

    ghost predicate Valid()
      reads this
    {
      len <= data.Length
    }

    ghost function Contents(): Text
      requires Valid()
      reads this, data
    {
      data[..len]
    }

    constructor ()
      ensures Valid() && fresh(data) && len == 0
    {
      data := new byte[0];
      len := 0;
    }

    /** Keeps the array if it is large enough; the bytes are whatever the array holds. */
    method Resize(length: nat)
      modifies this
      ensures Valid() && len == length
      ensures if length <= old(data).Length then data == old(data) else fresh(data)
    {
      if data.Length < length {
        data := new byte[length];
      }
      len := length;
    }

    /** Appends in place while the array has room. */
    method Append(s: Text)
      requires Valid()
      modifies this, data
      ensures Valid() && Contents() == old(Contents()) + s
      ensures data == old(data) || fresh(data)
    {
      if data.Length < len + |s| {
        var grown := new byte[len + |s|];
        forall i | 0 <= i < len {
          grown[i] := data[i];
        }
        data := grown;
      }
      forall i | 0 <= i < |s| {
        data[len + i] := s[i];
      }
      len := len + |s|;
    }

    method View() returns (x: Slice)
      requires Valid()
      ensures x == Slice(data, len)
    {
      x := Slice(data, len);
    }
  }

  /** Writes the sum of what a hash has been given; the hash itself does not change. */
  method SumToBuffer(sha: Sha, written: Text, result: Buffer) returns (r: Slice)
    requires result.Valid()
    modifies result, result.data
    ensures result.Valid() && r == Slice(result.data, result.len) && TextOf(r) == Digest(sha, written)
    ensures result.data == old(result.data) || fresh(result.data)
  {
    result.Resize(0);
    result.Append(Digest(sha, written));
    r := result.View();
  }

  method Fill(pad: array<byte>)
    modifies pad
    ensures pad[..] == Zeros(pad.Length)
  {
    forall i | 0 <= i < pad.Length {
      pad[i] := 0;
    }
  }

  method CopyTo(pad: array<byte>, key: Slice)
    requires InBounds(key) && key.len <= pad.Length && key.arr != pad
    modifies pad
    ensures pad[..] == TextOf(key) + old(pad[..])[key.len..]
  {
    forall i | 0 <= i < key.len {
      pad[i] := key.arr[i];
    }
  }

  method XorInPlace(pad: array<byte>, mask: bv8)
    modifies pad
    ensures pad[..] == Xor(old(pad[..]), mask)
  {
    hide XorByte;
    var i := 0;
    while i < pad.Length
      invariant i <= pad.Length
      invariant forall k :: 0 <= k < i ==> pad[k] == XorByte(old(pad[k]), mask)
      invariant forall k :: i <= k < pad.Length ==> pad[k] == old(pad[k])
    {
      pad[i] := XorByte(pad[i], mask);
      i := i + 1;
    }
  }

  class Hasher {
    const sha: Sha
    /** What each hash has been given since it was last reset. */
    var inner: Text
    var outer: Text
    const ipad: array<byte>
    const opad: array<byte>
    const sumBuffer: Buffer

    ghost predicate Valid()
      reads this, sumBuffer
    {
      && ipad.Length == opad.Length == BLOCK_SIZE && ipad != opad
      && sumBuffer.Valid() && sumBuffer.data != ipad && sumBuffer.data != opad
    }

    /** Memory no caller can see. */
    ghost predicate Private(arr: array<byte>)
      reads this, sumBuffer
    {
      arr == ipad || arr == opad || arr == sumBuffer.data
    }

    constructor (sha: Sha)
      ensures Valid() && this.sha == sha
      ensures fresh(ipad) && fresh(opad) && fresh(sumBuffer) && fresh(sumBuffer.data)
    {
      this.sha := sha;
      inner, outer := [], [];
      ipad := new byte[BLOCK_SIZE];
      opad := new byte[BLOCK_SIZE];
      sumBuffer := new Buffer();
    }

    /** The data may lie in the result's own array. */
    method Sha256(data: Slice, result: Buffer) returns (r: Slice)
      requires Valid() && InBounds(data)
      requires result.Valid() && result != sumBuffer && !Private(result.data)
      modifies this, result, result.data
      ensures Valid() && result.Valid() && !Private(result.data)
      ensures r == Slice(result.data, result.len) && TextOf(r) == Digest(sha, old(TextOf(data)))
      ensures result.data == old(result.data) || fresh(result.data)
      ensures sumBuffer.data == old(sumBuffer.data)
    {
      inner := [];
      inner := inner + data.arr[..data.len];
      assert inner == TextOf(data);
      r := SumToBuffer(sha, inner, result);
    }

    /** Prepares both pads with the key, which may lie anywhere but in the pads. */
    method LoadKey(key: Slice)
      requires Valid() && InBounds(key) && key.arr != ipad && key.arr != opad
      modifies this, ipad, opad, sumBuffer, sumBuffer.data
      ensures Valid() && (sumBuffer.data == old(sumBuffer.data) || fresh(sumBuffer.data))
      ensures ipad[..] == BlockKey(sha, old(TextOf(key))) == opad[..]
    {
      outer, inner := [], [];
      Fill(ipad);
      Fill(opad);
      var k := key;
      if key.len > BLOCK_SIZE {
        outer := outer + key.arr[..key.len];
        assert outer == TextOf(key);
        k := SumToBuffer(sha, outer, sumBuffer);
      }
      assert Zeros(BLOCK_SIZE)[k.len..] == Zeros(BLOCK_SIZE - k.len);
      CopyTo(ipad, k);
      CopyTo(opad, k);
    }

    /** Key and data may both lie in the result's own array. */
    method HmacSha256(key: Slice, data: Slice, result: Buffer) returns (r: Slice)
      requires Valid() && InBounds(key) && InBounds(data)
      requires key.arr != ipad && key.arr != opad && !Private(data.arr)
      requires result.Valid() && result != sumBuffer && !Private(result.data)
      modifies this, ipad, opad, sumBuffer, sumBuffer.data, result, result.data
      ensures Valid() && result.Valid() && !Private(result.data)
      ensures r == Slice(result.data, result.len) && TextOf(r) == Hmac(sha, old(TextOf(key)), old(TextOf(data)))
      ensures result.data == old(result.data) || fresh(result.data)
      ensures sumBuffer.data == old(sumBuffer.data) || fresh(sumBuffer.data)
    {
      hide Xor, BlockKey;
      ghost var text := TextOf(data);
      LoadKey(key);
      XorInPlace(ipad, 0x36);
      XorInPlace(opad, 0x5c);
      inner := ipad[..];
      inner := inner + data.arr[..data.len];
      outer := opad[..];
      var sum := SumToBuffer(sha, inner, sumBuffer);
      outer := outer + sum.arr[..sum.len];
      r := SumToBuffer(sha, outer, result);
    }
  }

  // Consequences of the definition

  /** Byte i of the key block. */
  function KeyByte(short: Text, i: nat): byte { if i < |short| then short[i] else 0 }

  lemma XorBits(b: byte, mask: bv8)
    ensures XorByte(b, mask) as bv8 == (b as bv8) ^ mask
  {}

  /** A block of 64 bytes: the key, filled up with zeros, combined bit by bit with the mask. */
  ghost predicate Masked(block: Text, key: Text, mask: bv8) {
    |block| == 64 && forall i: nat :: i < 64 ==> block[i] as bv8 == (KeyByte(key, i) as bv8) ^ mask
  }

  lemma KeyMasked(short: Text, mask: bv8)
    requires |short| <= BLOCK_SIZE
    ensures Masked(Xor(short + Zeros(BLOCK_SIZE - |short|), mask), short, mask)
  {
    hide XorByte;
    var block := short + Zeros(BLOCK_SIZE - |short|);
    forall i: nat | i < 64 ensures Xor(block, mask)[i] as bv8 == (KeyByte(short, i) as bv8) ^ mask {
      assert block[i] == KeyByte(short, i);
      XorBits(block[i], mask);
    }
  }

  /** The standard's own words: one hash inside another, each over the key masked with its own constant. */
  lemma HmacMeaning(sha: Sha, key: Text, text: Text)
    ensures var short := if |key| > 64 then Digest(sha, key) else key;
            exists inner, outer :: Masked(inner, short, 0x36) && Masked(outer, short, 0x5c)
                                   && Hmac(sha, key, text) == Digest(sha, outer + Digest(sha, inner + text))
  {
    hide Xor, Masked;
    var short: Text := if |key| > 64 then Digest(sha, key) else key;
    KeyMasked(short, 0x36);
    KeyMasked(short, 0x5c);
    var inner, outer := Xor(BlockKey(sha, key), 0x36), Xor(BlockKey(sha, key), 0x5c);
    assert Hmac(sha, key, text) == Digest(sha, outer + Digest(sha, inner + text));
  }

  /** A long key and its hash sign alike, and so do a key and the key with zeros after it. */
  lemma HmacKeys(sha: Sha, key: Text, n: nat, text: Text)
    ensures |key| > BLOCK_SIZE ==> Hmac(sha, Digest(sha, key), text) == Hmac(sha, key, text)
    ensures |key| + n <= BLOCK_SIZE ==> Hmac(sha, key + Zeros(n), text) == Hmac(sha, key, text)
  {
    if |key| + n <= BLOCK_SIZE {
      assert BlockKey(sha, key + Zeros(n)) == BlockKey(sha, key);
    }
  }
}
