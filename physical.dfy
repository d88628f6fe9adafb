/**
 * The physical layer (`CapaFisica`, identical in both files): each character becomes
 * `format(ord(c), '08b')` and the bit string is read back 8 digits at a time with
 * `chr(int(byte, 2))`.
 */
module Physical {
  import opened Text

  predicate IsBit(c: char) {
    c == '0' || c == '1'
  }

  predicate IsBinary(s: string) {
    forall i :: 0 <= i < |s| ==> IsBit(s[i])
  }

  function Pow2(k: nat): (p: nat)
    ensures p >= 1
  {
    if k == 0 then 1 else 2 * Pow2(k - 1)
  }

  lemma {:induction false} Pow2Monotone(a: nat, b: nat)
    requires a <= b
    ensures Pow2(a) <= Pow2(b)
  {
    if a < b {
      Pow2Monotone(a, b - 1);
    }
  }

  /** `int(s, 2)` for a string of binary digits. */
  function BinValue(s: string): (v: nat)
    requires IsBinary(s)
    ensures v < Pow2(|s|)
  {
    if |s| == 0 then 0
    else BinValue(s[..|s| - 1]) * 2 + (if s[|s| - 1] == '1' then 1 else 0)
  }

  /** `bin(n)[2:]`: the binary digits of `n` without leading zeros. */
  function Binary(n: nat): (s: string)
    ensures |s| >= 1 && IsBinary(s) && BinValue(s) == n
    ensures n >= 1 ==> s[0] == '1'
  {
    if n < 2 then [if n == 0 then '0' else '1']
    else
      var s := Binary(n / 2) + [if n % 2 == 0 then '0' else '1'];
      assert s[..|s| - 1] == Binary(n / 2);
      s
  }

  lemma {:induction false} BinaryLength(n: nat, k: nat)
    requires 1 <= k && n < Pow2(k)
    ensures |Binary(n)| <= k
  {
    if n >= 2 {
      BinaryLength(n / 2, k - 1);
    }
  }

  function Zeros(k: nat): (z: string)
    ensures |z| == k && IsBinary(z)
  {
    if k == 0 then [] else Zeros(k - 1) + ['0']
  }

  /** Binary digits concatenate like positional numerals. */
  lemma {:induction false} BinValueAppend(a: string, b: string)
    requires IsBinary(a) && IsBinary(b)
    ensures IsBinary(a + b) && BinValue(a + b) == BinValue(a) * Pow2(|b|) + BinValue(b)
  {
    if |b| > 0 {
      var b' := b[..|b| - 1];
      var z := if b[|b| - 1] == '1' then 1 else 0;
      assert IsBinary(a + b);
      assert (a + b)[..|a + b| - 1] == a + b';
      BinValueAppend(a, b');
      assert BinValue(a + b) == BinValue(a + b') * 2 + z;
      assert BinValue(b) == BinValue(b') * 2 + z;
      ShiftDistributes(BinValue(a), Pow2(|b'|), BinValue(b'), z);
    } else {
      assert a + b == a;
    }
  }

  lemma ShiftDistributes(x: nat, p: nat, y: nat, z: nat)
    ensures (x * p + y) * 2 + z == x * (2 * p) + (y * 2 + z)
  {
  }

  lemma {:induction false} BinValueZeros(k: nat)
    ensures BinValue(Zeros(k)) == 0
  {
    if k > 0 {
      var z := Zeros(k - 1);
      assert Zeros(k) == z + ['0'];
      assert (z + ['0'])[..k - 1] == z;
      BinValueZeros(k - 1);
    }
  }

  /** Leading zeros do not change a binary numeral's value. */
  lemma PadValue(b: string, k: nat)
    requires IsBinary(b)
    ensures IsBinary(Zeros(k) + b) && BinValue(Zeros(k) + b) == BinValue(b)
  {
    BinValueAppend(Zeros(k), b);
    BinValueZeros(k);
    assert BinValue(Zeros(k)) * Pow2(|b|) == 0;
  }

  /** `format(n, '08b')`: binary digits padded with zeros to at least 8. */
  function Format08b(n: nat): (r: string)
    ensures IsBinary(r) && |r| >= 8 && BinValue(r) == n
    ensures n < 256 <==> |r| == 8
    ensures n >= 256 ==> r[0] == '1'
  {
    var b := Binary(n);
    if |b| < 8 then
      PadValue(b, 8 - |b|);
      Pow2Monotone(|b|, 8);
      Zeros(8 - |b|) + b
    else if n < 256 then
      BinaryLength(n, 8);
      b
    else
      Pow2Monotone(8, |b|);
      b
  }

  /** `CapaFisica.encapsular`: the concatenated `format(ord(c), '08b')` of every character. */
  function EncodeBits(t: string): (r: string)
    ensures IsBinary(r)
    ensures Latin1(t) ==> |r| == 8 * |t|
  {
    if t == [] then []
    else
      var f := Format08b(t[0] as int);
      var r := f + EncodeBits(t[1..]);
      (if Latin1(t) then Latin1Head(t); r else r)
  }

  /** `chr(v)` for a value that one chunk of at most 8 binary digits can hold. */
  function Chr(v: nat): char
    requires v < 256
  {
    v as char
  }

  /** The length of the chunk that `bits[i:i+8]` takes from what remains. */
  function ChunkLength(n: nat): (k: nat)
    ensures k <= n && k <= 8
    ensures n > 0 ==> k > 0
  {
    if n < 8 then n else 8
  }

  /**
   * `CapaFisica.desencapsular`: one character per chunk of 8 digits; a final chunk of
   * fewer digits is decoded as it is.
   */
  function DecodeBits(bits: string): (r: string)
    requires IsBinary(bits)
    ensures |r| == (|bits| + 7) / 8
    ensures Latin1(r)
  {
    if |bits| == 0 then []
    else
      var n := ChunkLength(|bits|);
      Pow2Monotone(n, 8);
      [Chr(BinValue(bits[..n]))] + DecodeBits(bits[n..])
  }

  /**
   * The loop of `CapaFisica.desencapsular` over `range(0, len(bits), 8)`, appending one
   * character per chunk; `j` is where `bits[i:i+8]` ends, which is the next `i` unless
   * the chunk was the last.
   */
  method Decode(bits: string) returns (text: string)
    requires IsBinary(bits)
    ensures text == DecodeBits(bits)
  {
    text := [];
    var i := 0;
    while i < |bits|
      invariant i <= |bits|
      invariant text + DecodeBits(bits[i..]) == DecodeBits(bits)
    {
      var j := if i + 8 <= |bits| then i + 8 else |bits|;
      DecodeStep(bits, text, i, j);
      text := text + [Chr(BinValue(bits[i..j]))];
      i := j;
    }
    assert bits[i..] == [];
  }

  /** One step of the loop: the chunk `bits[i:j]` decodes to the first character of what remains. */
  lemma DecodeChunk(bits: string, i: nat, j: nat)
    requires IsBinary(bits) && i < |bits| && j == (if i + 8 <= |bits| then i + 8 else |bits|)
    ensures IsBinary(bits[i..j]) && BinValue(bits[i..j]) < 256
    ensures DecodeBits(bits[i..]) == [Chr(BinValue(bits[i..j]))] + DecodeBits(bits[j..])
  {
    var r := bits[i..];
    assert ChunkLength(|r|) == j - i;
    assert r[..j - i] == bits[i..j];
    assert r[j - i..] == bits[j..];
    assert IsBinary(r[..j - i]) && IsBinary(r[j - i..]);
    Pow2Monotone(j - i, 8);
  }

  /** The loop keeps its invariant: appending the chunk's character leaves the rest to decode. */
  lemma DecodeStep(bits: string, text: string, i: nat, j: nat)
    requires IsBinary(bits) && i < |bits| && j == (if i + 8 <= |bits| then i + 8 else |bits|)
    requires text + DecodeBits(bits[i..]) == DecodeBits(bits)
    ensures IsBinary(bits[i..j]) && BinValue(bits[i..j]) < 256
    ensures (text + [Chr(BinValue(bits[i..j]))]) + DecodeBits(bits[j..]) == DecodeBits(bits)
  {
    DecodeChunk(bits, i, j);
    ConcatAssoc(text, [Chr(BinValue(bits[i..j]))], DecodeBits(bits[j..]));
  }

  lemma ConcatAssoc(a: string, b: string, c: string)
    ensures (a + b) + c == a + (b + c)
  {
  }

  /** Decoding undoes encoding for text whose characters fit in 8 bits. */
  lemma {:induction false} DecodeEncode(t: string)
    requires Latin1(t)
    ensures DecodeBits(EncodeBits(t)) == t
  {
    if t != [] {
      Latin1Head(t);
      var f := Format08b(t[0] as int);
      var rest := EncodeBits(t[1..]);
      var bits := f + rest;
      assert bits == EncodeBits(t);
      assert bits[..8] == f && bits[8..] == rest;
      assert Chr(BinValue(f)) == t[0];
      assert DecodeBits(bits) == [t[0]] + DecodeBits(rest);
      DecodeEncode(t[1..]);
      assert t == [t[0]] + t[1..];
    }
  }

  /** Two binary numerals of the same length and value are the same numeral. */
  lemma {:induction false} BinaryUnique(a: string, b: string)
    requires IsBinary(a) && IsBinary(b) && |a| == |b| && BinValue(a) == BinValue(b)
    ensures a == b
  {
    if |a| > 0 {
      var n := |a| - 1;
      BinaryUnique(a[..n], b[..n]);
      assert a[n] == b[n];
      assert a == a[..n] + [a[n]] && b == b[..n] + [b[n]];
    }
  }

  /** Encoding undoes decoding for bit strings made of whole 8-digit chunks. */
  lemma {:induction false} EncodeDecode(bits: string)
    requires IsBinary(bits) && |bits| % 8 == 0
    ensures EncodeBits(DecodeBits(bits)) == bits
    decreases |bits|
  {
    if |bits| > 0 {
      assert IsBinary(bits[8..]) && |bits[8..]| % 8 == 0;
      EncodeDecode(bits[8..]);
      EncodeDecodeStep(bits);
    }
  }

  /** One chunk of `EncodeDecode`: if the rest round-trips, so does the whole. */
  lemma EncodeDecodeStep(bits: string)
    requires IsBinary(bits) && |bits| >= 8
    requires IsBinary(bits[8..]) && EncodeBits(DecodeBits(bits[8..])) == bits[8..]
    ensures EncodeBits(DecodeBits(bits)) == bits
  {
    var d := DecodeBits(bits);
    FirstChunkEncodes(bits);
    EncodeCons(d);
    assert bits == bits[..8] + bits[8..];
  }

  /** The first character decoded formats back to the first chunk, and the rest decodes from the rest. */
  lemma FirstChunkEncodes(bits: string)
    requires IsBinary(bits) && |bits| >= 8
    ensures var d := DecodeBits(bits);
            |d| > 0 && Format08b(d[0] as int) == bits[..8] && d[1..] == DecodeBits(bits[8..])
  {
    DecodeWhole(bits);
    FormatChunk(bits[..8]);
  }

  /** Formatting the value of an 8-digit chunk gives the chunk back. */
  lemma FormatChunk(chunk: string)
    requires IsBinary(chunk) && |chunk| == 8
    ensures BinValue(chunk) < 256 && Format08b(BinValue(chunk)) == chunk
  {
    Pow2Monotone(8, 8);
    BinaryUnique(Format08b(BinValue(chunk)), chunk);
  }

  /** A whole first chunk decodes to the first character. */
  lemma DecodeWhole(bits: string)
    requires IsBinary(bits) && |bits| >= 8
    ensures IsBinary(bits[..8]) && IsBinary(bits[8..]) && BinValue(bits[..8]) < 256
    ensures var d := DecodeBits(bits);
            |d| > 0 && d[0] as int == BinValue(bits[..8]) && d[1..] == DecodeBits(bits[8..])
  {
    assert ChunkLength(|bits|) == 8;
    Pow2Monotone(8, 8);
  }

  lemma EncodeCons(t: string)
    requires |t| > 0
    ensures EncodeBits(t) == Format08b(t[0] as int) + EncodeBits(t[1..])
  {
  }
}
