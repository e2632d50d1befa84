/** Raw bytes, the byte constants the program searches for, the `memchr`
    search, and the UTF-8 encoding Rust gives a `&str`. */
module Bytes {
  import opened Wrappers

  newtype byte = x: int | 0 <= x < 0x100

  const Nul: byte := 0x00
  const Tab: byte := 0x09
  const LineFeed: byte := 0x0A
  const Slash: byte := 0x2F

  /** `memchr`: the index of the first occurrence of `b` in `s`, if any. */
  function IndexOf(s: seq<byte>, b: byte): (r: Option<nat>)
    ensures r.None? <==> b !in s
    ensures r.Some? ==> r.value < |s| && s[r.value] == b && b !in s[..r.value]
  {
    if s == [] then None
    else if s[0] == b then Some(0)
    else match IndexOf(s[1..], b)
      case None => None
      case Some(i) =>
        assert s[1..][..i] == s[1..i + 1];
        Some(i + 1)
  }

  /** The first occurrence is the one `IndexOf` finds. */
  lemma {:induction false} IndexOfFirst(s: seq<byte>, b: byte, k: nat)
    requires k < |s| && s[k] == b && b !in s[..k]
    ensures IndexOf(s, b) == Some(k)
  {
    if k > 0 {
      assert s[..k][0] == s[0];
      assert s[1..][..k - 1] == s[1..k];
      assert forall j :: 0 <= j < k - 1 ==> s[1..k][j] == s[..k][j + 1];
      IndexOfFirst(s[1..], b, k - 1);
    }
  }

  /** The length of the UTF-8 sequence that a lead byte starts. */
  function SequenceLength(lead: byte): nat {
    if lead < 0x80 then 1 else if lead < 0xE0 then 2 else if lead < 0xF0 then 3 else 4
  }

  /** The scalar value one UTF-8 sequence stands for. */
  function DecodeScalar(b: seq<byte>): int
    requires 1 <= |b| <= 4
  {
    if |b| == 1 then b[0] as int
    else if |b| == 2 then (b[0] as int - 0xC0) * 0x40 + (b[1] as int - 0x80)
    else if |b| == 3 then (b[0] as int - 0xE0) * 0x1000 + (b[1] as int - 0x80) * 0x40 + (b[2] as int - 0x80)
    else (b[0] as int - 0xF0) * 0x40000 + (b[1] as int - 0x80) * 0x1000 + (b[2] as int - 0x80) * 0x40 + (b[3] as int - 0x80)
  }

  /** The UTF-8 encoding of one Unicode scalar value. */
  function EncodeChar(c: char): (r: seq<byte>)
    ensures 1 <= |r| <= 4 && SequenceLength(r[0]) == |r| && DecodeScalar(r) == c as int
    ensures c as int < 0x80 ==> r == [c as int as byte]
    ensures c as int >= 0x80 ==> forall i :: 0 <= i < |r| ==> r[i] >= 0x80
  {
    var n := c as int;
    if n < 0x80 then [n as byte]
    else if n < 0x800 then
      [(0xC0 + n / 0x40) as byte, (0x80 + n % 0x40) as byte]
    else if n < 0x10000 then
      assert n / 0x40 == n / 0x1000 * 0x40 + n / 0x40 % 0x40;
      [(0xE0 + n / 0x1000) as byte, (0x80 + n / 0x40 % 0x40) as byte, (0x80 + n % 0x40) as byte]
    else
      assert n / 0x40 == n / 0x1000 * 0x40 + n / 0x40 % 0x40;
      assert n / 0x1000 == n / 0x40000 * 0x40 + n / 0x1000 % 0x40;
      [(0xF0 + n / 0x40000) as byte, (0x80 + n / 0x1000 % 0x40) as byte,
       (0x80 + n / 0x40 % 0x40) as byte, (0x80 + n % 0x40) as byte]
  }

  /** The concatenation of a sequence of byte sequences. */
  function Flatten(chunks: seq<seq<byte>>): (r: seq<byte>)
  {
    if chunks == [] then [] else chunks[0] + Flatten(chunks[1..])
  }

  /** The bytes of a Rust `&str`: the UTF-8 encodings of its characters, one
      after the other. */
  function Encode(s: string): (r: seq<byte>)
  {
    Flatten(seq(|s|, i requires 0 <= i < |s| => EncodeChar(s[i])))
  }

  /** A non-empty string encodes as its first character, then the rest. */
  lemma EncodeCons(s: string)
    requires s != []
    ensures Encode(s) == EncodeChar(s[0]) + Encode(s[1..])
  {
    var chunks := seq(|s|, i requires 0 <= i < |s| => EncodeChar(s[i]));
    assert chunks[1..] == seq(|s| - 1, i requires 0 <= i < |s| - 1 => EncodeChar(s[1..][i]));
  }

  /** The scalar values of a UTF-8 byte sequence (a truncated final sequence
      is dropped). */
  function Decode(b: seq<byte>): seq<int>
    decreases |b|
  {
    if b == [] then []
    else
      var n := SequenceLength(b[0]);
      if |b| < n then [] else [DecodeScalar(b[..n])] + Decode(b[n..])
  }

  function Scalars(s: string): (r: seq<int>)
    ensures |r| == |s| && forall i :: 0 <= i < |s| ==> r[i] == s[i] as int
  {
    seq(|s|, i requires 0 <= i < |s| => s[i] as int)
  }

  /** Decoding undoes encoding. */
  lemma {:induction false} DecodeEncode(s: string)
    ensures Decode(Encode(s)) == Scalars(s)
  {
    if s != [] {
      EncodeCons(s);
      var head, tail := EncodeChar(s[0]), Encode(s[1..]);
      assert (head + tail)[0] == head[0];
      assert (head + tail)[..|head|] == head && (head + tail)[|head|..] == tail;
      DecodeEncode(s[1..]);
      assert Scalars(s) == [s[0] as int] + Scalars(s[1..]);
    }
  }

  /** Different strings have different bytes. */
  lemma EncodeInjective(s: string, t: string)
    ensures Encode(s) == Encode(t) <==> s == t
  {
    if Encode(s) == Encode(t) {
      DecodeEncode(s);
      DecodeEncode(t);
      assert forall i :: 0 <= i < |s| ==> s[i] as int == Scalars(t)[i];
    }
  }

  predicate IsAscii(s: string) {
    forall i :: 0 <= i < |s| ==> s[i] as int < 0x80
  }

  /** An ASCII string encodes byte for byte. */
  lemma {:induction false} EncodeAscii(s: string)
    requires IsAscii(s)
    ensures |Encode(s)| == |s|
    ensures forall i :: 0 <= i < |s| ==> Encode(s)[i] as int == s[i] as int
  {
    if s != [] {
      EncodeCons(s);
      EncodeAscii(s[1..]);
    }
  }

  /** No character but U+0000 encodes to a byte sequence holding a NUL. */
  lemma {:induction false} EncodeNulFree(s: string)
    requires forall i :: 0 <= i < |s| ==> s[i] != '\0'
    ensures Nul !in Encode(s)
  {
    if s != [] {
      EncodeCons(s);
      EncodeNulFree(s[1..]);
    }
  }

  /** Encoding distributes over concatenation. */
  lemma {:induction false} EncodeAppend(s: string, t: string)
    ensures Encode(s + t) == Encode(s) + Encode(t)
  {
    if s == [] {
      assert s + t == t;
    } else {
      assert (s + t)[1..] == s[1..] + t;
      EncodeCons(s);
      EncodeCons(s + t);
      EncodeAppend(s[1..], t);
    }
  }
}
