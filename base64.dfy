/**
 * Base64 as Python's `base64.b64encode` produces it: the alphabet and padding
 * of section 4 of RFC 4648. Each group of three bytes becomes four
 * characters; a final group of one or two bytes is padded with `=`.
 * `Decode` is the reference inverse that section 3.3 of RFC 4648 describes,
 * used to state what the encoding preserves.
 */
module Base64 {
  import opened Wrappers
  import opened Utf8

  /** The character for a 6-bit value: `A`-`Z`, `a`-`z`, `0`-`9`, `+`, `/`. */
  function Sextet(k: nat): (c: char)
    requires k < 64
  {
    if k < 26 then ('A' as int + k) as char
    else if k < 52 then ('a' as int + (k - 26)) as char
    else if k < 62 then ('0' as int + (k - 52)) as char
    else if k == 62 then '+'
    else '/'
  }

  /** The 6-bit value of an alphabet character; `None` for any other character. */
  function SextetValue(c: char): (r: Option<nat>)
    ensures r.Some? ==> r.value < 64 && Sextet(r.value) == c
  {
    if 'A' <= c <= 'Z' then Some(c as int - 'A' as int)
    else if 'a' <= c <= 'z' then Some(c as int - 'a' as int + 26)
    else if '0' <= c <= '9' then Some(c as int - '0' as int + 52)
    else if c == '+' then Some(62)
    else if c == '/' then Some(63)
    else None
  }

  predicate InAlphabet(c: char) {
    SextetValue(c).Some?
  }

  lemma SextetValueOf(k: nat)
    requires k < 64
    ensures SextetValue(Sextet(k)) == Some(k)
  {
  }

  /** The four characters of a full group of three bytes. */
  function Quantum(x0: byte, x1: byte, x2: byte): (r: string)
    ensures |r| == 4
  {
    [Sextet(x0 / 4), Sextet((x0 % 4) * 16 + x1 / 16), Sextet((x1 % 16) * 4 + x2 / 64), Sextet(x2 % 64)]
  }

  /** A final group of one byte: two characters and `==`. */
  function FinalOne(x0: byte): (r: string)
    ensures |r| == 4
  {
    [Sextet(x0 / 4), Sextet((x0 % 4) * 16), '=', '=']
  }

  /** A final group of two bytes: three characters and `=`. */
  function FinalTwo(x0: byte, x1: byte): (r: string)
    ensures |r| == 4
  {
    [Sextet(x0 / 4), Sextet((x0 % 4) * 16 + x1 / 16), Sextet((x1 % 16) * 4), '=']
  }

  /** `base64.b64encode(b).decode()`. */
  function Encode(b: seq<byte>): string
    decreases |b|
  {
    if |b| == 0 then ""
    else if |b| == 1 then FinalOne(b[0])
    else if |b| == 2 then FinalTwo(b[0], b[1])
    else Quantum(b[0], b[1], b[2]) + Encode(b[3..])
  }

  /** The number of `=` characters that end the encoding of `n` bytes. */
  function Padding(n: nat): nat {
    (3 - n % 3) % 3
  }

  lemma PaddingStep(n: nat)
    requires n >= 3
    ensures Padding(n) == Padding(n - 3)
  {
    var q, r := (n - 3) / 3, (n - 3) % 3;
    assert n - 3 == 3 * q + r && 0 <= r < 3;
    assert n == 3 * (q + 1) + r;
    assert n % 3 == r;
  }

  lemma CeilStep(n: nat)
    requires n >= 3
    ensures (n + 2) / 3 == (n - 1) / 3 + 1
  {
    var q, r := (n - 1) / 3, (n - 1) % 3;
    assert n - 1 == 3 * q + r && 0 <= r < 3;
    assert n + 2 == 3 * (q + 1) + r;
  }

  /** The encoding has length 4 * ceil(n / 3). */
  lemma {:induction false} EncodeLength(b: seq<byte>)
    ensures |Encode(b)| == 4 * ((|b| + 2) / 3)
    decreases |b|
  {
    if |b| >= 3 {
      EncodeLength(b[3..]);
      CeilStep(|b|);
    }
  }

  /** The last `pad` characters of `r` are `=`, and all the others are from the alphabet. */
  predicate PaddedAlphabet(r: string, pad: nat) {
    forall i :: 0 <= i < |r| ==> (r[i] == '=' <==> i >= |r| - pad) && (r[i] != '=' ==> InAlphabet(r[i]))
  }

  lemma PaddedAppend(g: string, t: string, pad: nat)
    requires PaddedAlphabet(g, 0) && PaddedAlphabet(t, pad) && pad <= |t|
    ensures PaddedAlphabet(g + t, pad)
  {
    var r := g + t;
    forall i | 0 <= i < |r|
      ensures (r[i] == '=' <==> i >= |r| - pad) && (r[i] != '=' ==> InAlphabet(r[i]))
    {
      if i >= |g| {
        assert r[i] == t[i - |g|];
      } else {
        assert r[i] == g[i];
      }
    }
  }

  lemma QuantumPadded(x0: byte, x1: byte, x2: byte)
    ensures PaddedAlphabet(Quantum(x0, x1, x2), 0)
  {
    SextetValueOf(x0 / 4);
    SextetValueOf((x0 % 4) * 16 + x1 / 16);
    SextetValueOf((x1 % 16) * 4 + x2 / 64);
    SextetValueOf(x2 % 64);
  }

  lemma FinalOnePadded(x0: byte)
    ensures PaddedAlphabet(FinalOne(x0), 2)
  {
    SextetValueOf(x0 / 4);
    SextetValueOf((x0 % 4) * 16);
  }

  lemma FinalTwoPadded(x0: byte, x1: byte)
    ensures PaddedAlphabet(FinalTwo(x0, x1), 1)
  {
    SextetValueOf(x0 / 4);
    SextetValueOf((x0 % 4) * 16 + x1 / 16);
    SextetValueOf((x1 % 16) * 4);
  }

  /**
   * Every character of the encoding is from the alphabet, except the final
   * `Padding(|b|)` characters, which are `=`.
   */
  lemma EncodeCharacters(b: seq<byte>)
    ensures forall i :: 0 <= i < |Encode(b)| ==>
      (Encode(b)[i] == '=' <==> i >= |Encode(b)| - Padding(|b|))
    ensures forall i :: 0 <= i < |Encode(b)| ==>
      (Encode(b)[i] != '=' ==> InAlphabet(Encode(b)[i]))
  {
    EncodePadded(b);
  }

  lemma {:induction false} EncodePadded(b: seq<byte>)
    ensures PaddedAlphabet(Encode(b), Padding(|b|)) && Padding(|b|) <= |Encode(b)|
    decreases |b|
  {
    if |b| == 1 {
      assert Padding(1) == 2;
      FinalOnePadded(b[0]);
    } else if |b| == 2 {
      assert Padding(2) == 1;
      FinalTwoPadded(b[0], b[1]);
    } else if |b| >= 3 {
      EncodePadded(b[3..]);
      QuantumPrepend(b);
    }
  }

  /** A full group in front keeps the padding of the rest. */
  lemma QuantumPrepend(b: seq<byte>)
    requires |b| >= 3
    requires PaddedAlphabet(Encode(b[3..]), Padding(|b| - 3)) && Padding(|b| - 3) <= |Encode(b[3..])|
    ensures PaddedAlphabet(Encode(b), Padding(|b|)) && Padding(|b|) <= |Encode(b)|
  {
    var q, t, pad := Quantum(b[0], b[1], b[2]), Encode(b[3..]), Padding(|b|);
    assert Encode(b) == q + t;
    PaddingStep(|b|);
    QuantumPadded(b[0], b[1], b[2]);
    PaddedAppend(q, t, pad);
  }

  /** Three bytes from four alphabet characters; `None` if one is outside the alphabet. */
  function DecodeGroup(q: string): Option<seq<byte>>
    requires |q| == 4
  {
    var v0, v1, v2, v3 := SextetValue(q[0]), SextetValue(q[1]), SextetValue(q[2]), SextetValue(q[3]);
    if v0.None? || v1.None? || v2.None? || v3.None? then None
    else Some([v0.value * 4 + v1.value / 16, (v1.value % 16) * 16 + v2.value / 4, (v2.value % 4) * 64 + v3.value])
  }

  /** The last group, which may end in `==` (one byte) or `=` (two bytes). */
  function DecodeFinal(q: string): Option<seq<byte>>
    requires |q| == 4
  {
    var v0, v1, v2 := SextetValue(q[0]), SextetValue(q[1]), SextetValue(q[2]);
    if v0.None? || v1.None? then None
    else if q[2] == '=' && q[3] == '=' then Some([v0.value * 4 + v1.value / 16])
    else if v2.Some? && q[3] == '=' then
      Some([v0.value * 4 + v1.value / 16, (v1.value % 16) * 16 + v2.value / 4])
    else DecodeGroup(q)
  }

  /** The inverse of `Encode`: `None` unless `s` is a well-formed padded encoding. */
  function Decode(s: string): Option<seq<byte>>
    decreases |s|
  {
    if s == "" then Some([])
    else if |s| < 4 then None
    else if |s| == 4 then DecodeFinal(s)
    else
      match DecodeGroup(s[..4])
      case None => None
      case Some(g) =>
        match Decode(s[4..])
        case None => None
        case Some(rest) => Some(g + rest)
  }

  lemma QuantumArithmetic(x0: int, x1: int, x2: int)
    requires 0 <= x0 < 256 && 0 <= x1 < 256 && 0 <= x2 < 256
    ensures var c1, c2 := (x0 % 4) * 16 + x1 / 16, (x1 % 16) * 4 + x2 / 64;
      (x0 / 4) * 4 + c1 / 16 == x0 && (c1 % 16) * 16 + c2 / 4 == x1 && (c2 % 4) * 64 + x2 % 64 == x2
  {
    var c1, c2 := (x0 % 4) * 16 + x1 / 16, (x1 % 16) * 4 + x2 / 64;
    assert c1 / 16 == x0 % 4 && c1 % 16 == x1 / 16;
    assert c2 / 4 == x1 % 16 && c2 % 4 == x2 / 64;
  }

  /** A full group decodes to its three bytes, as a middle group or as the last one. */
  lemma QuantumDecodes(x0: byte, x1: byte, x2: byte)
    ensures DecodeGroup(Quantum(x0, x1, x2)) == Some([x0, x1, x2])
    ensures DecodeFinal(Quantum(x0, x1, x2)) == Some([x0, x1, x2])
  {
    var c0, c1, c2, c3 := x0 / 4, (x0 % 4) * 16 + x1 / 16, (x1 % 16) * 4 + x2 / 64, x2 % 64;
    SextetValueOf(c0);
    SextetValueOf(c1);
    SextetValueOf(c2);
    SextetValueOf(c3);
    QuantumArithmetic(x0, x1, x2);
  }

  lemma FinalOneDecodes(x0: byte)
    ensures DecodeFinal(FinalOne(x0)) == Some([x0])
  {
    SextetValueOf(x0 / 4);
    SextetValueOf((x0 % 4) * 16);
    QuantumArithmetic(x0, 0, 0);
  }

  lemma FinalTwoDecodes(x0: byte, x1: byte)
    ensures DecodeFinal(FinalTwo(x0, x1)) == Some([x0, x1])
  {
    SextetValueOf(x0 / 4);
    SextetValueOf((x0 % 4) * 16 + x1 / 16);
    SextetValueOf((x1 % 16) * 4);
    QuantumArithmetic(x0, x1, 0);
  }

  /** Decoding the encoding gives back the bytes. */
  lemma {:induction false} DecodeEncode(b: seq<byte>)
    ensures Decode(Encode(b)) == Some(b)
    decreases |b|
  {
    if |b| == 1 {
      FinalOneDecodes(b[0]);
      assert b == [b[0]];
    } else if |b| == 2 {
      FinalTwoDecodes(b[0], b[1]);
      assert b == [b[0], b[1]];
    } else if |b| >= 3 {
      var q, t := Quantum(b[0], b[1], b[2]), Encode(b[3..]);
      QuantumDecodes(b[0], b[1], b[2]);
      assert b == [b[0], b[1], b[2]] + b[3..];
      if |b| == 3 {
        assert b[3..] == [] && Encode(b) == q;
        assert b == [b[0], b[1], b[2]];
      } else {
        EncodeLength(b[3..]);
        DecodeEncode(b[3..]);
        assert (q + t)[..4] == q && (q + t)[4..] == t;
      }
    }
  }
}
