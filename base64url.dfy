/** The padded URL-safe base64 encoding of section 5 of RFC 4648, as Go's
    `base64.URLEncoding.EncodeToString` produces it: three bytes become four
    symbols of the alphabet A-Z a-z 0-9 '-' '_', and a final group of one or
    two bytes is completed with '=' to four characters.

    `Decode` is the strict inverse (canonical padding and zero trailing bits);
    it is the partner against which `Encode` is proved. */
module Base64Url {

  import opened Wrappers

  type byte = b: int | 0 <= b < 256
  type sextet = x: int | 0 <= x < 64

  const Pad: char := '='

  /** The characters of the URL-safe alphabet (no padding). */
  predicate IsUrlSafe(c: char) {
    ('A' <= c <= 'Z') || ('a' <= c <= 'z') || ('0' <= c <= '9') || c == '-' || c == '_'
  }

  /** The symbol for a 6-bit value: table 2 of RFC 4648. */
  function Symbol(x: sextet): (c: char)
    ensures IsUrlSafe(c)
  {
    if x < 26 then ('A' as int + x) as char
    else if x < 52 then ('a' as int + (x - 26)) as char
    else if x < 62 then ('0' as int + (x - 52)) as char
    else if x == 62 then '-'
    else '_'
  }

  /** The 6-bit value of an alphabet character. */
  function SymbolValue(c: char): (x: sextet)
    requires IsUrlSafe(c)
    ensures Symbol(x) == c
  {
    if 'A' <= c <= 'Z' then c as int - 'A' as int
    else if 'a' <= c <= 'z' then c as int - 'a' as int + 26
    else if '0' <= c <= '9' then c as int - '0' as int + 52
    else if c == '-' then 62
    else 63
  }

  lemma SymbolValueOfSymbol(x: sextet)
    ensures SymbolValue(Symbol(x)) == x
  {
  }

  /** Number of '=' characters closing the encoding of n bytes. */
  function PadCount(n: nat): (p: nat)
    ensures p < 3
  {
    (3 - n % 3) % 3
  }

  /** Encoding of one full group of three bytes. */
  function EncodeGroup(a: byte, b: byte, c: byte): (s: string)
  {
    [Symbol(a / 4), Symbol(a % 4 * 16 + b / 16), Symbol(b % 16 * 4 + c / 64), Symbol(c % 64)]
  }

  function Encode(bytes: seq<byte>): (s: string)
    decreases |bytes|
  {
    if |bytes| == 0 then ""
    else if |bytes| == 1 then
      [Symbol(bytes[0] / 4), Symbol(bytes[0] % 4 * 16), Pad, Pad]
    else if |bytes| == 2 then
      [Symbol(bytes[0] / 4), Symbol(bytes[0] % 4 * 16 + bytes[1] / 16), Symbol(bytes[1] % 16 * 4), Pad]
    else
      EncodeGroup(bytes[0], bytes[1], bytes[2]) + Encode(bytes[3..])
  }

  /** The layout of an encoding of n bytes: four characters per started group
      of three bytes, alphabet characters followed by `PadCount(n)` padding
      characters. */
  ghost predicate Shaped(s: string, n: nat) {
    && |s| == 4 * ((n + 2) / 3)
    && (forall i :: 0 <= i < |s| - PadCount(n) ==> IsUrlSafe(s[i]))
    && (forall i :: |s| - PadCount(n) <= i < |s| ==> s[i] == Pad)
  }

  /** A full group of four alphabet characters in front keeps the layout. */
  lemma ShapedCons(g: string, t: string, n: nat)
    requires n >= 3 && |g| == 4 && IsUrlSafe(g[0]) && IsUrlSafe(g[1]) && IsUrlSafe(g[2]) && IsUrlSafe(g[3])
    requires Shaped(t, n - 3)
    ensures Shaped(g + t, n)
  {
    var s := g + t;
    assert PadCount(n) == PadCount(n - 3);
    assert |s| == 4 * ((n + 2) / 3);
    forall i | 0 <= i < |s| - PadCount(n)
      ensures IsUrlSafe(s[i])
    {
      if i >= 4 {
        assert s[i] == t[i - 4];
      }
    }
    forall i | |s| - PadCount(n) <= i < |s|
      ensures s[i] == Pad
    {
      assert s[i] == t[i - 4];
    }
  }

  /** Every encoding has the layout of its length. */
  lemma {:induction false} EncodeShape(bytes: seq<byte>)
    ensures Shaped(Encode(bytes), |bytes|)
    decreases |bytes|
  {
    if |bytes| > 2 {
      EncodeShape(bytes[3..]);
      ShapedCons(EncodeGroup(bytes[0], bytes[1], bytes[2]), Encode(bytes[3..]), |bytes|);
    }
  }

  /** The three bytes a group of four symbols stands for. */
  function DecodeGroup(w: sextet, x: sextet, y: sextet, z: sextet): (b: seq<byte>)
  {
    [w as int * 4 + x / 16, x % 16 * 16 + y / 4, y % 4 * 64 + z]
  }

  /** Strict decoding: every group has four characters, padding only closes
      the last group, and the bits a padded group drops are zero. */
  function Decode(s: string): (r: Option<seq<byte>>)
    decreases |s|
  {
    if |s| == 0 then Some([])
    else if |s| < 4 || !IsUrlSafe(s[0]) || !IsUrlSafe(s[1]) then None
    else if |s| == 4 && s[2] == Pad && s[3] == Pad then
      var w: int, x: int := SymbolValue(s[0]), SymbolValue(s[1]);
      if x % 16 == 0 then Some([w * 4 + x / 16]) else None
    else if !IsUrlSafe(s[2]) then None
    else if |s| == 4 && s[3] == Pad then
      var w: int, x: int, y: int := SymbolValue(s[0]), SymbolValue(s[1]), SymbolValue(s[2]);
      if y % 4 == 0 then Some([w * 4 + x / 16, x % 16 * 16 + y / 4]) else None
    else if !IsUrlSafe(s[3]) then None
    else
      match Decode(s[4..])
      case None => None
      case Some(rest) =>
        Some(DecodeGroup(SymbolValue(s[0]), SymbolValue(s[1]), SymbolValue(s[2]), SymbolValue(s[3])) + rest)
  }

  /** Splitting q * k + r by k, for the three divisors the encoding uses. */
  lemma SplitBy(q: int, r: int, k: int)
    requires k == 4 || k == 16 || k == 64
    requires 0 <= q && 0 <= r < k
    ensures (q * k + r) / k == q && (q * k + r) % k == r
  {
  }

  lemma GroupRoundTrip(a: byte, b: byte, c: byte)
    ensures var g := EncodeGroup(a, b, c);
      DecodeGroup(SymbolValue(g[0]), SymbolValue(g[1]), SymbolValue(g[2]), SymbolValue(g[3])) == [a, b, c]
  {
    var w, x, y, z := a / 4, a % 4 * 16 + b / 16, b % 16 * 4 + c / 64, c % 64;
    SymbolValueOfSymbol(w);
    SymbolValueOfSymbol(x);
    SymbolValueOfSymbol(y);
    SymbolValueOfSymbol(z);
    SplitBy(a % 4, b / 16, 16);
    SplitBy(b % 16, c / 64, 4);
    assert w * 4 + x / 16 == a;
    assert x % 16 * 16 + y / 4 == b;
    assert y % 4 * 64 + z == c;
  }

  /** The arithmetic of SextetRoundTrip, on plain integers. */
  lemma SextetArithmetic(w: int, x: int, y: int, z: int)
    requires 0 <= w < 64 && 0 <= x < 64 && 0 <= y < 64 && 0 <= z < 64
    ensures var a, b, c := w * 4 + x / 16, x % 16 * 16 + y / 4, y % 4 * 64 + z;
      0 <= a < 256 && 0 <= b < 256 && 0 <= c < 256 &&
      a / 4 == w && a % 4 * 16 + b / 16 == x && b % 16 * 4 + c / 64 == y && c % 64 == z
  {
    SplitBy(w, x / 16, 4);
    SplitBy(x % 16, y / 4, 16);
    SplitBy(y % 4, z, 64);
  }

  lemma SextetRoundTrip(w: sextet, x: sextet, y: sextet, z: sextet)
    ensures var b := DecodeGroup(w, x, y, z);
      EncodeGroup(b[0], b[1], b[2]) == [Symbol(w), Symbol(x), Symbol(y), Symbol(z)]
  {
    SextetArithmetic(w, x, y, z);
    var b := DecodeGroup(w, x, y, z);
    var a0: sextet, a1: sextet, a2: sextet, a3: sextet :=
      b[0] / 4, b[0] % 4 * 16 + b[1] / 16, b[1] % 16 * 4 + b[2] / 64, b[2] % 64;
    assert a0 == w && a1 == x && a2 == y && a3 == z;
    assert EncodeGroup(b[0], b[1], b[2]) == [Symbol(a0), Symbol(a1), Symbol(a2), Symbol(a3)];
  }

  lemma DecodeLastOne(a: byte)
    ensures Decode(Encode([a])) == Some([a])
  {
    var x: int := a % 4 * 16;
    SymbolValueOfSymbol(a / 4);
    SymbolValueOfSymbol(x);
    SplitBy(a % 4, 0, 16);
    assert x % 16 == 0 && a / 4 * 4 + x / 16 == a;
  }

  lemma DecodeLastTwo(a: byte, b: byte)
    ensures Decode(Encode([a, b])) == Some([a, b])
  {
    var s := Encode([a, b]);
    var x: int, y: int := a % 4 * 16 + b / 16, b % 16 * 4;
    SymbolValueOfSymbol(a / 4);
    SymbolValueOfSymbol(x);
    SymbolValueOfSymbol(y);
    SplitBy(a % 4, b / 16, 16);
    SplitBy(b % 16, 0, 4);
    assert s == [Symbol(a / 4), Symbol(x), Symbol(y), Pad];
    assert y % 4 == 0 && a / 4 * 4 + x / 16 == a && x % 16 * 16 + y / 4 == b;
  }

  /** A leading group of four alphabet characters decodes to three bytes. */
  lemma DecodeFullGroup(q: string, t: string)
    requires |q| == 4 && IsUrlSafe(q[0]) && IsUrlSafe(q[1]) && IsUrlSafe(q[2]) && IsUrlSafe(q[3])
    ensures Decode(q + t) == match Decode(t)
      case None => None
      case Some(rest) =>
        Some(DecodeGroup(SymbolValue(q[0]), SymbolValue(q[1]), SymbolValue(q[2]), SymbolValue(q[3])) + rest)
  {
    var s := q + t;
    assert s[..4] == q && s[4..] == t;
    assert IsUrlSafe(s[0]) && IsUrlSafe(s[1]) && IsUrlSafe(s[2]) && IsUrlSafe(s[3]);
  }

  /** Decoding undoes encoding. */
  lemma {:induction false} DecodeEncode(bytes: seq<byte>)
    ensures Decode(Encode(bytes)) == Some(bytes)
    decreases |bytes|
  {
    if |bytes| == 1 {
      DecodeLastOne(bytes[0]);
      assert bytes == [bytes[0]];
    } else if |bytes| == 2 {
      DecodeLastTwo(bytes[0], bytes[1]);
      assert bytes == [bytes[0], bytes[1]];
    } else if |bytes| > 2 {
      DecodeEncode(bytes[3..]);
      DecodeEncodeFullGroup(bytes);
    }
  }

  lemma FirstGroupAndRest(bytes: seq<byte>)
    requires |bytes| > 2
    ensures [bytes[0], bytes[1], bytes[2]] + bytes[3..] == bytes
  {
  }

  /** The inductive step of DecodeEncode: a leading group of three bytes. */
  lemma DecodeEncodeFullGroup(bytes: seq<byte>)
    requires |bytes| > 2 && Decode(Encode(bytes[3..])) == Some(bytes[3..])
    ensures Decode(Encode(bytes)) == Some(bytes)
  {
    var g, t := EncodeGroup(bytes[0], bytes[1], bytes[2]), Encode(bytes[3..]);
    assert Encode(bytes) == g + t;
    var d := DecodeGroup(SymbolValue(g[0]), SymbolValue(g[1]), SymbolValue(g[2]), SymbolValue(g[3]));
    assert d == [bytes[0], bytes[1], bytes[2]] by {
      GroupRoundTrip(bytes[0], bytes[1], bytes[2]);
    }
    FirstGroupAndRest(bytes);
    assert Decode(g + t) == Some(d + bytes[3..]) by {
      DecodeFullGroup(g, t);
    }
  }

  lemma EncodeDecodeLastOne(s: string)
    requires |s| == 4 && s[2] == Pad && s[3] == Pad && Decode(s).Some?
    ensures Encode(Decode(s).value) == s
  {
    var w: int, x: int := SymbolValue(s[0]), SymbolValue(s[1]);
    var a: int := w * 4 + x / 16;
    SplitBy(w, x / 16, 4);
    assert Decode(s).value == [a];
    assert a / 4 == w && a % 4 * 16 == x;
    assert s == [Symbol(w), Symbol(x), Pad, Pad];
  }

  /** The arithmetic of EncodeDecodeLastTwo, on plain integers. */
  lemma LastTwoArithmetic(w: int, x: int, y: int)
    requires 0 <= w < 64 && 0 <= x < 64 && 0 <= y < 64 && y % 4 == 0
    ensures var a, b := w * 4 + x / 16, x % 16 * 16 + y / 4;
      0 <= a < 256 && 0 <= b < 256 &&
      a / 4 == w && a % 4 * 16 + b / 16 == x && b % 16 * 4 == y
  {
    SplitBy(w, x / 16, 4);
    SplitBy(x % 16, y / 4, 16);
  }

  lemma EncodeDecodeLastTwo(s: string)
    requires |s| == 4 && s[2] != Pad && s[3] == Pad && Decode(s).Some?
    ensures Encode(Decode(s).value) == s
  {
    var w: int, x: int, y: int := SymbolValue(s[0]), SymbolValue(s[1]), SymbolValue(s[2]);
    assert y % 4 == 0;
    LastTwoArithmetic(w, x, y);
    var a: byte, b: byte := w * 4 + x / 16, x % 16 * 16 + y / 4;
    assert Decode(s) == Some([a, b]);
    assert Encode([a, b]) == [Symbol(w), Symbol(x), Symbol(y), Pad] by {
      assert Encode([a, b]) == [Symbol(a / 4), Symbol(a % 4 * 16 + b / 16), Symbol(b % 16 * 4), Pad];
    }
    assert s == [Symbol(w), Symbol(x), Symbol(y), Pad];
  }

  /** Four alphabet characters are the symbols of their values. */
  lemma SymbolsOfValues(q: string)
    requires |q| == 4 && IsUrlSafe(q[0]) && IsUrlSafe(q[1]) && IsUrlSafe(q[2]) && IsUrlSafe(q[3])
    ensures q == [Symbol(SymbolValue(q[0])), Symbol(SymbolValue(q[1])), Symbol(SymbolValue(q[2])), Symbol(SymbolValue(q[3]))]
  {
  }

  lemma EncodeDecodeFullGroup(q: string, t: string)
    requires |q| == 4 && IsUrlSafe(q[0]) && IsUrlSafe(q[1]) && IsUrlSafe(q[2]) && IsUrlSafe(q[3])
    requires Decode(t).Some? && Encode(Decode(t).value) == t
    ensures Decode(q + t).Some? && Encode(Decode(q + t).value) == q + t
  {
    var w, x, y, z := SymbolValue(q[0]), SymbolValue(q[1]), SymbolValue(q[2]), SymbolValue(q[3]);
    var rest := Decode(t).value;
    var bytes := DecodeGroup(w, x, y, z) + rest;
    assert Decode(q + t) == Some(bytes) by {
      DecodeFullGroup(q, t);
    }
    assert Encode(bytes) == q + t by {
      assert bytes[3..] == rest;
      SextetRoundTrip(w, x, y, z);
      assert Encode(bytes) == EncodeGroup(bytes[0], bytes[1], bytes[2]) + Encode(rest);
      SymbolsOfValues(q);
    }
  }

  /** Encoding undoes decoding: together with DecodeEncode, Encode is a
      bijection onto the strings Decode accepts. */
  lemma {:induction false} EncodeDecode(s: string)
    requires Decode(s).Some?
    ensures Encode(Decode(s).value) == s
    decreases |s|
  {
    if |s| == 0 {
    } else if |s| == 4 && s[2] == Pad && s[3] == Pad {
      EncodeDecodeLastOne(s);
    } else if |s| == 4 && s[3] == Pad {
      EncodeDecodeLastTwo(s);
    } else {
      var q, t := s[..4], s[4..];
      assert s == q + t;
      assert Decode(t).Some?;
      EncodeDecode(t);
      EncodeDecodeFullGroup(q, t);
    }
  }

  /** Distinct byte strings have distinct encodings. */
  lemma EncodeInjective(b1: seq<byte>, b2: seq<byte>)
    requires Encode(b1) == Encode(b2)
    ensures b1 == b2
  {
    DecodeEncode(b1);
    DecodeEncode(b2);
  }
}
