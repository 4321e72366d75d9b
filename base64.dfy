/** Standard Base64 with padding (the alphabet of Table 1 in section 4 of
    RFC 4648, the `STANDARD` engine of the `base64` crate), its decoder, and
    the path-safe rewrite the tool resolver applies to it. */
module Base64 {
  import opened Wrappers
  import opened Utf8
  import Strings

  /** The character for a 6-bit value: A-Z, a-z, 0-9, '+', '/'. */
  function Sextet(i: int): (c: char)
    requires 0 <= i < 64
  {
    if i < 26 then ('A' as int + i) as char
    else if i < 52 then ('a' as int + i - 26) as char
    else if i < 62 then ('0' as int + i - 52) as char
    else if i == 62 then '+'
    else '/'
  }

  predicate IsAlphabet(c: char) {
    ('A' <= c <= 'Z') || ('a' <= c <= 'z') || ('0' <= c <= '9') || c == '+' || c == '/'
  }

  /** The 6-bit value of an alphabet character. */
  function SextetValue(c: char): (i: int)
    requires IsAlphabet(c)
    ensures 0 <= i < 64 && Sextet(i) == c
  {
    if 'A' <= c <= 'Z' then c as int - 'A' as int
    else if 'a' <= c <= 'z' then c as int - 'a' as int + 26
    else if '0' <= c <= '9' then c as int - '0' as int + 52
    else if c == '+' then 62
    else 63
  }

  lemma SextetValueOf(i: int)
    requires 0 <= i < 64
    ensures IsAlphabet(Sextet(i)) && SextetValue(Sextet(i)) == i
  {
  }

  /** The four 6-bit values of a group of three bytes (missing bytes are 0). */
  function Sextets(b0: byte, b1: byte, b2: byte): (q: (int, int, int, int))
    ensures 0 <= q.0 < 64 && 0 <= q.1 < 64 && 0 <= q.2 < 64 && 0 <= q.3 < 64
  {
    (b0 / 4, (b0 % 4) * 16 + b1 / 16, (b1 % 16) * 4 + b2 / 64, b2 % 64)
  }

  /** The three bytes four 6-bit values stand for. */
  function Octets(c0: int, c1: int, c2: int, c3: int): (r: seq<byte>)
    requires 0 <= c0 < 64 && 0 <= c1 < 64 && 0 <= c2 < 64 && 0 <= c3 < 64
    ensures |r| == 3
  {
    [c0 * 4 + c1 / 16, (c1 % 16) * 16 + c2 / 4, (c2 % 4) * 64 + c3]
  }

  lemma OctetsOfSextets(b0: byte, b1: byte, b2: byte)
    ensures var q := Sextets(b0, b1, b2); Octets(q.0, q.1, q.2, q.3) == [b0, b1, b2]
  {
  }

  /** Base64 of a byte string: each three bytes become four characters, a last
      group of one or two bytes is padded with '='. */
  function Encode(b: seq<byte>): (s: string)
    ensures |s| == 4 * ((|b| + 2) / 3)
    ensures forall k :: 0 <= k < |s| ==> IsAlphabet(s[k]) || s[k] == '='
    decreases |b|
  {
    if |b| == 0 then ""
    else if |b| == 1 then
      var q := Sextets(b[0], 0, 0);
      [Sextet(q.0), Sextet(q.1), '=', '=']
    else if |b| == 2 then
      var q := Sextets(b[0], b[1], 0);
      [Sextet(q.0), Sextet(q.1), Sextet(q.2), '=']
    else
      var q := Sextets(b[0], b[1], b[2]);
      [Sextet(q.0), Sextet(q.1), Sextet(q.2), Sextet(q.3)] + Encode(b[3..])
  }

  /** Decodes padded Base64; `None` for anything that is not of that form. */
  function Decode(s: string): Option<seq<byte>>
    decreases |s|
  {
    if |s| == 0 then Some([])
    else if |s| < 4 || !IsAlphabet(s[0]) || !IsAlphabet(s[1]) then None
    else if |s| == 4 && s[2] == '=' && s[3] == '=' then
      Some(Octets(SextetValue(s[0]), SextetValue(s[1]), 0, 0)[..1])
    else if !IsAlphabet(s[2]) then None
    else if |s| == 4 && s[3] == '=' then
      Some(Octets(SextetValue(s[0]), SextetValue(s[1]), SextetValue(s[2]), 0)[..2])
    else if !IsAlphabet(s[3]) then None
    else
      var group := Octets(SextetValue(s[0]), SextetValue(s[1]), SextetValue(s[2]), SextetValue(s[3]));
      match Decode(s[4..])
      case None => None
      case Some(rest) => Some(group + rest)
  }

  lemma DecodeEncodeOne(b: seq<byte>)
    requires |b| == 1
    ensures Decode(Encode(b)) == Some(b)
  {
    var q := Sextets(b[0], 0, 0);
    var s := Encode(b);
    assert s == [Sextet(q.0), Sextet(q.1), '=', '='];
    SextetValueOf(q.0);
    SextetValueOf(q.1);
    assert SextetValue(s[0]) == q.0 && SextetValue(s[1]) == q.1;
    assert Decode(s) == Some(Octets(q.0, q.1, 0, 0)[..1]);
    OctetsOfSextets(b[0], 0, 0);
    assert Octets(q.0, q.1, 0, 0) == Octets(q.0, q.1, q.2, q.3);
    assert Octets(q.0, q.1, 0, 0)[..1] == [b[0]];
    assert b == [b[0]];
  }

  lemma DecodeEncodeTwo(b: seq<byte>)
    requires |b| == 2
    ensures Decode(Encode(b)) == Some(b)
  {
    var q := Sextets(b[0], b[1], 0);
    var s := Encode(b);
    assert s == [Sextet(q.0), Sextet(q.1), Sextet(q.2), '='];
    SextetValueOf(q.0);
    SextetValueOf(q.1);
    SextetValueOf(q.2);
    assert SextetValue(s[0]) == q.0 && SextetValue(s[1]) == q.1 && SextetValue(s[2]) == q.2;
    assert Decode(s) == Some(Octets(q.0, q.1, q.2, 0)[..2]);
    OctetsOfSextets(b[0], b[1], 0);
    assert Octets(q.0, q.1, q.2, 0) == Octets(q.0, q.1, q.2, q.3);
    assert Octets(q.0, q.1, q.2, 0)[..2] == [b[0], b[1]];
    assert b == [b[0], b[1]];
  }

  /** Decoding a full group followed by more text. */
  lemma DecodeFullGroup(g: string, t: string)
    requires |g| == 4 && IsAlphabet(g[0]) && IsAlphabet(g[1]) && IsAlphabet(g[2]) && IsAlphabet(g[3])
    requires Decode(t).Some?
    ensures Decode(g + t) == Some(Octets(SextetValue(g[0]), SextetValue(g[1]), SextetValue(g[2]), SextetValue(g[3])) + Decode(t).value)
  {
    var s := g + t;
    assert s[4..] == t;
    assert s[0] == g[0] && s[1] == g[1] && s[2] == g[2] && s[3] == g[3];
  }

  lemma ConsThree(b: seq<byte>)
    requires |b| >= 3
    ensures b == [b[0], b[1], b[2]] + b[3..]
  {
  }

  lemma DecodeEncodeGroup(b: seq<byte>)
    requires |b| >= 3
    requires Decode(Encode(b[3..])) == Some(b[3..])
    ensures Decode(Encode(b)) == Some(b)
  {
    var q := Sextets(b[0], b[1], b[2]);
    var g := [Sextet(q.0), Sextet(q.1), Sextet(q.2), Sextet(q.3)];
    var t := Encode(b[3..]);
    assert Encode(b) == g + t;
    var head := Octets(q.0, q.1, q.2, q.3);
    assert Decode(g + t) == Some(head + b[3..]) by {
      SextetValueOf(q.0);
      SextetValueOf(q.1);
      SextetValueOf(q.2);
      SextetValueOf(q.3);
      DecodeFullGroup(g, t);
    }
    assert head == [b[0], b[1], b[2]] by {
      OctetsOfSextets(b[0], b[1], b[2]);
    }
    ConsThree(b);
  }

  /** Decoding an encoding gives the bytes back. */
  lemma {:induction false} DecodeEncode(b: seq<byte>)
    ensures Decode(Encode(b)) == Some(b)
    decreases |b|
  {
    if |b| == 1 {
      DecodeEncodeOne(b);
    } else if |b| == 2 {
      DecodeEncodeTwo(b);
    } else if |b| >= 3 {
      DecodeEncode(b[3..]);
      DecodeEncodeGroup(b);
    }
  }

  /** Different byte strings have different Base64 encodings. */
  lemma EncodeInjective(a: seq<byte>, b: seq<byte>)
    requires Encode(a) == Encode(b)
    ensures a == b
  {
    DecodeEncode(a);
    DecodeEncode(b);
  }

  /** `.replace(['/', '+', '='], "_")` */
  function PathSafe(s: string): (r: string)
    ensures |r| == |s|
    ensures forall k :: 0 <= k < |r| ==> r[k] != '/' && r[k] != '+' && r[k] != '='
    ensures forall k :: 0 <= k < |s| ==> r[k] == (if s[k] == '/' || s[k] == '+' || s[k] == '=' then '_' else s[k])
  {
    Strings.ReplaceChars(s, {'/', '+', '='}, '_')
  }

  predicate IsPathSafeChar(c: char) {
    ('A' <= c <= 'Z') || ('a' <= c <= 'z') || ('0' <= c <= '9') || c == '_'
  }

  /** The path-safe form of an encoding is made of `[A-Za-z0-9_]` only and
      keeps the encoding's length. */
  lemma PathSafeEncode(b: seq<byte>)
    ensures |PathSafe(Encode(b))| == 4 * ((|b| + 2) / 3)
    ensures forall k :: 0 <= k < |PathSafe(Encode(b))| ==> IsPathSafeChar(PathSafe(Encode(b))[k])
  {
  }

  /** The rewrite loses information: the bytes 0xFB and 0xFF encode as "+w=="
      and "/w==", which both become "_w__". */
  lemma PathSafeEncodeCollides()
    ensures Encode([0xFB]) != Encode([0xFF])
    ensures PathSafe(Encode([0xFB])) == PathSafe(Encode([0xFF])) == "_w__"
  {
    assert Encode([0xFB]) == "+w==";
    assert Encode([0xFF]) == "/w==";
  }
}
