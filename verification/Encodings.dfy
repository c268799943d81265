/** Base64 (section 4 of RFC 4648) as encoding/json writes []byte and encoding/base64 reads it, and hexadecimal
    (section 8 of RFC 4648, lower case) as encoding/hex writes it and a database reads it. */
module Encodings {
  import opened ByteStrings
  import opened Options

  function CharAt(from: char, n: nat): char
    requires n < 26
    requires 'A' <= from <= 'a' || '0' <= from <= '9'
  {
    (from as int + n) as char
  }

  /** The base64 alphabet. */
  function Sextet(n: nat): char
    requires n < 64
  {
    if n < 26 then CharAt('A', n) else if n < 52 then CharAt('a', n - 26) else if n < 62 then CharAt('0', n - 52)
    else if n == 62 then '+' else '/'
  }

  function Unsextet(c: char): Option<nat>
  {
    if 'A' <= c <= 'Z' then Some(c as int - 'A' as int)
    else if 'a' <= c <= 'z' then Some(26 + c as int - 'a' as int)
    else if '0' <= c <= '9' then Some(52 + c as int - '0' as int)
    else if c == '+' then Some(62)
    else if c == '/' then Some(63)
    else None
  }

  lemma SextetBack(n: nat)
    requires n < 64
    ensures Unsextet(Sextet(n)) == Some(n) && Sextet(n) != '=' && Sextet(n) != '\n' && Sextet(n) != '\r' && Sextet(n) != '\''
  {
  }

  lemma UnsextetRange(c: char)
    ensures Unsextet(c).Some? ==> Unsextet(c).value < 64
  {
  }

  function EncodeBase64(b: Bytes): string
  {
    if |b| == 0 then ""
    else if |b| == 1 then
      [Sextet(b[0] as int / 4), Sextet(b[0] as int % 4 * 16), '=', '=']
    else if |b| == 2 then
      [Sextet(b[0] as int / 4), Sextet(b[0] as int % 4 * 16 + b[1] as int / 16), Sextet(b[1] as int % 16 * 4), '=']
    else
      [Sextet(b[0] as int / 4), Sextet(b[0] as int % 4 * 16 + b[1] as int / 16),
       Sextet(b[1] as int % 16 * 4 + b[2] as int / 64), Sextet(b[2] as int % 64)] + EncodeBase64(b[3..])
  }

  /** The decoder skips line ends. */
  function Unfold(s: string): string
  {
    if s == "" then ""
    else if s[0] == '\r' || s[0] == '\n' then Unfold(s[1..])
    else [s[0]] + Unfold(s[1..])
  }

  function First(a: nat, b: nat): byte
    requires a < 64 && b < 64
  {
    (a * 4 + b / 16) as byte
  }

  function Second(b: nat, c: nat): byte
    requires b < 64 && c < 64
  {
    (b % 16 * 16 + c / 4) as byte
  }

  function Third(c: nat, d: nat): byte
    requires c < 64 && d < 64
  {
    (c % 4 * 64 + d) as byte
  }

  /** Quanta of four characters, padding only in the last; unused low bits are ignored. */
  function DecodeQuanta(s: string): Option<Bytes>
  {
    if s == "" then Some([])
    else if |s| < 4 then None
    else
      var a, b, c, d := Unsextet(s[0]), Unsextet(s[1]), Unsextet(s[2]), Unsextet(s[3]);
      UnsextetRange(s[0]); UnsextetRange(s[1]); UnsextetRange(s[2]); UnsextetRange(s[3]);
      if a.None? || b.None? then None
      else if s[3] == '=' then
        if |s| > 4 then None
        else if s[2] == '=' then Some([First(a.value, b.value)])
        else if c.None? then None
        else Some([First(a.value, b.value), Second(b.value, c.value)])
      else if c.None? || d.None? then None
      else
        var rest := DecodeQuanta(s[4..]);
        if rest.None? then None
        else Some([First(a.value, b.value), Second(b.value, c.value), Third(c.value, d.value)] + rest.value)
  }

  function DecodeBase64(s: string): Option<Bytes>
  {
    DecodeQuanta(Unfold(s))
  }

  lemma FirstBack(x: byte, low: nat)
    requires low < 16
    ensures x as int / 4 < 64 && x as int % 4 * 16 + low < 64 && First(x as int / 4, x as int % 4 * 16 + low) == x
  {
  }

  lemma SecondBack(x: byte, high: nat, low: nat)
    requires high < 4 && low < 4
    ensures high * 16 + x as int / 16 < 64 && x as int % 16 * 4 + low < 64
    ensures Second(high * 16 + x as int / 16, x as int % 16 * 4 + low) == x
  {
    var n := x as int;
    assert n == n / 16 * 16 + n % 16;
    assert (high * 16 + n / 16) % 16 == n / 16;
    assert (n % 16 * 4 + low) / 4 == n % 16;
  }

  lemma ThirdBack(x: byte, high: nat)
    requires high < 16
    ensures high * 4 + x as int / 64 < 64 && Third(high * 4 + x as int / 64, x as int % 64) == x
  {
  }

  lemma {:induction false} QuantaBack(b: Bytes)
    ensures DecodeQuanta(EncodeBase64(b)) == Some(b) && Unfold(EncodeBase64(b)) == EncodeBase64(b)
    decreases |b|
  {
    hide First;
    hide Second;
    hide Third;
    hide Sextet;
    hide Unsextet;
    if |b| == 0 {
    } else if |b| == 1 {
      assert b == [b[0]];
      FirstBack(b[0], 0);
      SextetBack(b[0] as int / 4);
      SextetBack(b[0] as int % 4 * 16);
      UnfoldFour(EncodeBase64(b));
    } else if |b| == 2 {
      assert b == [b[0], b[1]];
      FirstBack(b[0], b[1] as int / 16);
      SecondBack(b[1], b[0] as int % 4, 0);
      SextetBack(b[0] as int / 4);
      SextetBack(b[0] as int % 4 * 16 + b[1] as int / 16);
      SextetBack(b[1] as int % 16 * 4);
      UnfoldFour(EncodeBase64(b));
    } else {
      FirstBack(b[0], b[1] as int / 16);
      SecondBack(b[1], b[0] as int % 4, b[2] as int / 64);
      ThirdBack(b[2], b[1] as int % 16);
      SextetBack(b[0] as int / 4);
      SextetBack(b[0] as int % 4 * 16 + b[1] as int / 16);
      SextetBack(b[1] as int % 16 * 4 + b[2] as int / 64);
      SextetBack(b[2] as int % 64);
      QuantaBack(b[3..]);
      var s := EncodeBase64(b);
      assert s[4..] == EncodeBase64(b[3..]);
      UnfoldFour(s);
      assert b == [b[0], b[1], b[2]] + b[3..];
    }
  }

  lemma UnfoldFour(s: string)
    requires |s| >= 4 && forall i :: 0 <= i < 4 ==> s[i] != '\n' && s[i] != '\r'
    requires Unfold(s[4..]) == s[4..]
    ensures Unfold(s) == s
  {
    assert s[1..][1..] == s[2..] && s[2..][1..] == s[3..] && s[3..][1..] == s[4..];
    assert Unfold(s[3..]) == [s[3]] + Unfold(s[4..]) == s[3..];
    assert Unfold(s[2..]) == [s[2]] + Unfold(s[3..]) == s[2..];
    assert Unfold(s[1..]) == [s[1]] + Unfold(s[2..]) == s[1..];
  }

  /** Line ends anywhere in the text make no difference to what it decodes to. */
  lemma {:induction false} LineEndsAreSkipped(a: string, c: char, b: string)
    requires c == '\r' || c == '\n'
    ensures DecodeBase64(a + [c] + b) == DecodeBase64(a + b)
  {
    hide DecodeQuanta;
    UnfoldConcat(a, [c] + b);
    UnfoldConcat(a, b);
    UnfoldConcat([c], b);
    assert a + [c] + b == a + ([c] + b);
  }

  lemma {:induction false} UnfoldConcat(a: string, b: string)
    ensures Unfold(a + b) == Unfold(a) + Unfold(b)
  {
    if a == "" {
      assert a + b == b;
    } else {
      assert (a + b)[1..] == a[1..] + b;
      UnfoldConcat(a[1..], b);
    }
  }

  /** Bytes that went into a stored row come out of it. */
  lemma Base64RoundTrip(b: Bytes)
    ensures DecodeBase64(EncodeBase64(b)) == Some(b)
  {
    QuantaBack(b);
  }

  /** The test vectors of section 10 of RFC 4648. */
  lemma Base64Vectors()
    ensures EncodeBase64([0x66]) == "Zg==" && EncodeBase64([0x66, 0x6f]) == "Zm8=" && EncodeBase64([0x66, 0x6f, 0x6f]) == "Zm9v"
    ensures EncodeBase64([0x66, 0x6f, 0x6f, 0x62, 0x61, 0x72]) == "Zm9vYmFy"
  {
    assert EncodeBase64([0x66, 0x6f, 0x6f]) == "Zm9v";
    assert EncodeBase64([0x62, 0x61, 0x72]) == "YmFy";
    assert [0x66, 0x6f, 0x6f, 0x62, 0x61, 0x72][3..] == [0x62, 0x61, 0x72];
  }

  // ---- Hexadecimal ----

  function HexDigit(n: nat): char
    requires n < 16
  {
    if n < 10 then CharAt('0', n) else CharAt('a', n - 10)
  }

  function HexValue(c: char): Option<nat>
  {
    if '0' <= c <= '9' then Some(c as int - '0' as int)
    else if 'a' <= c <= 'f' then Some(10 + c as int - 'a' as int)
    else if 'A' <= c <= 'F' then Some(10 + c as int - 'A' as int)
    else None
  }

  function EncodeHex(b: Bytes): string
  {
    if b == [] then "" else [HexDigit(b[0] as int / 16), HexDigit(b[0] as int % 16)] + EncodeHex(b[1..])
  }

  function DecodeHex(s: string): Option<Bytes>
  {
    if s == "" then Some([])
    else if |s| == 1 then None
    else
      var h, l, rest := HexValue(s[0]), HexValue(s[1]), DecodeHex(s[2..]);
      if h.None? || l.None? || rest.None? then None
      else Some([(h.value * 16 + l.value) as byte] + rest.value)
  }

  lemma {:induction false} HexRoundTrip(b: Bytes)
    ensures DecodeHex(EncodeHex(b)) == Some(b)
    ensures forall i :: 0 <= i < |EncodeHex(b)| ==> EncodeHex(b)[i] != '\''
  {
    if b != [] {
      HexRoundTrip(b[1..]);
      var s := EncodeHex(b);
      assert s[2..] == EncodeHex(b[1..]);
      assert b == [b[0]] + b[1..];
    }
  }

  lemma HexVectors()
    ensures EncodeHex([0x66, 0x6f]) == "666f" && EncodeHex([0xb1, 0x0d]) == "b10d"
  {
    assert [0x66, 0x6f][1..] == [0x6f] && [0xb1, 0x0d][1..] == [0x0d];
  }
}
