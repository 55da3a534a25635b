/** UTF-8 from the other side: the texts the model accepts are exactly the
    encodings of sequences of Unicode scalar values. */
module Unicode {
  import opened Wire
  import opened Bincode

  /** A code point that is not a surrogate. */
  type Scalar = c: int | 0 <= c < 0xD800 || 0xE000 <= c <= 0x10_FFFF

  function EncodeScalar(c: Scalar): Bytes {
    if c < 0x80 then [c]
    else if c < 0x800 then [0xC0 + c / 0x40, 0x80 + c % 0x40]
    else if c < 0x1_0000 then [0xE0 + c / 0x1000, 0x80 + c / 0x40 % 0x40, 0x80 + c % 0x40]
    else [0xF0 + c / 0x4_0000, 0x80 + c / 0x1000 % 0x40, 0x80 + c / 0x40 % 0x40, 0x80 + c % 0x40]
  }

  function EncodeScalars(cs: seq<Scalar>): Bytes {
    if cs == [] then [] else EncodeScalar(cs[0]) + EncodeScalars(cs[1..])
  }

  /** The lead byte of an encoding tells its length, the second its range. */
  lemma LeadByte(c: Scalar)
    ensures c < 0x80 ==> EncodeScalar(c)[0] <= 0x7F
    ensures 0x80 <= c < 0x800 ==> 0xC2 <= EncodeScalar(c)[0] <= 0xDF
    ensures 0x800 <= c < 0x1_0000 ==>
              var e := EncodeScalar(c);
              && 0xE0 <= e[0] <= 0xEF && (e[0] == 0xE0 ==> e[1] >= 0xA0) && (e[0] == 0xED ==> e[1] <= 0x9F)
    ensures 0x1_0000 <= c ==>
              var e := EncodeScalar(c);
              && 0xF0 <= e[0] <= 0xF4 && (e[0] == 0xF0 ==> e[1] >= 0x90) && (e[0] == 0xF4 ==> e[1] <= 0x8F)
  {
  }

  /** One encoded scalar in front of well-formed text is well-formed. */
  lemma ScalarIsUtf8(c: Scalar, rest: Bytes)
    requires Utf8(rest)
    ensures Utf8(EncodeScalar(c) + rest)
  {
    LeadByte(c);
    var head := EncodeScalar(c);
    assert (head + rest)[|head|..] == rest;
  }

  lemma {:induction false} ScalarsAreUtf8(cs: seq<Scalar>)
    ensures Utf8(EncodeScalars(cs))
  {
    if cs == [] {
    } else {
      ScalarsAreUtf8(cs[1..]);
      ScalarIsUtf8(cs[0], EncodeScalars(cs[1..]));
    }
  }

  /** A number put together from six-bit digits comes apart into them. */
  lemma SixBits(high: nat, low: nat)
    requires low < 0x40
    ensures (high * 0x40 + low) / 0x40 == high && (high * 0x40 + low) % 0x40 == low
  {
  }

  lemma Digits(p: nat, q: nat, r: nat, u: nat)
    requires q < 0x40 && r < 0x40 && u < 0x40
    ensures var c := p * 0x4_0000 + q * 0x1000 + r * 0x40 + u;
            && c / 0x4_0000 == p && c / 0x1000 == p * 0x40 + q && c / 0x40 == p * 0x1000 + q * 0x40 + r
            && c / 0x1000 % 0x40 == q && c / 0x40 % 0x40 == r && c % 0x40 == u
  {
    SixBits(p * 0x1000 + q * 0x40 + r, u);
    SixBits(p * 0x40 + q, r);
    SixBits(p, q);
  }

  lemma TwoBytes(a: int, b: int) returns (c: Scalar)
    requires 0xC2 <= a <= 0xDF && 0x80 <= b <= 0xBF
    ensures EncodeScalar(c) == [a, b]
  {
    c := (a - 0xC0) * 0x40 + (b - 0x80);
  }

  lemma ThreeBytes(a: int, b: int, d: int) returns (c: Scalar)
    requires 0xE0 <= a <= 0xEF && 0x80 <= b <= 0xBF && 0x80 <= d <= 0xBF
    requires (a == 0xE0 ==> b >= 0xA0) && (a == 0xED ==> b <= 0x9F)
    ensures EncodeScalar(c) == [a, b, d]
  {
    SixBits((a - 0xE0) * 0x40 + (b - 0x80), d - 0x80);
    SixBits(a - 0xE0, b - 0x80);
    c := (a - 0xE0) * 0x1000 + (b - 0x80) * 0x40 + (d - 0x80);
    assert c / 0x1000 == c / 0x40 / 0x40;
  }

  lemma FourBytes(a: int, b: int, d: int, e: int) returns (c: Scalar)
    requires 0xF0 <= a <= 0xF4 && 0x80 <= b <= 0xBF && 0x80 <= d <= 0xBF && 0x80 <= e <= 0xBF
    requires (a == 0xF0 ==> b >= 0x90) && (a == 0xF4 ==> b <= 0x8F)
    ensures EncodeScalar(c) == [a, b, d, e]
  {
    Digits(a - 0xF0, b - 0x80, d - 0x80, e - 0x80);
    c := (a - 0xF0) * 0x4_0000 + (b - 0x80) * 0x1000 + (d - 0x80) * 0x40 + (e - 0x80);
  }

  /** Well-formed text starts with an encoded scalar, and goes on well-formed. */
  lemma FirstScalar(s: Bytes) returns (c: Scalar, rest: Bytes)
    requires Utf8(s) && s != []
    ensures s == EncodeScalar(c) + rest && Utf8(rest) && |rest| < |s|
  {
    if s[0] <= 0x7F {
      c, rest := s[0], s[1..];
    } else if s[0] <= 0xDF {
      c := TwoBytes(s[0], s[1]);
      rest := s[2..];
    } else if s[0] <= 0xEF {
      c := ThreeBytes(s[0], s[1], s[2]);
      rest := s[3..];
    } else {
      c := FourBytes(s[0], s[1], s[2], s[3]);
      rest := s[4..];
    }
  }

  lemma {:induction false} Utf8IsScalars(s: Bytes) returns (cs: seq<Scalar>)
    requires Utf8(s)
    ensures s == EncodeScalars(cs)
    decreases |s|
  {
    if s == [] {
      cs := [];
    } else {
      var c, rest := FirstScalar(s);
      var more := Utf8IsScalars(rest);
      cs := [c] + more;
      assert cs[1..] == more;
    }
  }

  /** A string is accepted if and only if it encodes scalar values. */
  lemma Utf8Iff(s: Bytes)
    ensures Utf8(s) <==> exists cs :: s == EncodeScalars(cs)
  {
    if Utf8(s) {
      var cs := Utf8IsScalars(s);
    }
    if cs :| s == EncodeScalars(cs) {
      ScalarsAreUtf8(cs);
    }
  }
}
