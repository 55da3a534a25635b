/** Positional codecs in the manner of bincode's `standard()` configuration.

    A codec's decoder reads a value from the front of a buffer and reports
    how many bytes it used.  The laws below are what lets values be laid end
    to end without separators. */
module Codecs {
  import opened Wire

  datatype Decoded<+T> = Decoded(value: T, used: nat) | Malformed

  /** `valid` says which values the type the codec stands for has. */
  datatype Codec<!T> = Codec(valid: T -> bool, encode: T -> Bytes, decode: Bytes -> Decoded<T>)

  /** Decoding undoes encoding and uses exactly the encoded bytes. */
  ghost predicate RoundTrips<T>(c: Codec<T>, v: T) {
    c.valid(v) ==> c.decode(c.encode(v)) == Decoded(v, |c.encode(v)|)
  }

  /** A decoded value is of the type, came from within the buffer, and is
      not affected by bytes after it. */
  ghost predicate Reads<T>(c: Codec<T>, b: Bytes, more: Bytes) {
    var d := c.decode(b);
    d.Decoded? ==> d.used <= |b| && c.valid(d.value) && c.decode(b + more) == d
  }

  ghost predicate Lawful<T(!new)>(c: Codec<T>) {
    && (forall v :: RoundTrips(c, v))
    && (forall b, more :: Reads(c, b, more))
  }

  predicate Occupies<T>(c: Codec<T>, v: T) {
    c.valid(v) ==> c.encode(v) != []
  }

  ghost predicate NonEmpty<T(!new)>(c: Codec<T>) {
    forall v :: Occupies(c, v)
  }

  /** A value is read back whatever follows it. */
  lemma DecodeThen<T(!new)>(c: Codec<T>, v: T, more: Bytes)
    requires Lawful(c) && c.valid(v)
    ensures c.decode(c.encode(v) + more) == Decoded(v, |c.encode(v)|)
  {
    assert RoundTrips(c, v);
    assert Reads(c, c.encode(v), more);
  }

  /** Encodings are prefix-free: no cut inside one decodes to anything. */
  lemma CutIsMalformed<T(!new)>(c: Codec<T>, v: T, k: nat)
    requires Lawful(c) && c.valid(v) && k < |c.encode(v)|
    ensures c.decode(c.encode(v)[..k]).Malformed?
  {
    var e := c.encode(v);
    assert RoundTrips(c, v) && Reads(c, e[..k], e[k..]);
    assert e[..k] + e[k..] == e;
  }

  // ---- integers ----

  /** A variable-length unsigned integer of at most `width` bytes: below 251
      the value itself; then a marker and 2, 4 or 8 little-endian bytes.  The
      decoder accepts a marker wider than the value needs but not one wider
      than the type. */
  function EncodeVarInt(n: nat): Bytes {
    if n < 251 then [n]
    else if n < 0x1_0000 then [251] + LittleEndian(n, 2)
    else if n < 0x1_0000_0000 then [252] + LittleEndian(n, 4)
    else [253] + LittleEndian(n, 8)
  }

  function DecodeVarInt(width: nat, b: Bytes): Decoded<nat> {
    if b == [] then Malformed
    else if b[0] < 251 then Decoded(b[0], 1)
    else
      var n := if b[0] == 251 then 2 else if b[0] == 252 then 4 else 8;
      if b[0] > 253 || n > width || |b| < 1 + n then Malformed
      else Decoded(FromLittleEndian(b[1..1 + n]), 1 + n)
  }

  /** The bytes of an integer, least significant first behind its marker. */
  lemma VarIntBytes(n: nat)
    ensures n < 251 ==> EncodeVarInt(n) == [n]
    ensures 251 <= n < 0x1_0000 ==> EncodeVarInt(n) == [251, n % 0x100, n / 0x100]
    ensures 0x1_0000 <= n < 0x1_0000_0000 ==>
              EncodeVarInt(n) == [252, n % 0x100, n / 0x100 % 0x100, n / 0x1_0000 % 0x100, n / 0x100_0000]
    ensures 0x1_0000_0000 <= n < 0x1_0000_0000_0000_0000 ==>
              |EncodeVarInt(n)| == 9 && EncodeVarInt(n)[0] == 253 && FromLittleEndian(EncodeVarInt(n)[1..]) == n
  {
    Pow256Values();
    if 251 <= n < 0x1_0000 {
      TwoBytes(n);
    } else if 0x1_0000 <= n < 0x1_0000_0000 {
      FourBytes(n);
    } else if 0x1_0000_0000 <= n < 0x1_0000_0000_0000_0000 {
      assert EncodeVarInt(n)[1..] == LittleEndian(n, 8);
      LittleEndianRoundTrip(n, 8);
    }
  }

  lemma TwoBytes(n: nat)
    requires n < 0x1_0000
    ensures LittleEndian(n, 2) == [n % 0x100, n / 0x100]
  {
    assert LittleEndian(n / 0x100, 1) == [n / 0x100];
  }

  lemma FourBytes(n: nat)
    requires n < 0x1_0000_0000
    ensures LittleEndian(n, 4) == [n % 0x100, n / 0x100 % 0x100, n / 0x1_0000 % 0x100, n / 0x100_0000]
  {
    var high := n / 0x1_0000;
    assert n / 0x100 / 0x100 == high;
    TwoBytes(high);
    assert LittleEndian(n / 0x100, 3) == [n / 0x100 % 0x100] + LittleEndian(high, 2);
    assert high / 0x100 == n / 0x100_0000;
  }

  /** What a decoder of integers of `width` bytes makes of any buffer: markers
      beyond the known ones and wider than the type are malformed. */
  lemma VarIntReadings(width: nat, b: Bytes)
    requires width == 2 || width == 4 || width == 8
    ensures b == [] ==> DecodeVarInt(width, b).Malformed?
    ensures b != [] && b[0] < 251 ==> DecodeVarInt(width, b) == Decoded(b[0], 1)
    ensures b != [] && b[0] >= 251 ==>
              var n := if b[0] == 251 then 2 else if b[0] == 252 then 4 else 8;
              if b[0] <= 253 && n <= width && |b| > n
              then DecodeVarInt(width, b) == Decoded(FromLittleEndian(b[1..n + 1]), n + 1)
              else DecodeVarInt(width, b).Malformed?
  {
  }

  function VarInt(width: nat): Codec<nat> {
    Codec(n => n < Pow256(width), n => EncodeVarInt(n), b => DecodeVarInt(width, b))
  }

  lemma VarIntRoundTrips(width: nat, n: nat)
    requires width == 2 || width == 4 || width == 8
    ensures RoundTrips(VarInt(width), n) && Occupies(VarInt(width), n)
  {
    Pow256Values();
    if n < Pow256(width) {
      var e := EncodeVarInt(n);
      var k := |e| - 1;
      if n >= 251 {
        assert e[1..1 + k] == LittleEndian(n, k);
        LittleEndianRoundTrip(n, k);
      }
    }
  }

  lemma VarIntDecodes(width: nat, b: Bytes, more: Bytes)
    requires width == 2 || width == 4 || width == 8
    ensures Reads(VarInt(width), b, more)
  {
    Pow256Values();
    var d := DecodeVarInt(width, b);
    if d.Decoded? && b[0] >= 251 {
      assert (b + more)[1..d.used] == b[1..d.used];
    }
  }

  lemma VarIntLawful(width: nat)
    requires width == 2 || width == 4 || width == 8
    ensures Lawful(VarInt(width)) && NonEmpty(VarInt(width))
  {
    forall n
      ensures RoundTrips(VarInt(width), n) && Occupies(VarInt(width), n)
    {
      VarIntRoundTrips(width, n);
    }
    forall b, more
      ensures Reads(VarInt(width), b, more)
    {
      VarIntDecodes(width, b, more);
    }
  }

  /** Exactly `n` raw bytes. */
  function Raw(n: nat): Codec<Bytes> {
    Codec((v: Bytes) => |v| == n, (v: Bytes) => v,
          (b: Bytes) => if |b| < n then Malformed else Decoded(b[..n], n))
  }

  lemma RawLawful(n: nat)
    ensures Lawful(Raw(n))
    ensures n > 0 ==> NonEmpty(Raw(n))
  {
    forall v
      ensures RoundTrips(Raw(n), v)
    {
      assert v[..|v|] == v;
    }
    forall b: Bytes, more: Bytes
      ensures Reads(Raw(n), b, more)
    {
      assert |b| >= n ==> (b + more)[..n] == b[..n];
    }
  }

  // ---- composition ----

  /** One value after another. */
  function DecodePair<A, B>(a: Codec<A>, b: Codec<B>, s: Bytes): Decoded<(A, B)> {
    match a.decode(s)
    case Malformed => Malformed
    case Decoded(x, n) =>
      if n > |s| then Malformed
      else match b.decode(s[n..])
        case Malformed => Malformed
        case Decoded(y, m) => Decoded((x, y), n + m)
  }

  function Pair<A, B>(a: Codec<A>, b: Codec<B>): Codec<(A, B)> {
    Codec((p: (A, B)) => a.valid(p.0) && b.valid(p.1),
          (p: (A, B)) => a.encode(p.0) + b.encode(p.1),
          (s: Bytes) => DecodePair(a, b, s))
  }

  lemma PairLawful<A(!new), B(!new)>(a: Codec<A>, b: Codec<B>)
    requires Lawful(a) && Lawful(b)
    ensures Lawful(Pair(a, b))
    ensures NonEmpty(a) || NonEmpty(b) ==> NonEmpty(Pair(a, b))
  {
    var c := Pair(a, b);
    forall p
      ensures RoundTrips(c, p)
    {
      if c.valid(p) {
        var x, y := a.encode(p.0), b.encode(p.1);
        DecodeThen(a, p.0, y);
        assert RoundTrips(b, p.1);
        assert (x + y)[|x|..] == y;
      }
    }
    forall s, more
      ensures Reads(c, s, more)
    {
      assert Reads(a, s, more);
      if a.decode(s).Decoded? {
        var n := a.decode(s).used;
        assert Reads(b, s[n..], more);
        assert (s + more)[n..] == s[n..] + more;
      }
    }
    if NonEmpty(a) || NonEmpty(b) {
      forall p
        ensures Occupies(c, p)
      {
        assert NonEmpty(a) ==> Occupies(a, p.0);
        assert NonEmpty(b) ==> Occupies(b, p.1);
      }
    }
  }

  /** A type represented by another: `to` may refuse a representation, `from`
      gives the representation of a value of the type. */
  function DecodeAs<A, B>(c: Codec<A>, to: A -> Option<B>, s: Bytes): Decoded<B> {
    match c.decode(s)
    case Malformed => Malformed
    case Decoded(a, n) => match to(a) case None => Malformed case Some(v) => Decoded(v, n)
  }

  function As<A, B>(c: Codec<A>, to: A -> Option<B>, from: B -> Option<A>): Codec<B> {
    Codec((v: B) => from(v).Some? && c.valid(from(v).value),
          (v: B) => if from(v).Some? then c.encode(from(v).value) else [],
          (s: Bytes) => DecodeAs(c, to, s))
  }

  /** The values of the type are those with a valid representation. */
  lemma AsValid<A, B>(c: Codec<A>, to: A -> Option<B>, from: B -> Option<A>, v: B)
    ensures As(c, to, from).valid(v) <==> from(v).Some? && c.valid(from(v).value)
  {
  }

  ghost predicate Represents<A, B>(c: Codec<A>, to: A -> Option<B>, from: B -> Option<A>, v: B) {
    from(v).Some? && c.valid(from(v).value) ==> to(from(v).value) == Some(v)
  }

  predicate Represented<A, B>(c: Codec<A>, to: A -> Option<B>, from: B -> Option<A>, a: A) {
    c.valid(a) && to(a).Some? ==> from(to(a).value).Some? && c.valid(from(to(a).value).value)
  }

  lemma AsLawful<A(!new), B(!new)>(c: Codec<A>, to: A -> Option<B>, from: B -> Option<A>)
    requires Lawful(c)
    requires forall v :: Represents(c, to, from, v)
    requires forall a :: Represented(c, to, from, a)
    ensures Lawful(As(c, to, from))
    ensures NonEmpty(c) ==> NonEmpty(As(c, to, from))
  {
    var d := As(c, to, from);
    forall v
      ensures RoundTrips(d, v)
      ensures NonEmpty(c) ==> Occupies(d, v)
    {
      assert Represents(c, to, from, v);
      if from(v).Some? {
        assert RoundTrips(c, from(v).value);
        assert NonEmpty(c) ==> Occupies(c, from(v).value);
      }
    }
    forall s, more
      ensures Reads(d, s, more)
    {
      assert Reads(c, s, more);
      if c.decode(s).Decoded? {
        assert Represented(c, to, from, c.decode(s).value);
      }
    }
  }

  /** A one-byte tag 0 for `None`, or 1 and the value. */
  function DecodeOptional<A>(c: Codec<A>, s: Bytes): Decoded<Option<A>> {
    if s == [] then Malformed
    else if s[0] == 0 then Decoded(None, 1)
    else if s[0] == 1 then
      match c.decode(s[1..])
      case Malformed => Malformed
      case Decoded(a, n) => Decoded(Some(a), 1 + n)
    else Malformed
  }

  function Optional<A>(c: Codec<A>): Codec<Option<A>> {
    Codec((o: Option<A>) => o.Some? ==> c.valid(o.value),
          (o: Option<A>) => if o.None? then [0] else [1] + c.encode(o.value),
          (s: Bytes) => DecodeOptional(c, s))
  }

  lemma OptionalLawful<A(!new)>(c: Codec<A>)
    requires Lawful(c)
    ensures Lawful(Optional(c)) && NonEmpty(Optional(c))
  {
    var d := Optional(c);
    forall o
      ensures RoundTrips(d, o) && Occupies(d, o)
    {
      if o.Some? {
        assert RoundTrips(c, o.value);
        assert ([1] + c.encode(o.value))[1..] == c.encode(o.value);
      }
    }
    forall s: Bytes, more: Bytes
      ensures Reads(d, s, more)
    {
      if s != [] {
        assert Reads(c, s[1..], more);
        assert (s + more)[1..] == s[1..] + more;
      }
    }
  }

  datatype Either<+A, +B> = First(first: A) | Second(second: B)

  /** An enumeration of two variants with a value each: the variant index as
      a variable-length `u32`, then the value. */
  function DecodeEither<A, B>(a: Codec<A>, b: Codec<B>, s: Bytes): Decoded<Either<A, B>> {
    match DecodeVarInt(4, s)
    case Malformed => Malformed
    case Decoded(tag, n) =>
      if n > |s| then Malformed
      else if tag == 0 then
        match a.decode(s[n..])
        case Malformed => Malformed
        case Decoded(x, m) => Decoded(First(x), n + m)
      else if tag == 1 then
        match b.decode(s[n..])
        case Malformed => Malformed
        case Decoded(y, m) => Decoded(Second(y), n + m)
      else Malformed
  }

  function OneOf<A, B>(a: Codec<A>, b: Codec<B>): Codec<Either<A, B>> {
    Codec((e: Either<A, B>) => if e.First? then a.valid(e.first) else b.valid(e.second),
          (e: Either<A, B>) => if e.First? then [0] + a.encode(e.first) else [1] + b.encode(e.second),
          (s: Bytes) => DecodeEither(a, b, s))
  }

  lemma OneOfLawful<A(!new), B(!new)>(a: Codec<A>, b: Codec<B>)
    requires Lawful(a) && Lawful(b)
    ensures Lawful(OneOf(a, b)) && NonEmpty(OneOf(a, b))
  {
    var c := OneOf(a, b);
    forall e
      ensures RoundTrips(c, e) && Occupies(c, e)
    {
      if c.valid(e) {
        var body := if e.First? then a.encode(e.first) else b.encode(e.second);
        assert if e.First? then RoundTrips(a, e.first) else RoundTrips(b, e.second);
        assert c.encode(e)[1..] == body;
      }
    }
    forall s, more
      ensures Reads(c, s, more)
    {
      VarIntDecodes(4, s, more);
      assert VarInt(4).decode(s) == DecodeVarInt(4, s);
      assert VarInt(4).decode(s + more) == DecodeVarInt(4, s + more);
      if DecodeVarInt(4, s).Decoded? {
        var n := DecodeVarInt(4, s).used;
        assert Reads(a, s[n..], more);
        assert Reads(b, s[n..], more);
        assert (s + more)[n..] == s[n..] + more;
      }
    }
  }
}
