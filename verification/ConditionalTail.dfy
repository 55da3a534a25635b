/** A positional decode that may stop at any field boundary: the rule by
    which peers of different releases read each other's handshake.

    The theorems are about any list of lawful, non-empty field codecs, so
    they cover fields that are yet to be appended. */
module ConditionalTail {
  import opened Wire
  import opened Codecs

  datatype FieldRead<+V> = Absent | Present(value: V, offset: nat) | Corrupt

  /** Reads one field at `offset`; it is absent only if no byte is left. */
  function ReadField<V>(c: Codec<V>, buf: Bytes, offset: nat): FieldRead<V> {
    if offset >= |buf| then Absent
    else match c.decode(buf[offset..])
      case Malformed => Corrupt
      case Decoded(v, n) => Present(v, offset + n)
  }

  datatype TailRead<+V> = TailRead(values: seq<Option<V>>, offset: nat) | CorruptAt(field: nat)

  /** Reads `fields` from `offset` on; field number `first` comes first. */
  function ReadTail<V>(fields: seq<Codec<V>>, first: nat, buf: Bytes, offset: nat): (t: TailRead<V>)
    ensures t.TailRead? ==> |t.values| == |fields|
    decreases fields
  {
    if fields == [] then TailRead([], offset)
    else match ReadField(fields[0], buf, offset)
      case Corrupt => CorruptAt(first)
      case Absent => Prepend(None, ReadTail(fields[1..], first + 1, buf, offset))
      case Present(v, next) => Prepend(Some(v), ReadTail(fields[1..], first + 1, buf, next))
  }

  function Prepend<V>(v: Option<V>, t: TailRead<V>): (r: TailRead<V>)
    ensures r.TailRead? <==> t.TailRead?
    ensures t.TailRead? ==> |r.values| == |t.values| + 1
  {
    match t
    case CorruptAt(k) => CorruptAt(k)
    case TailRead(values, offset) => TailRead([v] + values, offset)
  }

  ghost predicate AllLawful<V(!new)>(fields: seq<Codec<V>>) {
    forall i :: 0 <= i < |fields| ==> Lawful(fields[i]) && NonEmpty(fields[i])
  }

  predicate AllMatch<V>(fields: seq<Codec<V>>, values: seq<V>) {
    |fields| == |values| && forall i :: 0 <= i < |fields| ==> fields[i].valid(values[i])
  }

  lemma FiveMatch<V>(fields: seq<Codec<V>>, v0: V, v1: V, v2: V, v3: V, v4: V)
    requires |fields| == 5
    requires fields[0].valid(v0) && fields[1].valid(v1) && fields[2].valid(v2)
    requires fields[3].valid(v3) && fields[4].valid(v4)
    ensures AllMatch(fields, [v0, v1, v2, v3, v4])
  {
  }

  /** The fields of a peer, one after another. */
  function EncodeTail<V>(fields: seq<Codec<V>>, values: seq<V>): Bytes
    requires |fields| == |values|
  {
    if fields == [] then [] else fields[0].encode(values[0]) + EncodeTail(fields[1..], values[1..])
  }

  function Nones<V>(n: nat): seq<Option<V>> {
    seq(n, _ => None)
  }

  function Somes<V>(values: seq<V>): seq<Option<V>> {
    seq(|values|, i requires 0 <= i < |values| => Some(values[i]))
  }

  // ---- reading what a peer wrote ----

  /** At the end of the buffer every field reads as absent. */
  lemma {:induction false} NothingLeft<V>(fields: seq<Codec<V>>, first: nat, buf: Bytes)
    ensures ReadTail(fields, first, buf, |buf|) == TailRead(Nones(|fields|), |buf|)
    decreases fields
  {
    if fields == [] {
    } else {
      NothingLeft(fields[1..], first + 1, buf);
      assert [None] + Nones<V>(|fields| - 1) == Nones<V>(|fields|);
    }
  }

  /** One field in front of a buffer is read exactly. */
  lemma FieldThere<V(!new)>(c: Codec<V>, v: V, pre: Bytes, more: Bytes)
    requires Lawful(c) && NonEmpty(c) && c.valid(v)
    ensures ReadField(c, pre + c.encode(v) + more, |pre|) == Present(v, |pre + c.encode(v)|)
  {
    assert Occupies(c, v);
    assert (pre + c.encode(v) + more)[|pre|..] == c.encode(v) + more;
    DecodeThen(c, v, more);
  }

  lemma Regroup(pre: Bytes, head: Bytes, tail: Bytes, more: Bytes)
    ensures pre + (head + tail) + more == pre + head + (tail + more) == (pre + head) + tail + more
    ensures pre + (head + tail) == pre + head + tail
  {
  }

  lemma TakePast(a: Bytes, b: Bytes, n: nat)
    requires n <= |b|
    ensures (a + b)[..|a| + n] == a + b[..n]
  {
  }

  lemma SomesCons<V>(values: seq<V>, rest: seq<Option<V>>)
    requires values != []
    ensures [Some(values[0])] + (Somes(values[1..]) + rest) == Somes(values) + rest
  {
  }

  lemma ReadsHead<V>(fields: seq<Codec<V>>, rest: seq<Codec<V>>, v: V, first: nat, buf: Bytes, offset: nat, next: nat)
    requires fields != [] && ReadField(fields[0], buf, offset) == Present(v, next)
    ensures ReadTail(fields + rest, first, buf, offset)
         == Prepend(Some(v), ReadTail(fields[1..] + rest, first + 1, buf, next))
  {
    assert (fields + rest)[1..] == fields[1..] + rest;
  }

  /** Reads the fields a peer sent, then `rest` from where they end. */
  lemma {:induction false} ReadsThrough<V(!new)>(fields: seq<Codec<V>>, values: seq<V>, rest: seq<Codec<V>>,
                                                 first: nat, pre: Bytes, more: Bytes)
    requires AllLawful(fields) && AllMatch(fields, values)
    ensures var mid := EncodeTail(fields, values);
            var buf := pre + mid + more;
            var t := ReadTail(rest, first + |fields|, buf, |pre + mid|);
            ReadTail(fields + rest, first, buf, |pre|)
            == if t.CorruptAt? then t else TailRead(Somes(values) + t.values, t.offset)
    decreases fields
  {
    var mid := EncodeTail(fields, values);
    var t := ReadTail(rest, first + |fields|, pre + mid + more, |pre + mid|);
    if fields == [] {
      assert fields + rest == rest && pre + mid == pre && Somes(values) == [];
      assert t.TailRead? ==> [] + t.values == t.values;
    } else {
      var head := fields[0].encode(values[0]);
      var tail := EncodeTail(fields[1..], values[1..]);
      Regroup(pre, head, tail, more);
      FieldThere(fields[0], values[0], pre, tail + more);
      ReadsThrough(fields[1..], values[1..], rest, first + 1, pre + head, more);
      ReadsHead(fields, rest, values[0], first, pre + mid + more, |pre|, |pre + head|);
      if t.TailRead? {
        SomesCons(values, t.values);
      }
    }
  }

  lemma TakeTail<T>(s: seq<T>, k: nat)
    requires 0 < k <= |s|
    ensures s[..k][0] == s[0] && s[..k][1..] == s[1..][..k - 1] && s[1..][k - 1..] == s[k..]
  {
  }

  lemma {:induction false} EncodeTailPrefix<V>(fields: seq<Codec<V>>, values: seq<V>, k: nat)
    requires |fields| == |values| && k <= |fields|
    ensures EncodeTail(fields, values)
         == EncodeTail(fields[..k], values[..k]) + EncodeTail(fields[k..], values[k..])
    decreases fields
  {
    if k == 0 {
      assert fields[k..] == fields && values[k..] == values;
    } else {
      EncodeTailPrefix(fields[1..], values[1..], k - 1);
      TakeTail(fields, k);
      TakeTail(values, k);
      Regroup(fields[0].encode(values[0]), EncodeTail(fields[1..][..k - 1], values[1..][..k - 1]),
              EncodeTail(fields[k..], values[k..]), []);
    }
  }

  /** Version skew: a peer that writes its first `i` fields and a reader that
      knows the first `j` agree on the first `min(i, j)`; the reader's other
      fields read as unknown and the peer's other bytes are ignored, as are
      any bytes `junk` after a tail that covers all the reader knows. */
  lemma VersionSkew<V(!new)>(fields: seq<Codec<V>>, values: seq<V>, i: nat, j: nat, pre: Bytes, junk: Bytes)
    requires AllLawful(fields) && AllMatch(fields, values)
    requires i <= |fields| && j <= |fields|
    requires j <= i || junk == []
    ensures var sent := EncodeTail(fields[..i], values[..i]);
            var k := if i < j then i else j;
            ReadTail(fields[..j], 0, pre + sent + junk, |pre|)
            == TailRead(Somes(values[..k]) + Nones(j - k), |pre| + |EncodeTail(fields[..k], values[..k])|)
  {
    var k := if i < j then i else j;
    var sent, common := EncodeTail(fields[..i], values[..i]), EncodeTail(fields[..k], values[..k]);
    EncodeTailPrefix(fields[..i], values[..i], k);
    assert fields[..i][..k] == fields[..k] && values[..i][..k] == values[..k];
    var extra := EncodeTail(fields[..i][k..], values[..i][k..]);
    assert pre + sent + junk == pre + common + (extra + junk);
    var rest := fields[..j][k..];
    assert fields[..j] == fields[..k] + rest;
    ReadsThrough(fields[..k], values[..k], rest, 0, pre, extra + junk);
    if i < j {
      assert extra + junk == [];
      assert pre + common + [] == pre + common;
      NothingLeft(rest, k, pre + common);
    } else {
      assert rest == [] && Nones<V>(0) == [];
    }
  }

  // ---- cuts ----

  /** What a full frame holds before field `i`. */
  function Part<V>(base: Bytes, fields: seq<Codec<V>>, values: seq<V>, i: nat): Bytes
    requires |fields| == |values| && i <= |fields|
  {
    base + EncodeTail(fields[..i], values[..i])
  }

  lemma PartGrows<V>(base: Bytes, fields: seq<Codec<V>>, values: seq<V>, i: nat)
    requires |fields| == |values| && i < |fields|
    ensures Part(base, fields, values, i + 1) == Part(base, fields, values, i) + fields[i].encode(values[i])
  {
    EncodeTailPrefix(fields[..i + 1], values[..i + 1], i);
    assert fields[..i + 1][..i] == fields[..i] && values[..i + 1][..i] == values[..i];
    assert fields[..i + 1][i..] == [fields[i]] && values[..i + 1][i..] == [values[i]];
    OneField(fields[i], values[i]);
    Regroup(base, EncodeTail(fields[..i], values[..i]), fields[i].encode(values[i]), []);
  }

  lemma OneField<V>(c: Codec<V>, v: V)
    ensures EncodeTail([c], [v]) == c.encode(v)
  {
    assert EncodeTail([c], [v]) == c.encode(v) + EncodeTail<V>([], []);
  }

  lemma PartStep<V(!new)>(base: Bytes, fields: seq<Codec<V>>, values: seq<V>, i: nat)
    requires AllLawful(fields) && AllMatch(fields, values) && i < |fields|
    ensures |Part(base, fields, values, i + 1)|
         == |Part(base, fields, values, i)| + |fields[i].encode(values[i])|
    ensures |Part(base, fields, values, i)| < |Part(base, fields, values, i + 1)|
  {
    PartGrows(base, fields, values, i);
    assert Occupies(fields[i], values[i]);
  }

  lemma ReadsPart<V(!new)>(base: Bytes, fields: seq<Codec<V>>, values: seq<V>, i: nat)
    requires AllLawful(fields) && AllMatch(fields, values) && i <= |fields|
    ensures var part := Part(base, fields, values, i);
            ReadTail(fields, 0, part, |base|) == TailRead(Somes(values[..i]) + Nones(|fields| - i), |part|)
  {
    var sent := EncodeTail(fields[..i], values[..i]);
    ReadsThrough(fields[..i], values[..i], fields[i..], 0, base, []);
    assert fields == fields[..i] + fields[i..];
    assert base + sent + [] == base + sent;
    NothingLeft(fields[i..], i, base + sent);
  }

  lemma PartIsPrefix<V>(base: Bytes, fields: seq<Codec<V>>, values: seq<V>, i: nat)
    requires |fields| == |values| && i <= |fields|
    ensures var full, part := base + EncodeTail(fields, values), Part(base, fields, values, i);
            |part| <= |full| && full[..|part|] == part
  {
    EncodeTailPrefix(fields, values, i);
    Regroup(base, EncodeTail(fields[..i], values[..i]), EncodeTail(fields[i..], values[i..]), []);
  }

  /** A cut at a boundary reads as the fields before it and unknowns. */
  lemma CutAtBoundary<V(!new)>(base: Bytes, fields: seq<Codec<V>>, values: seq<V>, i: nat)
    requires AllLawful(fields) && AllMatch(fields, values) && i <= |fields|
    ensures var full := base + EncodeTail(fields, values);
            var k := |Part(base, fields, values, i)|;
            && k <= |full|
            && ReadTail(fields, 0, full[..k], |base|) == TailRead(Somes(values[..i]) + Nones(|fields| - i), k)
  {
    PartIsPrefix(base, fields, values, i);
    ReadsPart(base, fields, values, i);
  }

  /** A cut inside a field is an error that names that field. */
  lemma CutInsideField<V(!new)>(base: Bytes, fields: seq<Codec<V>>, values: seq<V>, i: nat, k: nat)
    requires AllLawful(fields) && AllMatch(fields, values) && i < |fields|
    requires |Part(base, fields, values, i)| < k < |Part(base, fields, values, i + 1)|
    ensures var full := base + EncodeTail(fields, values);
            && k <= |full|
            && ReadTail(fields, 0, full[..k], |base|) == CorruptAt(i)
  {
    PartStep(base, fields, values, i);
    var n := k - |Part(base, fields, values, i)|;
    CutBytes(base, fields, values, i, n);
    ReadsUpTo(base, fields, values, i, n);
  }

  /** The bytes before a cut `n` bytes into field `i`. */
  lemma CutBytes<V>(base: Bytes, fields: seq<Codec<V>>, values: seq<V>, i: nat, n: nat)
    requires |fields| == |values| && i < |fields| && n <= |fields[i].encode(values[i])|
    ensures var full := base + EncodeTail(fields, values);
            var k := |Part(base, fields, values, i)| + n;
            && k <= |full|
            && full[..k] == base + EncodeTail(fields[..i], values[..i]) + fields[i].encode(values[i])[..n]
  {
    var sent, after := EncodeTail(fields[..i], values[..i]), EncodeTail(fields[i..], values[i..]);
    EncodeTailPrefix(fields, values, i);
    FirstFieldCut(fields[i..], values[i..], n);
    assert base + (sent + after) == (base + sent) + after;
    TakePast(base + sent, after, n);
  }

  lemma FirstFieldCut<V>(fields: seq<Codec<V>>, values: seq<V>, n: nat)
    requires |fields| == |values| && fields != [] && n <= |fields[0].encode(values[0])|
    ensures n <= |EncodeTail(fields, values)|
    ensures EncodeTail(fields, values)[..n] == fields[0].encode(values[0])[..n]
  {
  }

  lemma ReadsUpTo<V(!new)>(base: Bytes, fields: seq<Codec<V>>, values: seq<V>, i: nat, n: nat)
    requires AllLawful(fields) && AllMatch(fields, values) && i < |fields|
    requires 0 < n < |fields[i].encode(values[i])|
    ensures var sent := EncodeTail(fields[..i], values[..i]);
            ReadTail(fields, 0, base + sent + fields[i].encode(values[i])[..n], |base|) == CorruptAt(i)
  {
    var sent := EncodeTail(fields[..i], values[..i]);
    ReadsThrough(fields[..i], values[..i], fields[i..], 0, base, fields[i].encode(values[i])[..n]);
    assert fields == fields[..i] + fields[i..];
    FieldCut(fields[i..], values[i], i, base + sent, n);
  }

  lemma FieldCut<V(!new)>(fields: seq<Codec<V>>, v: V, first: nat, pre: Bytes, n: nat)
    requires fields != [] && Lawful(fields[0]) && fields[0].valid(v) && 0 < n < |fields[0].encode(v)|
    ensures ReadTail(fields, first, pre + fields[0].encode(v)[..n], |pre|) == CorruptAt(first)
  {
    var part := fields[0].encode(v)[..n];
    assert (pre + part)[|pre|..] == part;
    CutIsMalformed(fields[0], v, n);
  }

  /** Every cut in the tail is at a boundary or inside exactly one field. */
  lemma {:induction false} CutIsSomewhere<V(!new)>(base: Bytes, fields: seq<Codec<V>>, values: seq<V>, n: nat, k: nat)
    returns (i: nat)
    requires AllLawful(fields) && AllMatch(fields, values) && n <= |fields|
    requires |base| <= k <= |Part(base, fields, values, n)|
    ensures i <= n
    ensures k == |Part(base, fields, values, i)|
            || (i < n && |Part(base, fields, values, i)| < k < |Part(base, fields, values, i + 1)|)
    decreases n
  {
    if n == 0 || k == |Part(base, fields, values, n)| {
      i := n;
    } else if k > |Part(base, fields, values, n - 1)| {
      i := n - 1;
    } else {
      i := CutIsSomewhere(base, fields, values, n - 1, k);
    }
  }

  // ---- whole frames ----

  datatype FrameResult<+B, +V> =
    | Read(base: B, values: seq<Option<V>>)
    | BadBase
    | BadField(field: nat)

  /** Decodes a frame: the base, then as much of the tail as is there. */
  function ReadFrameWith<B, V>(bc: Codec<B>, fields: seq<Codec<V>>, buf: Bytes): (r: FrameResult<B, V>)
    ensures r.Read? ==> |r.values| == |fields|
  {
    match bc.decode(buf)
    case Malformed => BadBase
    case Decoded(b, n) =>
      match ReadTail(fields, 0, buf, n)
      case CorruptAt(i) => BadField(i)
      case TailRead(values, _) => Read(b, values)
  }

  /** A frame carrying the base and the first `i` tail fields. */
  function FrameOf<B, V>(bc: Codec<B>, fields: seq<Codec<V>>, b: B, values: seq<V>, i: nat): Bytes
    requires |fields| == |values| && i <= |fields|
  {
    Part(bc.encode(b), fields, values, i)
  }

  ghost predicate Writable<B(!new), V(!new)>(bc: Codec<B>, fields: seq<Codec<V>>, b: B, values: seq<V>) {
    Lawful(bc) && bc.valid(b) && AllLawful(fields) && AllMatch(fields, values)
  }

  function Min(i: nat, j: nat): nat {
    if i < j then i else j
  }

  /** Version skew on whole frames, for any base codec and any field list. */
  lemma FrameVersionSkew<B(!new), V(!new)>(bc: Codec<B>, fields: seq<Codec<V>>, b: B, values: seq<V>,
                                           i: nat, j: nat, junk: Bytes)
    requires Writable(bc, fields, b, values)
    requires i <= |fields| && j <= |fields| && (j <= i || junk == [])
    ensures ReadFrameWith(bc, fields[..j], FrameOf(bc, fields, b, values, i) + junk)
         == Read(b, Somes(values[..Min(i, j)]) + Nones(j - Min(i, j)))
  {
    var base, sent := bc.encode(b), EncodeTail(fields[..i], values[..i]);
    assert base + sent + junk == base + (sent + junk);
    DecodeThen(bc, b, sent + junk);
    VersionSkew(fields, values, i, j, base, junk);
  }

  /** A frame of the whole base and tail. */
  function WholeFrame<B, V>(bc: Codec<B>, fields: seq<Codec<V>>, b: B, values: seq<V>): Bytes
    requires |fields| == |values|
  {
    bc.encode(b) + EncodeTail(fields, values)
  }

  lemma WholeIsFrameOf<B, V>(bc: Codec<B>, fields: seq<Codec<V>>, b: B, values: seq<V>)
    requires |fields| == |values|
    ensures FrameOf(bc, fields, b, values, |fields|) == WholeFrame(bc, fields, b, values)
  {
    assert fields[..|fields|] == fields && values[..|values|] == values;
  }

  lemma FrameWithoutTail<B, V>(bc: Codec<B>, fields: seq<Codec<V>>, b: B, values: seq<V>)
    requires |fields| == |values|
    ensures FrameOf(bc, fields, b, values, 0) + [] == bc.encode(b)
  {
  }

  /** A reader that knows every field, and a peer that sent the first `i`. */
  lemma ReadsOlderPeer<B(!new), V(!new)>(bc: Codec<B>, fields: seq<Codec<V>>, b: B, values: seq<V>,
                                         i: nat, junk: Bytes)
    requires Writable(bc, fields, b, values) && i <= |fields| && (i == |fields| || junk == [])
    ensures ReadFrameWith(bc, fields, FrameOf(bc, fields, b, values, i) + junk)
         == Read(b, Somes(values[..i]) + Nones(|fields| - i))
  {
    FrameVersionSkew(bc, fields, b, values, i, |fields|, junk);
    assert fields[..|fields|] == fields;
  }

  /** A reader that knows the first `j` fields, and a peer that sent all. */
  lemma ReadsNewerPeer<B(!new), V(!new)>(bc: Codec<B>, fields: seq<Codec<V>>, b: B, values: seq<V>, j: nat)
    requires Writable(bc, fields, b, values) && j <= |fields|
    ensures ReadFrameWith(bc, fields[..j], WholeFrame(bc, fields, b, values)) == Read(b, Somes(values[..j]))
  {
    FrameVersionSkew(bc, fields, b, values, |fields|, j, []);
    WholeIsFrameOf(bc, fields, b, values);
    assert WholeFrame(bc, fields, b, values) + [] == WholeFrame(bc, fields, b, values);
    assert Somes(values[..j]) + Nones(0) == Somes(values[..j]);
  }

  /** A cut inside the base fails as such. */
  lemma BaseCut<B(!new), V(!new)>(bc: Codec<B>, fields: seq<Codec<V>>, b: B, values: seq<V>, k: nat)
    requires Writable(bc, fields, b, values) && k < |bc.encode(b)|
    ensures ReadFrameWith(bc, fields, WholeFrame(bc, fields, b, values)[..k]) == BadBase
  {
    CutIsMalformed(bc, b, k);
    assert WholeFrame(bc, fields, b, values)[..k] == bc.encode(b)[..k];
  }

  /** Every strict prefix of a full frame falls under exactly one case: it is
      cut inside the base; at the boundary before field `i`, and then it
      reads as the first `i` fields and unknowns; or inside field `i`, and
      then it is an error that names `i`. */
  lemma FrameTruncation<B(!new), V(!new)>(bc: Codec<B>, fields: seq<Codec<V>>, b: B, values: seq<V>, k: nat)
    returns (i: nat)
    requires Writable(bc, fields, b, values)
    requires k <= |WholeFrame(bc, fields, b, values)|
    ensures i <= |fields|
    ensures var r := ReadFrameWith(bc, fields, WholeFrame(bc, fields, b, values)[..k]);
            if k < |bc.encode(b)| then r == BadBase
            else if k == |FrameOf(bc, fields, b, values, i)| then
              r == Read(b, Somes(values[..i]) + Nones(|fields| - i))
            else
              && i < |fields| && r == BadField(i)
              && |FrameOf(bc, fields, b, values, i)| < k < |FrameOf(bc, fields, b, values, i + 1)|
  {
    var base, tail := bc.encode(b), EncodeTail(fields, values);
    if k < |base| {
      BaseCut(bc, fields, b, values, k);
      i := 0;
    } else {
      assert fields[..|fields|] == fields && values[..|values|] == values;
      i := CutIsSomewhere(base, fields, values, |fields|, k);
      TakePast(base, tail, k - |base|);
      DecodeThen(bc, b, tail[..k - |base|]);
      if k == |Part(base, fields, values, i)| {
        CutAtBoundary(base, fields, values, i);
      } else {
        CutInsideField(base, fields, values, i, k);
      }
    }
  }

  /** Boundaries are in field order, so the case a cut falls under is unique. */
  lemma {:induction false} BoundariesAscend<B(!new), V(!new)>(bc: Codec<B>, fields: seq<Codec<V>>, b: B,
                                                              values: seq<V>, i: nat, j: nat)
    requires Writable(bc, fields, b, values) && i < j <= |fields|
    ensures |bc.encode(b)| <= |FrameOf(bc, fields, b, values, i)| < |FrameOf(bc, fields, b, values, j)|
    decreases j
  {
    PartStep(bc.encode(b), fields, values, j - 1);
    if i < j - 1 {
      BoundariesAscend(bc, fields, b, values, i, j - 1);
    }
  }

  /** Cutting after `k` bytes cuts between two fields, at or after the base. */
  ghost predicate AtBoundary<B, V>(bc: Codec<B>, fields: seq<Codec<V>>, b: B, values: seq<V>, k: nat)
    requires |fields| == |values|
  {
    exists i :: 0 <= i <= |fields| && k == |FrameOf(bc, fields, b, values, i)|
  }

  /** A strict prefix decodes if and only if it ends at a boundary. */
  lemma TruncationIff<B(!new), V(!new)>(bc: Codec<B>, fields: seq<Codec<V>>, b: B, values: seq<V>, k: nat)
    requires Writable(bc, fields, b, values)
    requires k <= |WholeFrame(bc, fields, b, values)|
    ensures ReadFrameWith(bc, fields, WholeFrame(bc, fields, b, values)[..k]).Read?
            <==> AtBoundary(bc, fields, b, values, k)
  {
    var i := FrameTruncation(bc, fields, b, values, k);
    if j :| 0 <= j <= |fields| && k == |FrameOf(bc, fields, b, values, j)| {
      if j < i {
        BoundariesAscend(bc, fields, b, values, j, i);
      } else if i + 1 < j {
        BoundariesAscend(bc, fields, b, values, i + 1, j);
      }
    }
  }

  // ---- arbitrary buffers ----

  /** On any buffer at all: the fields read are a prefix of those known, each
      read from exactly the bytes between two offsets that never fall and
      never pass the end; the rest are absent, and then no byte is left. */
  lemma {:induction false} TailIsSound<V(!new)>(fields: seq<Codec<V>>, first: nat, buf: Bytes, offset: nat)
    returns (n: nat)
    requires AllLawful(fields) && offset <= |buf|
    ensures var t := ReadTail(fields, first, buf, offset);
            t.TailRead? ==>
              && offset <= t.offset <= |buf|
              && n <= |fields|
              && (forall i :: 0 <= i < |fields| ==> (t.values[i].Some? <==> i < n))
              && (forall i :: 0 <= i < n ==> fields[i].valid(t.values[i].value))
              && (n < |fields| ==> t.offset == |buf|)
    decreases fields
  {
    n := 0;
    if fields == [] {
    } else {
      var r := ReadField(fields[0], buf, offset);
      if r.Absent? {
        NothingLeft(fields, first, buf);
      } else if r.Present? {
        assert Reads(fields[0], buf[offset..], []);
        var m := TailIsSound(fields[1..], first + 1, buf, r.offset);
        n := m + 1;
      }
    }
  }

  lemma FrameIsSound<B(!new), V(!new)>(bc: Codec<B>, fields: seq<Codec<V>>, buf: Bytes) returns (n: nat)
    requires Lawful(bc) && AllLawful(fields)
    ensures var r := ReadFrameWith(bc, fields, buf);
            r.Read? ==>
              && bc.valid(r.base) && n <= |fields|
              && forall i :: 0 <= i < |fields| ==>
                   if i < n then r.values[i].Some? && fields[i].valid(r.values[i].value) else r.values[i].None?
  {
    var d := bc.decode(buf);
    n := 0;
    if d.Decoded? {
      assert Reads(bc, buf, []);
      n := TailIsSound(fields, 0, buf, d.used);
    }
  }

  // ---- the decode as the source has it ----

  method DecodeTailField<V>(c: Codec<V>, buf: Bytes, offset: nat) returns (r: FieldRead<V>, next: nat)
    ensures r == ReadField(c, buf, offset)
    ensures next == if r.Present? then r.offset else offset
  {
    next := offset;
    if offset >= |buf| {
      return Absent, next;
    }
    var d := c.decode(buf[offset..]);
    match d
    case Malformed => r := Corrupt;
    case Decoded(v, consumed) =>
      next := offset + consumed;
      r := Present(v, next);
  }

  /** Reads a tail of five fields, each from where the one before it ended. */
  method DecodeFiveFields<V>(fields: seq<Codec<V>>, buf: Bytes, start: nat) returns (t: TailRead<V>)
    requires |fields| == 5
    ensures t == ReadTail(fields, 0, buf, start)
  {
    var offset := start;
    var f0, f1, f2, f3, f4;
    assert fields[0..] == fields && fields[5..] == [];
    TailStep(fields, 0, buf, offset);
    f0, offset := DecodeTailField(fields[0], buf, offset);
    if f0.Corrupt? { return CorruptAt(0); }
    TailStep(fields, 1, buf, offset);
    f1, offset := DecodeTailField(fields[1], buf, offset);
    if f1.Corrupt? { return CorruptAt(1); }
    TailStep(fields, 2, buf, offset);
    f2, offset := DecodeTailField(fields[2], buf, offset);
    if f2.Corrupt? { return CorruptAt(2); }
    TailStep(fields, 3, buf, offset);
    f3, offset := DecodeTailField(fields[3], buf, offset);
    if f3.Corrupt? { return CorruptAt(3); }
    TailStep(fields, 4, buf, offset);
    f4, offset := DecodeTailField(fields[4], buf, offset);
    if f4.Corrupt? { return CorruptAt(4); }
    t := Prepend(Reading(f4), TailRead([], offset));
    t := Prepend(Reading(f0), Prepend(Reading(f1), Prepend(Reading(f2), Prepend(Reading(f3), t))));
  }

  function Reading<V>(r: FieldRead<V>): Option<V> {
    if r.Present? then Some(r.value) else None
  }

  lemma TailStep<V>(fields: seq<Codec<V>>, k: nat, buf: Bytes, offset: nat)
    requires k < |fields|
    ensures var r := ReadField(fields[k], buf, offset);
            ReadTail(fields[k..], k, buf, offset)
            == if r.Corrupt? then CorruptAt(k)
               else Prepend(Reading(r), ReadTail(fields[k + 1..], k + 1, buf,
                                                 if r.Present? then r.offset else offset))
  {
    assert fields[k..][1..] == fields[k + 1..];
  }
}
