/** The collection codecs: lists, UTF-8 text, and ordered sets and maps. */
module Bincode {
  import opened Wire
  import opened Codecs

  // ---- lists ----

  predicate AllValid<A>(c: Codec<A>, vs: seq<A>) {
    forall i :: 0 <= i < |vs| ==> c.valid(vs[i])
  }

  function EncodeMany<A>(c: Codec<A>, vs: seq<A>): Bytes {
    if vs == [] then [] else c.encode(vs[0]) + EncodeMany(c, vs[1..])
  }

  function DecodeMany<A>(c: Codec<A>, n: nat, s: Bytes): Decoded<seq<A>> {
    if n == 0 then Decoded([], 0)
    else match c.decode(s)
      case Malformed => Malformed
      case Decoded(x, m) =>
        if m > |s| then Malformed
        else match DecodeMany(c, n - 1, s[m..])
          case Malformed => Malformed
          case Decoded(xs, k) => Decoded([x] + xs, m + k)
  }

  function DecodeList<A>(c: Codec<A>, s: Bytes): Decoded<seq<A>> {
    match DecodeVarInt(8, s)
    case Malformed => Malformed
    case Decoded(n, m) =>
      if m > |s| then Malformed
      else match DecodeMany(c, n, s[m..])
        case Malformed => Malformed
        case Decoded(vs, k) => Decoded(vs, m + k)
  }

  /** The number of elements as a variable-length `u64`, then the elements. */
  function List<A>(c: Codec<A>): Codec<seq<A>> {
    Codec((vs: seq<A>) => |vs| < Pow256(8) && AllValid(c, vs),
          (vs: seq<A>) => EncodeVarInt(|vs|) + EncodeMany(c, vs),
          (s: Bytes) => DecodeList(c, s))
  }

  lemma {:induction false} ManyRoundTrips<A(!new)>(c: Codec<A>, vs: seq<A>)
    requires Lawful(c) && AllValid(c, vs)
    ensures DecodeMany(c, |vs|, EncodeMany(c, vs)) == Decoded(vs, |EncodeMany(c, vs)|)
  {
    if vs == [] {
    } else {
      var head, tail := c.encode(vs[0]), EncodeMany(c, vs[1..]);
      DecodeThen(c, vs[0], tail);
      assert (head + tail)[|head|..] == tail;
      ManyRoundTrips(c, vs[1..]);
      assert [vs[0]] + vs[1..] == vs;
    }
  }

  lemma {:induction false} ManyReads<A(!new)>(c: Codec<A>, n: nat, s: Bytes, more: Bytes)
    requires Lawful(c)
    ensures var d := DecodeMany(c, n, s);
            d.Decoded? ==> d.used <= |s| && |d.value| == n && AllValid(c, d.value)
                           && DecodeMany(c, n, s + more) == d
  {
    if n > 0 && c.decode(s).Decoded? {
      assert Reads(c, s, more);
      var m := c.decode(s).used;
      assert (s + more)[m..] == s[m..] + more;
      ManyReads(c, n - 1, s[m..], more);
    }
  }

  lemma ListRoundTrips<A(!new)>(c: Codec<A>, vs: seq<A>)
    requires Lawful(c)
    ensures RoundTrips(List(c), vs) && Occupies(List(c), vs)
  {
    if List(c).valid(vs) {
      var head, tail := EncodeVarInt(|vs|), EncodeMany(c, vs);
      VarIntLawful(8);
      DecodeThen(VarInt(8), |vs|, tail);
      assert VarInt(8).decode(head + tail) == DecodeVarInt(8, head + tail);
      assert (head + tail)[|head|..] == tail;
      ManyRoundTrips(c, vs);
    }
  }

  lemma ListReads<A(!new)>(c: Codec<A>, s: Bytes, more: Bytes)
    requires Lawful(c)
    ensures Reads(List(c), s, more)
  {
    VarIntDecodes(8, s, more);
    assert VarInt(8).decode(s) == DecodeVarInt(8, s);
    assert VarInt(8).decode(s + more) == DecodeVarInt(8, s + more);
    if DecodeVarInt(8, s).Decoded? {
      var n, m := DecodeVarInt(8, s).value, DecodeVarInt(8, s).used;
      assert (s + more)[m..] == s[m..] + more;
      ManyReads(c, n, s[m..], more);
    }
  }

  lemma ListLawful<A(!new)>(c: Codec<A>)
    requires Lawful(c)
    ensures Lawful(List(c)) && NonEmpty(List(c))
  {
    forall vs
      ensures RoundTrips(List(c), vs) && Occupies(List(c), vs)
    {
      ListRoundTrips(c, vs);
    }
    forall s, more
      ensures Reads(List(c), s, more)
    {
      ListReads(c, s, more);
    }
  }

  // ---- text ----

  predicate Continuation(b: Byte) {
    0x80 <= b <= 0xBF
  }

  /** Well-formed UTF-8 (table 3-7 of the Unicode standard). */
  predicate Utf8(s: Bytes) {
    || s == []
    || (s[0] <= 0x7F && Utf8(s[1..]))
    || (|s| >= 2 && 0xC2 <= s[0] <= 0xDF && Continuation(s[1]) && Utf8(s[2..]))
    || (|s| >= 3 && 0xE0 <= s[0] <= 0xEF && Continuation(s[1]) && Continuation(s[2])
        && (s[0] == 0xE0 ==> s[1] >= 0xA0) && (s[0] == 0xED ==> s[1] <= 0x9F) && Utf8(s[3..]))
    || (|s| >= 4 && 0xF0 <= s[0] <= 0xF4 && Continuation(s[1]) && Continuation(s[2]) && Continuation(s[3])
        && (s[0] == 0xF0 ==> s[1] >= 0x90) && (s[0] == 0xF4 ==> s[1] <= 0x8F) && Utf8(s[4..]))
  }

  predicate IsText(b: Bytes) {
    |b| < Pow256(8) && Utf8(b)
  }

  function DecodeText(s: Bytes): Decoded<Bytes> {
    match DecodeVarInt(8, s)
    case Malformed => Malformed
    case Decoded(n, m) =>
      if m > |s| || n > |s| - m || !Utf8(s[m..m + n]) then Malformed
      else Decoded(s[m..m + n], m + n)
  }

  /** A string: its length in bytes, then its UTF-8 bytes. */
  function TextCodec(): Codec<Bytes> {
    Codec((b: Bytes) => IsText(b), (b: Bytes) => EncodeVarInt(|b|) + b, (s: Bytes) => DecodeText(s))
  }

  lemma TextRoundTrips(b: Bytes)
    ensures RoundTrips(TextCodec(), b) && Occupies(TextCodec(), b)
  {
    if IsText(b) {
      var head := EncodeVarInt(|b|);
      VarIntLawful(8);
      DecodeThen(VarInt(8), |b|, b);
      assert VarInt(8).decode(head + b) == DecodeVarInt(8, head + b);
      assert (head + b)[|head|..|head| + |b|] == b;
    }
  }

  lemma TextReads(s: Bytes, more: Bytes)
    ensures Reads(TextCodec(), s, more)
  {
    VarIntDecodes(8, s, more);
    assert VarInt(8).decode(s) == DecodeVarInt(8, s);
    assert VarInt(8).decode(s + more) == DecodeVarInt(8, s + more);
    if DecodeText(s).Decoded? {
      var n, m := DecodeVarInt(8, s).value, DecodeVarInt(8, s).used;
      assert (s + more)[m..m + n] == s[m..m + n];
    }
  }

  lemma TextLawful()
    ensures Lawful(TextCodec()) && NonEmpty(TextCodec())
  {
    forall b
      ensures RoundTrips(TextCodec(), b) && Occupies(TextCodec(), b)
    {
      TextRoundTrips(b);
    }
    forall s, more
      ensures Reads(TextCodec(), s, more)
    {
      TextReads(s, more);
    }
  }

  // ---- ordered maps ----

  /** The order of strings: lexicographic by byte. */
  predicate Less(a: Bytes, b: Bytes) {
    b != [] && (a == [] || a[0] < b[0] || (a[0] == b[0] && Less(a[1..], b[1..])))
  }

  lemma {:induction false} LessIsStrict(a: Bytes, b: Bytes)
    ensures (if Less(a, b) then 1 else 0) + (if Less(b, a) then 1 else 0) + (if a == b then 1 else 0) == 1
  {
    if a != [] && b != [] && a[0] == b[0] {
      LessIsStrict(a[1..], b[1..]);
      assert a == b <==> a[1..] == b[1..] by {
        assert a == [a[0]] + a[1..] && b == [b[0]] + b[1..];
      }
    }
  }

  lemma {:induction false} LessIsTransitive(a: Bytes, b: Bytes, c: Bytes)
    requires Less(a, b) && Less(b, c)
    ensures Less(a, c)
  {
    if a != [] && a[0] == b[0] == c[0] {
      LessIsTransitive(a[1..], b[1..], c[1..]);
    }
  }

  /** The entries of a map in ascending key order, each key once. */
  predicate Sorted<V>(m: seq<(Bytes, V)>) {
    forall i, j :: 0 <= i < j < |m| ==> Less(m[i].0, m[j].0)
  }

  /** Inserts into a sorted map, replacing the value of an existing key. */
  function Insert<V>(m: seq<(Bytes, V)>, e: (Bytes, V)): seq<(Bytes, V)> {
    if m == [] || Less(e.0, m[0].0) then [e] + m
    else if e.0 == m[0].0 then [e] + m[1..]
    else [m[0]] + Insert(m[1..], e)
  }

  /** The map a decoder builds from entries in arrival order. */
  function Collect<V>(entries: seq<(Bytes, V)>): seq<(Bytes, V)> {
    if entries == [] then []
    else Insert(Collect(entries[..|entries| - 1]), entries[|entries| - 1])
  }

  lemma {:induction false} InsertElements<V>(m: seq<(Bytes, V)>, e: (Bytes, V))
    ensures |Insert(m, e)| <= |m| + 1
    ensures forall x :: x in Insert(m, e) ==> x in m || x == e
  {
    if m != [] && !Less(e.0, m[0].0) && e.0 != m[0].0 {
      InsertElements(m[1..], e);
    }
  }

  lemma {:induction false} InsertSorts<V>(m: seq<(Bytes, V)>, e: (Bytes, V))
    requires Sorted(m)
    ensures Sorted(Insert(m, e))
  {
    var r := Insert(m, e);
    if m == [] {
    } else if Less(e.0, m[0].0) {
      forall j | 1 <= j < |r|
        ensures Less(e.0, r[j].0)
      {
        if j > 1 { LessIsTransitive(e.0, m[0].0, m[j - 1].0); }
      }
    } else if e.0 != m[0].0 {
      LessIsStrict(e.0, m[0].0);
      InsertSorts(m[1..], e);
      InsertElements(m[1..], e);
      var rest := Insert(m[1..], e);
      forall j | 0 <= j < |rest|
        ensures Less(m[0].0, rest[j].0)
      {
        assert rest[j] in rest;
      }
    }
  }

  lemma {:induction false} CollectSorts<V>(entries: seq<(Bytes, V)>)
    ensures Sorted(Collect(entries)) && |Collect(entries)| <= |entries|
    ensures forall x :: x in Collect(entries) ==> x in entries
  {
    if entries == [] {
    } else {
      var front := entries[..|entries| - 1];
      CollectSorts(front);
      InsertSorts(Collect(front), entries[|entries| - 1]);
      InsertElements(Collect(front), entries[|entries| - 1]);
    }
  }

  /** The value last given to a key. */
  function Find<V>(entries: seq<(Bytes, V)>, key: Bytes): Option<V> {
    if entries == [] then None
    else
      var last := entries[|entries| - 1];
      if last.0 == key then Some(last.1) else Find(entries[..|entries| - 1], key)
  }

  lemma {:induction false} FindCons<V>(first: (Bytes, V), rest: seq<(Bytes, V)>, key: Bytes)
    ensures Find([first] + rest, key)
         == if Find(rest, key).Some? then Find(rest, key) else if first.0 == key then Some(first.1) else None
  {
    if rest == [] {
      assert [first] + rest == [first];
    } else {
      FindCons(first, rest[..|rest| - 1], key);
      assert ([first] + rest)[..|rest|] == [first] + rest[..|rest| - 1];
    }
  }

  lemma {:induction false} FindIsThere<V>(entries: seq<(Bytes, V)>, key: Bytes)
    ensures Find(entries, key).Some? ==> exists i :: 0 <= i < |entries| && entries[i].0 == key
  {
    if entries == [] {
    } else if entries[|entries| - 1].0 != key {
      FindIsThere(entries[..|entries| - 1], key);
    }
  }

  lemma NotBelow<V>(m: seq<(Bytes, V)>, key: Bytes)
    requires Sorted(m) && (m != [] ==> Less(key, m[0].0))
    ensures Find(m, key).None?
  {
    FindIsThere(m, key);
    forall i | 0 <= i < |m|
      ensures m[i].0 != key
    {
      if i > 0 { LessIsTransitive(key, m[0].0, m[i].0); }
      LessIsStrict(key, m[i].0);
    }
  }

  lemma {:induction false} FindInserted<V>(m: seq<(Bytes, V)>, e: (Bytes, V), key: Bytes)
    requires Sorted(m)
    ensures Find(Insert(m, e), key) == if e.0 == key then Some(e.1) else Find(m, key)
  {
    if m == [] || Less(e.0, m[0].0) {
      FindCons(e, m, key);
      NotBelow(m, e.0);
    } else {
      assert m == [m[0]] + m[1..];
      FindCons(m[0], m[1..], key);
      LessIsStrict(e.0, m[0].0);
      if e.0 == m[0].0 {
        FindCons(e, m[1..], key);
        NotBelow(m[1..], e.0);
      } else {
        FindInserted(m[1..], e, key);
        FindCons(m[0], Insert(m[1..], e), key);
      }
    }
  }

  /** Collecting entries changes no lookup: where a key arrives more than once
      the last value counts. */
  lemma {:induction false} CollectKeepsLast<V>(entries: seq<(Bytes, V)>, key: Bytes)
    ensures Find(Collect(entries), key) == Find(entries, key)
  {
    if entries == [] {
    } else {
      var front := entries[..|entries| - 1];
      CollectKeepsLast(front, key);
      CollectSorts(front);
      FindInserted(Collect(front), entries[|entries| - 1], key);
    }
  }

  lemma {:induction false} InsertLast<V>(m: seq<(Bytes, V)>, e: (Bytes, V))
    requires Sorted(m + [e])
    ensures Insert(m, e) == m + [e]
  {
    if m == [] {
    } else {
      assert (m + [e])[0] == m[0] && (m + [e])[|m|] == e;
      LessIsStrict(m[0].0, e.0);
      assert (m + [e])[1..] == m[1..] + [e];
      InsertLast(m[1..], e);
    }
  }

  /** Entries that arrive in order are the map. */
  lemma {:induction false} CollectOfSorted<V>(m: seq<(Bytes, V)>)
    requires Sorted(m)
    ensures Collect(m) == m
  {
    if m == [] {
    } else {
      var front := m[..|m| - 1];
      assert m == front + [m[|m| - 1]];
      CollectOfSorted(front);
      InsertLast(front, m[|m| - 1]);
    }
  }

  function MapOf<V>(entries: seq<(Bytes, V)>): Option<seq<(Bytes, V)>> {
    Some(Collect(entries))
  }

  function EntriesOf<V>(m: seq<(Bytes, V)>): Option<seq<(Bytes, V)>> {
    if Sorted(m) then Some(m) else None
  }

  /** An ordered map with string keys: its entries as a list, in order. */
  function OrderedMap<V>(c: Codec<V>): Codec<seq<(Bytes, V)>> {
    As(List(Pair(TextCodec(), c)), (e: seq<(Bytes, V)>) => MapOf(e), (m: seq<(Bytes, V)>) => EntriesOf(m))
  }

  lemma OrderedMapLawful<V(!new)>(c: Codec<V>)
    requires Lawful(c)
    ensures Lawful(OrderedMap(c)) && NonEmpty(OrderedMap(c))
  {
    TextLawful();
    PairLawful(TextCodec(), c);
    var entry := Pair(TextCodec(), c);
    ListLawful(entry);
    var to := (e: seq<(Bytes, V)>) => MapOf(e);
    var from := (m: seq<(Bytes, V)>) => EntriesOf(m);
    forall m: seq<(Bytes, V)>
      ensures Represents(List(entry), to, from, m)
    {
      if Sorted(m) { CollectOfSorted(m); }
    }
    forall e: seq<(Bytes, V)>
      ensures Represented(List(entry), to, from, e)
    {
      CollectSorts(e);
      if AllValid(entry, e) {
        assert forall i :: 0 <= i < |Collect(e)| ==> Collect(e)[i] in Collect(e);
      }
    }
    AsLawful(List(entry), to, from);
  }

  /** The unit value takes no bytes, so a set is a map of units. */
  function UnitCodec(): Codec<()> {
    Codec((u: ()) => true, (u: ()) => [], (s: Bytes) => Decoded((), 0))
  }

  lemma UnitLawful()
    ensures Lawful(UnitCodec())
  {
    forall v: ()
      ensures RoundTrips(UnitCodec(), v)
    {
      assert v == ();
    }
  }
}
