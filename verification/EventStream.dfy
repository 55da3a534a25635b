/** The unidirectional event stream: a 2-byte header and framed messages,
    handed to a handler until the stream ends or the handler objects. */
module EventStream {
  import opened Wire

  datatype Message<+E> = Good(event: E) | Bad(text: string)

  /** A call of the handler: `handle_event`, `on_error` or `on_stream_end`. */
  datatype Delivery<+E> = Event(event: E) | Problem(text: string) | StreamEnd

  /** Whether the handler accepts the last of the calls made so far, or the
      error it answers with. */
  type Handler<!E> = seq<Delivery<E>> -> Option<IoKind>

  type Decoder<!E> = Bytes -> Message<E>

  /** Everything a stream does: the calls made, and the error it ends with if
      it does not end well. */
  datatype Outcome<+E> = Outcome(calls: seq<Delivery<E>>, error: Option<IoKind>)

  function DeliveryOf<E>(decode: Decoder<E>, payload: Bytes): Delivery<E> {
    match decode(payload) case Good(e) => Event(e) case Bad(text) => Problem(text)
  }

  /** The loop after the header. */
  function Process<E>(h: Handler<E>, decode: Decoder<E>, end: IoKind, s: Bytes, calls: seq<Delivery<E>>): Outcome<E>
    decreases |s|
  {
    match ReadFrame(s)
    case Short =>
      if end.UnexpectedEof? then Outcome(calls + [StreamEnd], h(calls + [StreamEnd]))
      else Outcome(calls, Some(end))
    case Framed(payload, rest) =>
      var now := calls + [DeliveryOf(decode, payload)];
      if h(now).Some? then Outcome(now, h(now)) else Process(h, decode, end, rest, now)
  }

  function ProcessStream<E>(h: Handler<E>, decode: Decoder<E>, end: IoKind, s: Bytes): Outcome<E> {
    if |s| < 2 then Outcome([], Some(end)) else Process(h, decode, end, s[2..], [])
  }

  // ---- the reference: a sequence of deliveries cut at the first objection ----

  /** What a stream has to deliver: each frame once, in order, and the end if
      it is a clean one. */
  function Due<E>(decode: Decoder<E>, end: IoKind, payloads: seq<Bytes>): seq<Delivery<E>> {
    if payloads == [] then (if end.UnexpectedEof? then [StreamEnd] else [])
    else [DeliveryOf(decode, payloads[0])] + Due(decode, end, payloads[1..])
  }

  /** The handler accepts the first `n` of `due`, each in its turn. */
  ghost predicate Accepts<E>(h: Handler<E>, due: seq<Delivery<E>>, n: nat) {
    n <= |due| && forall i :: 1 <= i <= n ==> h(due[..i]).None?
  }

  /** `o` delivers `due` up to and including the first delivery the handler
      objects to, and otherwise all of it. */
  ghost predicate DeliversInOrder<E>(h: Handler<E>, end: IoKind, due: seq<Delivery<E>>, o: Outcome<E>) {
    && o.calls <= due
    && (if Accepts(h, due, |due|) then
          && o.calls == due
          && o.error == (if end.UnexpectedEof? then None else Some(end))
        else
          && o.calls != [] && Accepts(h, due, |o.calls| - 1)
          && h(o.calls).Some? && o.error == h(o.calls))
  }

  /** Deliveries accepted in turn stay so whatever else is due. */
  lemma AcceptsExtends<E>(h: Handler<E>, calls: seq<Delivery<E>>, more: seq<Delivery<E>>)
    requires Accepts(h, calls, |calls|)
    ensures Accepts(h, calls + more, |calls|)
  {
    assert forall i :: 0 <= i <= |calls| ==> (calls + more)[..i] == calls[..i];
  }

  lemma AcceptsOneMore<E>(h: Handler<E>, calls: seq<Delivery<E>>, next: Delivery<E>)
    requires Accepts(h, calls, |calls|)
    ensures Accepts(h, calls + [next], |calls| + 1) <==> h(calls + [next]).None?
    ensures Accepts(h, calls + [next], |calls|)
  {
    AcceptsExtends(h, calls, [next]);
    assert (calls + [next])[..|calls| + 1] == calls + [next];
  }

  /** Where the handler objects to `now`, that is where delivery stops. */
  lemma StopsAt<E>(h: Handler<E>, end: IoKind, calls: seq<Delivery<E>>, next: Delivery<E>, more: seq<Delivery<E>>)
    requires Accepts(h, calls, |calls|) && h(calls + [next]).Some?
    ensures DeliversInOrder(h, end, calls + [next] + more, Outcome(calls + [next], h(calls + [next])))
  {
    var now := calls + [next];
    AcceptsExtends(h, calls, [next] + more);
    assert now + more == calls + ([next] + more);
    assert (now + more)[..|now|] == now;
  }

  lemma DueStep<E>(decode: Decoder<E>, end: IoKind, s: Bytes, calls: seq<Delivery<E>>)
    requires ReadFrame(s).Framed?
    ensures calls + Due(decode, end, Payloads(s))
         == calls + [DeliveryOf(decode, ReadFrame(s).payload)] + Due(decode, end, Payloads(ReadFrame(s).rest))
  {
    var payload, rest := ReadFrame(s).payload, Payloads(ReadFrame(s).rest);
    assert ([payload] + rest)[1..] == rest;
    DueAfter(calls, DeliveryOf(decode, payload), Due(decode, end, rest));
  }

  lemma DueAfter<E>(calls: seq<Delivery<E>>, next: Delivery<E>, more: seq<Delivery<E>>)
    ensures calls + ([next] + more) == calls + [next] + more
  {
  }

  lemma {:induction false} ProcessDelivers<E>(h: Handler<E>, decode: Decoder<E>, end: IoKind, s: Bytes,
                                              calls: seq<Delivery<E>>)
    requires Accepts(h, calls, |calls|)
    ensures DeliversInOrder(h, end, calls + Due(decode, end, Payloads(s)), Process(h, decode, end, s, calls))
    decreases |s|
  {
    if ReadFrame(s).Framed? {
      var next, rest := DeliveryOf(decode, ReadFrame(s).payload), ReadFrame(s).rest;
      DueStep(decode, end, s, calls);
      AcceptsOneMore(h, calls, next);
      if h(calls + [next]).None? {
        ProcessDelivers(h, decode, end, rest, calls + [next]);
      } else {
        StopsAt(h, end, calls, next, Due(decode, end, Payloads(rest)));
      }
    } else if end.UnexpectedEof? {
      AcceptsOneMore(h, calls, StreamEnd);
    } else {
      assert calls + [] == calls;
    }
  }

  /** Event stream refinement: on every stream with a header the loop makes
      exactly the calls due, in order, up to the first handler error. */
  lemma StreamRefinesSequence<E>(h: Handler<E>, decode: Decoder<E>, end: IoKind, s: Bytes)
    requires |s| >= 2
    ensures DeliversInOrder(h, end, Due(decode, end, Payloads(s[2..])), ProcessStream(h, decode, end, s))
  {
    var due := Due(decode, end, Payloads(s[2..]));
    assert [] + due == due;
    ProcessDelivers(h, decode, end, s[2..], []);
  }

  /** `StreamEnd` is due at most once, last, and exactly on a clean end. */
  lemma {:induction false} EndIsLast<E>(decode: Decoder<E>, end: IoKind, payloads: seq<Bytes>)
    ensures var due := Due(decode, end, payloads);
            && |due| == |payloads| + (if end.UnexpectedEof? then 1 else 0)
            && (forall i :: 0 <= i < |payloads| ==> due[i] == DeliveryOf(decode, payloads[i]))
            && (end.UnexpectedEof? ==> due[|payloads|] == StreamEnd)
  {
    if payloads == [] {
    } else {
      EndIsLast(decode, end, payloads[1..]);
    }
  }

  lemma StreamEndCalledOnce<E>(h: Handler<E>, decode: Decoder<E>, end: IoKind, s: Bytes)
    ensures var o := ProcessStream(h, decode, end, s);
            && (forall i :: 0 <= i < |o.calls| && o.calls[i].StreamEnd? ==> i == |o.calls| - 1)
            && (o.error.None? ==> o.calls != [] && o.calls[|o.calls| - 1].StreamEnd?)
            && (o.calls != [] && o.calls[|o.calls| - 1].StreamEnd? ==>
                  end.UnexpectedEof? && |o.calls| == |Payloads(s[2..])| + 1)
  {
    if |s| >= 2 {
      StreamRefinesSequence(h, decode, end, s);
      EndIsLast(decode, end, Payloads(s[2..]));
    }
  }

  // ---- what a clean end means ----

  /** Success is reported exactly on a clean end that the handler agrees to,
      having agreed to every delivery before it. */
  lemma SuccessIff<E>(h: Handler<E>, decode: Decoder<E>, end: IoKind, s: Bytes)
    ensures ProcessStream(h, decode, end, s).error.None?
            <==> |s| >= 2 && end.UnexpectedEof?
                 && var due := Due(decode, end, Payloads(s[2..]));
                    Accepts(h, due, |due|)
  {
    if |s| >= 2 {
      StreamRefinesSequence(h, decode, end, s);
    }
  }

  /** A stream that ends inside its header fails as it ends, with no call. */
  lemma HeaderIsRequired<E>(h: Handler<E>, decode: Decoder<E>, end: IoKind, s: Bytes)
    requires |s| < 2
    ensures ProcessStream(h, decode, end, s) == Outcome([], Some(end))
  {
  }

  /** The calls made account for every byte of `s`: it is a list of frames,
      each delivered in its turn, and then the end. */
  ghost predicate AccountsFor<E>(decode: Decoder<E>, s: Bytes, calls: seq<Delivery<E>>) {
    exists payloads :: Delivers(decode, s, calls, payloads)
  }

  ghost predicate Delivers<E>(decode: Decoder<E>, s: Bytes, calls: seq<Delivery<E>>, payloads: seq<Bytes>) {
    && (forall p :: p in payloads ==> Fits(p))
    && s == Frames(payloads)
    && calls == Due(decode, UnexpectedEof, payloads)
  }

  /** The loop succeeds with nothing dropped if and only if, besides what
      success takes, no partial frame trails the whole ones. */
  lemma NothingDroppedIff<E>(h: Handler<E>, decode: Decoder<E>, end: IoKind, s: Bytes)
    requires |s| >= 2
    ensures var o := ProcessStream(h, decode, end, s);
            var due := Due(decode, end, Payloads(s[2..]));
            o.error.None? && AccountsFor(decode, s[2..], o.calls)
            <==> end.UnexpectedEof? && Accepts(h, due, |due|) && Leftover(s[2..]) == []
  {
    var o, stream := ProcessStream(h, decode, end, s), s[2..];
    SuccessIff(h, decode, end, s);
    StreamRefinesSequence(h, decode, end, s);
    if AccountsFor(decode, stream, o.calls) {
      var payloads :| Delivers(decode, stream, o.calls, payloads);
      assert Frames(payloads) + [] == stream;
      PayloadsOfFrames(payloads, []);
    }
    if o.error.None? && Leftover(stream) == [] {
      StreamSplits(stream);
      assert Frames(Payloads(stream)) + [] == Frames(Payloads(stream));
      assert Delivers(decode, stream, o.calls, Payloads(stream));
    }
  }

  /** A stream that finishes inside a frame: the loop succeeds and reports the
      end, and the bytes of the partial frame are in no call. */
  lemma PartialFrameIsDropped<E>(decode: Decoder<E>)
    ensures var h: Handler<E> := (calls: seq<Delivery<E>>) => None;
            var o := ProcessStream(h, decode, UnexpectedEof, [0, 0] + [0, 0, 0]);
            o == Outcome([StreamEnd], None) && !AccountsFor(decode, [0, 0, 0], o.calls)
  {
    var h: Handler<E> := (calls: seq<Delivery<E>>) => None;
    var s: Bytes := [0, 0] + [0, 0, 0];
    assert s[2..] == [0, 0, 0];
    assert Leftover(s[2..]) == [0, 0, 0];
    NothingDroppedIff(h, decode, UnexpectedEof, s);
  }

  /** `on_error` is called for exactly the frames that do not decode; the
      error a stream ends with is never put to the handler. */
  lemma ProblemsAreUndecodable<E>(h: Handler<E>, decode: Decoder<E>, end: IoKind, s: Bytes)
    requires |s| >= 2
    ensures var calls, payloads := ProcessStream(h, decode, end, s).calls, Payloads(s[2..]);
            && (forall i :: 0 <= i < |calls| ==>
                  && (calls[i].Problem? <==> i < |payloads| && decode(payloads[i]).Bad?)
                  && (calls[i].Problem? ==> calls[i].text == decode(payloads[i]).text)
                  && (calls[i].Event? ==> i < |payloads| && decode(payloads[i]) == Good(calls[i].event)))
            && (!end.UnexpectedEof? ==> |calls| <= |payloads|)
  {
    StreamRefinesSequence(h, decode, end, s);
    EndIsLast(decode, end, Payloads(s[2..]));
  }

  /** A stream reset right after its header: the error is returned, and the
      handler hears nothing of it. */
  lemma ResetIsNotReported<E>(h: Handler<E>, decode: Decoder<E>)
    ensures ProcessStream(h, decode, OtherKind(0), [0, 0]) == Outcome([], Some(OtherKind(0)))
  {
    var s: Bytes := [0, 0];
    assert s[2..] == [];
  }

  // ---- delivery ----

  function Encoded<E>(encode: E -> Bytes, events: seq<E>): (r: seq<Bytes>)
    ensures |r| == |events|
    ensures forall i :: 0 <= i < |events| ==> r[i] == encode(events[i])
  {
    seq(|events|, i requires 0 <= i < |events| => encode(events[i]))
  }

  function Events<E>(events: seq<E>): (r: seq<Delivery<E>>)
    ensures |r| == |events|
    ensures forall i :: 0 <= i < |events| ==> r[i] == Event(events[i])
  {
    seq(|events|, i requires 0 <= i < |events| => Event(events[i]))
  }

  /** Every event encodes to a payload that decodes to it. */
  ghost predicate Encodes<E(!new)>(decode: Decoder<E>, encode: E -> Bytes, events: seq<E>) {
    forall e :: e in events ==> Fits(encode(e)) && decode(encode(e)) == Good(e)
  }

  lemma EncodedFit<E(!new)>(decode: Decoder<E>, encode: E -> Bytes, events: seq<E>)
    requires Encodes(decode, encode, events)
    ensures forall p :: p in Encoded(encode, events) ==> Fits(p)
  {
    assert forall i :: 0 <= i < |events| ==> events[i] in events;
  }

  lemma EventsAreDue<E(!new)>(decode: Decoder<E>, encode: E -> Bytes, events: seq<E>)
    requires Encodes(decode, encode, events)
    ensures Due(decode, UnexpectedEof, Encoded(encode, events)) == Events(events) + [StreamEnd]
  {
    var payloads := Encoded(encode, events);
    EndIsLast(decode, UnexpectedEof, payloads);
    var due := Due(decode, UnexpectedEof, payloads);
    forall i | 0 <= i < |events|
      ensures due[i] == Event(events[i])
    {
      assert events[i] in events;
      assert payloads[i] == encode(events[i]);
    }
  }

  /** A handler that accepts them is given exactly the events that were
      framed, then the end, whatever partial frame trails them. */
  lemma FramedEventsAreDelivered<E(!new)>(h: Handler<E>, decode: Decoder<E>, encode: E -> Bytes, header: Bytes,
                                          events: seq<E>, partial: Bytes)
    requires |header| == 2 && ReadFrame(partial).Short?
    requires Encodes(decode, encode, events)
    requires Accepts(h, Events(events) + [StreamEnd], |events| + 1)
    ensures forall p :: p in Encoded(encode, events) ==> Fits(p)
    ensures ProcessStream(h, decode, UnexpectedEof, header + Frames(Encoded(encode, events)) + partial)
         == Outcome(Events(events) + [StreamEnd], None)
  {
    var payloads := Encoded(encode, events);
    EncodedFit(decode, encode, events);
    EventsAreDue(decode, encode, events);
    var s := header + Frames(payloads) + partial;
    assert s[2..] == Frames(payloads) + partial;
    PayloadsOfFrames(payloads, partial);
    StreamRefinesSequence(h, decode, UnexpectedEof, s);
  }

  // ---- the loop as the source has it ----

  method ProcessEventStream<E>(h: Handler<E>, decode: Decoder<E>, recv: RecvStream)
    returns (error: Option<IoKind>, calls: seq<Delivery<E>>)
    modifies recv
    ensures Outcome(calls, error) == ProcessStream(h, decode, recv.end, old(recv.unread))
  {
    calls := [];
    var header := recv.ReadExact(2);
    if header.Lost? {
      return Some(header.kind), calls;
    }
    while true
      invariant Process(h, decode, recv.end, recv.unread, calls)
             == ProcessStream(h, decode, recv.end, old(recv.unread))
      decreases |recv.unread|
    {
      var r := recv.RecvRaw();
      match r
      case Lost(kind) =>
        if kind.UnexpectedEof? {
          calls := calls + [StreamEnd];
          return h(calls), calls;
        }
        return Some(kind), calls;
      case Got(payload) =>
        var message := decode(payload);
        match message {
          case Good(event) => calls := calls + [Event(event)];
          case Bad(text) => calls := calls + [Problem(text)];
        }
        var objection := h(calls);
        if objection.Some? {
          return objection, calls;
        }
    }
  }
}
