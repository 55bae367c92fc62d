/** The listen session: receive a datagram, answer a `PING` probe with `PONG`, log the datagram; repeat. */
module Listen {
  import opened Wrappers
  import opened Bytes
  import opened Net
  import opened Errors
  import opened Trace

  /** What one `recv_from` call yields: a datagram and its source, with whether the reply
      `send_to` (if one is due) is accepted by the system; or a failed receive. */
  datatype Arrival =
    | Datagram(src: SocketAddr, wire: seq<byte>, replyAccepted: bool)
    | RecvFailed

  /** The bytes `recv_from` leaves in the 16384-byte buffer: a longer datagram loses its tail. */
  function Receive(wire: seq<byte>): (data: seq<byte>)
    ensures |data| <= BUFFER_SIZE
    ensures data <= wire
    ensures |wire| <= BUFFER_SIZE ==> data == wire
    ensures |wire| >= BUFFER_SIZE ==> |data| == BUFFER_SIZE
  {
    Truncate(wire, BUFFER_SIZE)
  }

  /** The reply to a received payload: `PONG` plus everything after the `PING` marker, or none. */
  function ReplyFor(data: seq<byte>): (r: Option<seq<byte>>)
    ensures r.Some? <==> StartsWith(data, PING)
    ensures r.Some? ==> |r.value| == |data| && StartsWith(r.value, PONG)
    ensures r.Some? ==> r.value[MARKER_LEN..] == data[MARKER_LEN..]
  {
    if StartsWith(data, PING) then Some(PONG + data[MARKER_LEN..]) else None
  }

  /** Putting the `PING` marker back on a reply restores the probe it answers. */
  lemma ReplyRestoresProbe(data: seq<byte>)
    requires ReplyFor(data).Some?
    ensures PING + ReplyFor(data).value[MARKER_LEN..] == data
  {
  }

  /** Payloads shorter than the marker are never answered. */
  lemma ShortPayloadUnanswered(data: seq<byte>)
    requires |data| < MARKER_LEN
    ensures ReplyFor(data) == None
  {
  }

  /** A reply is never itself answered, so two listeners cannot keep answering each other. */
  lemma ReplyNotAnswered(data: seq<byte>)
    requires ReplyFor(data).Some?
    ensures ReplyFor(ReplyFor(data).value) == None
  {
  }

  /** One pass of the `reply` buffer through a probe: `extend` with the bytes after the marker,
      then `truncate(4)`. Yields the bytes handed to `send_to` and the buffer left behind. */
  function ReplyBufferPass(reply: seq<byte>, data: seq<byte>): (seq<byte>, seq<byte>)
    requires |data| >= MARKER_LEN
  {
    var extended := reply + data[MARKER_LEN..];
    (extended, Truncate(extended, MARKER_LEN))
  }

  /** With the buffer at rest (`PONG`), a pass sends exactly `ReplyFor`'s reply and leaves the
      buffer at rest again, so no reply carries bytes of an earlier datagram. */
  lemma ReplyBufferPassRestores(data: seq<byte>)
    requires StartsWith(data, PING)
    ensures ReplyBufferPass(PONG, data).0 == ReplyFor(data).value
    ensures ReplyBufferPass(PONG, data).1 == PONG
  {
  }

  /** One iteration of the listen loop. A failed reply ends the loop before the log line. */
  function ListenStep(a: Arrival): (o: Outcome)
    ensures o.status.Pending? || o.status == Failed(Io)
    ensures o.status.Pending? ==> a.Datagram? && Logged(a.src, Receive(a.wire)) in o.events
    ensures o.status.Failed? ==> o.events == []
    ensures a.RecvFailed? ==> o == Outcome([], Failed(Io))
  {
    match a
    case RecvFailed => Outcome([], Failed(Io))
    case Datagram(src, wire, accepted) =>
      var data := Receive(wire);
      match ReplyFor(data)
      case None => Outcome([Logged(src, data)], Pending)
      case Some(reply) =>
        if accepted then Outcome([SentTo(src, reply), Logged(src, data)], Pending)
        else Outcome([], Failed(Io))
  }

  /** Bytes an event carries on the wire or in the log. */
  function EventBytes(e: Event): seq<byte> {
    match e
    case SentTo(_, p) => p
    case Sent(p) => p
    case Logged(_, d) => d
  }

  /** The listen loop over a trace of receive results. It never returns `Ok`: it stops only on an
      error, and each datagram gives at most a reply and a log line. */
  function ListenRun(arrivals: seq<Arrival>): (r: Outcome)
    ensures !r.status.Done?
    ensures |r.events| <= 2 * |arrivals|
    decreases |arrivals|
  {
    if |arrivals| == 0 then Outcome([], Pending)
    else
      var step := ListenStep(arrivals[0]);
      if step.status.Pending? then Then(step.events, ListenRun(arrivals[1..])) else step
  }

  /** What a listener may emit: a `PONG` reply on the unconnected socket, or a log line, carrying no
      more than the receive buffer holds. */
  predicate ListenerEvent(e: Event) {
    && !e.Sent?
    && |EventBytes(e)| <= BUFFER_SIZE
    && (e.SentTo? ==> StartsWith(e.payload, PONG))
  }

  /** Every event of the listen loop is one a listener may emit. */
  lemma {:induction false} ListenRunPayloads(arrivals: seq<Arrival>)
    ensures forall e :: e in ListenRun(arrivals).events ==> ListenerEvent(e)
    decreases |arrivals|
  {
    if |arrivals| > 0 && ListenStep(arrivals[0]).status.Pending? {
      ListenRunPayloads(arrivals[1..]);
    }
  }

  /** The listen loop as written: a mutable `reply` buffer initialised to `PONG`, extended for
      each probe and truncated back to four bytes after the send. Its behaviour is `ListenRun`'s. */
  method RunListen(arrivals: seq<Arrival>) returns (events: seq<Event>, status: Status)
    ensures Outcome(events, status) == ListenRun(arrivals)
  {
    var reply := PONG;
    events := [];
    var i := 0;
    while i < |arrivals|
      invariant 0 <= i <= |arrivals|
      invariant reply == PONG
      invariant ListenRun(arrivals) == Then(events, ListenRun(arrivals[i..]))
    {
      var stepEvents, ok;
      stepEvents, ok, reply := ListenIteration(reply, arrivals[i]);
      if !ok {
        status := Failed(Io);
        ListenStops(arrivals, i, events);
        return;
      }
      ListenContinues(arrivals, i, events);
      events := events + stepEvents;
      i := i + 1;
    }
    status := Pending;
  }

  /** The body of the listen loop for one receive: reply through the `reply` buffer when the payload
      is a probe, then log. `ok` is false when the receive or the reply failed. */
  method ListenIteration(reply: seq<byte>, a: Arrival)
    returns (stepEvents: seq<Event>, ok: bool, reply': seq<byte>)
    requires reply == PONG
    ensures ok ==> reply' == PONG
    ensures Outcome(stepEvents, if ok then Pending else Failed(Io)) == ListenStep(a)
  {
    if a.RecvFailed? {
      return [], false, reply;
    }
    reply' := reply;
    stepEvents := [];
    var data := Receive(a.wire);
    if StartsWith(data, PING) {
      var (extended, truncated) := ReplyBufferPass(reply', data);
      ReplyBufferPassRestores(data);
      if !a.replyAccepted {
        return [], false, extended;
      }
      stepEvents := [SentTo(a.src, extended)];
      reply' := truncated;
    }
    stepEvents := stepEvents + [Logged(a.src, data)];
    ok := true;
  }

  /** An iteration that keeps the loop going moves its events from the rest of the run to the
      events produced so far. */
  lemma ListenContinues(arrivals: seq<Arrival>, i: nat, earlier: seq<Event>)
    requires i < |arrivals| && ListenStep(arrivals[i]).status.Pending?
    requires ListenRun(arrivals) == Then(earlier, ListenRun(arrivals[i..]))
    ensures ListenRun(arrivals) ==
      Then(earlier + ListenStep(arrivals[i]).events, ListenRun(arrivals[i + 1..]))
  {
    ListenRunUnfold(arrivals, i);
    ThenThen(earlier, ListenStep(arrivals[i]).events, ListenRun(arrivals[i + 1..]));
  }

  /** An iteration that fails ends the run with the events produced so far. */
  lemma ListenStops(arrivals: seq<Arrival>, i: nat, earlier: seq<Event>)
    requires i < |arrivals| && ListenStep(arrivals[i]).status == Failed(Io)
    requires ListenStep(arrivals[i]).events == []
    requires ListenRun(arrivals) == Then(earlier, ListenRun(arrivals[i..]))
    ensures ListenRun(arrivals) == Outcome(earlier, Failed(Io))
  {
  }

  lemma ListenRunUnfold(arrivals: seq<Arrival>, i: nat)
    requires i < |arrivals|
    ensures var step := ListenStep(arrivals[i]);
      ListenRun(arrivals[i..]) ==
        if step.status.Pending? then Then(step.events, ListenRun(arrivals[i + 1..])) else step
  {
  }

  /** Each datagram is handled on its own: once the earlier ones left the loop running, a new
      arrival adds exactly the events it would produce alone. */
  lemma {:induction false} ListenRunAppend(history: seq<Arrival>, a: Arrival)
    requires ListenRun(history).status.Pending?
    ensures ListenRun(history + [a]) == Then(ListenRun(history).events, ListenStep(a))
    decreases |history|
  {
    var step := ListenStep(a);
    if |history| == 0 {
      assert history + [a] == [a];
      assert [a][1..] == [];
      assert step.events + [] == step.events;
    } else {
      var h := history + [a];
      var first := ListenStep(history[0]);
      assert h[0] == history[0];
      assert h[1..] == history[1..] + [a];
      assert first.status.Pending?;
      ListenRunAppend(history[1..], a);
      ThenThen(first.events, ListenRun(history[1..]).events, step);
    }
  }

  /** A probe, reply accepted, is answered with `PONG` plus the received bytes after the marker,
      addressed to its source, and then logged. */
  lemma ProbeAnswered(src: SocketAddr, wire: seq<byte>)
    requires StartsWith(Receive(wire), PING)
    ensures ListenStep(Datagram(src, wire, true)) ==
      Outcome([SentTo(src, PONG + Receive(wire)[MARKER_LEN..]), Logged(src, Receive(wire))], Pending)
  {
  }

  /** A payload that does not open with `PING` only produces its log line. */
  lemma NonProbeOnlyLogged(src: SocketAddr, wire: seq<byte>, accepted: bool)
    requires !StartsWith(Receive(wire), PING)
    ensures ListenStep(Datagram(src, wire, accepted)) == Outcome([Logged(src, Receive(wire))], Pending)
  {
  }

  /** A probe whose reply the system refuses ends the loop with an I/O error, before its log line. */
  lemma RefusedReplyStops(src: SocketAddr, wire: seq<byte>)
    requires ReplyFor(Receive(wire)).Some?
    ensures ListenStep(Datagram(src, wire, false)) == Outcome([], Failed(Io))
  {
  }

  /** Once the loop has failed, nothing that arrives later is received, answered or logged. */
  lemma {:induction false} FailureIsFinal(history: seq<Arrival>, rest: seq<Arrival>)
    requires ListenRun(history).status.Failed?
    ensures ListenRun(history + rest) == ListenRun(history)
    decreases |history|
  {
    var h := history + rest;
    assert h[0] == history[0];
    if ListenStep(history[0]).status.Pending? {
      assert h[1..] == history[1..] + rest;
      FailureIsFinal(history[1..], rest);
    }
  }
}
