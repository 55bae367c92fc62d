/** The send session: forward each chunk read from standard input as one datagram, less one
    trailing newline, until a read returns nothing. */
module Send {
  import opened Bytes
  import opened Errors
  import opened Trace

  /** What one `read` into the 16384-byte buffer can return. */
  type Chunk = s: seq<byte> | |s| <= BUFFER_SIZE

  /** One result of reading standard input: the bytes read (none at end of input), with whether the
      `send` that forwards them is accepted by the system; or a failed read. */
  datatype Read = Read(chunk: Chunk, sendAccepted: bool) | ReadFailed

  predicate EndsWithNewline(s: seq<byte>) {
    |s| > 0 && s[|s| - 1] == NEWLINE
  }

  /** Drops one trailing newline, if there is one, and nothing else. */
  function Chomp(data: seq<byte>): (r: seq<byte>)
    ensures r <= data
    ensures data == r || data == r + [NEWLINE]
    ensures |r| == |data| - 1 <==> EndsWithNewline(data)
  {
    if EndsWithNewline(data) then data[..|data| - 1] else data
  }

  /** Chomp undoes appending a newline, even when the text already ends with one. */
  lemma ChompAppendedNewline(s: seq<byte>)
    ensures Chomp(s + [NEWLINE]) == s
  {
  }

  /** A chunk without a trailing newline is forwarded unchanged. */
  lemma ChompKeepsUnterminated(s: seq<byte>)
    requires !EndsWithNewline(s)
    ensures Chomp(s) == s
  {
  }

  /** Number of reads, from the start, that each forward a datagram: non-empty and accepted. */
  function Forwarded(input: seq<Read>): (n: nat)
    ensures n <= |input|
    ensures forall i :: 0 <= i < n ==> input[i].Read? && |input[i].chunk| > 0 && input[i].sendAccepted
    ensures n < |input| ==> !(input[n].Read? && |input[n].chunk| > 0 && input[n].sendAccepted)
    decreases |input|
  {
    if |input| == 0 then 0
    else if input[0].Read? && |input[0].chunk| > 0 && input[0].sendAccepted then 1 + Forwarded(input[1..])
    else 0
  }

  /** The send loop over a trace of reads. */
  function SendRun(input: seq<Read>): (r: Outcome)
    ensures forall e :: e in r.events ==> e.Sent? && |e.payload| <= BUFFER_SIZE
    decreases |input|
  {
    if |input| == 0 then Outcome([], Pending)
    else
      match input[0]
      case ReadFailed => Outcome([], Failed(Io))
      case Read(chunk, accepted) =>
        if |chunk| == 0 then Outcome([], Done)
        else if !accepted then Outcome([], Failed(Io))
        else Then([Sent(Chomp(chunk))], SendRun(input[1..]))
  }

  /** The whole session in closed form: one datagram per forwarded read, in order, each the chomped
      chunk; then end of input gives `Ok`, a failed read or send gives an error, and a trace that
      runs out leaves the session waiting. */
  lemma {:induction false} SendRunShape(input: seq<Read>)
    ensures var n := Forwarded(input);
      && |SendRun(input).events| == n
      && (forall i :: 0 <= i < n ==> SendRun(input).events[i] == Sent(Chomp(input[i].chunk)))
      && SendRun(input).status ==
           if n == |input| then Pending
           else if input[n].Read? && |input[n].chunk| == 0 then Done
           else Failed(Io)
    decreases |input|
  {
    if |input| > 0 && input[0].Read? && |input[0].chunk| > 0 && input[0].sendAccepted {
      SendRunShape(input[1..]);
      var rest := SendRun(input[1..]);
      forall i | 1 <= i < Forwarded(input)
        ensures SendRun(input).events[i] == Sent(Chomp(input[i].chunk))
      {
        assert SendRun(input).events[i] == rest.events[i - 1];
        assert input[1..][i - 1] == input[i];
      }
    }
  }

  /** End of input stops the session with `Ok` at once: nothing read afterwards is sent. */
  lemma EndOfInputStops(earlier: seq<Read>, accepted: bool, later: seq<Read>)
    requires Forwarded(earlier) == |earlier|
    ensures SendRun(earlier + [Read([], accepted)] + later) == Outcome(SendRun(earlier).events, Done)
  {
    var input := earlier + [Read([], accepted)] + later;
    assert input[..|earlier|] == earlier;
    ForwardedPrefix(earlier, [Read([], accepted)] + later);
    SendRunShape(input);
    SendRunShape(earlier);
    assert input[|earlier|] == Read([], accepted);
    assert SendRun(input).events == SendRun(earlier).events;
  }

  lemma {:induction false} ForwardedPrefix(a: seq<Read>, b: seq<Read>)
    requires Forwarded(a) == |a|
    ensures Forwarded(a + b) == |a| + Forwarded(b)
    decreases |a|
  {
    if |a| > 0 {
      assert (a + b)[0] == a[0];
      assert Forwarded(a) == 1 + Forwarded(a[1..]);
      assert (a + b)[1..] == a[1..] + b;
      ForwardedPrefix(a[1..], b);
      assert Forwarded(a + b) == 1 + Forwarded((a + b)[1..]);
    } else {
      assert a + b == b;
    }
  }

  /** The send loop as written, over a buffer-sized chunk per read. */
  method RunSend(input: seq<Read>) returns (sent: seq<seq<byte>>, status: Status)
    ensures Outcome(SentEvents(sent), status) == SendRun(input)
  {
    sent := [];
    var i := 0;
    while i < |input|
      invariant 0 <= i <= |input| && |sent| == i
      invariant SendRun(input) == Then(SentEvents(sent), SendRun(input[i..]))
    {
      SendRunUnfold(input, i);
      match input[i] {
        case ReadFailed =>
          status := Failed(Io);
          assert SentEvents(sent) + [] == SentEvents(sent);
          return;
        case Read(chunk, accepted) =>
          if |chunk| == 0 {
            status := Done;
            assert SentEvents(sent) + [] == SentEvents(sent);
            return;
          }
          var data := chunk;
          if data[|data| - 1] == NEWLINE {
            // chomp
            data := data[..|data| - 1];
          }
          assert data == Chomp(chunk);
          if !accepted {
            status := Failed(Io);
            assert SentEvents(sent) + [] == SentEvents(sent);
            return;
          }
          ForwardStep(input, i, sent);
          sent := sent + [data];
      }
      i := i + 1;
    }
    status := Pending;
  }

  /** A forwarded read moves its chomped chunk from the rest of the run to the datagrams sent. */
  lemma ForwardStep(input: seq<Read>, i: nat, sent: seq<seq<byte>>)
    requires i < |input| && input[i].Read? && |input[i].chunk| > 0 && input[i].sendAccepted
    requires SendRun(input) == Then(SentEvents(sent), SendRun(input[i..]))
    ensures SendRun(input) == Then(SentEvents(sent + [Chomp(input[i].chunk)]), SendRun(input[i + 1..]))
  {
    var data := Chomp(input[i].chunk);
    SendRunUnfold(input, i);
    assert SentEvents(sent + [data]) == SentEvents(sent) + [Sent(data)];
    ThenThen(SentEvents(sent), [Sent(data)], SendRun(input[i + 1..]));
  }

  lemma SendRunUnfold(input: seq<Read>, i: nat)
    requires i < |input|
    ensures SendRun(input[i..]) ==
      match input[i]
      case ReadFailed => Outcome([], Failed(Io))
      case Read(chunk, accepted) =>
        if |chunk| == 0 then Outcome([], Done)
        else if !accepted then Outcome([], Failed(Io))
        else Then([Sent(Chomp(chunk))], SendRun(input[i + 1..]))
  {
  }

  /** The events of sending `payloads` in order. */
  function SentEvents(payloads: seq<seq<byte>>): (r: seq<Event>)
    ensures |r| == |payloads|
    ensures forall i :: 0 <= i < |payloads| ==> r[i] == Sent(payloads[i])
  {
    seq(|payloads|, i requires 0 <= i < |payloads| => Sent(payloads[i]))
  }
}
