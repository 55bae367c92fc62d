/** The ping session's sender: probes `PING 1`, `PING 2`, ... sent to the group one after another. */
module Ping {
  import opened Wrappers
  import opened Bytes
  import opened Decimal
  import opened Net
  import opened Errors
  import opened Trace
  import Listen

  /** What opens every probe: the `PING` marker and a space. */
  const PROBE_HEAD: seq<byte> := PING + [SPACE]

  /** The probe carrying sequence number `n`: `format!("PING {}", n)`. */
  function Probe(n: nat): seq<byte> {
    PROBE_HEAD + Digits(n)
  }

  /** Reads the sequence number back out of a probe; `None` for anything `Probe` cannot produce. */
  function ParseProbe(p: seq<byte>): Option<nat> {
    if StartsWith(p, PROBE_HEAD) && Canonical(p[|PROBE_HEAD|..]) then Some(Value(p[|PROBE_HEAD|..]))
    else None
  }

  /** Every probe is read back as its own sequence number. */
  lemma ProbeRoundTrip(n: nat)
    ensures ParseProbe(Probe(n)) == Some(n)
  {
    var p := Probe(n);
    assert p[..|PROBE_HEAD|] == PROBE_HEAD;
    assert p[|PROBE_HEAD|..] == Digits(n);
    ValueOfDigits(n);
  }

  /** Whatever is read as sequence number `n` is exactly the probe for `n`. */
  lemma ParseProbeExact(p: seq<byte>, n: nat)
    requires ParseProbe(p) == Some(n)
    ensures p == Probe(n)
  {
    var tail := p[|PROBE_HEAD|..];
    DigitsOfValue(tail);
    assert p == p[..|PROBE_HEAD|] + tail;
  }

  /** The first `k` probe payloads, in sending order. */
  function Probes(k: nat): (r: seq<seq<byte>>)
    ensures |r| == k
    ensures forall i :: 0 <= i < k ==> ParseProbe(r[i]) == Some(i + 1)
    decreases k
  {
    if k == 0 then []
    else
      ProbeRoundTrip(k);
      Probes(k - 1) + [Probe(k)]
  }

  /** Sequence numbers start at 1 and go up by exactly one per probe. */
  lemma ProbesCountUp(k: nat, i: nat)
    requires i + 1 < k
    ensures ParseProbe(Probes(k)[0]).value == 1
    ensures ParseProbe(Probes(k)[i + 1]).value == ParseProbe(Probes(k)[i]).value + 1
  {
  }

  /** The sender loop from counter value `last`, over the system's answers to successive sends. */
  function PingFrom(dst: SocketAddr, last: nat, accepted: seq<bool>): (r: Outcome)
    ensures !r.status.Done?
    ensures |r.events| <= |accepted|
    ensures r.status.Pending? <==> |r.events| == |accepted|
    decreases |accepted|
  {
    if |accepted| == 0 then Outcome([], Pending)
    else if accepted[0] then Then([SentTo(dst, Probe(last + 1))], PingFrom(dst, last + 1, accepted[1..]))
    else Outcome([], Failed(Io))
  }

  /** The sender stops at the first refused send: every probe before it went out, and the session
      ends with an I/O error. */
  lemma {:induction false} PingStopsAtFirstRefusal(dst: SocketAddr, last: nat, accepted: seq<bool>, j: nat)
    requires j < |accepted| && !accepted[j]
    requires forall i :: 0 <= i < j ==> accepted[i]
    ensures |PingFrom(dst, last, accepted).events| == j
    ensures PingFrom(dst, last, accepted).status == Failed(Io)
    decreases j
  {
    if j > 0 {
      PingStopsAtFirstRefusal(dst, last + 1, accepted[1..], j - 1);
    }
  }

  /** `k` sends to `dst` of the payloads numbered `first`, `first + 1`, ... */
  function Numbered(dst: SocketAddr, first: nat, k: nat, payload: nat -> seq<byte>): (r: seq<Event>)
    ensures |r| == k
    decreases k
  {
    if k == 0 then [] else [SentTo(dst, payload(first))] + Numbered(dst, first + 1, k - 1, payload)
  }

  /** The `i`-th of those sends carries payload number `i + first`. */
  lemma {:induction false} NumberedAt(dst: SocketAddr, first: nat, k: nat, payload: nat -> seq<byte>, i: nat)
    requires i < k
    ensures Numbered(dst, first, k, payload)[i] == SentTo(dst, payload(i + first))
    decreases i
  {
    if i > 0 {
      NumberedAt(dst, first + 1, k - 1, payload, i - 1);
    }
  }

  /** Each send goes to the group and carries the next sequence number after the counter's start. */
  lemma {:induction false} PingFromProbes(dst: SocketAddr, last: nat, accepted: seq<bool>)
    ensures PingFrom(dst, last, accepted).events ==
      Numbered(dst, last + 1, |PingFrom(dst, last, accepted).events|, Probe)
    decreases |accepted|
  {
    if |accepted| > 0 && accepted[0] {
      PingFromProbes(dst, last + 1, accepted[1..]);
    }
  }

  /** The ping sender for group `group` and port `port`, over the system's answers to its sends:
      every probe goes to that endpoint, and the loop stops at the first refused send. */
  function PingRun(group: IpAddr, port: Port, accepted: seq<bool>): Outcome {
    PingFrom(SocketAddr(group, port), 0, accepted)
  }

  /** While every send is accepted, the `k`-th event is the `k`-th probe, sent to the group. */
  lemma {:induction false} PingRunSendsProbes(group: IpAddr, port: Port, accepted: seq<bool>)
    requires forall i :: 0 <= i < |accepted| ==> accepted[i]
    ensures PingRun(group, port, accepted).status == Pending
    ensures |PingRun(group, port, accepted).events| == |accepted|
    ensures forall i :: 0 <= i < |accepted| ==>
      PingRun(group, port, accepted).events[i] == SentTo(SocketAddr(group, port), Probes(|accepted|)[i])
  {
    var k := |accepted|;
    NoRefusalKeepsGoing(SocketAddr(group, port), 0, accepted);
    forall i | 0 <= i < k
      ensures PingRun(group, port, accepted).events[i] == SentTo(SocketAddr(group, port), Probes(k)[i])
    {
      PingRunProbeAt(group, port, accepted, i);
      ParseProbeExact(Probes(k)[i], i + 1);
    }
  }

  lemma {:induction false} NoRefusalKeepsGoing(dst: SocketAddr, last: nat, accepted: seq<bool>)
    requires forall i :: 0 <= i < |accepted| ==> accepted[i]
    ensures PingFrom(dst, last, accepted).status.Pending?
    decreases |accepted|
  {
    if |accepted| > 0 {
      NoRefusalKeepsGoing(dst, last + 1, accepted[1..]);
    }
  }

  /** A listener answers probe `n` with `PONG`, a space and the digits of `n`: the sequence number
      comes back unchanged. */
  lemma PongEchoesSequence(n: nat)
    ensures Listen.ReplyFor(Probe(n)) == Some(PONG + [SPACE] + Digits(n))
  {
    var p := Probe(n);
    assert p == PING + ([SPACE] + Digits(n));
    assert p[..|PING|] == PING;
    assert p[|PING|..] == [SPACE] + Digits(n);
    assert PONG + ([SPACE] + Digits(n)) == PONG + [SPACE] + Digits(n);
  }

  /** The `i`-th probe sent (from 0) carries sequence number `i + 1`. */
  lemma PingRunNumbered(group: IpAddr, port: Port, accepted: seq<bool>)
    ensures forall i :: 0 <= i < |PingRun(group, port, accepted).events| ==>
      PingRun(group, port, accepted).events[i].SentTo? &&
      ParseProbe(PingRun(group, port, accepted).events[i].payload) == Some(i + 1)
  {
    forall i | 0 <= i < |PingRun(group, port, accepted).events|
      ensures PingRun(group, port, accepted).events[i].SentTo?
      ensures ParseProbe(PingRun(group, port, accepted).events[i].payload) == Some(i + 1)
    {
      PingRunProbeAt(group, port, accepted, i);
      ProbeRoundTrip(i + 1);
    }
  }

  /** The `i`-th send of the sender loop is probe `i + 1` to the group. */
  lemma PingRunProbeAt(group: IpAddr, port: Port, accepted: seq<bool>, i: nat)
    requires i < |PingRun(group, port, accepted).events|
    ensures PingRun(group, port, accepted).events[i] == SentTo(SocketAddr(group, port), Probe(i + 1))
  {
    var dst := SocketAddr(group, port);
    var events := PingRun(group, port, accepted).events;
    PingFromProbes(dst, 0, accepted);
    assert events == Numbered(dst, 1, |events|, Probe);
    NumberedAt(dst, 1, |events|, Probe, i);
  }

  lemma PingFromUnfold(dst: SocketAddr, last: nat, accepted: seq<bool>)
    requires last < |accepted|
    ensures PingFrom(dst, last, accepted[last..]) ==
      if accepted[last] then Then([SentTo(dst, Probe(last + 1))], PingFrom(dst, last + 1, accepted[last + 1..]))
      else Outcome([], Failed(Io))
  {
  }

  /** The sender loop with an unbounded counter (the intended numbering): a counter starting at 0,
      incremented before each send. */
  method RunPing(group: IpAddr, port: Port, accepted: seq<bool>) returns (events: seq<Event>, status: Status)
    ensures Outcome(events, status) == PingRun(group, port, accepted)
    ensures forall i :: 0 <= i < |events| ==> events[i].SentTo? && ParseProbe(events[i].payload) == Some(i + 1)
  {
    var dst := SocketAddr(group, port);
    var seqnum: nat := 0;
    events := [];
    while seqnum < |accepted|
      invariant seqnum <= |accepted| && |events| == seqnum
      invariant PingRun(group, port, accepted) == Then(events, PingFrom(dst, seqnum, accepted[seqnum..]))
    {
      PingFromUnfold(dst, seqnum, accepted);
      if !accepted[seqnum] {
        status := Failed(Io);
        assert events + [] == events;
        PingRunNumbered(group, port, accepted);
        return;
      }
      seqnum := seqnum + 1;
      ThenThen(events, [SentTo(dst, Probe(seqnum))], PingFrom(dst, seqnum, accepted[seqnum..]));
      events := events + [SentTo(dst, Probe(seqnum))];
    }
    status := Pending;
    assert accepted[seqnum..] == [];
    assert events + [] == events;
    PingRunNumbered(group, port, accepted);
  }

  // The counter as the program declares it. `let mut seqnum = 0` gets Rust's default integer
  // type `i32`, so `seqnum += 1` overflows after 2147483647 probes: a debug build panics, a
  // release build wraps to -2147483648. The functions below model the release build; the rest
  // of this module numbers probes with an unbounded counter, the behaviour evidently intended.

  const I32_MAX: int := 0x7FFF_FFFF
  const I32_MIN: int := -0x8000_0000

  /** `seqnum += 1` on an `i32` without overflow checks. */
  function WrappingIncrement(x: int): (y: int)
    requires I32_MIN <= x <= I32_MAX
    ensures I32_MIN <= y <= I32_MAX
    ensures x < I32_MAX ==> y == x + 1
  {
    if x == I32_MAX then I32_MIN else x + 1
  }

  /** The `i32` counter after `k` iterations of the sender loop. */
  function SeqnumAsWritten(k: nat): (x: int)
    ensures I32_MIN <= x <= I32_MAX
    decreases k
  {
    if k == 0 then 0 else WrappingIncrement(SeqnumAsWritten(k - 1))
  }

  /** `format!("{}", x)` for a signed integer: a minus sign before the digits of a negative value. */
  function SignedDigits(x: int): seq<byte> {
    if x < 0 then [MINUS] + Digits(-x) else Digits(x)
  }

  /** The `k`-th probe as the program formats it from its `i32` counter. */
  function ProbeAsWritten(k: nat): seq<byte> {
    PROBE_HEAD + SignedDigits(SeqnumAsWritten(k))
  }

  /** Up to the `i32` limit the program's probes are the intended ones. */
  lemma {:induction false} AsWrittenAgreesBelowLimit(k: nat)
    requires k <= I32_MAX
    ensures SeqnumAsWritten(k) == k
    ensures ProbeAsWritten(k) == Probe(k)
    decreases k
  {
    if k > 0 {
      AsWrittenAgreesBelowLimit(k - 1);
    }
  }

  /** Probe number 2147483648 carries `-2147483648`: the sequence stops counting up and the probe
      no longer has the `PING <n>` form. */
  lemma SeqnumWrapsAtLimit()
    ensures SeqnumAsWritten(I32_MAX + 1) == I32_MIN
    ensures SeqnumAsWritten(I32_MAX + 1) < SeqnumAsWritten(I32_MAX)
    ensures ParseProbe(ProbeAsWritten(I32_MAX + 1)) == None
  {
    AsWrittenAgreesBelowLimit(I32_MAX);
    var p := ProbeAsWritten(I32_MAX + 1);
    assert p[|PROBE_HEAD|..][0] == MINUS;
  }
}
