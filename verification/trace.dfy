/** Observable behaviour of a session: what it sends and logs, and how it stands at the end of its input. */
module Trace {
  import opened Bytes
  import opened Net
  import opened Errors

  /** One observable action of a session loop. */
  datatype Event =
    | SentTo(dst: SocketAddr, payload: seq<byte>)  // `send_to` on an unconnected socket
    | Sent(payload: seq<byte>)                     // `send` on a connected socket
    | Logged(src: SocketAddr, data: seq<byte>)     // the "said:" line a listener prints

  /** Where a session loop is once its input trace is used up:
      still blocked waiting for more (`Pending`), returned `Ok(())` (`Done`), or returned an error. */
  datatype Status = Pending | Done | Failed(error: Error)

  datatype Outcome = Outcome(events: seq<Event>, status: Status)

  /** `o` preceded by the events of earlier iterations. */
  function Then(earlier: seq<Event>, o: Outcome): (r: Outcome)
    ensures r.status == o.status
    ensures |r.events| == |earlier| + |o.events|
    ensures r.events[..|earlier|] == earlier && r.events[|earlier|..] == o.events
  {
    Outcome(earlier + o.events, o.status)
  }

  /** Prefixing in two steps is prefixing with the concatenation. */
  lemma ThenThen(first: seq<Event>, second: seq<Event>, o: Outcome)
    ensures Then(first, Then(second, o)) == Then(first + second, o)
  {
  }
}
