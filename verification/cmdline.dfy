/** Command-line classification (`parse_cmdline`) and the multicast gate in `run`. */
module Cmdline {
  import opened Wrappers
  import opened Net
  import opened Errors

  datatype Command = Listen | Send | Ping

  /** The validated triple `run` dispatches on. */
  datatype Session = Session(cmd: Command, group: IpAddr, port: Port)

  /** The command word that selects each command. */
  function CommandWord(c: Command): string {
    match c
    case Listen => "listen"
    case Send => "send"
    case Ping => "ping"
  }

  /** The `match` on the command word: exactly `listen`, `send` or `ping`. */
  function CommandFor(word: string): Option<Command> {
    if word == "listen" then Some(Listen)
    else if word == "send" then Some(Send)
    else if word == "ping" then Some(Ping)
    else None
  }

  /** Command words and commands correspond one to one. */
  lemma CommandWordRoundTrip(c: Command, word: string)
    ensures CommandFor(CommandWord(c)) == Some(c)
    ensures CommandFor(word) == Some(c) ==> word == CommandWord(c)
    ensures CommandFor(word).None? <==> word !in {"listen", "send", "ping"}
  {
  }

  /** The arguments after the program name (`env::args().skip(1)`). */
  function Arguments(argv: seq<string>): seq<string> {
    if |argv| == 0 then [] else argv[1..]
  }

  /** `parse_cmdline`. Address and port text are read by the given parsers, which stand for
      `str::parse::<IpAddr>` and `str::parse::<u16>`. */
  function ParseCmdline(argv: seq<string>,
                        parseAddr: string -> Option<IpAddr>,
                        parsePort: string -> Option<Port>): (r: Result<Session, Error>)
    ensures r.Ok? <==>
      |argv| == 4 && CommandFor(argv[1]).Some? && parseAddr(argv[2]).Some? && parsePort(argv[3]).Some?
    ensures r.Ok? ==>
      r.value == Session(CommandFor(argv[1]).value, parseAddr(argv[2]).value, parsePort(argv[3]).value)
    ensures r == Err(Usage) <==> |argv| != 4 || CommandFor(argv[1]).None?
    ensures r == Err(BadAddress) <==>
      |argv| == 4 && CommandFor(argv[1]).Some? && parseAddr(argv[2]).None?
    ensures r == Err(BadPort) <==>
      |argv| == 4 && CommandFor(argv[1]).Some? && parseAddr(argv[2]).Some? && parsePort(argv[3]).None?
    ensures r.Err? ==> r.error.Usage? || r.error.BadAddress? || r.error.BadPort?
  {
    var args := Arguments(argv);
    if |args| != 3 then Err(Usage)
    else
      match CommandFor(args[0])
      case None => Err(Usage)
      case Some(cmd) =>
        match parseAddr(args[1])
        case None => Err(BadAddress)
        case Some(addr) =>
          match parsePort(args[2])
          case None => Err(BadPort)
          case Some(port) => Ok(Session(cmd, addr, port))
  }

  /** `run` up to the dispatch: the session it starts, or the error it stops with. */
  function Run(argv: seq<string>,
               parseAddr: string -> Option<IpAddr>,
               parsePort: string -> Option<Port>): (r: Result<Session, Error>)
    ensures r.Ok? <==>
      && |argv| == 4
      && CommandFor(argv[1]).Some?
      && parseAddr(argv[2]).Some?
      && parsePort(argv[3]).Some?
      && IsMulticast(parseAddr(argv[2]).value)
    ensures r.Ok? ==> IsMulticast(r.value.group) && r == ParseCmdline(argv, parseAddr, parsePort)
    ensures ParseCmdline(argv, parseAddr, parsePort).Err? ==> r == ParseCmdline(argv, parseAddr, parsePort)
    ensures (r.Err? && KindOf(r.error) == InvalidInput) <==>
      (|argv| != 4 || CommandFor(argv[1]).None? ||
       (parseAddr(argv[2]).Some? && parsePort(argv[3]).Some? && !IsMulticast(parseAddr(argv[2]).value)))
  {
    match ParseCmdline(argv, parseAddr, parsePort)
    case Err(e) => Err(e)
    case Ok(s) => if IsMulticast(s.group) then Ok(s) else Err(NotMulticast(s.group))
  }

  /** A wrong argument count or command word is reported before any address or port text is read:
      the parsers' answers make no difference. */
  lemma UsageBeforeParsing(argv: seq<string>,
                           parseAddr: string -> Option<IpAddr>, parsePort: string -> Option<Port>,
                           parseAddr': string -> Option<IpAddr>, parsePort': string -> Option<Port>)
    requires |argv| != 4 || CommandFor(argv[1]).None?
    ensures Run(argv, parseAddr, parsePort) == Run(argv, parseAddr', parsePort') == Err(Usage)
  {
  }

  /** A non-multicast address is rejected with `InvalidInput` naming that address, whatever the command. */
  lemma NonMulticastRejected(argv: seq<string>,
                             parseAddr: string -> Option<IpAddr>, parsePort: string -> Option<Port>)
    requires |argv| == 4 && CommandFor(argv[1]).Some?
    requires parseAddr(argv[2]).Some? && parsePort(argv[3]).Some?
    requires !IsMulticast(parseAddr(argv[2]).value)
    ensures Run(argv, parseAddr, parsePort) == Err(NotMulticast(parseAddr(argv[2]).value))
    ensures KindOf(Run(argv, parseAddr, parsePort).error) == InvalidInput
  {
  }
}
