/** The command-line front end of Iperfer: `main` chooses the mode from the
    first token, `runClient` and `runServer` check the rest of the tokens
    before any socket is opened. A rejected command line is one of three
    error messages; an accepted one is a configuration for the sender or for
    the receiver. */
module Arguments {
  import opened JavaInteger

  datatype Config =
    | Client(hostname: string, port: int, time: int)
    | Server(port: int)

  /** Every error line Iperfer can print. The first three come from argument
      checking, the others from the socket layer. */
  datatype Error =
    | MissingOrAdditionalArguments
    | PortOutOfRange
    | TimeNotPositive
    | UnresolvedHostname
    | ConnectFailed
    | ServerStartFailed
  {
    predicate IsArgumentError() {
      MissingOrAdditionalArguments? || PortOutOfRange? || TimeNotPositive?
    }
  }

  datatype Result<+T> = Ok(value: T) | Err(error: Error)

  const ERROR_PREFIX: string := "Error: "

  /** The line printed for each error; every one starts with `Error: `. */
  function Message(e: Error): (line: string)
    ensures |line| > |ERROR_PREFIX| && line[..|ERROR_PREFIX|] == ERROR_PREFIX
  {
    ERROR_PREFIX + match e
      case MissingOrAdditionalArguments => "missing or additional arguments"
      case PortOutOfRange => "port number must be in the range 1024 to 65535"
      case TimeNotPositive => "time must be positive"
      case UnresolvedHostname => "could not resolve hostname"
      case ConnectFailed => "could not connect to server"
      case ServerStartFailed => "could not start server"
  }

  /** Each kind of error has a message of its own. */
  lemma MessagesDistinct(e1: Error, e2: Error)
    requires e1 != e2
    ensures Message(e1) != Message(e2)
  {
  }

  const MIN_PORT: int := 1024
  const MAX_PORT: int := 65535

  predicate ValidPort(port: int) {
    MIN_PORT <= port <= MAX_PORT
  }

  /** What every accepted configuration satisfies: a port in the allowed
      range and, for the sender, a positive `int` duration. */
  predicate ValidConfig(c: Config) {
    && ValidPort(c.port)
    && (c.Client? ==> 0 < c.time && InIntRange(c.time))
  }

  // ---------------------------------------------------------------------
  // Client mode: `-c -h <host> -p <port> -t <time>`, flags in any order.

  /** The three flag/value pairs of a seven-token client command line. */
  function Pairs(args: seq<string>): seq<(string, string)>
    requires |args| == 7
  {
    [(args[1], args[2]), (args[3], args[4]), (args[5], args[6])]
  }

  /** A pair the client loop gets past: a known flag, and for `-p` and `-t`
      a value that parses as an `int`. */
  predicate KnownPair(p: (string, string)) {
    || p.0 == "-h"
    || ((p.0 == "-p" || p.0 == "-t") && ParseInt(p.1).Some?)
  }

  predicate AllKnown(ps: seq<(string, string)>) {
    forall k :: 0 <= k < |ps| ==> KnownPair(ps[k])
  }

  /** The position of the last pair carrying `flag`: a later assignment
      to the same variable overwrites an earlier one. */
  function LastIndex(ps: seq<(string, string)>, flag: string): (r: Option<nat>)
    ensures r.Some? ==> r.value < |ps| && ps[r.value].0 == flag
    ensures r.Some? ==> forall k :: r.value < k < |ps| ==> ps[k].0 != flag
    ensures r.None? ==> forall k :: 0 <= k < |ps| ==> ps[k].0 != flag
  {
    if ps == [] then None
    else if ps[|ps| - 1].0 == flag then Some(|ps| - 1)
    else LastIndex(ps[..|ps| - 1], flag)
  }

  /** The hostname the pairs leave behind; `None` stands for Java's `null`. */
  function BoundHost(ps: seq<(string, string)>): Option<string> {
    var i := LastIndex(ps, "-h");
    if i.Some? then Some(ps[i.value].1) else None
  }

  /** The `int` the pairs leave in the port or time variable; -1, the
      initial value `runClient` gives both, when the flag never occurs. */
  function BoundInt(ps: seq<(string, string)>, flag: string): (n: int)
    requires AllKnown(ps)
    requires flag == "-p" || flag == "-t"
    ensures InIntRange(n)
  {
    var i := LastIndex(ps, flag);
    if i.None? then -1 else ParseInt(ps[i.value].1).value
  }

  /** What one more pair does to the variables of the client loop: only the
      variable its flag names changes, and it takes the pair's value. */
  lemma BindOneMore(done: seq<(string, string)>, p: (string, string))
    ensures AllKnown(done + [p]) <==> AllKnown(done) && KnownPair(p)
    ensures BoundHost(done + [p]) == if p.0 == "-h" then Some(p.1) else BoundHost(done)
    ensures AllKnown(done + [p]) ==>
      && BoundInt(done + [p], "-p") == (if p.0 == "-p" then ParseInt(p.1).value else BoundInt(done, "-p"))
      && BoundInt(done + [p], "-t") == (if p.0 == "-t" then ParseInt(p.1).value else BoundInt(done, "-t"))
  {
    var all := done + [p];
    assert all[..|all| - 1] == done;
    assert AllKnown(all) ==> KnownPair(all[|done|]);
  }

  /** The verdict of `runClient` on its arguments: wrong token count or a bad
      pair, then a variable still at its initial value, then the port range,
      then the sign of the time. */
  function ClientConfig(args: seq<string>): (r: Result<Config>)
    ensures |args| != 7 ==> r == Err(MissingOrAdditionalArguments)
    ensures r.Ok? ==> r.value.Client? && ValidConfig(r.value)
    ensures r.Err? ==> r.error.IsArgumentError()
  {
    if |args| != 7 then Err(MissingOrAdditionalArguments)
    else
      var ps := Pairs(args);
      if !AllKnown(ps) then Err(MissingOrAdditionalArguments)
      else
        var hostname := BoundHost(ps);
        var port := BoundInt(ps, "-p");
        var time := BoundInt(ps, "-t");
        if hostname.None? || port == -1 || time == -1 then Err(MissingOrAdditionalArguments)
        else if port < MIN_PORT || port > MAX_PORT then Err(PortOutOfRange)
        else if time <= 0 then Err(TimeNotPositive)
        else Ok(Client(hostname.value, port, time))
  }

  /** The argument handling of `runClient`: a count check, then a loop over
      the flag/value pairs that fills `hostname`, `port` and `time`, then the
      three final checks. */
  method ParseClientArguments(args: seq<string>) returns (r: Result<Config>)
    ensures r == ClientConfig(args)
  {
    if |args| != 7 {
      return Err(MissingOrAdditionalArguments);
    }
    ghost var ps := Pairs(args);
    var hostname: Option<string> := None;
    var port := -1;
    var time := -1;
    var i := 1;
    while i < |args|
      invariant 1 <= i <= 7 && i % 2 == 1
      invariant AllKnown(ps[..i / 2])
      invariant hostname == BoundHost(ps[..i / 2])
      invariant port == BoundInt(ps[..i / 2], "-p")
      invariant time == BoundInt(ps[..i / 2], "-t")
    {
      // `runClient`'s check at the top of its loop, that a value follows
      // the flag, never fails here:
      // with seven tokens `i` is only ever 1, 3 or 5.
      assert i + 1 < |args|;
      var flag, value := args[i], args[i + 1];
      assert ps[..i / 2 + 1] == ps[..i / 2] + [(flag, value)];
      BindOneMore(ps[..i / 2], (flag, value));
      if flag == "-h" {
        hostname := Some(value);
      } else if flag == "-p" {
        var parsed := ParseInt(value);
        if parsed.None? {
          return Err(MissingOrAdditionalArguments);
        }
        port := parsed.value;
      } else if flag == "-t" {
        var parsed := ParseInt(value);
        if parsed.None? {
          return Err(MissingOrAdditionalArguments);
        }
        time := parsed.value;
      } else {
        return Err(MissingOrAdditionalArguments);
      }
      i := i + 2;
    }
    assert ps[..i / 2] == ps;
    if hostname.None? || port == -1 || time == -1 {
      return Err(MissingOrAdditionalArguments);
    }
    if port < MIN_PORT || port > MAX_PORT {
      return Err(PortOutOfRange);
    }
    if time <= 0 {
      return Err(TimeNotPositive);
    }
    return Ok(Client(hostname.value, port, time));
  }

  // ---------------------------------------------------------------------
  // Server mode: exactly `-s -p <port>`.

  /** The verdict of `runServer` on its arguments. */
  function ServerConfig(args: seq<string>): (r: Result<Config>)
    ensures r.Ok? ==> r.value.Server? && ValidConfig(r.value)
    ensures r.Ok? ==> |args| == 3 && args[1] == "-p" && ParseInt(args[2]) == Some(r.value.port)
    ensures |args| != 3 || args[1] != "-p" || ParseInt(args[2]).None? ==> r == Err(MissingOrAdditionalArguments)
    ensures r == Err(PortOutOfRange) <==>
      |args| == 3 && args[1] == "-p" && ParseInt(args[2]).Some? && !ValidPort(ParseInt(args[2]).value)
    ensures |args| == 3 && args[1] == "-p" && ParseInt(args[2]).Some? && ValidPort(ParseInt(args[2]).value) ==>
      r == Ok(Server(ParseInt(args[2]).value))
    ensures r.Err? ==> r.error.IsArgumentError() && !r.error.TimeNotPositive?
  {
    if |args| != 3 then Err(MissingOrAdditionalArguments)
    else if args[1] != "-p" then Err(MissingOrAdditionalArguments)
    else
      match ParseInt(args[2])
      case None => Err(MissingOrAdditionalArguments)
      case Some(port) =>
        if port < MIN_PORT || port > MAX_PORT then Err(PortOutOfRange) else Ok(Server(port))
  }

  // ---------------------------------------------------------------------
  // Dispatch.

  /** `main`: no token, or a first token other than `-c` and `-s`, is the
      argument-shape error; otherwise the mode's own checks decide. */
  function Validate(args: seq<string>): (r: Result<Config>)
    ensures |args| == 0 ==> r == Err(MissingOrAdditionalArguments)
    ensures |args| > 0 && args[0] != "-c" && args[0] != "-s" ==> r == Err(MissingOrAdditionalArguments)
    ensures r.Ok? ==> ValidConfig(r.value) && (r.value.Client? <==> args[0] == "-c")
    ensures r.Err? ==> r.error.IsArgumentError()
  {
    if |args| < 1 then Err(MissingOrAdditionalArguments)
    else if args[0] == "-c" then ClientConfig(args)
    else if args[0] == "-s" then ServerConfig(args)
    else Err(MissingOrAdditionalArguments)
  }
}
