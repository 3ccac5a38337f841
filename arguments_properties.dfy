/** What the validator of Iperfer accepts and rejects, stated without the
    loop: in terms of the positions of the three flags in the command line,
    and as a round trip through the canonical command line of a
    configuration. */
module ArgumentsProperties {
  import opened JavaInteger
  import opened Arguments

  /** The flags at positions 1, 3 and 5 are `-h`, `-p` and `-t` in some
      order: three distinct members of a three-element set. */
  predicate FlagsPermuted(args: seq<string>)
    requires |args| == 7
  {
    && IsFlag(args[1]) && IsFlag(args[3]) && IsFlag(args[5])
    && args[1] != args[3] && args[1] != args[5] && args[3] != args[5]
  }

  predicate IsFlag(s: string) {
    s == "-h" || s == "-p" || s == "-t"
  }

  /** Positions `hi`, `pi` and `ti` carry `-h`, `-p` and `-t`. */
  predicate FlagsAt(args: seq<string>, hi: nat, pi: nat, ti: nat)
    requires |args| == 7
  {
    && {hi, pi, ti} == {1, 3, 5}
    && args[hi] == "-h" && args[pi] == "-p" && args[ti] == "-t"
  }

  /** With the flags in any order, the pair that sets each variable is the
      one at the position of its flag. */
  lemma LookupPermuted(args: seq<string>, hi: nat, pi: nat, ti: nat)
    requires |args| == 7 && FlagsAt(args, hi, pi, ti)
    ensures LastIndex(Pairs(args), "-h") == Some(hi / 2)
    ensures LastIndex(Pairs(args), "-p") == Some(pi / 2)
    ensures LastIndex(Pairs(args), "-t") == Some(ti / 2)
  {
    var ps := Pairs(args);
    assert hi in {1, 3, 5} && pi in {1, 3, 5} && ti in {1, 3, 5};
    assert hi != pi && hi != ti && pi != ti;
    assert ps[hi / 2] == (args[hi], args[hi + 1]);
    assert ps[pi / 2] == (args[pi], args[pi + 1]);
    assert ps[ti / 2] == (args[ti], args[ti + 1]);
  }

  /** Full verdict on a command line whose flags are a permutation and whose
      numbers parse: a literal -1 collides with the initial value and is the
      shape error; then the port range is checked, then the time sign. */
  lemma ClientPermutedOutcome(args: seq<string>, hi: nat, pi: nat, ti: nat, port: int, time: int)
    requires |args| == 7 && FlagsAt(args, hi, pi, ti)
    requires ParseInt(args[pi + 1]) == Some(port) && ParseInt(args[ti + 1]) == Some(time)
    ensures ClientConfig(args) ==
      if port == -1 || time == -1 then Err(MissingOrAdditionalArguments)
      else if !ValidPort(port) then Err(PortOutOfRange)
      else if time <= 0 then Err(TimeNotPositive)
      else Ok(Client(args[hi + 1], port, time))
  {
    LookupPermuted(args, hi, pi, ti);
    var ps := Pairs(args);
    assert KnownPair(ps[hi / 2]) && KnownPair(ps[pi / 2]) && KnownPair(ps[ti / 2]);
    assert AllKnown(ps);
    assert BoundHost(ps) == Some(args[hi + 1]);
    assert BoundInt(ps, "-p") == port;
    assert BoundInt(ps, "-t") == time;
  }

  /** With the flags a permutation, a `-p` or `-t` value that does not parse
      is the shape error. */
  lemma ClientPermutedParseFailure(args: seq<string>, hi: nat, pi: nat, ti: nat)
    requires |args| == 7 && FlagsAt(args, hi, pi, ti)
    requires ParseInt(args[pi + 1]).None? || ParseInt(args[ti + 1]).None?
    ensures ClientConfig(args) == Err(MissingOrAdditionalArguments)
  {
    LookupPermuted(args, hi, pi, ti);
    var ps := Pairs(args);
    assert !KnownPair(ps[pi / 2]) || !KnownPair(ps[ti / 2]);
  }

  /** Unknown or repeated flags are the shape error: an unknown flag stops
      the loop, and a repeated one leaves another variable at its initial
      value. */
  lemma ClientRejectsUnpermutedFlags(args: seq<string>)
    requires |args| == 7 && !FlagsPermuted(args)
    ensures ClientConfig(args) == Err(MissingOrAdditionalArguments)
  {
    var ps := Pairs(args);
    assert ps[0].0 == args[1] && ps[1].0 == args[3] && ps[2].0 == args[5];
    if AllKnown(ps) {
      assert KnownPair(ps[0]) && KnownPair(ps[1]) && KnownPair(ps[2]);
      // All three flags are known, so two of them are equal and one of
      // `-h`, `-p`, `-t` is absent.
      var missing :=
        if args[1] != "-h" && args[3] != "-h" && args[5] != "-h" then "-h"
        else if args[1] != "-p" && args[3] != "-p" && args[5] != "-p" then "-p"
        else "-t";
      assert forall k :: 0 <= k < 3 ==> ps[k].0 != missing;
      assert LastIndex(ps, missing).None?;
    }
  }

  /** An accepted client command line has its flags at three distinct odd
      positions, and the configuration holds the values that follow them. */
  lemma ClientAcceptedShape(args: seq<string>) returns (hi: nat, pi: nat, ti: nat)
    requires ClientConfig(args).Ok?
    ensures |args| == 7 && FlagsAt(args, hi, pi, ti)
    ensures ClientConfig(args).value.hostname == args[hi + 1]
    ensures ParseInt(args[pi + 1]) == Some(ClientConfig(args).value.port)
    ensures ParseInt(args[ti + 1]) == Some(ClientConfig(args).value.time)
  {
    assert |args| == 7;
    if !FlagsPermuted(args) {
      ClientRejectsUnpermutedFlags(args);
    }
    hi := if args[1] == "-h" then 1 else if args[3] == "-h" then 3 else 5;
    pi := if args[1] == "-p" then 1 else if args[3] == "-p" then 3 else 5;
    ti := if args[1] == "-t" then 1 else if args[3] == "-t" then 3 else 5;
    if ParseInt(args[pi + 1]).None? || ParseInt(args[ti + 1]).None? {
      ClientPermutedParseFailure(args, hi, pi, ti);
    }
    ClientPermutedOutcome(args, hi, pi, ti, ParseInt(args[pi + 1]).value, ParseInt(args[ti + 1]).value);
  }

  // ---------------------------------------------------------------------
  // Round trip through the canonical command line.

  /** The command line that asks for configuration `c`, with the client
      flags in the order the usage text gives. */
  function CommandLine(c: Config): (args: seq<string>)
    ensures |args| == if c.Client? then 7 else 3
  {
    match c
    case Client(hostname, port, time) => ["-c", "-h", hostname, "-p", ShowInt(port), "-t", ShowInt(time)]
    case Server(port) => ["-s", "-p", ShowInt(port)]
  }

  /** Every valid configuration is accepted from its own command line, so
      together with the contract of `Validate` the accepted configurations
      are exactly the valid ones. */
  lemma ValidateCommandLine(c: Config)
    requires ValidConfig(c)
    ensures Validate(CommandLine(c)) == Ok(c)
  {
    var args := CommandLine(c);
    ParseShowInt(c.port);
    if c.Client? {
      ParseShowInt(c.time);
      ClientPermutedOutcome(args, 1, 3, 5, c.port, c.time);
    }
  }

  /** In server mode, any value that parses as an `int` outside 1024..65535,
      -1 included and in whatever form `parseInt` accepts, is the range error. */
  lemma ServerPortOutOfRange(args: seq<string>, port: int)
    requires |args| == 3 && args[0] == "-s" && args[1] == "-p"
    requires ParseInt(args[2]) == Some(port) && !ValidPort(port)
    ensures Validate(args) == Err(PortOutOfRange)
  {
  }

  /** In client mode, when the time is an `int` other than -1, a port of -1
      is the shape error and any other `int` port outside 1024..65535 the
      range error, whatever the flag order and whatever form `parseInt`
      accepts the numbers in. */
  lemma ClientPortOutOfRange(args: seq<string>, hi: nat, pi: nat, ti: nat, port: int, time: int)
    requires |args| == 7 && args[0] == "-c" && FlagsAt(args, hi, pi, ti)
    requires ParseInt(args[pi + 1]) == Some(port) && ParseInt(args[ti + 1]) == Some(time)
    requires time != -1 && !ValidPort(port)
    ensures Validate(args) == if port == -1 then Err(MissingOrAdditionalArguments) else Err(PortOutOfRange)
  {
    ClientPermutedOutcome(args, hi, pi, ti, port, time);
  }

  // ---------------------------------------------------------------------
  // Concrete command lines.

  lemma ExamplePortTooLarge()
    ensures Validate(["-c", "-h", "host", "-p", "99999", "-t", "5"]) == Err(PortOutOfRange)
  {
    assert ShowInt(99999) == "99999";
    assert ShowInt(5) == "5";
    ParseShowInt(99999);
    ParseShowInt(5);
    ClientPortOutOfRange(["-c", "-h", "host", "-p", "99999", "-t", "5"], 1, 3, 5, 99999, 5);
  }

  /** `-t -1` meets the initial value of `time` and is reported as the shape
      error, not as a non-positive time. */
  lemma ExampleTimeMinusOne()
    ensures Validate(["-c", "-h", "host", "-p", "5000", "-t", "-1"]) == Err(MissingOrAdditionalArguments)
  {
    var args := ["-c", "-h", "host", "-p", "5000", "-t", "-1"];
    assert ShowInt(5000) == "5000" && ShowInt(-1) == "-1";
    ParseShowInt(5000);
    ParseShowInt(-1);
    ClientPermutedOutcome(args, 1, 3, 5, 5000, -1);
  }

  lemma ExampleTimeZero()
    ensures Validate(["-c", "-t", "0", "-p", "5000", "-h", "host"]) == Err(TimeNotPositive)
  {
    var args := ["-c", "-t", "0", "-p", "5000", "-h", "host"];
    assert ShowInt(5000) == "5000" && ShowInt(0) == "0";
    ParseShowInt(5000);
    ParseShowInt(0);
    ClientPermutedOutcome(args, 5, 3, 1, 5000, 0);
  }

  lemma ExampleServerNotANumber()
    ensures Validate(["-s", "-p", "abc"]) == Err(MissingOrAdditionalArguments)
  {
    assert !IsDigit("abc"[0]);
  }

  lemma ExampleServerMinusOne()
    ensures Validate(["-s", "-p", "-1"]) == Err(PortOutOfRange)
  {
    assert ShowInt(-1) == "-1";
    ParseShowInt(-1);
    ServerPortOutOfRange(["-s", "-p", "-1"], -1);
  }

  lemma ExampleClientTooShort()
    ensures Validate(["-c", "-h", "host", "-p", "5000"]) == Err(MissingOrAdditionalArguments)
  {
  }
}
