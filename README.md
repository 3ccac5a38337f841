# Iperfer, modelled in Dafny

Iperfer is a small throughput meter with two roles. The sender (`-c -h <host> -p <port> -t <time>`) writes 1000-byte chunks to a receiver for `time` seconds. The receiver (`-s -p <port>`) accepts one connection and counts bytes until the peer closes it. Each side prints the kilobytes moved and a rate.

This project models the logic in `lab1/Iperfer.java` that does not depend on the network:

- `JavaInteger` (`java_integer.dfy`): `Integer.parseInt` in radix 10, as Java SE documents it. It accepts an optional `+` or `-`, then one or more decimal digits, and the value must fit in a 32-bit `int`. Parsing undoes `ShowInt`, the canonical decimal rendering; the other forms `parseInt` accepts (a leading `+`, leading zeros) are covered by their own lemmas.
- `Arguments` (`arguments.dfy`): the checks in `main`, `runClient` and `runServer` that run before any socket is opened. The client's flag loop is the method `ParseClientArguments`. It is proved equal to the function `ClientConfig`, and `Validate` uses that function for dispatch. Sentinels follow the source: `None` stands for a `null` hostname, and -1 is the initial port and time.
- `ArgumentsProperties` (`arguments_properties.dfy`): what the validator accepts, stated without the loop. It uses the positions of the three client flags and the round trip through `CommandLine`, the canonical command line of a configuration. It also works out the verdict on a few concrete command lines.
- `Transfer` (`transfer.dfy`): the byte accounting of the send loop and the receive loop, and the truncation to whole kilobytes. The clock is a sequence of `nanoTime` readings in the order the sender takes them. The stream is a sequence of `read` results ending in -1.

One might expect `-c -h host -p 5000 -t -1` to print "time must be positive". In the code, the value -1 is indistinguishable from the initial value of `time`, so the program prints "missing or additional arguments". The model follows the code (`ExampleTimeMinusOne`). A port of -1 in client mode behaves the same way. In server mode there is no sentinel, so `-s -p -1` gets the range error (`ExampleServerMinusOne`).

## Model

| member | source | states |
|---|---|---|
| JavaInteger.ParseInt | lab1/Iperfer.java:84-90 | A parsed value is a 32-bit `int`. An accepted string is non-empty, has an optional sign followed by at least one digit, and has only digits after position 0. The sign of the value matches the leading `-`. |
| JavaInteger.ParseShowInt | lab1/Iperfer.java:84-90 | Parsing the canonical rendering of any `int` gives that `int` back. |
| JavaInteger.UnsignedParse | lab1/Iperfer.java:84-90 | Unsigned digits, leading zeros included, parse to the number they denote when it is at most 2^31-1, and fail otherwise. |
| JavaInteger.PlusSignParse | lab1/Iperfer.java:94-100 | A leading `+` before digits does not change the result. |
| JavaInteger.MinusSignParse | lab1/Iperfer.java:94-100 | A leading `-` before digits negates the value when the negation is still an `int`, and fails otherwise. |
| Arguments.Message | lab1/Iperfer.java:29 | Gives the line printed for each error (lines 29, 58, 118, 124, 176, 180, 274); every line starts with `Error: `. |
| Arguments.MessagesDistinct | lab1/Iperfer.java:115-126 | Different errors print different lines, so each of the three validation errors can be told apart from the output. |
| Arguments.LastIndex | lab1/Iperfer.java:69-107 | Finds the last pair that carries a flag, which is the assignment the loop leaves in place. Returns none exactly when no pair carries it. |
| Arguments.BindOneMore | lab1/Iperfer.java:77-106 | One more flag/value pair changes only the variable its flag names, and that variable takes the pair's value. A bad pair makes the whole list bad. |
| Arguments.ClientConfig | lab1/Iperfer.java:54-126 | A token count other than 7 gives the shape error. Every accepted client configuration has a port in 1024..65535 and a positive `int` time. Every rejection is one of the three argument errors. |
| Arguments.ParseClientArguments | lab1/Iperfer.java:57-126 | The imperative loop over flag/value pairs, with early exits on a bad flag or bad number, returns exactly `ClientConfig(args)`. Its assertion shows that the check at lines 71-74 cannot fire with seven tokens. |
| Arguments.ServerConfig | lab1/Iperfer.java:192-221 | An accepted command line is `[-s, -p, N]` (mode token aside) with the port equal to `parseInt(N)`, and the port is in 1024..65535. A token count other than 3, a second token other than `-p`, or an `N` that does not parse gives the shape error. The range error occurs exactly when `N` parses to an `int` outside 1024..65535, and an `N` that parses to an `int` inside it (`5000`, `+5000` or `05000`) is accepted with that port. No rejection is the time error. |
| Arguments.Validate | lab1/Iperfer.java:25-45 | An empty argument list, or a first token other than `-c` or `-s`, gives the shape error. An accepted configuration is valid, and it is a client one exactly when the first token is `-c`. |
| ArgumentsProperties.LookupPermuted | lab1/Iperfer.java:69-107 | When the flags are a permutation, each variable is set by the pair at its flag's position. |
| ArgumentsProperties.ClientPermutedOutcome | lab1/Iperfer.java:63-126 | Gives the verdict for seven tokens whose flags are a permutation and whose numbers parse. A -1 port or time is the shape error. Otherwise the port range is checked first and the time sign second. If both pass, the configuration holds the values that follow the flags. |
| ArgumentsProperties.ClientPermutedParseFailure | lab1/Iperfer.java:84-101 | A `-p` or `-t` value that is not an `int` gives the shape error. |
| ArgumentsProperties.ClientRejectsUnpermutedFlags | lab1/Iperfer.java:69-113 | Seven tokens with an unknown flag, or a repeated flag at positions 1, 3 and 5, give the shape error. |
| ArgumentsProperties.ClientAcceptedShape | lab1/Iperfer.java:69-126 | When a client command line is accepted, its flags sit at three distinct positions 1, 3 and 5, and the configuration holds the values that follow them. |
| ArgumentsProperties.ValidateCommandLine | lab1/Iperfer.java:25-126 | Every valid configuration is accepted from its canonical command line. Combined with `Validate`'s contract, the accepted configurations are exactly the valid ones. |
| ArgumentsProperties.ServerPortOutOfRange | lab1/Iperfer.java:207-221 | `-s -p N`, with `N` any text that parses to an `int` outside 1024..65535 (including -1, `+80` or `0080`), gives the range error. |
| ArgumentsProperties.ClientPortOutOfRange | lab1/Iperfer.java:109-120 | In client mode, with any flag order and when the time is an `int` other than -1, a port of -1 gives the shape error. Any other `int` port outside 1024..65535 gives the range error. The numbers may be in any form `parseInt` accepts. |
| ArgumentsProperties.ExamplePortTooLarge | lab1/Iperfer.java:115-120 | `-c -h host -p 99999 -t 5` gives the range error. |
| ArgumentsProperties.ExampleTimeMinusOne | lab1/Iperfer.java:109-113 | `-c -h host -p 5000 -t -1` gives the shape error. |
| ArgumentsProperties.ExampleTimeZero | lab1/Iperfer.java:122-126 | `-c -t 0 -p 5000 -h host` gives "time must be positive". |
| ArgumentsProperties.ExampleServerNotANumber | lab1/Iperfer.java:207-215 | `-s -p abc` gives the shape error. |
| ArgumentsProperties.ExampleServerMinusOne | lab1/Iperfer.java:217-221 | `-s -p -1` gives the range error. |
| ArgumentsProperties.ExampleClientTooShort | lab1/Iperfer.java:57-60 | `-c -h host -p 5000` (five tokens) gives the shape error. |
| Transfer.Kilobytes | lab1/Iperfer.java:162-172 | The reported kilobytes are the whole thousands in the byte count, with the remainder dropped. |
| Transfer.KilobytesOfChunks | lab1/Iperfer.java:149-172 | A byte count made of whole 1000-byte chunks is reported as exactly the number of chunks. |
| Transfer.KilobytesMonotone | lab1/Iperfer.java:259-266 | More bytes never report fewer kilobytes. |
| Transfer.Send | lab1/Iperfer.java:141-158 | Every loop test before the last found the clock before the deadline, and the last test found it at or past the deadline. The counter is 1000 times the number of writes. The reported kilobytes equal the number of writes. Elapsed time runs from the first reading to the reading after the loop. With a non-decreasing clock, elapsed time is at least `time` seconds. |
| Transfer.SumBounds | lab1/Iperfer.java:241-252 | Reads of at most one 1000-byte buffer each total between 0 and 1000 bytes per read. |
| Transfer.Receive | lab1/Iperfer.java:243-266 | The loop stops at the first -1. The counter is the sum of all earlier read results and at most 1000 bytes per read. The reported kilobytes never exceed the number of reads that returned data. |

## Left out

- Sockets are not modelled: creating and connecting the client socket, `ServerSocket` and `accept`, stream `write`, `read` and `flush`, and the closing done by try-with-resources and `clientSocket.close()`. All of this is network I/O. The clock readings and read results stand in for it as input sequences.
- Exception handling is not modelled: which socket call raises `UnknownHostException` or `IOException`, and how each maps to "could not resolve hostname", "could not connect to server" or "could not start server". These depend on foreign library behaviour. Only the six error lines are modelled, in `Arguments.Message`.
- `System.exit` and the exit status are not modelled. An error is an `Err` result instead.
- The elapsed seconds as a `double`, the Mbps rate and the `%.3f` formatting of the result lines are floating point and are not modelled.
- `Transfer.Kilobytes` is integer division. It equals the source's `(long) (bytes / 1000.0)` only for byte counts below 2^53.
- `Transfer.Send`: does not model 64-bit overflow of `startTime + time * 1_000_000_000L`, nor wrap-around of `nanoTime`. Clock values are unbounded integers. The elapsed-time lower bound assumes a non-decreasing clock. No accuracy claim beyond that bound is made.
- `Transfer.Send` and `Transfer.Receive`: do not model overflow of the `long` byte counters. Counts are unbounded naturals.
- `Transfer.Receive`: the two `nanoTime` readings around the receive loop are not modelled, because they only feed the rate. The bound of 0 to 1000 on each read result is `InputStream.read`'s contract for a 1000-byte buffer, stated as a precondition.
- `JavaInteger.ParseInt`: accepts only ASCII digits. Java's `Character.digit` also accepts other Unicode decimal digits, so such tokens are accepted by the program and rejected by the model.
- The contents of the 1000-byte buffer are not modelled: they are zeros and are never inspected.
- It is not claimed that the receiver counts exactly what the sender wrote. That depends on the transport, not on this code.
