/** The byte accounting of the two roles of Iperfer. The sender writes one
    chunk per pass of a loop that reads the clock before every write; the
    receiver adds up what each read returns until the end of the stream.
    Clock readings and read results are given as sequences, in the order
    the program obtains them. */
module Transfer {

  /** Size of the buffer written, and of the one read into, on every call. */
  const CHUNK_SIZE: nat := 1000
  /** Iperfer reports decimal kilobytes. */
  const BYTES_PER_KB: nat := 1000
  const NANOS_PER_SECOND: nat := 1_000_000_000

  /** The whole kilobytes in a byte count, the fraction dropped, as the cast
      of `bytes / 1000.0` to `long` gives it. */
  function Kilobytes(bytes: nat): (kb: nat)
    ensures BYTES_PER_KB * kb <= bytes < BYTES_PER_KB * (kb + 1)
  {
    bytes / BYTES_PER_KB
  }

  /** A count of whole chunks is reported as that many kilobytes. */
  lemma KilobytesOfChunks(chunks: nat)
    ensures Kilobytes(CHUNK_SIZE * chunks) == chunks
  {
  }

  /** More bytes never report fewer kilobytes. */
  lemma KilobytesMonotone(a: nat, b: nat)
    requires a <= b
    ensures Kilobytes(a) <= Kilobytes(b)
  {
  }

  // ---------------------------------------------------------------------
  // Sender.

  ghost predicate NonDecreasing(clock: seq<int>) {
    forall i, j :: 0 <= i <= j < |clock| ==> clock[i] <= clock[j]
  }

  function Deadline(start: int, time: int): int {
    start + time * NANOS_PER_SECOND
  }

  /** The timed loop of `runClient`. `clock[0]` is the start time, then comes
      the reading taken by each test of the loop condition, then the reading
      taken after the flush. The loop ends at the first test that finds the
      clock at or past the deadline; the program waits on the clock until it
      gets there, which the precondition states as a reading that reaches it,
      followed by the final one. Returns the number of writes, the bytes
      counted and the elapsed nanoseconds. */
  method Send(clock: seq<int>, time: int) returns (writes: nat, bytesSent: nat, elapsed: int)
    requires exists j :: 1 <= j < |clock| - 1 && clock[j] >= Deadline(clock[0], time)
    ensures writes + 2 < |clock|
    ensures forall k :: 1 <= k <= writes ==> clock[k] < Deadline(clock[0], time)
    ensures clock[writes + 1] >= Deadline(clock[0], time)
    ensures bytesSent == CHUNK_SIZE * writes
    ensures Kilobytes(bytesSent) == writes
    ensures elapsed == clock[writes + 2] - clock[0]
    ensures NonDecreasing(clock) ==> elapsed >= time * NANOS_PER_SECOND
  {
    ghost var reached :| 1 <= reached < |clock| - 1 && clock[reached] >= Deadline(clock[0], time);
    var startTime := clock[0];
    var endTime := startTime + time * NANOS_PER_SECOND;
    var next := 1;
    writes, bytesSent := 0, 0;
    while clock[next] < endTime
      invariant next == writes + 1 <= reached
      invariant forall k :: 1 <= k < next ==> clock[k] < endTime
      invariant bytesSent == CHUNK_SIZE * writes
      decreases reached - next
    {
      bytesSent := bytesSent + CHUNK_SIZE;
      writes := writes + 1;
      next := next + 1;
    }
    var actualEndTime := clock[next + 1];
    elapsed := actualEndTime - startTime;
    KilobytesOfChunks(writes);
  }

  // ---------------------------------------------------------------------
  // Receiver.

  /** Total of a sequence of byte counts. */
  function Sum(counts: seq<int>): int {
    if counts == [] then 0 else Sum(counts[..|counts| - 1]) + counts[|counts| - 1]
  }

  /** Each read returns at most one buffer, so the total is at most one
      buffer per read. */
  lemma {:induction false} SumBounds(counts: seq<int>)
    requires forall k :: 0 <= k < |counts| ==> 0 <= counts[k] <= CHUNK_SIZE
    ensures 0 <= Sum(counts) <= CHUNK_SIZE * |counts|
  {
    if counts != [] {
      SumBounds(counts[..|counts| - 1]);
    }
  }

  /** The drain loop of `runServer`. `results` holds the results of successive
      `read` calls on a 1000-byte buffer: a count from 0 to 1000, or -1 at the
      end of the stream, which the peer's close eventually delivers. Returns
      how many reads returned data and the bytes counted. */
  method Receive(results: seq<int>) returns (dataReads: nat, bytesReceived: nat)
    requires forall k :: 0 <= k < |results| ==> -1 <= results[k] <= CHUNK_SIZE
    requires exists k :: 0 <= k < |results| && results[k] == -1
    ensures dataReads < |results| && results[dataReads] == -1
    ensures forall k :: 0 <= k < dataReads ==> results[k] != -1
    ensures bytesReceived == Sum(results[..dataReads])
    ensures bytesReceived <= CHUNK_SIZE * dataReads
    ensures Kilobytes(bytesReceived) <= dataReads
  {
    ghost var eof :| 0 <= eof < |results| && results[eof] == -1;
    dataReads, bytesReceived := 0, 0;
    while results[dataReads] != -1
      invariant dataReads <= eof
      invariant forall k :: 0 <= k < dataReads ==> results[k] != -1
      invariant bytesReceived == Sum(results[..dataReads])
      decreases eof - dataReads
    {
      assert results[..dataReads + 1][..dataReads] == results[..dataReads];
      bytesReceived := bytesReceived + results[dataReads];
      dataReads := dataReads + 1;
    }
    SumBounds(results[..dataReads]);
    KilobytesMonotone(bytesReceived, CHUNK_SIZE * dataReads);
    KilobytesOfChunks(dataReads);
  }
}
