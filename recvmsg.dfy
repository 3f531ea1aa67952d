/**
 * Receiving a datagram (`recv`) and fetching the transmit timestamp from the
 * error queue (`fetch_send_timestamp`). The successive results of the
 * `recvmsg` system call are given as a sequence of attempts; each function
 * retries on interruption, reports the first other error, and on success
 * warns about truncation flags and scans the control messages.
 */
module RecvMsg {
  import opened CTypes
  import opened Timestamp
  import opened ControlMessages

  /** `libc::MSG_TRUNC` on Linux: the datagram was larger than the buffer. */
  const MSG_TRUNC: bv32 := 0x20

  /** `libc::MSG_CTRUNC` on Linux: the control messages did not fit their buffer. */
  const MSG_CTRUNC: bv32 := 0x08

  /** An `io::Error` of any kind other than `Interrupted`, identified by its OS error code. */
  datatype OsError = OsError(code: int)

  /**
   * One `recvmsg` call as `cvt` reports it: interrupted by a signal, failed
   * with another error, or succeeded with a byte count, the `msg_flags` the
   * kernel wrote into the header, and the control messages it filled in.
   */
  datatype Attempt =
    | Interrupted
    | Failed(error: OsError)
    | Received(bytes: nat, flags: bv32, control: seq<ControlMessage>)

  /** The two `warn!` lines of the truncation checks. */
  datatype Warning = PacketTruncated | ControlTruncated

  /** Rust `io::Result<T>`. */
  datatype Result<+T> = Ok(value: T) | Err(error: OsError)

  /** What `recv` returns on success: the byte count and the receive timestamp, if any. */
  datatype Reception = Reception(bytes: nat, timestamp: Option<NtpTimestamp>)

  /** Some call in the sequence is not interrupted, so a retry loop over it ends. */
  predicate Settles(calls: seq<Attempt>) {
    exists k :: 0 <= k < |calls| && !calls[k].Interrupted?
  }

  /** The first call that is not interrupted. */
  function SettledIndex(calls: seq<Attempt>): (k: nat)
    requires Settles(calls)
    ensures k < |calls| && !calls[k].Interrupted?
    ensures forall j :: 0 <= j < k ==> calls[j].Interrupted?
  {
    if !calls[0].Interrupted? then 0
    else
      assert Settles(calls[1..]) by {
        var k :| 0 <= k < |calls| && !calls[k].Interrupted?;
        assert calls[1..][k - 1] == calls[k];
      }
      1 + SettledIndex(calls[1..])
  }

  /** The warnings the truncation checks emit for the given `msg_flags`. */
  function TruncationWarnings(flags: bv32): (w: seq<Warning>)
    ensures PacketTruncated in w <==> flags & MSG_TRUNC != 0
    ensures ControlTruncated in w <==> flags & MSG_CTRUNC != 0
    ensures |w| <= 2
  {
    (if flags & MSG_TRUNC != 0 then [PacketTruncated] else [])
      + (if flags & MSG_CTRUNC != 0 then [ControlTruncated] else [])
  }

  /** Specification of `recv`: the outcome of the first call that is not interrupted. */
  function RecvResult(calls: seq<Attempt>): Result<Reception>
    requires Settles(calls)
  {
    var settled := calls[SettledIndex(calls)];
    if settled.Failed? then Err(settled.error)
    else Ok(Reception(settled.bytes, FirstTimestamp(settled.control)))
  }

  /** Specification of `fetch_send_timestamp`: as `recv`, without the byte count. */
  function FetchSendResult(calls: seq<Attempt>): Result<Option<NtpTimestamp>>
    requires Settles(calls)
  {
    var settled := calls[SettledIndex(calls)];
    if settled.Failed? then Err(settled.error)
    else Ok(FirstTimestamp(settled.control))
  }

  /** The warnings logged by either function: none on error, the truncation warnings on success. */
  function SettledWarnings(calls: seq<Attempt>): seq<Warning>
    requires Settles(calls)
  {
    var settled := calls[SettledIndex(calls)];
    if settled.Received? then TruncationWarnings(settled.flags) else []
  }

  /** `recv`: `loop { match cvt(recvmsg(..)) { .. continue / return / break } }`, then the flag checks and the scan. */
  method Recv(calls: seq<Attempt>) returns (r: Result<Reception>, warnings: seq<Warning>)
    requires Settles(calls)
    ensures r == RecvResult(calls)
    ensures warnings == SettledWarnings(calls)
  {
    ghost var settled := SettledIndex(calls);
    var i := 0;
    while true
      invariant 0 <= i <= settled
      decreases settled - i
    {
      match calls[i]
      case Interrupted =>
        i := i + 1;
      case Failed(e) =>
        return Err(e), [];
      case Received(_, _, _) =>
        break;
    }
    var bytesRead, flags, control := calls[i].bytes, calls[i].flags, calls[i].control;

    warnings := [];
    if flags & MSG_TRUNC != 0 {
      warnings := warnings + [PacketTruncated];
    }
    if flags & MSG_CTRUNC != 0 {
      warnings := warnings + [ControlTruncated];
    }

    var recvTs := ScanControlMessages(control);
    r := Ok(Reception(bytesRead, recvTs));
  }

  /** `fetch_send_timestamp`: `while let Err(e) = try_recvmsg() { .. }`, then the flag checks and the scan. */
  method FetchSendTimestamp(calls: seq<Attempt>) returns (r: Result<Option<NtpTimestamp>>, warnings: seq<Warning>)
    requires Settles(calls)
    ensures r == FetchSendResult(calls)
    ensures warnings == SettledWarnings(calls)
  {
    ghost var settled := SettledIndex(calls);
    var i := 0;
    while !calls[i].Received?
      invariant 0 <= i <= settled
      decreases settled - i
    {
      if calls[i].Interrupted? {
        i := i + 1;
      } else {
        return Err(calls[i].error), [];
      }
    }
    var flags, control := calls[i].flags, calls[i].control;

    warnings := [];
    if flags & MSG_TRUNC != 0 {
      warnings := warnings + [PacketTruncated];
    }
    if flags & MSG_CTRUNC != 0 {
      warnings := warnings + [ControlTruncated];
    }

    var sendTs := ScanControlMessages(control);
    r := Ok(sendTs);
  }

  // ---------------------------------------------------------------------
  // Properties

  /** A call preceded only by interrupted calls is the one the retry loops settle on. */
  lemma SettledIndexUnique(calls: seq<Attempt>, k: nat)
    requires k < |calls| && !calls[k].Interrupted?
    requires forall j :: 0 <= j < k ==> calls[j].Interrupted?
    ensures Settles(calls) && SettledIndex(calls) == k
  {
  }

  /** The first error that is not an interruption is returned unchanged, whatever follows it. */
  lemma FirstErrorReturned(calls: seq<Attempt>, k: nat)
    requires k < |calls| && calls[k].Failed?
    requires forall j :: 0 <= j < k ==> calls[j].Interrupted?
    ensures Settles(calls)
    ensures RecvResult(calls) == Err(calls[k].error)
    ensures FetchSendResult(calls) == Err(calls[k].error)
    ensures SettledWarnings(calls) == []
  {
    SettledIndexUnique(calls, k);
  }

  /** The first success is reported with exactly its byte count and the timestamp of its control messages. */
  lemma FirstSuccessReported(calls: seq<Attempt>, k: nat)
    requires k < |calls| && calls[k].Received?
    requires forall j :: 0 <= j < k ==> calls[j].Interrupted?
    ensures Settles(calls)
    ensures RecvResult(calls) == Ok(Reception(calls[k].bytes, FirstTimestamp(calls[k].control)))
    ensures FetchSendResult(calls) == Ok(FirstTimestamp(calls[k].control))
    ensures SettledWarnings(calls) == TruncationWarnings(calls[k].flags)
  {
    SettledIndexUnique(calls, k);
  }

  /** Interrupted calls in front change neither result nor warnings. */
  lemma InterruptionsSkipped(interrupts: seq<Attempt>, calls: seq<Attempt>)
    requires forall j :: 0 <= j < |interrupts| ==> interrupts[j].Interrupted?
    requires Settles(calls)
    ensures Settles(interrupts + calls)
    ensures RecvResult(interrupts + calls) == RecvResult(calls)
    ensures FetchSendResult(interrupts + calls) == FetchSendResult(calls)
    ensures SettledWarnings(interrupts + calls) == SettledWarnings(calls)
  {
    var k := SettledIndex(calls);
    var all := interrupts + calls;
    assert all[|interrupts| + k] == calls[k];
    assert forall j :: 0 <= j < |interrupts| + k ==> all[j].Interrupted? by {
      forall j | 0 <= j < |interrupts| + k
        ensures all[j].Interrupted?
      {
        if j >= |interrupts| {
          assert all[j] == calls[j - |interrupts|];
        }
      }
    }
    SettledIndexUnique(all, |interrupts| + k);
  }

  /** Calls after the first one that is not interrupted are never made. */
  lemma LaterCallsIgnored(calls: seq<Attempt>, later: seq<Attempt>)
    requires Settles(calls)
    ensures Settles(calls + later)
    ensures RecvResult(calls + later) == RecvResult(calls)
    ensures FetchSendResult(calls + later) == FetchSendResult(calls)
    ensures SettledWarnings(calls + later) == SettledWarnings(calls)
  {
    var k := SettledIndex(calls);
    var all := calls + later;
    assert forall j :: 0 <= j <= k ==> all[j] == calls[j];
    SettledIndexUnique(all, k);
  }

  /** Truncation flags only produce warnings: with other flags the result is the same. */
  lemma TruncationOnlyWarns(calls: seq<Attempt>, flags: bv32)
    requires Settles(calls) && calls[SettledIndex(calls)].Received?
    ensures var k := SettledIndex(calls);
      var other := calls[k := calls[k].(flags := flags)];
      Settles(other)
      && RecvResult(other) == RecvResult(calls)
      && FetchSendResult(other) == FetchSendResult(calls)
      && SettledWarnings(other) == TruncationWarnings(flags)
  {
    var k := SettledIndex(calls);
    var other := calls[k := calls[k].(flags := flags)];
    SettledIndexUnique(other, k);
  }

  /** Both functions settle on the same call and report the same timestamp; `recv` adds the byte count. */
  lemma RecvAndFetchAgree(calls: seq<Attempt>)
    requires Settles(calls)
    ensures FetchSendResult(calls) == match RecvResult(calls)
      case Ok(reception) => Ok(reception.timestamp)
      case Err(e) => Err(e)
  {
  }
}
