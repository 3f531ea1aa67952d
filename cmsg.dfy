/**
 * The walk over the ancillary (control) messages that `recvmsg` returns,
 * looking for the kernel's software timestamp. The chain that the
 * `CMSG_FIRSTHDR` / `CMSG_NXTHDR` cursor traverses is a sequence here.
 */
module ControlMessages {
  import opened CTypes
  import opened Timestamp

  /** `libc::SOL_SOCKET` on Linux. */
  const SOL_SOCKET: int := 1

  /** `libc::SO_TIMESTAMPING` on Linux (asm-generic value). */
  const SO_TIMESTAMPING: int := 37

  /**
   * One control message: its `cmsg_level`, its `cmsg_type` and the
   * `timespec` at the start of its data.
   */
  datatype ControlMessage = ControlMessage(level: int, kind: int, data: Timespec)

  /** The message carries `SO_TIMESTAMPING` data at level `SOL_SOCKET`. */
  predicate IsTimestamping(msg: ControlMessage) {
    msg.level == SOL_SOCKET && msg.kind == SO_TIMESTAMPING
  }

  /** Specification of the scan: the converted timestamp of the first matching message. */
  function FirstTimestamp(chain: seq<ControlMessage>): Option<NtpTimestamp> {
    if chain == [] then None
    else if IsTimestamping(chain[0]) then Some(ReadNtpTimestamp(chain[0].data))
    else FirstTimestamp(chain[1..])
  }

  /**
   * The `while let Some(msg) = cmsg` loop of `recv` and `fetch_send_timestamp`:
   * stop at the first timestamping message and convert its timestamp.
   */
  method ScanControlMessages(chain: seq<ControlMessage>) returns (ts: Option<NtpTimestamp>)
    ensures ts == FirstTimestamp(chain)
  {
    ts := None;
    var cursor := 0;
    while cursor < |chain|
      invariant 0 <= cursor <= |chain|
      invariant FirstTimestamp(chain[cursor..]) == FirstTimestamp(chain)
    {
      var msg := chain[cursor];
      if IsTimestamping(msg) {
        ts := Some(ReadNtpTimestamp(msg.data));
        break;
      }
      assert chain[cursor..][1..] == chain[cursor + 1..];
      cursor := cursor + 1;
    }
  }

  /** The scan yields the timestamp of the first matching message, whatever follows it. */
  lemma {:induction false} FirstMatchIsReported(chain: seq<ControlMessage>, i: nat)
    requires i < |chain| && IsTimestamping(chain[i])
    requires forall j :: 0 <= j < i ==> !IsTimestamping(chain[j])
    ensures FirstTimestamp(chain) == Some(ReadNtpTimestamp(chain[i].data))
  {
    if i > 0 {
      FirstMatchIsReported(chain[1..], i - 1);
    }
  }

  /** The scan yields nothing exactly when no message matches. */
  lemma {:induction false} NoneIffNoMatch(chain: seq<ControlMessage>)
    ensures FirstTimestamp(chain) == None
        <==> forall i :: 0 <= i < |chain| ==> !IsTimestamping(chain[i])
  {
    if chain != [] && !IsTimestamping(chain[0]) {
      NoneIffNoMatch(chain[1..]);
      assert forall i :: 1 <= i < |chain| ==> chain[i] == chain[1..][i - 1];
    }
  }

  /** Whatever comes after a matching message does not affect the scan. */
  lemma LaterMessagesIgnored(prefix: seq<ControlMessage>, msg: ControlMessage, rest: seq<ControlMessage>)
    requires forall j :: 0 <= j < |prefix| ==> !IsTimestamping(prefix[j])
    requires IsTimestamping(msg)
    ensures FirstTimestamp(prefix + [msg] + rest) == Some(ReadNtpTimestamp(msg.data))
  {
    var chain := prefix + [msg] + rest;
    assert chain[|prefix|] == msg;
    FirstMatchIsReported(chain, |prefix|);
  }

  /** Non-matching messages in front of the chain do not affect the scan. */
  lemma {:induction false} EarlierNonMatchesIgnored(prefix: seq<ControlMessage>, rest: seq<ControlMessage>)
    requires forall j :: 0 <= j < |prefix| ==> !IsTimestamping(prefix[j])
    ensures FirstTimestamp(prefix + rest) == FirstTimestamp(rest)
  {
    if prefix == [] {
      assert prefix + rest == rest;
    } else {
      assert (prefix + rest)[0] == prefix[0];
      assert (prefix + rest)[1..] == prefix[1..] + rest;
      EarlierNonMatchesIgnored(prefix[1..], rest);
    }
  }
}
