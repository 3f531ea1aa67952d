# Receive and transmit timestamps of the ntpd-rs UDP socket

This project models the timestamp handling of the `ntp-udp` crate of ntpd-rs.
The kernel attaches a software timestamp (a `timespec`, counted from the Unix
epoch) to each datagram it receives or sends. The crate converts it into an
NTP timestamp and returns it alongside the byte count. Three parts are modelled:

- `read_ntp_timestamp` (module `Timestamp`, `timestamp.dfy`). The seconds of
  the `timespec` are truncated to 32 bits. The 1900→1970 epoch gap
  `EPOCH_OFFSET` is then added with wrap-around modulo 2^32. The nanoseconds
  are truncated to 32 bits. The result is the pair passed to
  `NtpTimestamp::from_seconds_nanos_since_ntp_era`, modelled as the datatype
  `NtpTimestamp(seconds, nanos)`. The model proves that the seconds are the
  era offset of the NTP date, as RFC 5905 section 6 defines it. It also
  proves that adding the era number back recovers the Unix time, in both
  directions. `EPOCH_OFFSET` is checked against a Gregorian day count.
- The control-message scan (module `ControlMessages`, `cmsg.dfy`). `recv`
  and `fetch_send_timestamp` walk the same `while let` loop over the
  ancillary messages. The chain reached through `CMSG_FIRSTHDR` /
  `CMSG_NXTHDR` is a sequence of `(level, type, timespec)` records here.
  The method `ScanControlMessages` stops at the first message with level
  `SOL_SOCKET` and type `SO_TIMESTAMPING`. It is proved equal to the
  recursive specification `FirstTimestamp`, and lemmas characterise that
  function.
- The `recvmsg` retry and result selection (module `RecvMsg`,
  `recvmsg.dfy`). The successive outcomes of `recvmsg`, as `cvt` reports
  them, form a sequence of `Interrupted | Failed(error) | Received(bytes,
  flags, control)`. `Recv` mirrors the `loop { match … }` of `recv`.
  `FetchSendTimestamp` mirrors the `while let Err(e)` loop of
  `fetch_send_timestamp`. Both skip interrupted calls, return the first
  other error, and on the first success log the warnings for `MSG_TRUNC` /
  `MSG_CTRUNC` and scan the control messages. Both are proved against the
  specification functions `RecvResult`, `FetchSendResult` and
  `SettledWarnings`.

The libc constants are the Linux values: `SOL_SOCKET = 1`,
`SO_TIMESTAMPING = 37`, `MSG_TRUNC = 0x20` and `MSG_CTRUNC = 0x08`. The
source names them without values. `time_t` and `c_long` are taken as 64-bit.

The comment at `ntp-udp/src/lib.rs:116` says `tv_nsec` lies in `[0, 1e10)`.
The kernel's range is `[0, 10^9)`. The code is still correct:
`NanosPassThrough` proves that the nanoseconds pass through unchanged
exactly when they are in `[0, 2^32)`, and `10^9` is below 2^32. A value as
large as the comment allows would not pass through unchanged.

## Model

| member | source | states |
|---|---|---|
| `Timestamp.EpochOffsetIsCalendarGap` | ntp-udp/src/lib.rs:11-14 | `EPOCH_OFFSET` is 2,208,988,800. That is the number of seconds in the Gregorian years 1900 to 1969, which include 17 leap years (1900 itself is not one). |
| `Timestamp.TruncateToU32` | ntp-udp/src/lib.rs:113-114 | `as u32` gives the unique `u32` congruent to its argument modulo 2^32. Values already in range are unchanged. |
| `Timestamp.WrappingAdd` | ntp-udp/src/lib.rs:114 | `wrapping_add` gives the exact sum when it fits in 32 bits and the sum minus 2^32 otherwise. The result is smaller than the first operand exactly when the addition overflowed. |
| `Timestamp.ReadNtpTimestamp` | ntp-udp/src/lib.rs:110-120 | The seconds are the NTP date of `tv_sec`, which is `tv_sec + EPOCH_OFFSET`, taken modulo 2^32: its offset within its NTP era. The nanoseconds are congruent to `tv_nsec` modulo 2^32. |
| `Timestamp.UnixEpochInEraZero` | ntp-udp/src/lib.rs:11-14 | The Unix epoch converts to second `EPOCH_OFFSET` of NTP era 0, with zero nanoseconds. |
| `Timestamp.SecondsDependOnLow32Bits` | ntp-udp/src/lib.rs:113-114 | Two `tv_sec` values give the same NTP seconds if and only if they differ by a multiple of 2^32. |
| `Timestamp.NoWrapBeforeRollover` | ntp-udp/src/lib.rs:114 | For `0 <= tv_sec < 2^32 - EPOCH_OFFSET` (before 2036-02-07) the seconds are exactly `tv_sec + EPOCH_OFFSET`. |
| `Timestamp.WrapAfterRollover` | ntp-udp/src/lib.rs:114 | From the 2036 rollover up to `tv_sec < 2^32` the seconds wrap into era 1. They equal `tv_sec + EPOCH_OFFSET - 2^32`, which is less than `EPOCH_OFFSET`. |
| `Timestamp.WrapIffPastRollover` | ntp-udp/src/lib.rs:114 | For `tv_sec` in `[0, 2^32)`, the seconds are at least `EPOCH_OFFSET` if and only if `tv_sec` is before the rollover. |
| `Timestamp.EraRoundTrip` | ntp-udp/src/lib.rs:113-114 | The conversion loses only the era: `era · 2^32 + seconds - EPOCH_OFFSET` gives back `tv_sec`. |
| `Timestamp.EraOffsetRoundTrip` | ntp-udp/src/lib.rs:113-114 | Conversely, every (era, seconds) pair is the NTP date of exactly the Unix time that `UnixSecondsOf` gives. |
| `Timestamp.NanosPassThrough` | ntp-udp/src/lib.rs:116-117 | The nanoseconds equal `tv_nsec` if and only if `0 <= tv_nsec < 2^32`. |
| `Timestamp.NanosOfValidTimespec` | ntp-udp/src/lib.rs:116-117 | When `tv_nsec` is in the kernel's range `[0, 10^9)`, the nanoseconds are passed through unchanged. |
| `ControlMessages.ScanControlMessages` | ntp-udp/src/lib.rs:197-210 | The `while let` walk returns exactly `FirstTimestamp(chain)`: the converted timestamp of the first `SOL_SOCKET`/`SO_TIMESTAMPING` message, or `None`. |
| `ControlMessages.FirstMatchIsReported` | ntp-udp/src/lib.rs:200-206 | If message `i` matches and none before it does, the scan yields message `i`'s converted timestamp. |
| `ControlMessages.NoneIffNoMatch` | ntp-udp/src/lib.rs:261-274 | The scan yields `None` if and only if no message in the chain matches. |
| `ControlMessages.LaterMessagesIgnored` | ntp-udp/src/lib.rs:265-270 | Messages after the first match, matching or not, do not change the result (the `break`). |
| `ControlMessages.EarlierNonMatchesIgnored` | ntp-udp/src/lib.rs:272-273 | Non-matching messages in front of the chain are skipped without effect. |
| `RecvMsg.SettledIndex` | ntp-udp/src/lib.rs:170-184 | The retry loop settles on a call that was not interrupted, and every call before it was interrupted. |
| `RecvMsg.TruncationWarnings` | ntp-udp/src/lib.rs:186-195 | A packet-truncated warning is logged if and only if `MSG_TRUNC` is set. A control-truncated warning is logged if and only if `MSG_CTRUNC` is set. |
| `RecvMsg.Recv` | ntp-udp/src/lib.rs:152-213 | `recv` returns `RecvResult(calls)` and logs `SettledWarnings(calls)`. These are the error of the first call that failed without being interrupted, or the byte count and scanned receive timestamp of the first call that succeeded. |
| `RecvMsg.FetchSendTimestamp` | ntp-udp/src/lib.rs:215-277 | `fetch_send_timestamp` returns `FetchSendResult(calls)` and logs `SettledWarnings(calls)`. This is the same selection without the byte count. |
| `RecvMsg.SettledIndexUnique` | ntp-udp/src/lib.rs:170-184 | The call the loop settles on is determined uniquely: it is the one preceded only by interruptions. |
| `RecvMsg.FirstErrorReturned` | ntp-udp/src/lib.rs:172-179 | The first error that is not an interruption is returned unchanged by both functions, with no warnings, whatever comes after it. |
| `RecvMsg.FirstSuccessReported` | ntp-udp/src/lib.rs:182-212 | On the first success both functions report exactly its byte count (`recv` only) and the first timestamp in its control messages. The warnings follow its flags. |
| `RecvMsg.InterruptionsSkipped` | ntp-udp/src/lib.rs:243-251 | Prepending any number of interrupted calls changes neither the results nor the warnings. |
| `RecvMsg.LaterCallsIgnored` | ntp-udp/src/lib.rs:170-184 | Calls after the first non-interrupted one have no effect. |
| `RecvMsg.TruncationOnlyWarns` | ntp-udp/src/lib.rs:253-259 | Replacing the `msg_flags` of the successful call changes only the warnings. The byte count, timestamp and error are the same as before. |
| `RecvMsg.RecvAndFetchAgree` | ntp-udp/src/lib.rs:215-277 | `fetch_send_timestamp` gives the same error or timestamp as `recv` on the same calls, without the byte count. |

## Left out

- `UdpSocket::new`, `set_timestamping_options` and `cvt`'s use of `errno`: socket creation and configuration through libc, outside the model.
- The async `send` / `recv` wrappers: their readiness loops on tokio's `AsyncFd` retry on would-block. That is I/O scheduling with no data logic.
- The raw memory layout: `read_unaligned` of the `timespec`, and the `CMSG_FIRSTHDR` / `CMSG_NXTHDR` / `CMSG_DATA` / `CMSG_SPACE` pointer arithmetic. The control chain is a sequence of records. Each record carries the first `timespec` of its data, which is the one `read_ntp_timestamp` reads.
- `NtpTimestamp::from_seconds_nanos_since_ntp_era`, `NtpTimestamp` subtraction and `to_seconds`: they are defined in `time_types`, which is not part of this model, and `to_seconds` is floating point. The constructor is modelled as the plain pair `NtpTimestamp(seconds, nanos)`.
- The test `test_timestamping_reasonable`: it depends on wall-clock sleeps and floating-point comparison.
- `ntp-proto/src/lib.rs`: it holds only module declarations and re-exports. The algorithm, peer and time-type modules it names are not part of this model.
- Tracing: `trace!` and `debug!` are dropped. The two `warn!` lines are kept as the returned `warnings` sequence.
- `RecvMsg.Recv`: when every `recvmsg` call is interrupted, the source retries forever. The model requires the given outcome sequence to contain a call that is not interrupted (`Settles`).
- `RecvMsg.Recv`: the byte count is a `nat`. The source casts `recvmsg`'s `ssize_t` to `c_int` and then to `usize`. That cast is not modelled, because a UDP datagram never comes close to 2^31 bytes.
- How the kernel fills the message header on an interrupted call is not modelled. Only the header of the successful call is read.
