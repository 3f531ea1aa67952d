/**
 * Conversion of a kernel `timespec` (seconds and nanoseconds since the Unix
 * epoch, 1 January 1970) into an NTP timestamp (seconds within the current
 * NTP era, whose era 0 starts on 1 January 1900, and nanoseconds), as done
 * by `read_ntp_timestamp`.
 */
module Timestamp {
  import opened CTypes

  /** Seconds from 1 January 1900 to 1 January 1970: 70 years, 17 of them leap years. */
  const EPOCH_OFFSET: u32 := (70 * 365 + 17) * 86400

  /** The first Unix second that no longer fits in NTP era 0 (2036-02-07 06:28:16 UTC). */
  const ERA_ROLLOVER: int := TWO_TO_32 - EPOCH_OFFSET as int

  /** `libc::timespec` on 64-bit Linux. */
  datatype Timespec = Timespec(tv_sec: i64, tv_nsec: i64)

  /**
   * The pair handed to `NtpTimestamp::from_seconds_nanos_since_ntp_era`:
   * seconds since the start of the current NTP era, and nanoseconds.
   */
  datatype NtpTimestamp = NtpTimestamp(seconds: u32, nanos: u32)

  // ---------------------------------------------------------------------
  // Independent reference: the Gregorian calendar

  predicate IsLeapYear(year: int) {
    year % 4 == 0 && (year % 100 != 0 || year % 400 == 0)
  }

  function DaysInYear(year: int): nat {
    if IsLeapYear(year) then 366 else 365
  }

  /** Number of days from 1 January of `from` to 1 January of `to`. */
  function DaysBetweenYears(from: int, to: int): nat
    decreases to - from
  {
    if to <= from then 0 else DaysInYear(from) + DaysBetweenYears(from + 1, to)
  }

  // ---------------------------------------------------------------------
  // Independent reference: NTP dates, eras and era offsets (RFC 5905, section 6)

  /** The NTP date of a Unix time: seconds since 1 January 1900, unbounded. */
  function NtpDate(unixSeconds: int): int {
    unixSeconds + EPOCH_OFFSET as int
  }

  /** The era number of an NTP date. */
  function Era(date: int): int {
    date / TWO_TO_32
  }

  /** The seconds of an NTP date within its era: what a 32-bit NTP timestamp holds. */
  function EraOffset(date: int): u32 {
    date % TWO_TO_32
  }

  /** The Unix time whose NTP date lies in `era` at `offset` seconds. */
  function UnixSecondsOf(era: int, offset: u32): int {
    era * TWO_TO_32 + offset - EPOCH_OFFSET as int
  }

  // ---------------------------------------------------------------------
  // The conversion

  /** Rust `x as u32` on a signed integer: keeps the low 32 bits of its two's complement. */
  function TruncateToU32(x: int): (r: u32)
    ensures (x - r) % TWO_TO_32 == 0
    ensures 0 <= x < TWO_TO_32 ==> r == x
  {
    x % TWO_TO_32
  }

  /** Rust `u32::wrapping_add`. */
  function WrappingAdd(a: u32, b: u32): (r: u32)
    ensures a + b < TWO_TO_32 ==> r == a + b
    ensures a + b >= TWO_TO_32 ==> r == a + b - TWO_TO_32
    ensures r < a <==> a + b >= TWO_TO_32
  {
    (a + b) % TWO_TO_32
  }

  /**
   * `read_ntp_timestamp`: the seconds are the era offset of the NTP date of
   * `tv_sec` (the higher bits of `tv_sec` are truncated and the epoch offset
   * added with wrap-around); the nanoseconds are `tv_nsec` truncated to 32 bits.
   */
  function ReadNtpTimestamp(ts: Timespec): (r: NtpTimestamp)
    ensures r.seconds == EraOffset(NtpDate(ts.tv_sec))
    ensures (r.nanos - ts.tv_nsec) % TWO_TO_32 == 0
  {
    var seconds := WrappingAdd(TruncateToU32(ts.tv_sec), EPOCH_OFFSET);
    var nanos := TruncateToU32(ts.tv_nsec);
    NtpTimestamp(seconds, nanos)
  }

  // ---------------------------------------------------------------------
  // Properties

  /** Day counts over consecutive spans of years add up. */
  lemma {:induction false} DaysBetweenYearsSplit(from: int, mid: int, to: int)
    requires from <= mid <= to
    ensures DaysBetweenYears(from, to) == DaysBetweenYears(from, mid) + DaysBetweenYears(mid, to)
    decreases mid - from
  {
    if from < mid {
      DaysBetweenYearsSplit(from + 1, mid, to);
    }
  }

  /** Between 1901 and 2099 every fourth year is a leap year, so each four-year block has 1461 days. */
  lemma {:induction false} FourYearBlocks(year: int, blocks: nat)
    requires year % 4 == 0 && 1900 < year && year + 4 * blocks <= 2100
    ensures DaysBetweenYears(year, year + 4 * blocks) == 1461 * blocks
    decreases blocks
  {
    if blocks > 0 {
      var next := year + 4;
      DaysBetweenYearsSplit(year, next, year + 4 * blocks);
      assert DaysBetweenYears(year, next) == 1461 by {
        assert IsLeapYear(year);
        assert !IsLeapYear(year + 1) && !IsLeapYear(year + 2) && !IsLeapYear(year + 3);
        assert DaysBetweenYears(year + 3, next) == 365 by {
          assert DaysBetweenYears(next, next) == 0;
        }
        assert DaysBetweenYears(year + 2, next) == 730;
        assert DaysBetweenYears(year + 1, next) == 1095;
      }
      FourYearBlocks(next, blocks - 1);
      assert next + 4 * (blocks - 1) == year + 4 * blocks;
    }
  }

  /** The epoch offset is the length, in seconds, of the years 1900 to 1969. */
  lemma EpochOffsetIsCalendarGap()
    ensures EPOCH_OFFSET as int == DaysBetweenYears(1900, 1970) * 86400
    ensures EPOCH_OFFSET == 2208988800
  {
    // 1900 is not a leap year; 1904 to 1967 are sixteen regular four-year blocks.
    DaysBetweenYearsSplit(1900, 1904, 1970);
    DaysBetweenYearsSplit(1904, 1968, 1970);
    assert !IsLeapYear(1900) && !IsLeapYear(1901) && !IsLeapYear(1902) && !IsLeapYear(1903);
    assert DaysBetweenYears(1900, 1904) == 1460 by {
      assert DaysBetweenYears(1903, 1904) == 365 by { assert DaysBetweenYears(1904, 1904) == 0; }
    }
    FourYearBlocks(1904, 16);
    assert IsLeapYear(1968) && !IsLeapYear(1969);
    assert DaysBetweenYears(1968, 1970) == 731 by {
      assert DaysBetweenYears(1969, 1970) == 365 by { assert DaysBetweenYears(1970, 1970) == 0; }
    }
  }

  /** The Unix epoch is second 2,208,988,800 of NTP era 0. */
  lemma UnixEpochInEraZero()
    ensures ReadNtpTimestamp(Timespec(0, 0)) == NtpTimestamp(EPOCH_OFFSET, 0)
    ensures Era(NtpDate(0)) == 0
  {
  }

  /** Two `tv_sec` values give the same NTP seconds exactly when they agree in their low 32 bits. */
  lemma SecondsDependOnLow32Bits(a: Timespec, b: Timespec)
    ensures ReadNtpTimestamp(a).seconds == ReadNtpTimestamp(b).seconds
        <==> (a.tv_sec - b.tv_sec) % TWO_TO_32 == 0
  {
  }

  /** Before the 2036 rollover no wrap occurs: the NTP seconds are `tv_sec` plus the epoch offset. */
  lemma NoWrapBeforeRollover(ts: Timespec)
    requires 0 <= ts.tv_sec < ERA_ROLLOVER
    ensures ReadNtpTimestamp(ts).seconds == ts.tv_sec + EPOCH_OFFSET as int
  {
  }

  /** From the 2036 rollover until `tv_sec` reaches 2^32 the seconds wrap into era 1. */
  lemma WrapAfterRollover(ts: Timespec)
    requires ERA_ROLLOVER <= ts.tv_sec < TWO_TO_32
    ensures ReadNtpTimestamp(ts).seconds == ts.tv_sec + EPOCH_OFFSET as int - TWO_TO_32
    ensures ReadNtpTimestamp(ts).seconds < EPOCH_OFFSET
  {
  }

  /** For a `tv_sec` in [0, 2^32), the result at least the epoch offset means no wrap happened. */
  lemma WrapIffPastRollover(ts: Timespec)
    requires 0 <= ts.tv_sec < TWO_TO_32
    ensures ReadNtpTimestamp(ts).seconds >= EPOCH_OFFSET <==> ts.tv_sec < ERA_ROLLOVER
  {
  }

  /** Adding the era number back recovers the Unix seconds: conversion loses only the era. */
  lemma EraRoundTrip(ts: Timespec)
    ensures UnixSecondsOf(Era(NtpDate(ts.tv_sec)), ReadNtpTimestamp(ts).seconds) == ts.tv_sec
  {
  }

  /** Conversely every era and offset is the image of exactly one Unix time. */
  lemma EraOffsetRoundTrip(era: int, offset: u32)
    ensures Era(NtpDate(UnixSecondsOf(era, offset))) == era
    ensures EraOffset(NtpDate(UnixSecondsOf(era, offset))) == offset
  {
  }

  /** Nanoseconds pass through unchanged exactly when they fit in a `u32`. */
  lemma NanosPassThrough(ts: Timespec)
    ensures ReadNtpTimestamp(ts).nanos == ts.tv_nsec <==> 0 <= ts.tv_nsec < TWO_TO_32
  {
  }

  /** In particular for every well-formed `timespec`, whose `tv_nsec` lies in [0, 10^9). */
  lemma NanosOfValidTimespec(ts: Timespec)
    requires 0 <= ts.tv_nsec < 1_000_000_000
    ensures ReadNtpTimestamp(ts).nanos == ts.tv_nsec
  {
  }
}
