/** The apns-expiration header value: a UNIX time in seconds, written in decimal. The
    zero time.Time stands for "do not store": it becomes epoch 0, not the (negative)
    UNIX time of year 1. */
module Expiration {
  import opened Base
  import opened Decimal

  /** EpochTime is an int64 count of seconds since the UNIX epoch. */
  type EpochTime = Int64

  /** A time.Time: the zero value, or an instant with its UNIX time in seconds. */
  datatype Time = ZeroTime | At(unix: Int64)

  /** time.Time.Unix: the zero value is January 1 of year 1, UTC. */
  function Unix(t: Time): Int64 {
    match t
    case ZeroTime => -62135596800
    case At(u) => u
  }

  /** EpochTime.String. */
  function EpochText(e: EpochTime): (s: Bytes)
    ensures ParseInt(s) == Some(e as int)
  {
    FormatIntRoundTrip(e);
    FormatInt(e)
  }

  /** NewEpochTime: the result pointer is never nil; the zero time gives 0. */
  function NewEpochTime(t: Time): (r: Option<EpochTime>)
    ensures r.Some?
    ensures r.value == 0 <==> t.ZeroTime? || Unix(t) == 0
    ensures !t.ZeroTime? ==> r.value == Unix(t)
  {
    if t.ZeroTime? then Some(0) else Some(Unix(t))
  }

  /** ExpirationOnce: deliver once, do not store. */
  const ExpirationOnce: Option<EpochTime> := NewEpochTime(ZeroTime)

  /** ExpirationOnce is epoch 0 and is written "0", although time.Time{}.Unix() is not 0. */
  lemma ExpirationOnceIsZero()
    ensures ExpirationOnce == Some(0) && EpochText(ExpirationOnce.value) == "0"
    ensures Unix(ZeroTime) != 0
  {
  }

  /** Different epoch times give different header values. */
  lemma EpochTextInjective(e: EpochTime, f: EpochTime)
    requires EpochText(e) == EpochText(f)
    ensures e == f
  {
    FormatIntInjective(e, f);
  }
}
