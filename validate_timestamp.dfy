/** The freshness window of a credential request (src/utils/validate-timestamp.ts).
    The clock reading `now` is a parameter: it is taken once and both
    thresholds are derived from that one value. Times are integral
    milliseconds since the epoch. dayjs keeps each instant in a JavaScript
    Date, which holds a time value only inside the range of ECMA-262
    (±8.64e15 ms, TimeClip); beyond it the Date is an Invalid Date whose
    time value is NaN, and every comparison with it is false. */
module ValidateTimestamp {
  import opened Wrappers
  import opened Common

  /** Five minutes and one minute, in milliseconds. */
  const StalenessMillis: int := 5 * 60 * 1000
  const EagernessMillis: int := 1 * 60 * 1000

  /** The largest time value a Date holds: 10^8 days, in milliseconds. */
  const MaxTimeValue: int := 100_000_000 * 24 * 60 * 60 * 1000

  predicate InTimeRange(t: int) {
    -MaxTimeValue <= t <= MaxTimeValue
  }

  /** A dayjs instant: the time value of its Date, or None for an Invalid Date. */
  type Instant = Option<int>

  /** `dayjs(t)` of a number, that is `new Date(t)`: TimeClip keeps a time
      value inside the range and makes every other one NaN. */
  function ToInstant(t: int): (d: Instant)
    ensures d.Some? <==> InTimeRange(t)
    ensures d.Some? ==> d.value == t
  {
    if InTimeRange(t) then Some(t) else None
  }

  /** `add`/`subtract` in milliseconds: the moved time value, clipped again;
      an Invalid Date stays invalid. */
  function AddMillis(d: Instant, ms: int): Instant {
    match d
    case None => None
    case Some(t) => ToInstant(t + ms)
  }

  /** `isBefore` and `isAfter` compare time values; NaN compares false. */
  predicate IsBefore(a: Instant, b: Instant) {
    a.Some? && b.Some? && a.value < b.value
  }

  predicate IsAfter(a: Instant, b: Instant) {
    a.Some? && b.Some? && a.value > b.value
  }

  /** Five minutes before `start`: a date exactly when that time is in range. */
  function MakeStalenessThreshold(start: Instant): (d: Instant)
    ensures d.Some? <==> start.Some? && InTimeRange(start.value - 300000)
    ensures d.Some? ==> d.value == start.value - 300000
  {
    AddMillis(start, -StalenessMillis)
  }

  /** One minute after `start`: a date exactly when that time is in range. */
  function MakeEagernessThreshold(start: Instant): (d: Instant)
    ensures d.Some? <==> start.Some? && InTimeRange(start.value + 60000)
    ensures d.Some? ==> d.value == start.value + 60000
  {
    AddMillis(start, EagernessMillis)
  }

  /** A clock reading whose two thresholds are valid dates, as those of every
      reading of a real clock are. */
  predicate ClockInRange(now: int) {
    InTimeRange(now - StalenessMillis) && InTimeRange(now + EagernessMillis)
  }

  /** Raises StaleRequest when the request is more than five minutes old,
      otherwise EagerRequest when it is more than one minute ahead; a
      timestamp outside the Date range is compared with nothing and passes. */
  function ValidateTimestamp(request: CredentialRequest, now: int): (r: Outcome<Error>)
    ensures r.Fail? && r.error.StaleRequest? <==>
      InTimeRange(request.timestamp) && InTimeRange(now) && InTimeRange(now - 300000)
      && request.timestamp < now - 300000
    ensures r.Fail? && r.error.EagerRequest? <==>
      InTimeRange(request.timestamp) && InTimeRange(now) && InTimeRange(now + 60000)
      && request.timestamp > now + 60000
    ensures r.Fail? ==> r.error.StaleRequest? || r.error.EagerRequest?
    ensures r.Fail? ==> r.error.timestamp == request.timestamp
    ensures r.Fail? && r.error.StaleRequest? ==> r.error.threshold == now - 300000
    ensures r.Fail? && r.error.EagerRequest? ==> r.error.threshold == now + 60000
    ensures !InTimeRange(request.timestamp) ==> r == Pass
    ensures InTimeRange(request.timestamp) && ClockInRange(now) ==>
      (r == Pass <==> now - 300000 <= request.timestamp <= now + 60000)
  {
    var timestamp := ToInstant(request.timestamp);
    var start := ToInstant(now);
    var stalenessThreshold := MakeStalenessThreshold(start);
    if IsBefore(timestamp, stalenessThreshold) then
      Fail(StaleRequest(timestamp.value, stalenessThreshold.value))
    else
      var eagernessThreshold := MakeEagernessThreshold(start);
      if IsAfter(timestamp, eagernessThreshold) then
        Fail(EagerRequest(timestamp.value, eagernessThreshold.value))
      else
        Pass
  }

  /** An outcome with its millisecond values moved by `shift`. */
  function Shifted(r: Outcome<Error>, shift: int): Outcome<Error> {
    match r
    case Fail(StaleRequest(t, threshold)) => Fail(StaleRequest(t + shift, threshold + shift))
    case Fail(EagerRequest(t, threshold)) => Fail(EagerRequest(t + shift, threshold + shift))
    case _ => r
  }

  /** Inside the Date range the outcome depends on the request only through
      its timestamp, and on the clock only through the difference between
      the two: moving both by the same amount keeps the verdict and the
      error's kind, and moves the error's timestamp and threshold by that
      amount. */
  lemma OnlyDifferenceMatters(a: CredentialRequest, b: CredentialRequest, now: int, shift: int)
    requires b.timestamp == a.timestamp + shift
    requires InTimeRange(a.timestamp) && InTimeRange(b.timestamp)
    requires ClockInRange(now) && ClockInRange(now + shift)
    ensures ValidateTimestamp(b, now + shift) == Shifted(ValidateTimestamp(a, now), shift)
    ensures ValidateTimestamp(a, now).Pass? <==> ValidateTimestamp(b, now + shift).Pass?
    ensures ValidateTimestamp(a, now).Fail? ==>
      (ValidateTimestamp(a, now).error.StaleRequest? <==> ValidateTimestamp(b, now + shift).error.StaleRequest?)
      && (ValidateTimestamp(a, now).error.EagerRequest? <==> ValidateTimestamp(b, now + shift).error.EagerRequest?)
  {
  }

  /** Across the edge of the Date range the difference stops deciding: the
      last valid date is far ahead of the epoch, one millisecond later is
      accepted a millisecond after the epoch. */
  lemma ShiftAcrossTimeRangeEdge(a: CredentialRequest, b: CredentialRequest)
    requires a.timestamp == MaxTimeValue && b.timestamp == MaxTimeValue + 1
    ensures ValidateTimestamp(a, 0) == Fail(EagerRequest(MaxTimeValue, 60000))
    ensures ValidateTimestamp(b, 1) == Pass
  {
  }

  /** Both edges of the window are accepted: the comparisons are strict. */
  lemma BoundariesAccepted(request: CredentialRequest, now: int)
    requires request.timestamp == now - 300000 || request.timestamp == now + 60000
    ensures ValidateTimestamp(request, now) == Pass
  {
  }

  /** Five minutes and one millisecond in the past is stale. */
  lemma JustPastStalenessBoundary(request: CredentialRequest, now: int)
    requires request.timestamp == now - 300001
    requires InTimeRange(request.timestamp) && ClockInRange(now)
    ensures ValidateTimestamp(request, now) == Fail(StaleRequest(now - 300001, now - 300000))
  {
  }

  /** One minute and one millisecond ahead is eager. */
  lemma JustPastEagernessBoundary(request: CredentialRequest, now: int)
    requires request.timestamp == now + 60001
    requires InTimeRange(request.timestamp) && ClockInRange(now)
    ensures ValidateTimestamp(request, now) == Fail(EagerRequest(now + 60001, now + 60000))
  {
  }

  /** The cases of the unit tests, at a clock reading whose six minutes
      before and two minutes after are dates: six minutes ago, two minutes
      ahead, now. */
  lemma UnitTestCases(request: CredentialRequest, now: int)
    requires InTimeRange(now - 6 * 60 * 1000) && InTimeRange(now + 2 * 60 * 1000)
    ensures request.timestamp == now - 6 * 60 * 1000 ==> ValidateTimestamp(request, now).error.StaleRequest?
    ensures request.timestamp == now + 2 * 60 * 1000 ==> ValidateTimestamp(request, now).error.EagerRequest?
    ensures request.timestamp == now ==> ValidateTimestamp(request, now) == Pass
  {
  }

  // ---------------------------------------------------------------------------
  // A timestamp beyond the Date range passes
  // ---------------------------------------------------------------------------

  /** As written: a timestamp past the last valid date, such as
      8640000000000001, passes at every clock reading, however far ahead. */
  lemma OutOfRangeTimestampAccepted(request: CredentialRequest, now: int)
    requires request.timestamp == MaxTimeValue + 1
    ensures ValidateTimestamp(request, now) == Pass
    ensures ClockInRange(now) ==> request.timestamp > now + 60000
  {
  }

  /** The check as evidently intended: the window compared on the timestamp
      itself, with no Invalid Date to escape it. */
  function IntendedValidateTimestamp(request: CredentialRequest, now: int): (r: Outcome<Error>)
    ensures r == Pass <==> now - 300000 <= request.timestamp <= now + 60000
    ensures r.Fail? && r.error.StaleRequest? <==> request.timestamp < now - 300000
    ensures r.Fail? && r.error.EagerRequest? <==> request.timestamp > now + 60000
    ensures r.Fail? ==> r.error.timestamp == request.timestamp
    ensures r.Fail? && r.error.StaleRequest? ==> r.error.threshold == now - 300000
    ensures r.Fail? && r.error.EagerRequest? ==> r.error.threshold == now + 60000
  {
    if request.timestamp < now - StalenessMillis then
      Fail(StaleRequest(request.timestamp, now - StalenessMillis))
    else if request.timestamp > now + EagernessMillis then
      Fail(EagerRequest(request.timestamp, now + EagernessMillis))
    else
      Pass
  }

  /** The intended check refuses every timestamp outside the Date range at a
      real clock, and agrees with the code on every date. */
  lemma IntendedCheckCases(request: CredentialRequest, now: int)
    requires ClockInRange(now)
    ensures !InTimeRange(request.timestamp) ==> IntendedValidateTimestamp(request, now).Fail?
    ensures InTimeRange(request.timestamp) ==>
      IntendedValidateTimestamp(request, now) == ValidateTimestamp(request, now)
  {
  }
}
