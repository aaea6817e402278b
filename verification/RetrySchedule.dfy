/** Retry deadline arithmetic: capped exponential backoff, jitter, the chooser
    that records one decision and the validator that later re-checks it. */
module RetrySchedule {
  import opened Basics

  datatype ScheduleKind = Fixed | Exponential | OtherKind(name: string)

  datatype Schedule = Schedule(
    kind: ScheduleKind, initialDelay: int64, maxDelay: int64,
    multiplier: uint64, jitterPermille: nat, hintLabel: string)

  datatype RetryPolicy = RetryPolicy(
    name: string, maxAttempts: int, schedule: Schedule, safeRetryContract: string)

  const NO_RETRY := RetryPolicy("", 0, Schedule(OtherKind(""), 0, 0, 0, 0, ""), "")

  const JITTER_DENOMINATOR := 1000

  datatype Rejection =
    | Accepted | RejectedPolicy | RejectedClock | RejectedHintTime | RejectedHintLabel
    | RejectedRandom | RejectedDeadline | RejectedOther(text: string)

  datatype ScheduleDecision = ScheduleDecision(
    attempt: int, preparedAt: Time, baseDelay: int, selectedDelay: int,
    notBefore: Time, deadline: Time, rejection: Rejection)

  predicate ValidSchedule(s: Schedule) {
    && 0 <= s.initialDelay <= s.maxDelay
    && s.jitterPermille <= JITTER_DENOMINATOR
    && match s.kind
       case Fixed => s.multiplier == 0 && s.maxDelay == s.initialDelay
       case Exponential => s.initialDelay > 0 && s.multiplier >= 2
       case OtherKind(_) => false
  }

  predicate ValidRetry(p: RetryPolicy) {
    || p == NO_RETRY
    || (&& p.name != "" && p.maxAttempts >= 1
        && (p.maxAttempts > 1 ==> p.safeRetryContract != "")
        && ValidSchedule(p.schedule))
  }

  // ---------------------------------------------------------------- backoff

  function Pow(base: nat, exponent: nat): nat {
    if exponent == 0 then 1 else base * Pow(base, exponent - 1)
  }

  function Min(a: int, b: int): int {
    if a <= b then a else b
  }

  /** The promised closed form of the backoff delay. */
  function BaseDelay(s: Schedule, attempt: int): (delay: int64)
    requires ValidSchedule(s)
    ensures s.initialDelay <= delay <= s.maxDelay
  {
    if s.kind.Exponential? && attempt >= 1 then
      PowPositive(s.multiplier, attempt - 1);
      ScaleUp(s.initialDelay, Pow(s.multiplier, attempt - 1));
      Min(s.maxDelay, s.initialDelay * Pow(s.multiplier, attempt - 1))
    else
      s.initialDelay
  }

  lemma ScaleUp(x: nat, y: nat)
    requires y >= 1
    ensures x <= x * y
  {
  }

  lemma PowPositive(base: nat, exponent: nat)
    requires base >= 1
    ensures Pow(base, exponent) >= 1
  {
    if exponent > 0 {
      PowPositive(base, exponent - 1);
      ScaleUp(base, Pow(base, exponent - 1));
    }
  }

  lemma PowMonotone(base: nat, low: nat, high: nat)
    requires base >= 1 && low <= high
    ensures Pow(base, low) <= Pow(base, high)
    decreases high
  {
    if low < high {
      PowMonotone(base, low, high - 1);
      ScaleUp(Pow(base, high - 1), base);
    }
  }

  lemma MultiplyMonotone(x: nat, a: nat, b: nat)
    requires a <= b
    ensures x * a <= x * b
  {
  }

  /** The delay never shrinks from one attempt to the next. */
  lemma BaseDelayMonotone(s: Schedule, attempt: int, later: int)
    requires ValidSchedule(s) && attempt <= later
    ensures BaseDelay(s, attempt) <= BaseDelay(s, later)
  {
    if s.kind.Exponential? && attempt >= 1 {
      PowMonotone(s.multiplier, attempt - 1, later - 1);
      MultiplyMonotone(s.initialDelay, Pow(s.multiplier, attempt - 1), Pow(s.multiplier, later - 1));
    }
  }

  /** Once a prefix of the product has passed the cap, the closed form is the cap. */
  lemma BaseDelayCapped(s: Schedule, number: int, attempt: int)
    requires ValidSchedule(s) && s.kind.Exponential? && 1 <= number <= attempt
    requires s.initialDelay * Pow(s.multiplier, number - 1) >= s.maxDelay
    ensures BaseDelay(s, attempt) == s.maxDelay
  {
    PowMonotone(s.multiplier, number - 1, attempt - 1);
    MultiplyMonotone(s.initialDelay, Pow(s.multiplier, number - 1), Pow(s.multiplier, attempt - 1));
  }

  lemma QuotientBound(m: nat, max: nat, delay: nat)
    requires delay > 0
    ensures m > max / delay <==> m * delay > max
  {
    assert max == (max / delay) * delay + max % delay;
    if m > max / delay {
      MultiplyMonotone(delay, max / delay + 1, m);
    } else {
      MultiplyMonotone(delay, m, max / delay);
    }
  }

  lemma ProductStep(initial: nat, base: nat, exponent: nat)
    ensures initial * Pow(base, exponent) * base == initial * Pow(base, exponent + 1)
  {
  }

  lemma DoublingStep(delay: nat, m: nat, rounds: nat)
    requires m >= 2 && delay >= Pow(2, rounds)
    ensures delay * m >= Pow(2, rounds + 1)
  {
    MultiplyMonotone(delay, 2, m);
  }

  lemma PowTwo63()
    ensures Pow(2, 63) == MAX_INT64 + 1
  {
    assert Pow(2, 8) == 256;
    assert Pow(2, 16) == 0x1_0000;
    assert Pow(2, 24) == 0x100_0000;
    assert Pow(2, 32) == 0x1_0000_0000;
    assert Pow(2, 40) == 0x100_0000_0000;
    assert Pow(2, 48) == 0x1_0000_0000_0000;
    assert Pow(2, 56) == 0x100_0000_0000_0000;
  }

  /** The multiplying loop. Every assignment to `delay` stays in the signed
      64-bit range, and the loop body runs at most 63 times. */
  method ActivityRetryBaseDelay(s: Schedule, attempt: int) returns (delay: int64, rounds: nat)
    requires ValidSchedule(s)
    ensures delay == BaseDelay(s, attempt)
    ensures rounds <= 63
  {
    delay, rounds := s.initialDelay, 0;
    if s.kind.Exponential? {
      var number := 1;
      PowTwo63();
      while number < attempt && delay < s.maxDelay
        invariant 1 <= number && number <= (if attempt >= 1 then attempt else 1) && rounds == number - 1
        invariant 0 < delay <= s.maxDelay
        invariant delay == s.initialDelay * Pow(s.multiplier, number - 1)
        invariant delay >= Pow(2, rounds)
        decreases attempt - number
      {
        RoundsBound(delay, rounds);
        QuotientBound(s.multiplier, s.maxDelay, delay);
        ProductStep(s.initialDelay, s.multiplier, number - 1);
        if s.multiplier > s.maxDelay / delay {
          BaseDelayCapped(s, number + 1, attempt);
          return s.maxDelay, rounds + 1;
        }
        DoublingStep(delay, s.multiplier, rounds);
        delay := delay * s.multiplier;
        number, rounds := number + 1, rounds + 1;
      }
      RoundsBound(delay, rounds);
      if number < attempt {
        BaseDelayCapped(s, number, attempt);
      }
    }
  }

  lemma RoundsBound(delay: int64, rounds: nat)
    requires delay >= Pow(2, rounds)
    ensures rounds <= 62
  {
    PowTwo63();
    if rounds >= 63 {
      PowMonotone(2, 63, rounds);
    }
  }

  // ----------------------------------------------------------------- jitter

  /** The source's two-part product; the typed locals record that neither part
      leaves the signed 64-bit range. */
  function JitterWidth(delay: int64, permille: nat): (width: int64)
    requires 0 <= delay && permille <= JITTER_DENOMINATOR
    ensures width == delay * permille / JITTER_DENOMINATOR
    ensures 0 <= width <= delay
  {
    JitterParts(delay, permille);
    var whole: int64 := delay / JITTER_DENOMINATOR * permille;
    var rest: int64 := (delay % JITTER_DENOMINATOR) * permille;
    whole + rest / JITTER_DENOMINATOR
  }

  lemma JitterParts(delay: nat, permille: nat)
    requires permille <= 1000
    ensures delay / 1000 * permille + (delay % 1000) * permille / 1000 == delay * permille / 1000
    ensures 0 <= delay / 1000 * permille <= delay
    ensures 0 <= (delay % 1000) * permille <= 999 * 1000
    ensures delay * permille / 1000 <= delay
  {
    var q, r := delay / 1000, delay % 1000;
    assert delay == 1000 * q + r;
    assert delay * permille == 1000 * (q * permille) + r * permille;
    MultiplyMonotone(q, permille, 1000);
    MultiplyMonotone(permille, r, 999);
    MultiplyMonotone(delay, permille, 1000);
  }

  /** One sample reduced into the jitter band [base - width, base]: what is taken
      off the delay is the sample up to whole widths of the band. */
  function Jittered(base: int64, width: int64, sample: uint64): (selected: int)
    requires 0 < width <= base
    ensures base - width <= selected <= base
    ensures sample <= width ==> selected == base - sample
    ensures Congruent(base - selected, sample, width as int + 1)
  {
    base - Reduced(sample, width as int + 1)
  }

  ghost predicate Congruent(a: int, b: int, modulus: int)
    requires modulus > 0
  {
    exists rounds :: a + Times(rounds, modulus) == b
  }

  function Times(rounds: int, modulus: int): int {
    rounds * modulus
  }

  function Reduced(x: nat, modulus: int): (r: nat)
    requires modulus > 0
    ensures r < modulus && Congruent(r, x, modulus)
    ensures x < modulus ==> r == x
  {
    assert x % modulus + Times(x / modulus, modulus) == x;
    x % modulus
  }

  // ---------------------------------------------------- choosing a schedule

  predicate DeadlineUsable(at: Time, deadline: Time) {
    at <= deadline && TimeValid(deadline)
  }

  function Later(deadline: Time, notBefore: Time): Time {
    if notBefore > deadline then notBefore else deadline
  }

  /** `sample` is the random source: None when it panics. */
  function ChooseSchedule(
    p: RetryPolicy, attempt: int, at: Time, hint: Time, sample: Option<uint64>): (d: ScheduleDecision)
    ensures d.attempt == attempt && d.preparedAt == at
  {
    var blank := ScheduleDecision(attempt, at, 0, 0, 0, 0, Accepted);
    if attempt < 1 || attempt >= p.maxAttempts || !ValidRetry(p) then
      blank.(rejection := RejectedPolicy)
    else if !TimeValid(at) then
      blank.(rejection := RejectedClock)
    else
      var base := BaseDelay(p.schedule, attempt);
      var d := blank.(baseDelay := base, selectedDelay := base);
      if hint != 0 && !TimeValid(hint) then
        d.(rejection := RejectedHintTime)
      else
        var hinted := d.(notBefore := hint);
        if hint != 0 && p.schedule.hintLabel == "" then
          hinted.(rejection := RejectedHintLabel)
        else
          var width := JitterWidth(base, p.schedule.jitterPermille);
          if width > 0 && sample.None? then
            hinted.(rejection := RejectedRandom)
          else
            var selected := if width > 0 then Jittered(base, width, sample.value) else base;
            var deadline := Later(at + selected, hint);
            if DeadlineUsable(at, deadline) then
              hinted.(selectedDelay := selected, deadline := deadline)
            else
              hinted.(selectedDelay := selected, rejection := RejectedDeadline)
  }

  /** The source's statement form of the same choice. */
  method ChooseActivityRetrySchedule(
    p: RetryPolicy, attempt: int, at: Time, hint: Time, sample: Option<uint64>)
    returns (d: ScheduleDecision)
    ensures d == ChooseSchedule(p, attempt, at, hint, sample)
  {
    d := ScheduleDecision(attempt, at, 0, 0, 0, 0, Accepted);
    if attempt < 1 || attempt >= p.maxAttempts || !ValidRetry(p) {
      return d.(rejection := RejectedPolicy);
    }
    if !TimeValid(at) {
      return d.(rejection := RejectedClock);
    }
    var base, _ := ActivityRetryBaseDelay(p.schedule, attempt);
    d := d.(baseDelay := base, selectedDelay := base);
    if hint != 0 {
      if !TimeValid(hint) {
        return d.(rejection := RejectedHintTime);
      }
      d := d.(notBefore := hint);
      if p.schedule.hintLabel == "" {
        return d.(rejection := RejectedHintLabel);
      }
    }
    var width := JitterWidth(base, p.schedule.jitterPermille);
    if width > 0 {
      if sample.None? {
        return d.(rejection := RejectedRandom);
      }
      d := d.(selectedDelay := Jittered(base, width, sample.value));
    }
    var deadline := at + d.selectedDelay;
    if d.notBefore > deadline {
      deadline := d.notBefore;
    }
    if deadline < at || !TimeValid(deadline) {
      return d.(rejection := RejectedDeadline);
    }
    d := d.(deadline := deadline);
  }

  // -------------------------------------------------- validating a schedule

  predicate ValidHint(p: RetryPolicy, hint: Time) {
    hint == 0 || (p.schedule.hintLabel != "" && TimeValid(hint))
  }

  predicate ValidScheduleDecision(p: RetryPolicy, d: ScheduleDecision) {
    && ValidRetry(p) && 1 <= d.attempt < p.maxAttempts
    && TimeValid(d.preparedAt)
    && 0 <= d.selectedDelay <= d.baseDelay
    && (if d.rejection != Accepted then ValidRejectedSchedule(p, d) else
          var base := BaseDelay(p.schedule, d.attempt);
          && d.baseDelay == base
          && d.selectedDelay >= base - JitterWidth(base, p.schedule.jitterPermille)
          && ValidHint(p, d.notBefore)
          && TimeValid(d.deadline)
          && d.deadline == Later(d.preparedAt + d.selectedDelay, d.notBefore))
  }

  predicate ValidRejectedSchedule(p: RetryPolicy, d: ScheduleDecision)
    requires ValidRetry(p) && 1 <= d.attempt < p.maxAttempts
  {
    var base := BaseDelay(p.schedule, d.attempt);
    var width := JitterWidth(base, p.schedule.jitterPermille);
    && d.deadline == 0 && d.baseDelay == base
    && match d.rejection
       case RejectedHintTime => d.notBefore == 0 && d.selectedDelay == d.baseDelay
       case RejectedHintLabel =>
         p.schedule.hintLabel == "" && TimeValid(d.notBefore) && d.selectedDelay == d.baseDelay
       case RejectedRandom => width > 0 && d.selectedDelay == d.baseDelay && ValidHint(p, d.notBefore)
       case RejectedDeadline =>
         && ValidHint(p, d.notBefore) && d.selectedDelay >= d.baseDelay - width
         && !DeadlineUsable(d.preparedAt, Later(d.preparedAt + d.selectedDelay, d.notBefore))
       case _ => false
  }

  /** Whether a choice can be persisted depends only on the policy, the attempt
      number and the clock, never on the hint or on the random source. */
  lemma ChosenScheduleValid(p: RetryPolicy, attempt: int, at: Time, hint: Time, sample: Option<uint64>)
    ensures ValidScheduleDecision(p, ChooseSchedule(p, attempt, at, hint, sample))
       <==> ValidRetry(p) && 1 <= attempt < p.maxAttempts && TimeValid(at)
  {
  }

  /** An accepted choice retries exactly when both the selected delay has passed
      and the host's hint has been reached, and the delay lies in the jitter band. */
  lemma ChosenDeadline(p: RetryPolicy, attempt: int, at: Time, hint: Time, sample: Option<uint64>)
    requires ChooseSchedule(p, attempt, at, hint, sample).rejection == Accepted
    ensures var d := ChooseSchedule(p, attempt, at, hint, sample);
      && ValidRetry(p) && ValidSchedule(p.schedule)
      && d.deadline >= at + d.selectedDelay && d.deadline >= hint
      && (d.deadline == at + d.selectedDelay || d.deadline == hint)
      && var base := BaseDelay(p.schedule, attempt);
         base - base * p.schedule.jitterPermille / JITTER_DENOMINATOR <= d.selectedDelay <= base
  {
    ChosenScheduleValid(p, attempt, at, hint, sample);
  }

  /** Exactly when a retry is scheduled: a policy with attempts left, usable times,
      a hint only under a label, a random source only if there is jitter to choose,
      and a deadline before the end of time. The choice keeps the hint, and its
      delay is the sampled one. */
  lemma AcceptedIff(p: RetryPolicy, attempt: int, at: Time, hint: Time, sample: Option<uint64>)
    ensures var d := ChooseSchedule(p, attempt, at, hint, sample);
      d.rejection == Accepted <==>
        && ValidRetry(p) && 1 <= attempt < p.maxAttempts && TimeValid(at)
        && (hint == 0 || (p.schedule.hintLabel != "" && TimeValid(hint)))
        && (HasJitter(p, attempt) ==> sample.Some?)
        && at + d.selectedDelay < END_OF_TIME
    ensures var d := ChooseSchedule(p, attempt, at, hint, sample);
      d.rejection == Accepted ==>
        && d.notBefore == hint && ValidSchedule(p.schedule) && d.baseDelay == BaseDelay(p.schedule, attempt)
        && (if HasJitter(p, attempt) then sample.Some? && Congruent(d.baseDelay - d.selectedDelay, sample.value,
              d.baseDelay * p.schedule.jitterPermille / JITTER_DENOMINATOR + 1)
            else d.selectedDelay == d.baseDelay)
  {
    ChosenScheduleValid(p, attempt, at, hint, sample);
  }

  /** There is more than one delay to choose from. */
  predicate HasJitter(p: RetryPolicy, attempt: int) {
    ValidSchedule(p.schedule) && BaseDelay(p.schedule, attempt) * p.schedule.jitterPermille / JITTER_DENOMINATOR > 0
  }

  /** The validator accepts nothing the chooser could not have written: it is
      exactly the image of the chooser over all hints and all samples. */
  lemma ValidScheduleIsChosen(p: RetryPolicy, d: ScheduleDecision)
    returns (hint: Time, sample: Option<uint64>)
    requires ValidScheduleDecision(p, d)
    ensures d == ChooseSchedule(p, d.attempt, d.preparedAt, hint, sample)
  {
    hide Congruent;
    hint := if d.rejection == RejectedHintTime then END_OF_TIME else d.notBefore;
    sample := if d.rejection == RejectedRandom then None else Some(d.baseDelay - d.selectedDelay);
  }
}
