/** How out_write of the mx5x audio HAL keeps the kernel buffer from filling up
    (mx5x/audio/audio_hw.c): it sleeps until the fill is below cur_write_threshold, within a bound,
    and it moves cur_write_threshold towards write_threshold a quarter period at a time. */
module WriteThrottle {
  import opened Arithmetic

  const PERIOD_SIZE := 512
  const SHORT_PERIOD_COUNT := 2
  const LONG_PERIOD_COUNT := 8
  const RATE := 44100
  const BUFFER_SIZE := PERIOD_SIZE * LONG_PERIOD_COUNT
  const QUARTER := PERIOD_SIZE / 4

  const MIN_WRITE_SLEEP_US := 2000
  const MAX_WRITE_SLEEP_US := PERIOD_SIZE * SHORT_PERIOD_COUNT * 1000000 / RATE

  // What pcm_get_htimestamp answers: the free frames of the kernel buffer, or a failure.  After an
  // underrun the driver may report more free frames than the buffer has.
  datatype Reading = Avail(frames: nat) | Failed

  function Fill(frames: nat): int {
    BUFFER_SIZE - frames
  }

  // The sleep for a fill above the threshold; a dividend that is never negative.
  function SleepFor(fill: int, threshold: int): (us: nat)
    requires fill > threshold
  {
    (fill - threshold) * 1000000 / RATE
  }

  predicate IsTooFull(reading: Reading, threshold: int) {
    reading.Avail? && Fill(reading.frames) > threshold
    && SleepFor(Fill(reading.frames), threshold) >= MIN_WRITE_SLEEP_US
  }

  // The whole microseconds that 44100 frames a second need to play down to the threshold.
  lemma SleepLength(fill: int, threshold: int)
    requires fill > threshold
    ensures var us := SleepFor(fill, threshold);
      us * 44100 <= (fill - threshold) * 1000000 < us * 44100 + 44100
  {
  }

  // A fill of 4096 less the free frames is worth a sleep exactly from 89 frames above the threshold on.
  lemma WorthASleep(reading: Reading, threshold: int)
    ensures IsTooFull(reading, threshold) <==> reading.Avail? && 4096 - reading.frames >= threshold + 89
    ensures MAX_WRITE_SLEEP_US == 23219
  {
  }

  // A sleep is as long as the kernel takes to play down to the threshold, cut to what the sleeps
  // before it leave of the bound.
  predicate SleepFits(threshold: int, reading: Reading, before: nat, sleep: nat) {
    && IsTooFull(reading, threshold) && before <= MAX_WRITE_SLEEP_US
    && sleep == Min(SleepFor(Fill(reading.frames), threshold), MAX_WRITE_SLEEP_US - before)
  }

  ghost predicate SleepsFit(threshold: int, readings: nat -> Reading, sleeps: seq<nat>) {
    forall k: nat :: k < |sleeps| ==> SleepFits(threshold, readings(k), Sum(sleeps[..k]), sleeps[k])
  }

  // The loop of out_write.  readings(k) is the k-th answer of the driver, sleeps are the arguments of
  // usleep in order.  It stops when the bound is used up, or at the first answer that is a failure, a
  // fill within the threshold or one too small to be worth a sleep.
  ghost predicate Throttled(threshold: int, readings: nat -> Reading, sleeps: seq<nat>, asked: nat) {
    && SleepsFit(threshold, readings, sleeps) && Sum(sleeps) <= MAX_WRITE_SLEEP_US
    && 1 <= asked && asked - 1 <= |sleeps| <= asked
    && (|sleeps| == asked ==> Sum(sleeps) == MAX_WRITE_SLEEP_US)
    && (|sleeps| < asked ==> !IsTooFull(readings(asked - 1), threshold))
  }

  method Throttle(threshold: int, readings: nat -> Reading) returns (sleeps: seq<nat>, asked: nat)
    ensures Throttled(threshold, readings, sleeps, asked)
    // At most MAX_WRITE_SLEEP_US / MIN_WRITE_SLEEP_US rounds and one more.
    ensures (asked - 1) * MIN_WRITE_SLEEP_US <= MAX_WRITE_SLEEP_US
  {
    sleeps, asked := [], 0;
    var total := 0;
    while true
      invariant total == Sum(sleeps) <= MAX_WRITE_SLEEP_US
      invariant total >= asked * MIN_WRITE_SLEEP_US
      invariant |sleeps| == asked && SleepsFit(threshold, readings, sleeps)
      decreases MAX_WRITE_SLEEP_US - total
    {
      var reading := readings(asked);
      asked := asked + 1;
      if reading.Failed? {
        break;
      }
      var fill := Fill(reading.frames);
      if fill > threshold {
        var sleep := SleepFor(fill, threshold);
        if sleep < MIN_WRITE_SLEEP_US {
          break;
        }
        total := total + sleep;
        if total > MAX_WRITE_SLEEP_US {
          sleep := MAX_WRITE_SLEEP_US - (total - sleep);
        }
        OneMoreFits(threshold, readings, sleeps, sleep);
        sleeps := sleeps + [sleep];
      }
      if !(fill > threshold && total <= MAX_WRITE_SLEEP_US) {
        break;
      }
    }
  }

  lemma OneMoreFits(threshold: int, readings: nat -> Reading, sleeps: seq<nat>, sleep: nat)
    requires SleepsFit(threshold, readings, sleeps) && SleepFits(threshold, readings(|sleeps|), Sum(sleeps), sleep)
    ensures SleepsFit(threshold, readings, sleeps + [sleep]) && Sum(sleeps + [sleep]) == Sum(sleeps) + sleep
  {
    var more := sleeps + [sleep];
    assert more[..|sleeps|] == sleeps;
    forall k: nat | k < |more|
      ensures SleepFits(threshold, readings(k), Sum(more[..k]), more[k])
    {
      if k < |sleeps| {
        assert more[..k] == sleeps[..k] && more[k] == sleeps[k];
      }
    }
  }

  function Sum(s: seq<nat>): nat {
    if s == [] then 0 else Sum(s[..|s| - 1]) + s[|s| - 1]
  }

  // ---- the threshold ------------------------------------------------------------------------

  predicate IsInt32(x: int) {
    -TWO31 <= x < TWO31
  }

  // kernel_frames / period_size + 1 periods.  The division is by a size_t, so the int is converted
  // to unsigned first and the product converted back.
  function PeriodsAbove(fill: int): int {
    var product := ((fill % TWO32 / PERIOD_SIZE + 1) * PERIOD_SIZE) % TWO32;
    if product >= TWO31 then product - TWO32 else product
  }

  // cur and target are cur_write_threshold and write_threshold; fill is the last value of
  // kernel_frames.
  function NextThreshold(cur: int, target: int, fill: int): int {
    if cur > target then
      (if cur - QUARTER < target then target else cur - QUARTER)
    else if cur < target then
      (if cur + QUARTER > target then target else cur + QUARTER)
    else if fill < target && target - fill > PERIOD_SIZE * SHORT_PERIOD_COUNT then
      PeriodsAbove(fill) + QUARTER
    else cur
  }

  // The periods of a fill seen as unsigned, for a negative one those of 2^32 more.
  lemma UnsignedPeriods(fill: int)
    requires -TWO31 <= fill < TWO31
    ensures fill % TWO32 / PERIOD_SIZE == fill / PERIOD_SIZE + if fill < 0 then TWO32 / PERIOD_SIZE else 0
  {
    if fill < 0 {
      assert fill % TWO32 == fill + TWO32;
    }
  }

  // The detour over unsigned arithmetic still rounds up to the next period, for negative fills too.
  lemma PeriodsAboveRoundsUp(fill: int)
    requires -TWO31 <= fill < TWO31 - PERIOD_SIZE
    ensures PeriodsAbove(fill) % PERIOD_SIZE == 0
    ensures fill < PeriodsAbove(fill) <= fill + PERIOD_SIZE
  {
    UnsignedPeriods(fill);
    NextPeriod(fill, fill / PERIOD_SIZE);
  }

  lemma NextPeriod(fill: int, q: int)
    requires -TWO31 <= fill < TWO31 - PERIOD_SIZE && q == fill / PERIOD_SIZE
    requires fill % TWO32 / PERIOD_SIZE == q + if fill < 0 then TWO32 / PERIOD_SIZE else 0
    ensures PeriodsAbove(fill) == (q + 1) * PERIOD_SIZE
  {
    var up := (q + 1) * PERIOD_SIZE;
    assert -TWO31 <= up < TWO31;
    assert (fill % TWO32 / PERIOD_SIZE + 1) * PERIOD_SIZE == up + if fill < 0 then TWO32 else 0;
  }

  function Abs(x: int): (r: nat) {
    if x < 0 then -x else x
  }

  // Towards the target and never past it.
  lemma NeverOvershoots(cur: int, target: int, fill: int)
    requires cur != target
    ensures var next := NextThreshold(cur, target, fill);
      && (cur < target ==> cur < next <= target)
      && (cur > target ==> target <= next < cur)
      && Abs(target - next) == if Abs(target - cur) <= QUARTER then 0 else Abs(target - cur) - QUARTER
  {
  }

  // A reset happens only at the target, after a real depletion, and lands strictly between the
  // fill and the target, above the fill by at most one period and a quarter.
  lemma ResetLandsBetween(target: int, fill: int)
    requires IsInt32(fill) && target <= BUFFER_SIZE
    ensures var next := NextThreshold(target, target, fill);
      next != target ==>
        && target - fill > PERIOD_SIZE * SHORT_PERIOD_COUNT
        && fill + QUARTER < next < target
        && next <= fill + PERIOD_SIZE + QUARTER
  {
    if fill < target {
      PeriodsAboveRoundsUp(fill);
    }
  }

  // And every real depletion at the target resets: the threshold becomes the next whole period above the
  // fill and a quarter more, exactly if more than two periods are missing.
  lemma WhenItResets(target: int, fill: int)
    requires IsInt32(fill) && target <= 4096
    ensures NextThreshold(target, target, fill) != target <==> target - fill > 1024
    ensures target - fill > 1024 ==>
      var next := NextThreshold(target, target, fill);
      (next - 128) % 512 == 0 && fill < next - 128 <= fill + 512
  {
    if target - fill > 1024 {
      PeriodsAboveRoundsUp(fill);
      ResetLandsBetween(target, fill);
    }
  }

  function Thresholds(cur: int, target: int, fills: seq<int>): int
    decreases |fills|
  {
    if fills == [] then cur else Thresholds(NextThreshold(cur, target, fills[0]), target, fills[1..])
  }

  // With a stable target the threshold closes in by a quarter a write, whatever the kernel reports
  // meanwhile.  It is there after n writes and not before, where n is the distance over the
  // quarter, rounded up: (n - 1) * QUARTER < distance <= n * QUARTER.
  lemma {:induction false} ReachesTarget(cur: int, target: int, fills: seq<int>)
    requires |fills| * QUARTER < Abs(target - cur) + QUARTER
    ensures Abs(target - Thresholds(cur, target, fills)) ==
      if |fills| * QUARTER >= Abs(target - cur) then 0 else Abs(target - cur) - |fills| * QUARTER
    ensures Thresholds(cur, target, fills) == target <==> |fills| * QUARTER >= Abs(target - cur)
    decreases |fills|
  {
    if fills == [] || cur == target {
    } else {
      var next := NextThreshold(cur, target, fills[0]);
      NeverOvershoots(cur, target, fills[0]);
      QuarterCloser(Abs(target - cur), |fills|, Abs(target - next));
      if fills[1..] != [] {
        ReachesTarget(next, target, fills[1..]);
      }
    }
  }

  lemma QuarterCloser(distance: nat, writes: nat, next: nat)
    requires 0 < writes && writes * QUARTER < distance + QUARTER
    requires next == if distance <= QUARTER then 0 else distance - QUARTER
    ensures (writes - 1) * QUARTER < next + QUARTER
    ensures writes * QUARTER >= distance <==> (writes - 1) * QUARTER >= next
    ensures writes > 1 ==> next > 0
    ensures writes == 1 ==> (QUARTER >= distance <==> next == 0)
    ensures (if writes * QUARTER >= distance then 0 else distance - writes * QUARTER)
         == (if (writes - 1) * QUARTER >= next then 0 else next - (writes - 1) * QUARTER)
  {
  }

  datatype BufferType = Unknown | Short | Long

  function Target(t: BufferType): int {
    PERIOD_SIZE * (if t.Long? then LONG_PERIOD_COUNT else SHORT_PERIOD_COUNT)
  }

  // The per-stream state across writes.
  class StreamOut {
    var writeThreshold: int
    var curWriteThreshold: int
    var bufferType: BufferType

    ghost predicate Valid()
      reads this
    {
      bufferType != Unknown ==> writeThreshold == Target(bufferType)
    }

    // start_output_stream, not routed to SCO
    constructor ()
      ensures Valid() && bufferType == Unknown
    {
      bufferType := Unknown;
      writeThreshold, curWriteThreshold := 0, 0;
    }

    // A change of the screen state or of the input changes the target; not while routed to SCO.
    method AdaptBufferType(scoOn: bool, wanted: BufferType)
      requires Valid() && wanted != Unknown
      modifies this
      ensures Valid() && bufferType == if scoOn then old(bufferType) else wanted
      ensures writeThreshold ==
        if scoOn || wanted == old(bufferType) then old(writeThreshold) else if wanted == Long then 4096 else 1024
      ensures curWriteThreshold ==
        if !scoOn && old(bufferType) == Unknown then writeThreshold else old(curWriteThreshold)
    {
      if !scoOn && wanted != bufferType {
        writeThreshold := PERIOD_SIZE * (if wanted == Long then LONG_PERIOD_COUNT else SHORT_PERIOD_COUNT);
        if bufferType == Unknown {
          curWriteThreshold := writeThreshold;
        }
        bufferType := wanted;
      }
    }

    method MoveThreshold(fill: int)
      modifies this`curWriteThreshold
      ensures curWriteThreshold == NextThreshold(old(curWriteThreshold), writeThreshold, fill)
    {
      var cur := curWriteThreshold;
      if cur > writeThreshold {
        curWriteThreshold := cur - QUARTER;
        if curWriteThreshold < writeThreshold {
          curWriteThreshold := writeThreshold;
        }
      } else if cur < writeThreshold {
        curWriteThreshold := cur + QUARTER;
        if curWriteThreshold > writeThreshold {
          curWriteThreshold := writeThreshold;
        }
      } else if fill < writeThreshold && writeThreshold - fill > PERIOD_SIZE * SHORT_PERIOD_COUNT {
        curWriteThreshold := PeriodsAbove(fill);
        curWriteThreshold := curWriteThreshold + QUARTER;
      }
    }

    // The part of out_write between the device mutex and pcm_write.  fill0 is what kernel_frames holds
    // before the first reading.  A stream routed to SCO is neither adapted nor throttled.
    method Write(scoOn: bool, screenOff: bool, inputActive: bool, fill0: int, readings: nat -> Reading)
      returns (sleeps: seq<nat>, asked: nat)
      requires Valid()
      modifies this
      ensures Valid()
      ensures scoOn ==> sleeps == [] && asked == 0
      ensures scoOn ==>
        && bufferType == old(bufferType)
        && writeThreshold == old(writeThreshold) && curWriteThreshold == old(curWriteThreshold)
      ensures !scoOn ==> bufferType == if screenOff && !inputActive then Long else Short
      ensures !scoOn ==>
        var threshold := if old(bufferType) == Unknown then writeThreshold else old(curWriteThreshold);
        && Throttled(threshold, readings, sleeps, asked)
        && curWriteThreshold == NextThreshold(threshold, writeThreshold, LastFill(fill0, readings, asked))
    {
      AdaptBufferType(scoOn, if screenOff && !inputActive then Long else Short);
      sleeps, asked := [], 0;
      if !scoOn {
        sleeps, asked := Throttle(curWriteThreshold, readings);
        MoveThreshold(LastFill(fill0, readings, asked));
      }
    }
  }

  // The fill the threshold is moved by: that of the last answer that was one.
  lemma {:induction false} LastFillIs(fill0: int, readings: nat -> Reading, asked: nat, k: nat)
    requires k <= asked && forall j: nat :: k <= j < asked ==> readings(j).Failed?
    requires k > 0 ==> readings(k - 1).Avail?
    ensures LastFill(fill0, readings, asked) == if k == 0 then fill0 else 4096 - readings(k - 1).frames
    decreases asked
  {
    if asked == k {
    } else {
      assert readings(asked - 1).Failed?;
      LastFillIs(fill0, readings, asked - 1, k);
    }
  }

  // kernel_frames after the loop: the last answer, or what it held before if the first one failed.
  function LastFill(fill0: int, readings: nat -> Reading, asked: nat): int {
    if asked == 0 then fill0
    else match readings(asked - 1)
      case Avail(n) => Fill(n)
      case Failed => LastFill(fill0, readings, asked - 1)
  }
}
