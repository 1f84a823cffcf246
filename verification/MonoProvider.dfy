/** The capture buffer provider of the mx5x audio HAL (mx5x/audio/audio_hw.c): it reads whole
    periods from the kernel, keeps the left channel in place, and hands the frames out in pieces of
    whatever size is asked for.  What pcm_read answers is a parameter. */
module MonoProvider {
  import opened Arithmetic
  import opened PcmReads
  import opened Sequences

  const ENODEV := -19

  // Where frame i starts in interleaved samples of one or two channels.
  function SampleAt(i: nat, channels: nat): nat {
    if channels == 2 then 2 * i else i
  }

  // The first channel of one period of n frames.
  function Left(samples: seq<int>, channels: nat, n: nat): (r: seq<int>)
    requires |samples| == SampleAt(n, channels)
    ensures |r| == n
  {
    seq(n, i requires 0 <= i < n => samples[SampleAt(i, channels)])
  }

  // What the calls of pcm_read answer, in turn: whole periods and errors.
  ghost predicate Answers(answers: nat -> Reply, channels: nat, n: nat) {
    forall k :: match answers(k) case Period(s) => |s| == SampleAt(n, channels) case Error(code) => code != 0
  }

  // What one answer adds to the mono stream.
  ghost function LeftOf(reply: Reply, channels: nat, n: nat): seq<int>
    requires reply.Period? ==> |reply.data| == SampleAt(n, channels)
  {
    match reply case Period(s) => Left(s, channels, n) case Error(_) => []
  }

  // The mono stream: the first channel of every period that the calls from lo up to hi deliver.
  ghost function Mono(answers: nat -> Reply, channels: nat, n: nat, lo: nat, hi: nat): (r: seq<int>)
    requires lo <= hi && Answers(answers, channels, n)
    decreases hi
  {
    if lo == hi then [] else Mono(answers, channels, n, lo, hi - 1) + LeftOf(answers(hi - 1), channels, n)
  }

  lemma {:induction false} MonoJoin(answers: nat -> Reply, channels: nat, n: nat, lo: nat, mid: nat, hi: nat)
    requires lo <= mid <= hi && Answers(answers, channels, n)
    ensures Mono(answers, channels, n, lo, hi)
         == Mono(answers, channels, n, lo, mid) + Mono(answers, channels, n, mid, hi)
    decreases hi
  {
    if mid == hi {
      assert Mono(answers, channels, n, mid, hi) == [];
    } else {
      MonoJoin(answers, channels, n, lo, mid, hi - 1);
      Regroup(Mono(answers, channels, n, lo, mid), Mono(answers, channels, n, mid, hi - 1),
              LeftOf(answers(hi - 1), channels, n));
    }
  }

  // Without errors the calls before call k deliver k periods of n frames.
  lemma {:induction false} MonoLength(answers: nat -> Reply, channels: nat, n: nat, k: nat)
    requires Answers(answers, channels, n) && AllPeriods(answers, 0, k)
    ensures |Mono(answers, channels, n, 0, k)| == k * n
  {
    if k == 0 {
      assert 0 * n == 0;
    } else {
      MonoLength(answers, channels, n, k - 1);
      Distribute(k - 1, 1, n);
    }
  }

  lemma PeriodInside(answers: nat -> Reply, channels: nat, n: nat, k: nat, hi: nat)
    requires k < hi && Answers(answers, channels, n) && answers(k).Period?
    ensures Mono(answers, channels, n, 0, hi) == Mono(answers, channels, n, 0, k)
      + Left(answers(k).data, channels, n) + Mono(answers, channels, n, k + 1, hi)
  {
    MonoJoin(answers, channels, n, 0, k + 1, hi);
  }

  lemma Middle(a: seq<int>, b: seq<int>, c: seq<int>, i: nat)
    requires i < |b|
    ensures |a| + i < |a + b + c| && (a + b + c)[|a| + i] == b[i]
  {
  }

  // Frame i of the period that call k delivers follows the frames of all the calls before it, and is
  // the first sample of its frame; without errors before it, it is frame k * n + i.
  lemma MonoAt(answers: nat -> Reply, channels: nat, n: nat, k: nat, hi: nat, i: nat)
    requires k < hi && Answers(answers, channels, n) && answers(k).Period? && i < n
    ensures SampleAt(i, channels) < |answers(k).data|
    ensures var at := |Mono(answers, channels, n, 0, k)|;
      && at + i < |Mono(answers, channels, n, 0, hi)|
      && Mono(answers, channels, n, 0, hi)[at + i] == answers(k).data[if channels == 2 then 2 * i else i]
      && (AllPeriods(answers, 0, k) ==> at == k * n)
  {
    PeriodInside(answers, channels, n, k, hi);
    Middle(Mono(answers, channels, n, 0, k), Left(answers(k).data, channels, n),
           Mono(answers, channels, n, k + 1, hi), i);
    if AllPeriods(answers, 0, k) {
      MonoLength(answers, channels, n, k);
    }
  }

  class StreamIn {
    const channels: nat
    const periodSize: nat
    const answers: nat -> Reply
    const buffer: array<int>
    var pcmReads: nat                // calls of pcm_read so far
    var isOpen: bool                 // pcm != NULL
    var framesIn: nat
    var readStatus: int

    ghost var released: seq<int>     // what release_buffer has taken off the provider

    // The mono stream captured since the stream was started.
    ghost function Captured(): seq<int>
      requires Answers(answers, channels, periodSize)
      reads this
    {
      Mono(answers, channels, periodSize, 0, pcmReads)
    }

    ghost function Held(): seq<int>
      requires framesIn <= periodSize <= buffer.Length
      reads this, buffer
    {
      buffer[periodSize - framesIn..periodSize]
    }

    // What was released and what the buffer still holds are the captured stream, in order.
    ghost predicate Valid()
      reads this, buffer
    {
      && 1 <= channels <= 2 && periodSize > 0 && buffer.Length == SampleAt(periodSize, channels)
      && framesIn <= periodSize && Answers(answers, channels, periodSize)
      && released + Held() == Captured()
      && (isOpen && framesIn > 0 ==> readStatus == 0)
    }

    // start_input_stream
    constructor (channels: nat, periodSize: nat, answers: nat -> Reply)
      requires 1 <= channels <= 2 && periodSize > 0 && Answers(answers, channels, periodSize)
      ensures Valid() && isOpen && framesIn == 0 && released == [] && pcmReads == 0
      ensures this.channels == channels && this.periodSize == periodSize && this.answers == answers && fresh(buffer)
    {
      this.channels, this.periodSize, this.answers := channels, periodSize, answers;
      buffer := new int[SampleAt(periodSize, channels)];
      pcmReads, isOpen, framesIn, readStatus := 0, true, 0, 0;
      released := [];
    }

    // pcm_close in do_in_standby
    method Close()
      requires Valid()
      modifies this`isOpen
      ensures Valid() && !isOpen
    {
      isOpen := false;
    }

    method PcmRead(samples: seq<int>)
      requires |samples| == buffer.Length
      modifies buffer
      ensures buffer[..] == samples
    {
      forall i | 0 <= i < buffer.Length {
        buffer[i] := samples[i];
      }
    }

    // Discard the right channel, in place.
    method Compact(n: nat)
      requires 2 * n <= buffer.Length
      modifies buffer
      ensures forall k :: 0 <= k < n ==> buffer[k] == old(buffer[2 * k])
      ensures forall k :: n <= k < buffer.Length ==> buffer[k] == old(buffer[k])
    {
      var i := 1;
      while i < n
        invariant 1 <= i && (i <= n || n == 0)
        invariant forall k :: 0 <= k < i && k < n ==> buffer[k] == old(buffer[2 * k])
        invariant forall k :: i <= k < buffer.Length || n <= k < buffer.Length ==> buffer[k] == old(buffer[k])
      {
        buffer[i] := buffer[2 * i];
        i := i + 1;
      }
    }

    // The part of get_next_buffer after a successful pcm_read.
    method Fetch(samples: seq<int>)
      requires Valid() && isOpen && framesIn == 0 && answers(pcmReads) == Period(samples)
      modifies this`framesIn, this`readStatus, this`pcmReads, buffer
      ensures Valid() && pcmReads == old(pcmReads) + 1 && framesIn == periodSize && readStatus == 0
    {
      PcmRead(samples);
      readStatus := 0;
      framesIn := periodSize;
      if channels == 2 {
        Compact(framesIn);
      }
      pcmReads := pcmReads + 1;
      assert Held() == Left(samples, channels, periodSize);
      assert released == old(released + Held());
    }

    // Have a frame in the buffer, if there is a PCM and it can be read.
    method Refill() returns (status: int)
      requires Valid()
      modifies this`framesIn, this`readStatus, this`pcmReads, buffer
      ensures Valid() && status == readStatus
      ensures pcmReads == old(pcmReads) + if isOpen && old(framesIn) == 0 then 1 else 0
      ensures if isOpen && (old(framesIn) > 0 || answers(old(pcmReads)).Period?)
        then status == 0 && framesIn == if old(framesIn) > 0 then old(framesIn) else periodSize
        else status == (if isOpen then answers(old(pcmReads)).code else ENODEV) && status != 0
             && framesIn == old(framesIn)
    {
      if !isOpen {
        readStatus := ENODEV;
        return ENODEV;
      }
      if framesIn == 0 {
        var reply := answers(pcmReads);
        if reply.Error? {
          readStatus := reply.code;
          pcmReads := pcmReads + 1;
          assert Captured() == old(Captured()) + [] == old(Captured());
          return reply.code;
        }
        Fetch(reply.data);
      }
      status := readStatus;
    }

    // buffer->frame_count is requested on entry and granted on exit; buffer->raw is NULL or points
    // to sample at.  The granted frames are the next ones of the mono stream.
    method GetNextBuffer(requested: nat) returns (status: int, raw: bool, at: nat, granted: nat)
      requires Valid()
      modifies this`framesIn, this`readStatus, this`pcmReads, buffer
      ensures Valid() && status == readStatus && (raw <==> status == 0)
      ensures pcmReads == old(pcmReads) + if isOpen && old(framesIn) == 0 then 1 else 0
      ensures raw <==> isOpen && (old(framesIn) > 0 || answers(old(pcmReads)).Period?)
      ensures !raw ==> granted == 0 && framesIn == old(framesIn)
      ensures !raw ==> status == if isOpen then answers(old(pcmReads)).code else ENODEV
      ensures raw ==> framesIn > 0 && granted == Min(requested, framesIn) && at == periodSize - framesIn
      ensures raw ==> released + buffer[at..at + granted] <= Captured()
    {
      status := Refill();
      if status != 0 {
        return status, false, 0, 0;
      }
      granted := if requested > framesIn then framesIn else requested;
      at := periodSize - framesIn;
      raw := true;
      GrantIsNext(at, granted);
    }

    lemma GrantIsNext(at: nat, granted: nat)
      requires Valid() && at == periodSize - framesIn && granted <= framesIn
      ensures released + buffer[at..at + granted] <= Captured()
      ensures buffer[at..at + granted] == Held()[..granted]
    {
      GrantIsHeld(at, granted);
      Beginning(released, Held(), granted);
    }

    lemma GrantIsHeld(at: nat, granted: nat)
      requires framesIn <= periodSize <= buffer.Length && at == periodSize - framesIn && granted <= framesIn
      ensures buffer[at..at + granted] == Held()[..granted]
    {
    }

    // The caller may release less than it was granted, never more.
    method ReleaseBuffer(count: nat)
      requires Valid() && count <= framesIn
      modifies this`framesIn, this`released
      ensures Valid() && framesIn == old(framesIn) - count
      ensures released == old(released) + old(Held())[..count]
    {
      Beginning(released, Held(), count);
      ghost var held := Held();
      released := released + held[..count];
      framesIn := framesIn - count;
      assert Held() == held[count..];
    }

    // One round of the loop of read_frames.
    method ReadSome(frames: nat) returns (status: int, piece: seq<int>)
      requires Valid() && frames > 0
      modifies this`framesIn, this`readStatus, this`pcmReads, this`released, buffer
      ensures Valid() && status == readStatus && released == old(released) + piece
      ensures pcmReads == old(pcmReads) + if isOpen && old(framesIn) == 0 then 1 else 0
      ensures if isOpen && (old(framesIn) > 0 || answers(old(pcmReads)).Period?)
        then status == 0 && 0 < |piece| <= frames && framesIn < periodSize
        else status == (if isOpen then answers(old(pcmReads)).code else ENODEV) && status != 0 && piece == []
             && framesIn == old(framesIn)
    {
      var raw, at, granted;
      status, raw, at, granted := GetNextBuffer(frames);
      piece := [];
      if raw {
        piece := buffer[at..at + granted];
        GrantIsNext(at, granted);
      }
      ReleaseBuffer(granted);
    }

    // No error since first calls of pcm_read, when had frames were in the buffer; count frames taken.
    ghost predicate SoFar(first: nat, had: nat, count: nat)
      reads this
    {
      && first <= pcmReads && AllPeriods(answers, first, pcmReads)
      && if count == 0 then pcmReads == first && framesIn == had else isOpen && framesIn < periodSize
    }

    // How a read_frames for frames frames ends: all of them are there, with no period captured before
    // a frame of it is needed; or the PCM is closed, or some call of pcm_read fails after all the
    // frames before it have been taken, and that error is the result.
    ghost predicate Ended(first: nat, had: nat, frames: nat, result: int, count: nat)
      reads this
    {
      if count == frames then result == frames && SoFar(first, had, frames)
      else
        && count < frames && result == readStatus != 0
        && if isOpen
           then first < pcmReads && AllPeriods(answers, first, pcmReads - 1) && framesIn == 0
                && answers(pcmReads - 1) == Error(result)
           else result == ENODEV && count == 0 && pcmReads == first
    }

    lemma CapturedMore(mid: nat)
      requires Valid() && mid <= pcmReads
      ensures Captured() == Mono(answers, channels, periodSize, 0, mid)
        + Mono(answers, channels, periodSize, mid, pcmReads)
    {
      MonoJoin(answers, channels, periodSize, 0, mid, pcmReads);
    }

    // read_frames without a resampler.
    method ReadFrames(frames: nat) returns (result: int, output: seq<int>)
      requires Valid()
      modifies this`framesIn, this`readStatus, this`pcmReads, this`released, buffer
      ensures Valid() && old(pcmReads) <= pcmReads
      ensures Ended(old(pcmReads), old(framesIn), frames, result, |output|)
      ensures Captured() == old(Captured()) + Mono(answers, channels, periodSize, old(pcmReads), pcmReads)
      ensures released == old(released) + output
    {
      output := [];
      ghost var taken, first := released, pcmReads;
      while |output| < frames
        invariant Valid() && |output| <= frames && released == taken + output
        invariant SoFar(first, old(framesIn), |output|)
        decreases frames - |output|
      {
        var status, piece := ReadSome(frames - |output|);
        Regroup(taken, output, piece);
        output := output + piece;
        if status != 0 {
          CapturedMore(first);
          return status, output;
        }
      }
      CapturedMore(first);
      result := |output|;
    }
  }
}
