/** The capture pipeline of the tinyalsa audio HAL (alsa/tinyalsa_hal.c): periods from the kernel go
    into a read buffer, read_frames takes frames off it, and process_frames passes them through an
    effect that consumes and produces as much as it likes.  A frame is one element here.  What
    pcm_read answers and what the effect does are parameters. */
module CapturePipeline {
  import opened Arithmetic
  import opened PcmReads
  import opened Sequences

  const ENODEV := -19

  // One call of the effect chain: how many input frames it consumed, and what it produced.
  datatype Processed = Processed(consumed: nat, produced: seq<int>)

  // round -> input -> room -> outcome
  type Effect = (nat, seq<int>, nat) -> Processed

  // The part of the effect API that the code relies on.
  ghost predicate Honours(effect: Effect) {
    forall round, input, room :: effect(round, input, room).consumed <= |input|
  }

  // What the calls of pcm_read answer, in turn: whole periods and errors.
  ghost predicate Answers(answers: nat -> Reply, period: nat) {
    forall k :: match answers(k) case Period(f) => |f| == period case Error(code) => code < 0
  }

  // The frames that the calls from lo up to hi deliver.
  function FramesOf(answers: nat -> Reply, lo: nat, hi: nat): seq<int>
    requires lo <= hi
    decreases hi
  {
    if lo == hi then []
    else FramesOf(answers, lo, hi - 1) + match answers(hi - 1) case Period(f) => f case Error(_) => []
  }

  lemma {:induction false} FramesJoin(answers: nat -> Reply, lo: nat, mid: nat, hi: nat)
    requires lo <= mid <= hi
    ensures FramesOf(answers, lo, hi) == FramesOf(answers, lo, mid) + FramesOf(answers, mid, hi)
    decreases hi
  {
    if mid == hi {
      assert FramesOf(answers, mid, hi) == [];
    } else {
      FramesJoin(answers, lo, mid, hi - 1);
      var last := match answers(hi - 1) case Period(f) => f case Error(_) => [];
      Regroup(FramesOf(answers, lo, mid), FramesOf(answers, mid, hi - 1), last);
    }
  }

  lemma NothingMore(a: seq<int>)
    ensures a + [] == a
  {
  }

  datatype Outcome = Done | Failed(code: int) | Running

  // A call of the effect: input is what it was offered, at is how many frames it had consumed before.
  datatype Call = Call(at: nat, input: seq<int>, room: nat, result: Processed)

  // What of the produced frames fits.
  function Kept(c: Call): seq<int> {
    if |c.result.produced| <= c.room then c.result.produced else c.result.produced[..c.room]
  }

  function Outputs(calls: seq<Call>): seq<int> {
    if calls == [] then [] else Outputs(calls[..|calls| - 1]) + Kept(calls[|calls| - 1])
  }

  // How many frames the effect has consumed after these calls.
  function Position(calls: seq<Call>, start: nat): nat {
    if calls == [] then start else calls[|calls| - 1].at + calls[|calls| - 1].result.consumed
  }

  // How many frames wait in the input buffer after these calls.
  function Waiting(calls: seq<Call>, waiting: nat): int {
    if calls == [] then waiting else |calls[|calls| - 1].input| - calls[|calls| - 1].result.consumed
  }

  // What is offered when so many frames wait.
  function Offered(waiting: int, frames: nat): int {
    if waiting < frames then frames else waiting
  }

  // Call i is what the effect does in round i.  It starts where the one before it stopped, is offered
  // what that one left, filled up to the frames asked for, and has room for what is still missing.
  ghost predicate IsCall(effect: Effect, i: nat, c: Call, before: seq<Call>, start: nat, waiting: nat, frames: nat) {
    && c.at == Position(before, start)
    && |c.input| == Offered(Waiting(before, waiting), frames)
    && c.room == frames - |Outputs(before)|
    && c.result == effect(i, c.input, c.room) && c.result.consumed <= |c.input|
  }

  ghost predicate Calls(effect: Effect, calls: seq<Call>, start: nat, waiting: nat, frames: nat) {
    forall i :: 0 <= i < |calls| ==> IsCall(effect, i, calls[i], calls[..i], start, waiting, frames)
  }

  // The call was offered the captured stream from its position on.
  ghost predicate Feeds(c: Call, captured: seq<int>) {
    c.at + |c.input| <= |captured| && c.input == captured[c.at..c.at + |c.input|]
  }

  ghost predicate AllFeed(calls: seq<Call>, captured: seq<int>) {
    forall c :: c in calls ==> Feeds(c, captured)
  }

  lemma AllFeedAppended(calls: seq<Call>, c: Call, captured: seq<int>)
    ensures AllFeed(calls, captured) && Feeds(c, captured) ==> AllFeed(calls + [c], captured)
  {
  }

  lemma Later(calls: seq<Call>, captured: seq<int>, more: seq<int>)
    requires captured <= more
    ensures AllFeed(calls, captured) ==> AllFeed(calls, more)
  {
  }

  lemma Stream(before: seq<int>, input: seq<int>, held: seq<int>, captured: seq<int>)
    ensures before + input + held == captured ==>
      |before| + |input| <= |captured| && input == captured[|before|..|before| + |input|]
  {
  }

  // The calls so far, what came of them, and what they leave.
  ghost predicate Trace(effect: Effect, calls: seq<Call>, start: nat, waiting: nat, frames: nat,
                        output: seq<int>, at: nat, left: int) {
    && Calls(effect, calls, start, waiting, frames) && output == Outputs(calls) && |output| <= frames
    && at == Position(calls, start) && left == Waiting(calls, waiting)
  }

  lemma OneMoreCall(effect: Effect, calls: seq<Call>, c: Call, start: nat, waiting: nat, frames: nat,
                    output: seq<int>, left: int)
    requires Trace(effect, calls, start, waiting, frames, output, c.at, left)
    requires |c.input| == Offered(left, frames) && c.room == frames - |output|
    requires c.result == effect(|calls|, c.input, c.room) && c.result.consumed <= |c.input|
    ensures Trace(effect, calls + [c], start, waiting, frames, output + Kept(c),
                  c.at + c.result.consumed, |c.input| - c.result.consumed)
  {
    var more := calls + [c];
    assert more[..|calls|] == calls;
    forall i | 0 <= i < |more|
      ensures IsCall(effect, i, more[i], more[..i], start, waiting, frames)
    {
      if i < |calls| {
        assert more[i] == calls[i] && more[..i] == calls[..i];
      }
    }
  }

  // How many frames these calls delivered, and how many they consumed: of what each produced, as many
  // as it had room for.
  function Delivered(calls: seq<Call>): nat {
    if calls == [] then 0
    else
      var c := calls[|calls| - 1];
      Delivered(calls[..|calls| - 1]) + Min(|c.result.produced|, c.room)
  }

  function Consumed(calls: seq<Call>): nat {
    if calls == [] then 0 else Consumed(calls[..|calls| - 1]) + calls[|calls| - 1].result.consumed
  }

  lemma {:induction false} OutputLength(calls: seq<Call>)
    ensures |Outputs(calls)| == Delivered(calls)
  {
    if calls == [] {
    } else {
      OutputLength(calls[..|calls| - 1]);
    }
  }

  lemma EarlierPart(a: seq<int>, b: seq<int>, lo: nat, hi: nat)
    requires lo <= hi <= |a|
    ensures (a + b)[lo..hi] == a[lo..hi]
  {
  }

  lemma LastPart(a: seq<int>, b: seq<int>)
    ensures (a + b)[|a|..|a| + |b|] == b
  {
  }

  lemma SamePrefix(calls: seq<Call>, n: nat, i: nat)
    requires i <= n <= |calls|
    ensures calls[..n][..i] == calls[..i]
  {
  }

  lemma {:induction false} PartOfOutput(calls: seq<Call>, i: nat)
    requires i < |calls|
    ensures Delivered(calls[..i]) <= Delivered(calls[..i + 1]) <= |Outputs(calls)|
    ensures Outputs(calls)[Delivered(calls[..i])..Delivered(calls[..i + 1])] ==
      calls[i].result.produced[..Min(|calls[i].result.produced|, calls[i].room)]
  {
    var n := |calls| - 1;
    OutputLength(calls[..n]);
    if i == n {
      assert calls[..n + 1] == calls;
      LastPart(Outputs(calls[..n]), Kept(calls[n]));
    } else {
      PartOfOutput(calls[..n], i);
      SamePrefix(calls, n, i);
      SamePrefix(calls, n, i + 1);
      EarlierPart(Outputs(calls[..n]), Kept(calls[n]), Delivered(calls[..i]), Delivered(calls[..i + 1]));
    }
  }

  // What call i contributes to the output, and where: the first frames it produced, as many as the
  // calls before it left room for, right behind what those delivered.
  lemma OutputOfCall(effect: Effect, calls: seq<Call>, start: nat, waiting: nat, frames: nat,
                     output: seq<int>, at: nat, left: int, i: nat)
    requires Trace(effect, calls, start, waiting, frames, output, at, left) && i < |calls|
    ensures |output| == Delivered(calls) && calls[i].room == frames - Delivered(calls[..i])
    ensures Delivered(calls[..i]) <= Delivered(calls[..i + 1]) <= |output|
    ensures output[Delivered(calls[..i])..Delivered(calls[..i + 1])] ==
      calls[i].result.produced[..Min(|calls[i].result.produced|, calls[i].room)]
  {
    OutputLength(calls);
    OutputLength(calls[..i]);
    assert IsCall(effect, i, calls[i], calls[..i], start, waiting, frames);
    PartOfOutput(calls, i);
  }

  function AllProduced(calls: seq<Call>): seq<int> {
    if calls == [] then [] else AllProduced(calls[..|calls| - 1]) + calls[|calls| - 1].result.produced
  }

  // With an effect that keeps to its room nothing it produces is thrown away.
  lemma {:induction false} NothingProducedIsLost(calls: seq<Call>)
    requires forall i :: 0 <= i < |calls| ==> |calls[i].result.produced| <= calls[i].room
    ensures Outputs(calls) == AllProduced(calls)
  {
    if calls == [] {
    } else {
      NothingProducedIsLost(calls[..|calls| - 1]);
    }
  }

  lemma {:induction false} PositionAdvances(effect: Effect, calls: seq<Call>, start: nat, waiting: nat, frames: nat)
    requires Calls(effect, calls, start, waiting, frames)
    ensures Position(calls, start) == start + Consumed(calls)
  {
    if calls == [] {
    } else {
      var n := |calls| - 1;
      FirstCalls(effect, calls, start, waiting, frames, n);
      PositionAdvances(effect, calls[..n], start, waiting, frames);
      assert IsCall(effect, n, calls[n], calls[..n], start, waiting, frames);
    }
  }

  lemma FirstCalls(effect: Effect, calls: seq<Call>, start: nat, waiting: nat, frames: nat, n: nat)
    requires Calls(effect, calls, start, waiting, frames) && n <= |calls|
    ensures Calls(effect, calls[..n], start, waiting, frames)
  {
    forall i | 0 <= i < n
      ensures IsCall(effect, i, calls[..n][i], calls[..n][..i], start, waiting, frames)
    {
      assert calls[..n][..i] == calls[..i];
    }
  }

  // Call i goes on where the calls before it stopped.  The first is offered what waited, every other
  // what the one before it left, and each at least the frames asked for, not a frame more than needed.
  lemma CallsInTurn(effect: Effect, calls: seq<Call>, start: nat, waiting: nat, frames: nat,
                    output: seq<int>, at: nat, left: int, i: nat)
    requires Trace(effect, calls, start, waiting, frames, output, at, left) && i < |calls|
    ensures calls[i].at == start + Consumed(calls[..i]) && at == start + Consumed(calls)
    ensures calls[i].result == effect(i, calls[i].input, calls[i].room)
    ensures var had := if i == 0 then waiting else |calls[i - 1].input| - calls[i - 1].result.consumed;
      |calls[i].input| == if had < frames then frames else had
    ensures left == |calls[|calls| - 1].input| - calls[|calls| - 1].result.consumed
  {
    FirstCalls(effect, calls, start, waiting, frames, i);
    PositionAdvances(effect, calls[..i], start, waiting, frames);
    PositionAdvances(effect, calls, start, waiting, frames);
    assert IsCall(effect, i, calls[i], calls[..i], start, waiting, frames);
  }

  // Frame i of the period that call k of pcm_read delivers, after k - lo calls without an error.
  lemma {:induction false} FrameAt(answers: nat -> Reply, period: nat, lo: nat, hi: nat, k: nat, i: nat)
    requires Answers(answers, period) && lo <= k < hi && AllPeriods(answers, lo, hi) && i < period
    ensures |FramesOf(answers, lo, hi)| == (hi - lo) * period
    ensures var at := (k - lo) * period + i;
      0 <= at < |FramesOf(answers, lo, hi)| && FramesOf(answers, lo, hi)[at] == answers(k).data[i]
    decreases hi
  {
    Distribute(hi - 1 - lo, 1, period);
    if k == hi - 1 {
      FramesLength(answers, period, lo, hi - 1);
    } else {
      FrameAt(answers, period, lo, hi - 1, k, i);
    }
  }

  lemma {:induction false} FramesLength(answers: nat -> Reply, period: nat, lo: nat, hi: nat)
    requires Answers(answers, period) && lo <= hi && AllPeriods(answers, lo, hi)
    ensures |FramesOf(answers, lo, hi)| == (hi - lo) * period
    decreases hi
  {
    if lo == hi {
      assert 0 * period == 0;
    } else {
      FramesLength(answers, period, lo, hi - 1);
      Distribute(hi - 1 - lo, 1, period);
    }
  }

  class StreamIn {
    const period: nat
    const answers: nat -> Reply
    var pcmReads: nat                // calls of pcm_read so far
    var readBuf: array<int>
    var readBufSize: nat
    var readBufFrames: nat
    var readStatus: int
    var isOpen: bool
    var procBuf: array<int>
    var procBufSize: nat
    var procBufFrames: nat

    ghost var since: nat             // calls of pcm_read before start_input_stream
    ghost var released: seq<int>     // taken off the read buffer
    ghost var consumed: seq<int>     // by the effect

    // What pcm_read has delivered since start_input_stream.
    ghost function Captured(): seq<int>
      requires since <= pcmReads
      reads this
    {
      FramesOf(answers, since, pcmReads)
    }

    ghost function Held(): seq<int>
      requires readBufFrames == 0 || readBufFrames <= period <= readBuf.Length
      reads this, readBuf
    {
      if readBufFrames == 0 then [] else readBuf[period - readBufFrames..period]
    }

    // What was taken off and what the read buffer holds are the captured stream.
    ghost predicate Reading()
      reads this, readBuf
    {
      && period > 0 && Answers(answers, period) && since <= pcmReads
      && readBufFrames <= period && readBufSize <= readBuf.Length
      && (readBufFrames > 0 ==> period <= readBufSize && (isOpen ==> readStatus == 0))
      && released + Held() == Captured()
    }

    ghost predicate Valid()
      reads this, readBuf, procBuf
    {
      && Reading() && readBuf != procBuf
      && procBufFrames <= procBufSize <= procBuf.Length
    }

    // No frame is lost between the layers: what was taken off the read buffer has been consumed or
    // is waiting for the effect.
    ghost predicate Conserved()
      requires Valid()
      reads this, readBuf, procBuf
    {
      consumed + procBuf[..procBufFrames] == released
    }

    lemma ConservedMeans()
      requires Valid()
      ensures Conserved() <==> consumed + procBuf[..procBufFrames] + Held() == Captured()
    {
      var taken := consumed + procBuf[..procBufFrames];
      if taken + Held() == Captured() {
        assert |taken| == |released|;
        assert taken == Captured()[..|taken|] && released == Captured()[..|released|];
      }
    }

    constructor (period: nat, answers: nat -> Reply)
      requires period > 0 && Answers(answers, period)
      ensures Valid() && this.period == period && this.answers == answers && pcmReads == 0
      ensures fresh(readBuf) && fresh(procBuf)
    {
      this.period, this.answers, pcmReads, since := period, answers, 0, 0;
      readBuf, procBuf := new int[0], new int[0];
      readBufSize, readBufFrames, procBufSize, procBufFrames := 0, 0, 0, 0;
      isOpen, readStatus := false, 0;
      released, consumed := [], [];
    }

    // start_input_stream: both buffers are to be allocated anew.
    method Start()
      requires Valid()
      modifies this
      ensures Valid() && Conserved() && isOpen && pcmReads == since == old(pcmReads) && consumed == []
      ensures readBuf == old(readBuf) && procBuf == old(procBuf) && readBufFrames == procBufFrames == 0
    {
      readBufFrames, readBufSize, procBufFrames, procBufSize := 0, 0, 0, 0;
      isOpen := true;
      since, released, consumed := pcmReads, [], [];
    }

    // ---- get_next_buffer, release_buffer, read_frames -------------------------------------------

    // A successful pcm_read.
    method Fetch(frames: seq<int>)
      requires Reading() && isOpen && readBufFrames == 0 && answers(pcmReads) == Period(frames)
      modifies this`readBuf, this`readBufSize, this`readBufFrames, this`readStatus, this`pcmReads, readBuf
      ensures Reading() && pcmReads == old(pcmReads) + 1 && readBufFrames == period && readStatus == 0
      ensures readBuf == old(readBuf) || fresh(readBuf)
    {
      if readBufSize < period {
        readBufSize := period;
        readBuf := new int[period];
      }
      var buf := readBuf;
      forall i | 0 <= i < period {
        buf[i] := frames[i];
      }
      readStatus := 0;
      readBufFrames := period;
      pcmReads := pcmReads + 1;
      assert Held() == frames;
      assert released == old(released + Held());
    }

    method GetNextBuffer(requested: nat) returns (status: int, raw: bool, at: nat, granted: nat)
      requires Reading()
      modifies this`readBuf, this`readBufSize, this`readBufFrames, this`readStatus, this`pcmReads, readBuf
      ensures Reading() && status == readStatus
      ensures readBuf == old(readBuf) || fresh(readBuf)
      ensures pcmReads == old(pcmReads) + if isOpen && old(readBufFrames) == 0 then 1 else 0
      ensures raw <==> isOpen && (old(readBufFrames) > 0 || answers(old(pcmReads)).Period?)
      ensures raw ==> status == 0 && 0 < readBufFrames
      ensures raw ==> at == period - readBufFrames && granted == Min(requested, readBufFrames)
      ensures !raw ==> status == (if isOpen then answers(old(pcmReads)).code else ENODEV)
      ensures !raw ==> status < 0 && granted == 0 && readBufFrames == old(readBufFrames)
    {
      if !isOpen {
        readStatus := ENODEV;
        return ENODEV, false, 0, 0;
      }
      if readBufFrames == 0 {
        var reply := answers(pcmReads);
        if reply.Error? {
          readStatus := reply.code;
          pcmReads := pcmReads + 1;
          assert Captured() == old(Captured()) + [];
          return reply.code, false, 0, 0;
        }
        Fetch(reply.data);
      }
      granted := if requested > readBufFrames then readBufFrames else requested;
      at := period - readBufFrames;
      status, raw := readStatus, true;
    }

    method ReleaseBuffer(count: nat)
      requires Reading() && count <= readBufFrames
      modifies this`readBufFrames, this`released
      ensures Reading() && readBufFrames == old(readBufFrames) - count
      ensures released == old(released) + old(Held())[..count]
    {
      ghost var held := Held();
      Beginning(released, held, count);
      released := released + held[..count];
      readBufFrames := readBufFrames - count;
      assert Held() == held[count..];
    }

    method CopyOut(buf: array<int>, at: nat, from: nat, count: nat)
      requires buf != readBuf && at + count <= buf.Length && from + count <= readBuf.Length
      modifies buf
      ensures buf[..at + count] == old(buf[..at]) + readBuf[from..from + count]
    {
      forall i | 0 <= i < count {
        buf[at + i] := readBuf[from + i];
      }
    }

    // One round of read_frames without a resampler: up to room frames go to buf[at..].
    method ReadSome(buf: array<int>, at: nat, room: nat) returns (status: int, count: nat, ghost piece: seq<int>)
      requires Reading() && buf != readBuf && 0 < room && at + room <= buf.Length
      modifies this`readBuf, this`readBufSize, this`readBufFrames, this`readStatus, this`pcmReads, this`released
      modifies readBuf, buf
      ensures Reading() && buf != readBuf && (readBuf == old(readBuf) || fresh(readBuf))
      ensures status == readStatus && count == |piece| <= room
      ensures released == old(released) + piece
      ensures buf[..at + count] == old(buf[..at]) + piece
      ensures pcmReads == old(pcmReads) + if isOpen && old(readBufFrames) == 0 then 1 else 0
      ensures if isOpen && (old(readBufFrames) > 0 || answers(old(pcmReads)).Period?)
        then status == 0 && 0 < count && readBufFrames < period
        else status == (if isOpen then answers(old(pcmReads)).code else ENODEV) && status < 0 && count == 0
             && readBufFrames == old(readBufFrames)
    {
      var raw, from;
      status, raw, from, count := GetNextBuffer(room);
      piece := [];
      if raw {
        piece := Held()[..count];
        CopyOut(buf, at, from, count);
        assert piece == readBuf[from..from + count];
      }
      ReleaseBuffer(count);
    }

    // How a read_frames ends that was asked for frames when from calls of pcm_read had been made and
    // had frames were in the read buffer.  It fails exactly on a closed PCM or at the first error of
    // pcm_read; by then it has taken frames exactly if there were some or the first call delivered.
    ghost predicate Ended(from: nat, had: nat, frames: nat, result: int, count: nat)
      reads this
    {
      && from <= pcmReads
      && (result >= 0 ==>
            && result == count == frames && AllPeriods(answers, from, pcmReads) && (frames > 0 ==> isOpen)
            && (pcmReads > from || had < period ==> readBufFrames < period))
      && (result < 0 ==>
            && count < frames && (count > 0 <==> isOpen && (had > 0 || answers(from).Period?))
            && if isOpen
               then from < pcmReads && AllPeriods(answers, from, pcmReads - 1) && answers(pcmReads - 1) == Error(result)
                    && readBufFrames == 0
               else result == ENODEV && pcmReads == from)
    }

    // No error yet: count frames have been taken.
    ghost predicate SoFar(from: nat, had: nat, count: nat)
      reads this
    {
      && from <= pcmReads && AllPeriods(answers, from, pcmReads)
      && if count == 0 then pcmReads == from && readBufFrames == had
         else isOpen && readBufFrames < period && (had > 0 || answers(from).Period?)
    }

    // One more round of a read_frames that has taken count frames.
    method ReadMore(buf: array<int>, at: nat, count: nat, frames: nat, ghost from: nat, ghost had: nat)
      returns (status: int, n: nat, ghost piece: seq<int>)
      requires Reading() && buf != readBuf && count < frames && at + frames - count <= buf.Length
      requires SoFar(from, had, count)
      modifies this`readBuf, this`readBufSize, this`readBufFrames, this`readStatus, this`pcmReads, this`released
      modifies readBuf, buf
      ensures Reading() && buf != readBuf && (readBuf == old(readBuf) || fresh(readBuf))
      ensures status == readStatus && n == |piece| <= frames - count
      ensures released == old(released) + piece && buf[..at + n] == old(buf[..at]) + piece
      ensures if status == 0 then n > 0 && SoFar(from, had, count + n)
        else status < 0 && n == 0 && Ended(from, had, frames, status, count)
    {
      status, n, piece := ReadSome(buf, at, frames - count);
    }

    // result is the number of frames read, or the error; count frames went to buf[at..] either way.
    method ReadFrames(buf: array<int>, at: nat, frames: nat) returns (result: int, count: nat, ghost got: seq<int>)
      requires Reading() && buf != readBuf && at + frames <= buf.Length
      modifies this`readBuf, this`readBufSize, this`readBufFrames, this`readStatus, this`pcmReads, this`released
      modifies readBuf, buf
      ensures Reading() && buf != readBuf && (readBuf == old(readBuf) || fresh(readBuf))
      ensures Ended(old(pcmReads), old(readBufFrames), frames, result, count) && (result < 0 ==> result == readStatus)
      ensures count == |got|
      ensures released == old(released) + got && buf[..at + count] == old(buf[..at]) + got
    {
      count, got := 0, [];
      ghost var taken, front := released, buf[..at];
      while count < frames
        invariant Reading() && buf != readBuf && (readBuf == old(readBuf) || fresh(readBuf))
        invariant count == |got| <= frames
        invariant released == taken + got && buf[..at + count] == front + got
        invariant SoFar(old(pcmReads), old(readBufFrames), count)
        decreases frames - count
      {
        var status, n, piece := ReadMore(buf, at + count, count, frames, old(pcmReads), old(readBufFrames));
        Regroup(taken, got, piece);
        Regroup(front, got, piece);
        got := got + piece;
        if status != 0 {
          return status, count, got;
        }
        count := count + n;
      }
      result := count;
    }

    // ---- process_frames ---------------------------------------------------------------------------

    method ExtendProcBuf(frames: nat)
      requires Valid() && procBufSize < frames
      modifies this`procBuf, this`procBufSize
      ensures Valid() && fresh(procBuf) && procBufSize == frames
      ensures procBuf[..procBufFrames] == old(procBuf[..procBufFrames])
    {
      var grown := new int[frames];
      forall i | 0 <= i < procBufFrames {
        grown[i] := procBuf[i];
      }
      procBuf, procBufSize := grown, frames;
    }

    // Reload enough frames at the end of the input buffer.  got is what read_frames took off the
    // read buffer; after an error the input buffer does not count it.
    method Reload(frames: nat) returns (result: int, ghost got: seq<int>)
      requires Valid() && procBufFrames < frames
      modifies this, readBuf, procBuf
      ensures Valid() && (readBuf == old(readBuf) || fresh(readBuf)) && (procBuf == old(procBuf) || fresh(procBuf))
      ensures consumed == old(consumed) && isOpen == old(isOpen) && since == old(since)
      ensures procBufSize == if old(procBufSize) < frames then frames else old(procBufSize)
      ensures released == old(released) + got
      ensures Ended(old(pcmReads), old(readBufFrames), frames - old(procBufFrames), result, |got|)
      ensures result < 0 ==> result == readStatus && procBuf[..procBufFrames] == old(procBuf[..procBufFrames])
      ensures result >= 0 ==> procBufFrames == frames
      ensures result >= 0 ==> procBuf[..procBufFrames] == old(procBuf[..procBufFrames]) + got
    {
      if procBufSize < frames {
        ExtendProcBuf(frames);
      }
      result, got := FillProcBuf(frames);
    }

    method FillProcBuf(frames: nat) returns (result: int, ghost got: seq<int>)
      requires Valid() && procBufFrames < frames <= procBufSize
      modifies this`readBuf, this`readBufSize, this`readBufFrames, this`readStatus, this`pcmReads, this`released
      modifies this`procBufFrames, readBuf, procBuf
      ensures Valid() && (readBuf == old(readBuf) || fresh(readBuf))
      ensures released == old(released) + got
      ensures Ended(old(pcmReads), old(readBufFrames), frames - old(procBufFrames), result, |got|)
      ensures result < 0 ==> result == readStatus && procBuf[..procBufFrames] == old(procBuf[..procBufFrames])
      ensures result >= 0 ==> procBufFrames == frames
      ensures result >= 0 ==> procBuf[..procBufFrames] == old(procBuf[..procBufFrames]) + got
    {
      ghost var wait := procBuf[..procBufFrames];
      var count;
      result, count, got := ReadFrames(procBuf, procBufFrames, frames - procBufFrames);
      EarlierPart(wait, got, 0, procBufFrames);
      assert procBuf[..procBufFrames] == procBuf[..procBufFrames + count][..procBufFrames] == wait;
      if result >= 0 {
        procBufFrames := procBufFrames + result;
      }
    }

    // Move the remaining frames to the beginning of the input buffer.
    method Consume(count: nat)
      requires Valid() && count <= procBufFrames
      modifies this`procBufFrames, this`consumed, procBuf
      ensures Valid() && procBufFrames == old(procBufFrames) - count
      ensures consumed == old(consumed) + old(procBuf[..count])
      ensures procBuf[..procBufFrames] == old(procBuf[count..procBufFrames])
    {
      consumed := consumed + procBuf[..count];
      procBufFrames := procBufFrames - count;
      var i := 0;
      while i < procBufFrames
        invariant 0 <= i <= procBufFrames
        invariant forall k :: 0 <= k < i ==> procBuf[k] == old(procBuf[count + k])
        invariant forall k :: i <= k < procBuf.Length ==> procBuf[k] == old(procBuf[k])
        modifies procBuf
      {
        procBuf[i] := procBuf[count + i];
        i := i + 1;
      }
    }

    // One round of process_frames after the reload: the effect, and the move of what it left.
    method Process(effect: Effect, round: nat, room: nat) returns (produced: seq<int>, ghost call: Call)
      requires Valid() && Honours(effect)
      modifies this`procBufFrames, this`consumed, procBuf
      ensures Valid() && (old(Conserved()) ==> Conserved())
      ensures call == Call(|old(consumed)|, old(procBuf[..procBufFrames]), room, effect(round, call.input, room))
      ensures produced == call.result.produced && |consumed| == call.at + call.result.consumed
      ensures call.result.consumed <= |call.input| && procBufFrames == |call.input| - call.result.consumed
      ensures old(Conserved()) ==> Feeds(call, Captured())
    {
      var input := procBuf[..procBufFrames];
      Stream(consumed, input, Held(), Captured());
      var result := effect(round, input, room);
      call := Call(|consumed|, input, room, result);
      produced := result.produced;
      ghost var before := consumed;
      Consume(result.consumed);
      assert procBuf[..procBufFrames] == input[result.consumed..];
      Beginning(before, input, result.consumed);
    }

    // The reload of one round, if there is too little input.  lost is what a failed one took off the
    // read buffer.
    method Refill(frames: nat) returns (result: int, ghost lost: seq<int>)
      requires Valid()
      modifies this, readBuf, procBuf
      ensures Valid() && (readBuf == old(readBuf) || fresh(readBuf)) && (procBuf == old(procBuf) || fresh(procBuf))
      ensures consumed == old(consumed) && isOpen == old(isOpen) && since == old(since)
      ensures if old(procBufFrames) < frames
        then Ended(old(pcmReads), old(readBufFrames), frames - old(procBufFrames), result,
                   if result < 0 then |lost| else result)
        else result == 0 && pcmReads == old(pcmReads) && readBufFrames == old(readBufFrames)
      ensures if result < 0 then result == readStatus && procBufFrames == old(procBufFrames)
        else procBufFrames == Offered(old(procBufFrames), frames) && lost == []
      ensures old(Conserved()) ==> released == consumed + procBuf[..procBufFrames] + lost
    {
      result, lost := 0, [];
      if procBufFrames < frames {
        ghost var wait := procBuf[..procBufFrames];
        ghost var got;
        result, got := Reload(frames);
        Regroup(consumed, wait, got);
        if result < 0 {
          lost := got;
        }
      }
      NothingMore(consumed + procBuf[..procBufFrames]);
    }

    // One round: reload, process, and keep what fits behind the done frames.
    method Round(frames: nat, done: nat, effect: Effect, round: nat)
      returns (result: int, kept: seq<int>, ghost call: Call, ghost lost: seq<int>)
      requires Valid() && Honours(effect) && done < frames
      modifies this, readBuf, procBuf
      ensures Valid() && (readBuf == old(readBuf) || fresh(readBuf)) && (procBuf == old(procBuf) || fresh(procBuf))
      ensures isOpen == old(isOpen) && since == old(since) && old(pcmReads) <= pcmReads
      ensures old(Conserved()) ==> released == consumed + procBuf[..procBufFrames] + lost
      ensures result < 0 ==>
        && result == readStatus && consumed == old(consumed) && procBufFrames == old(procBufFrames) < frames
        && Ended(old(pcmReads), old(readBufFrames), frames - procBufFrames, result, |lost|)
      ensures result >= 0 ==>
        && lost == [] && old(pcmReads) <= pcmReads && AllPeriods(answers, old(pcmReads), pcmReads)
        && (pcmReads > old(pcmReads) || old(readBufFrames) < period ==> readBufFrames < period)
        && kept == Kept(call) && call.at == |old(consumed)| && call.room == frames - done
        && |call.input| == Offered(old(procBufFrames), frames) && call.result == effect(round, call.input, call.room)
        && call.result.consumed <= |call.input| && |consumed| == call.at + call.result.consumed
        && procBufFrames == |call.input| - call.result.consumed
        && (old(Conserved()) ==> Feeds(call, Captured()))
    {
      kept, call := [], Call(0, [], 0, Processed(0, []));
      result, lost := Refill(frames);
      if result < 0 {
        return;
      }
      NothingMore(consumed + procBuf[..procBufFrames]);
      var produced;
      produced, call := Process(effect, round, frames - done);
      NothingMore(consumed + procBuf[..procBufFrames]);
      if done + |produced| <= frames {
        kept := produced;
      } else {
        // The effect does not comply to the API.
        kept := produced[..frames - done];
      }
    }

    // A call of process_frames that began with start frames consumed, waiting frames in the input
    // buffer and had frames in the read buffer, after first calls of pcm_read, in its loop.
    ghost predicate InLoop(effect: Effect, calls: seq<Call>, start: nat, waiting: nat, frames: nat, output: seq<int>,
                           first: nat, had: nat, conserved: bool)
      reads this, readBuf, procBuf
    {
      && Valid() && since <= first <= pcmReads && AllPeriods(answers, first, pcmReads)
      && Trace(effect, calls, start, waiting, frames, output, |consumed|, procBufFrames)
      && (if calls == [] then pcmReads == first && readBufFrames == had
          else pcmReads > first ==> readBufFrames < period)
      && (conserved ==> Conserved() && AllFeed(calls, Captured()))
    }

    // It fails in a reload, which began with had frames in the read buffer after called calls of
    // pcm_read and took lost off the read buffer.
    ghost predicate FailedReload(calls: seq<Call>, frames: nat, first: nat, had0: nat, conserved: bool, code: int,
                                 lost: seq<int>, called: nat, had: nat)
      requires since <= pcmReads
      reads this
    {
      && procBufFrames < frames && code == readStatus < 0
      && since <= first <= called && AllPeriods(answers, first, called)
      && Ended(called, had, frames - procBufFrames, code, |lost|)
      && (if calls == [] then called == first && had == had0 else called > first ==> had < period)
      && (conserved ==> |consumed| + procBufFrames + had == |FramesOf(answers, since, called)|)
    }

    // The body of the loop of process_frames.
    method Turn(frames: nat, effect: Effect, round: nat, done: nat, ghost calls: seq<Call>, ghost output: seq<int>,
                ghost start: nat, ghost waiting: nat, ghost first: nat, ghost had0: nat, ghost conserved: bool)
      returns (result: int, kept: seq<int>, ghost call: Call, ghost lost: seq<int>, ghost called: nat, ghost had: nat)
      requires InLoop(effect, calls, start, waiting, frames, output, first, had0, conserved)
      requires Honours(effect) && done == |output| < frames && round == |calls|
      modifies this, readBuf, procBuf
      ensures Valid() && isOpen == old(isOpen) && since == old(since)
      ensures (readBuf == old(readBuf) || fresh(readBuf)) && (procBuf == old(procBuf) || fresh(procBuf))
      ensures result >= 0 ==> lost == []
      ensures result >= 0 ==>
        InLoop(effect, calls + [call], start, waiting, frames, output + kept, first, had0, conserved)
      ensures result < 0 ==>
        && FailedReload(calls, frames, first, had0, conserved, result, lost, called, had)
        && Trace(effect, calls, start, waiting, frames, output, |consumed|, procBufFrames)
        && (conserved ==>
              released == consumed + procBuf[..procBufFrames] + lost && AllFeed(calls, Captured()))
    {
      called, had := pcmReads, readBufFrames;
      ghost var left := procBufFrames;
      HeldFrames();
      result, kept, call, lost := Round(frames, done, effect, round);
      CapturedMore(called);
      Later(calls, old(Captured()), Captured());
      if result >= 0 {
        OneMoreCall(effect, calls, call, start, waiting, frames, output, left);
        AllFeedAppended(calls, call, Captured());
        NothingMore(consumed + procBuf[..procBufFrames]);
        PeriodsJoin(answers, first, called, pcmReads);
      }
    }

    // The loop of process_frames without auxiliary channels, for at most rounds rounds.
    method ProcessFrames(frames: nat, effect: Effect, rounds: nat)
      returns (outcome: Outcome, output: seq<int>, ghost calls: seq<Call>, ghost lost: seq<int>,
               ghost called: nat, ghost had: nat)
      requires Valid() && Honours(effect)
      modifies this, readBuf, procBuf
      ensures Valid() && isOpen == old(isOpen)
      ensures old(since) == since <= old(pcmReads) <= pcmReads
      ensures Captured() == old(Captured()) + FramesOf(answers, old(pcmReads), pcmReads)
      // Which calls of the effect are made, and what comes of them.
      ensures Trace(effect, calls, |old(consumed)|, old(procBufFrames), frames, output, |consumed|, procBufFrames)
      ensures old(Conserved()) ==> AllFeed(calls, Captured())
      // When it ends how.
      ensures outcome.Done? <==> |output| == frames
      ensures outcome.Running? <==> |output| < frames && |calls| == rounds
      ensures |calls| <= rounds && (outcome.Failed? ==> |calls| < rounds)
      ensures if outcome.Failed?
        then FailedReload(calls, frames, old(pcmReads), old(readBufFrames), old(Conserved()), outcome.code,
                          lost, called, had)
        else AllPeriods(answers, old(pcmReads), pcmReads) && lost == []
      // Only a failing reload loses frames, and it loses exactly what it took.
      ensures old(Conserved()) ==> released == consumed + procBuf[..procBufFrames] + lost
      ensures old(Conserved()) ==> (Conserved() <==> lost == [])
    {
      output, calls, lost, called, had := [], [], [], pcmReads, readBufFrames;
      ghost var first, had0, start := pcmReads, readBufFrames, |consumed|;
      ghost var waiting, conserved := procBufFrames, Conserved();
      var round := 0;
      while |output| < frames && round < rounds
        invariant InLoop(effect, calls, start, waiting, frames, output, first, had0, conserved)
        invariant (readBuf == old(readBuf) || fresh(readBuf)) && (procBuf == old(procBuf) || fresh(procBuf))
        invariant isOpen == old(isOpen) && since == old(since)
        invariant round == |calls| <= rounds && |output| <= frames && lost == []
        decreases rounds - round
      {
        var result, kept;
        ghost var call;
        result, kept, call, lost, called, had :=
          Turn(frames, effect, round, |output|, calls, output, start, waiting, first, had0, conserved);
        if result < 0 {
          CapturedMore(first);
          LosesUnlessEmpty(lost);
          outcome := Failed(result);
          return;
        }
        calls := calls + [call];
        output := output + kept;
        round := round + 1;
      }
      CapturedMore(first);
      NothingMore(consumed + procBuf[..procBufFrames]);
      outcome := if |output| < frames then Running else Done;
    }

    lemma CapturedMore(mid: nat)
      requires since <= mid <= pcmReads
      ensures Captured() == FramesOf(answers, since, mid) + FramesOf(answers, mid, pcmReads)
    {
      FramesJoin(answers, since, mid, pcmReads);
    }

    lemma HeldFrames()
      requires Valid()
      ensures Conserved() ==> |consumed| + procBufFrames + readBufFrames == |Captured()|
    {
      assert |Held()| == readBufFrames;
    }

    lemma LosesUnlessEmpty(lost: seq<int>)
      requires Valid()
      ensures released == consumed + procBuf[..procBufFrames] + lost ==> (Conserved() <==> lost == [])
    {
      NothingMore(consumed + procBuf[..procBufFrames]);
      assert |consumed + procBuf[..procBufFrames] + lost| == |consumed + procBuf[..procBufFrames]| + |lost|;
    }
  }

  // A period of two frames arrives, then an error; three frames were asked for.  The two are lost.
  method ErrorInMidRead(effect: Effect) returns (s: StreamIn, ghost lost: seq<int>)
    requires Honours(effect)
    ensures s.Valid() && !s.Conserved() && s.isOpen && s.Captured() == lost == [1, 2]
  {
    s := new StreamIn(2, k => if k == 0 then Period([1, 2]) else Error(-5));
    s.Start();
    var outcome, output;
    ghost var calls, called, had;
    outcome, output, calls, lost, called, had := s.ProcessFrames(3, effect, 1);
    ErrorEndsAt(s.answers);
  }

  // An error that comes before a frame loses nothing.
  method ErrorAtOnce(effect: Effect) returns (s: StreamIn, outcome: Outcome)
    requires Honours(effect)
    ensures s.Valid() && s.Conserved() && s.isOpen && outcome == Failed(-5)
  {
    s := new StreamIn(2, k => Error(-5));
    s.Start();
    var output;
    ghost var calls, lost, called, had;
    outcome, output, calls, lost, called, had := s.ProcessFrames(3, effect, 1);
  }

  lemma ErrorEndsAt(answers: nat -> Reply)
    requires answers(0) == Period([1, 2])
    ensures FramesOf(answers, 0, 1) == [1, 2]
    ensures FramesOf(answers, 0, 2) == [1, 2] + match answers(1) case Period(f) => f case Error(_) => []
  {
    assert FramesOf(answers, 0, 0) == [];
  }
}
