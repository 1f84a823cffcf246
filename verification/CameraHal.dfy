/** The thread functions of CameraHal (mx5x/libcamera/CameraHal.cpp) over the fields they share.

    Between any two scheduling points of a thread function the other threads take an arbitrary
    number of their own steps.  Each function is proved to perform, whatever the others do, exactly
    its own steps of the protocol in the source's order, so that everything proved of reachable
    protocol states holds of these fields at every scheduling point. */
module CameraHal {
  import opened Arithmetic
  import opened CameraProtocol
  import opened CameraInvariant
  import opened CameraTheorems
  import opened Sequences

  datatype Thread = Control | Capture | Preview | Encode | Release(b: nat)

  // The thread that takes a step in state s.  The last three steps of putBufferCount belong to
  // whichever thread is inside it.
  function Owner(s: State, step: Step): Thread {
    match step
    case PostInitial | SetRunning | StartRecording | ClearCount => Control
    case CapTake | CapDequeue(_) | CapGet1 | CapPost | CapTestRecording | CapGet2 | CapPostEncode => Capture
    case PrevTake | PrevEnqueue | PrevCount | PrevTest | PrevDequeue | PrevPut => Preview
    case EncTake | EncLend | EncDrop => Encode
    case AppRelease(b) => Release(b)
    case AppPut(b) => Release(b)
    case PutReturn(b) => if s.prev == PrevPutting(b) then Preview else Release(b)
    case PutUncount(b) => if s.prev == PrevPutting(b) then Preview else Release(b)
    case PutPost(b) => if s.prev == PrevPutting(b) then Preview else Release(b)
  }

  // The steps thread t takes in a run.
  function StepsOf(t: Thread, s: State, steps: seq<Step>): seq<Step>
    requires IsRun(s, steps)
    decreases |steps|
  {
    if steps == [] then []
    else (if Owner(s, steps[0]) == t then [steps[0]] else []) + StepsOf(t, Apply(s, steps[0]), steps[1..])
  }

  lemma {:induction false} RunsJoin(t: Thread, s: State, a: seq<Step>, b: seq<Step>)
    requires IsRun(s, a) && IsRun(Final(s, a), b)
    ensures IsRun(s, a + b) && Final(s, a + b) == Final(Final(s, a), b)
    ensures StepsOf(t, s, a + b) == StepsOf(t, s, a) + StepsOf(t, Final(s, a), b)
    decreases |a|
  {
    if a == [] {
      assert a + b == b;
    } else {
      var next, rest := Apply(s, a[0]), a[1..];
      assert (a + b)[0] == a[0] && (a + b)[1..] == rest + b;
      RunsJoin(t, next, rest, b);
      Regroup(if Owner(s, a[0]) == t then [a[0]] else [], StepsOf(t, next, rest), StepsOf(t, Final(s, a), b));
    }
  }

  lemma SingleStep(t: Thread, s: State, step: Step)
    requires Enabled(s, step)
    ensures IsRun(s, [step]) && Final(s, [step]) == Apply(s, step)
    ensures StepsOf(t, s, [step]) == if Owner(s, step) == t then [step] else []
  {
    assert [step][1..] == [];
    assert StepsOf(t, Apply(s, step), []) == [];
  }

  // What thread t counts on while the others run.
  predicate Unmoved(t: Thread, s: State, u: State) {
    && (s.recording ==> u.recording)
    && |u.phase| == |s.phase| && |u.refCount| == |s.refCount| && |u.using| == |s.using| && u.n == s.n
    && match t
       case Control => u.unposted == s.unposted && u.running == s.running && u.recording == s.recording
       case Capture => u.cap == s.cap
       case Preview =>
         && u.prev == s.prev
         && (s.prev.PrevPutting? && s.prev.b < |s.phase| && !s.phase[s.prev.b].NoPut? ==>
               u.phase[s.prev.b] == s.phase[s.prev.b])
       case Encode => u.enc == s.enc
       case Release(b) =>
         && (b in s.releasing ==> b in u.releasing)
         && (b < |s.phase| && !s.phase[b].NoPut? && s.prev != PrevPutting(b) ==>
               u.phase[b] == s.phase[b] && u.prev != PrevPutting(b))
         && (b < |s.phase| && (s.phase[b].NoPut? || s.prev == PrevPutting(b)) ==>
               u.phase[b].NoPut? || u.prev == PrevPutting(b))
  }

  lemma OthersDoNotMove(t: Thread, s: State, step: Step)
    requires Enabled(s, step) && Owner(s, step) != t
    ensures Unmoved(t, s, Apply(s, step))
  {
    if step.PutReturn? || step.PutUncount? || step.PutPost? || step.AppPut? || step.PrevPut? {
      PutsDoNotMove(t, s, step);
    }
  }

  lemma PutsDoNotMove(t: Thread, s: State, step: Step)
    requires step.PutReturn? || step.PutUncount? || step.PutPost? || step.AppPut? || step.PrevPut?
    requires Enabled(s, step) && Owner(s, step) != t
    ensures Unmoved(t, s, Apply(s, step))
  {
    match t {
      case Control =>
      case Capture =>
      case Preview =>
      case Encode =>
      case Release(b) =>
    }
  }

  // What the scheduler lets the threads other than t do, and what the driver hands out.
  type Schedule = (nat, Thread, State) -> seq<Step>
  type Driver = (nat, State) -> nat

  ghost predicate Legal(others: Schedule) {
    forall k: nat, t: Thread, s: State :: IsRun(s, others(k, t, s)) && StepsOf(t, s, others(k, t, s)) == []
  }

  // Who holds a lock goes on and gives it up.
  type Unlocking = (nat, nat, State) -> seq<Step>

  ghost predicate Unlocks(until: Unlocking) {
    forall k: nat, b: nat, s: State :: IsRun(s, until(k, b, s)) && StepsOf(Capture, s, until(k, b, s)) == []
      && (InRange(s, b) ==> InRange(Final(s, until(k, b, s)), b) && Final(s, until(k, b, s)).phase[b].NoPut?)
  }

  ghost predicate Delivers(pick: Driver) {
    forall k: nat, s: State :: s.driver != {} ==> pick(k, s) in s.driver
  }

  // The steps at count zero; without mCaptureRunning the buffer is not returned.
  function ReturnSteps(b: nat, returned: bool): seq<Step> {
    if returned then [PutReturn(b), PutUncount(b), PutPost(b)] else [PutReturn(b)]
  }

  class CameraHal {
    const others: Schedule
    const untilFree: Unlocking
    const pick: Driver
    var ticks: nat

    const mCaptureBufNum: nat
    const refCount: array<int>
    const mVideoBufferUsing: array<bool>
    var mCaptureRunning: bool
    var mRecordRunning: bool
    var mEnqueuedBufs: int
    var mQueuedBufNum: int
    var driver: set<nat>
    var mCaptureThreadQueue: seq<nat>
    var mPreviewThreadQueue: seq<nat>
    var mEncodeThreadQueue: seq<nat>
    var window: seq<nat>
    var app: set<nat>

    // Where the threads are, and who holds the buffers' locks.
    var unposted: nat
    var phase: seq<PutPhase>
    var releasing: set<nat>
    var dropped: set<nat>
    var lost: set<nat>
    var cleared: int                 // what was taken off mEnqueuedBufs
    var cap: CapturePc
    var prev: PreviewPc
    var enc: EncodePc

    ghost const start: State
    ghost var trace: seq<Step>

    function View(): State
      reads this, refCount, mVideoBufferUsing
    {
      State(mCaptureBufNum, mCaptureRunning, mRecordRunning, unposted, refCount[..], mVideoBufferUsing[..], phase,
            mEnqueuedBufs, cleared, mQueuedBufNum, driver, mCaptureThreadQueue, mPreviewThreadQueue, mEncodeThreadQueue,
            window, app, releasing, dropped, lost, cap, prev, enc)
    }

    // The fields are what some interleaving from CameraHALPreviewStart on has made of them.
    ghost predicate Valid()
      reads this, refCount, mVideoBufferUsing
    {
      && Legal(others) && Unlocks(untilFree) && Delivers(pick)
      && Init(start) && IsRun(start, trace) && View() == Final(start, trace)
    }

    ghost function Did(t: Thread): seq<Step>
      requires Valid()
      reads this, refCount, mVideoBufferUsing
    {
      StepsOf(t, start, trace)
    }

    // Thread t has taken exactly this one step, and the others any number of theirs.
    twostate predicate Took(t: Thread, step: Step)
      requires old(Valid())
      reads this, refCount, mVideoBufferUsing
    {
      Valid() && Did(t) == old(Did(t)) + [step] && (old(mRecordRunning) ==> mRecordRunning)
    }

    ghost method Log(before: State, step: Step, t: Thread)
      requires Legal(others) && Unlocks(untilFree) && Delivers(pick)
      requires Init(start) && IsRun(start, trace) && before == Final(start, trace)
      requires Enabled(before, step) && View() == Apply(before, step) && Owner(before, step) == t
      modifies this`trace
      ensures Valid() && Did(t) == StepsOf(t, start, old(trace)) + [step]
    {
      SingleStep(t, before, step);
      RunsJoin(t, start, trace, [step]);
      trace := trace + [step];
    }

    lemma IsReachable()
      requires Valid()
      ensures Reachable(View()) && Inv(View())
    {
      ReachableKeepsInv(View());
    }

    // ---- the other threads ------------------------------------------------------------------

    method CopyCounts(counts: seq<int>, using: seq<bool>)
      requires |counts| == refCount.Length && |using| == mVideoBufferUsing.Length
      modifies refCount, mVideoBufferUsing
      ensures refCount[..] == counts && mVideoBufferUsing[..] == using
    {
      forall i | 0 <= i < refCount.Length {
        refCount[i] := counts[i];
      }
      forall i | 0 <= i < mVideoBufferUsing.Length {
        mVideoBufferUsing[i] := using[i];
      }
    }

    method MoveThreads(s: State)
      modifies this`unposted, this`app, this`releasing, this`dropped, this`lost, this`cleared
      modifies this`phase, this`cap, this`prev, this`enc
      ensures unposted == s.unposted && app == s.app && releasing == s.releasing && dropped == s.dropped
      ensures lost == s.lost && cleared == s.cleared && phase == s.phase
      ensures cap == s.cap && prev == s.prev && enc == s.enc
    {
      unposted, app, releasing, dropped, lost := s.unposted, s.app, s.releasing, s.dropped, s.lost;
      cleared := s.cleared;
      phase, cap, prev, enc := s.phase, s.cap, s.prev, s.enc;
    }

    method MoveQueues(s: State)
      modifies this`mEnqueuedBufs, this`mQueuedBufNum, this`driver, this`window
      modifies this`mCaptureThreadQueue, this`mPreviewThreadQueue, this`mEncodeThreadQueue
      ensures mEnqueuedBufs == s.enqueued && mQueuedBufNum == s.queuedNum && driver == s.driver && window == s.window
      ensures mCaptureThreadQueue == s.captureQ && mPreviewThreadQueue == s.previewQ && mEncodeThreadQueue == s.encodeQ
    {
      mEnqueuedBufs, mQueuedBufNum, driver, window := s.enqueued, s.queuedNum, s.driver, s.window;
      mCaptureThreadQueue, mPreviewThreadQueue, mEncodeThreadQueue := s.captureQ, s.previewQ, s.encodeQ;
    }

    method Become(s: State)
      requires |s.refCount| == refCount.Length && |s.using| == mVideoBufferUsing.Length
      requires s.n == mCaptureBufNum
      modifies this, refCount, mVideoBufferUsing
      ensures View() == s && trace == old(trace) && ticks == old(ticks)
    {
      CopyCounts(s.refCount, s.using);
      MoveThreads(s);
      MoveQueues(s);
      mCaptureRunning, mRecordRunning := s.running, s.recording;
    }

    method LetOthersRun(t: Thread)
      requires Valid()
      modifies this, refCount, mVideoBufferUsing
      ensures Valid() && Did(t) == old(Did(t)) && Unmoved(t, old(View()), View())
    {
      var steps := others(ticks, t, View());
      OthersRun(t, View(), steps);
      RunsJoin(t, start, trace, steps);
      Become(Final(View(), steps));
      trace := trace + steps;
      ticks := ticks + 1;
    }

    // ---- putBufferCount and getBufferCount ----------------------------------------------------

    method GetBufferCount(b: nat, step: Step)
      requires Valid() && Enabled(View(), step)
      requires (step.CapGet1? || step.CapGet2?) && b == cap.b
      modifies this, refCount, mVideoBufferUsing
      ensures Took(Capture, step)
      ensures cap == if step.CapGet1? then CapReferenced(b) else CapReferencedTwice(b)
    {
      ghost var before := View();
      refCount[b] := Wrap32(refCount[b] + 1);
      cap := if step.CapGet1? then CapReferenced(b) else CapReferencedTwice(b);
      Log(before, step, Capture);
      LetOthersRun(Capture);
    }

    // putBufferCount up to the test for zero.
    method Decrement(b: nat) returns (zero: bool)
      requires InRange(View(), b) && phase[b].NoPut? && refCount[b] >= 1
      modifies this`phase, refCount, mVideoBufferUsing
      ensures View() == PutDecrement(old(View()), b) && zero == (refCount[b] == 0)
      ensures b < |phase| && zero == phase[b].AtZero?
    {
      if !mRecordRunning && mVideoBufferUsing[b] && refCount[b] == 2 {
        refCount[b] := refCount[b] - 1;
        mVideoBufferUsing[b] := false;
      }
      refCount[b] := Wrap32(refCount[b] - 1);
      zero := refCount[b] == 0;
      if zero {
        phase := phase[b := AtZero];
      }
    }

    // Before a put the buffer is owned: its count is not zero and its lock is free.
    lemma PutFindsItsBuffer(b: nat)
      requires Valid() && (prev == PrevReturning(b) || b in releasing)
      ensures InRange(View(), b) && phase[b].NoPut? && refCount[b] >= 1 && prev != PrevPutting(b)
    {
      IsReachable();
      PutIsSafe(View(), OwnersOf(View()), b);
      assert OnePlace(View(), OwnersOf(View()), b);
    }

    method PreviewDecrements(b: nat) returns (zero: bool)
      requires Valid() && prev == PrevReturning(b)
      modifies this, refCount, mVideoBufferUsing
      ensures Took(Preview, PrevPut)
      ensures if zero then Holds(Preview, b) && phase[b].AtZero? else prev.PrevIdle?
    {
      zero := PreviewPuts(b);
      LetOthersRun(Preview);
    }

    method PreviewPuts(b: nat) returns (zero: bool)
      requires Valid() && prev == PrevReturning(b)
      modifies this, refCount, mVideoBufferUsing
      ensures Took(Preview, PrevPut)
      ensures if zero then Holds(Preview, b) && phase[b].AtZero? else prev.PrevIdle?
    {
      ghost var before := View();
      PutFindsItsBuffer(b);
      zero := Decrement(b);
      prev := if zero then PrevPutting(b) else PrevIdle;
      Log(before, PrevPut, Preview);
    }

    method ReleaseDecrements(b: nat) returns (zero: bool)
      requires Valid() && b in releasing
      modifies this, refCount, mVideoBufferUsing
      ensures Took(Release(b), AppPut(b))
      ensures zero == Holds(Release(b), b) && (zero ==> phase[b].AtZero?)
    {
      ghost var before := View();
      PutFindsItsBuffer(b);
      releasing := releasing - {b};
      zero := Decrement(b);
      Log(before, AppPut(b), Release(b));
      LetOthersRun(Release(b));
    }

    // Thread t is inside putBufferCount(b) with the count at zero, and holds the buffer's lock.
    predicate Holds(t: Thread, b: nat)
      reads this, refCount, mVideoBufferUsing
    {
      InRange(View(), b) && !phase[b].NoPut? && t == if prev == PrevPutting(b) then Preview else Release(b)
    }

    method LetOthersRunLocked(t: Thread, b: nat)
      requires Valid() && Holds(t, b)
      modifies this, refCount, mVideoBufferUsing
      ensures Valid() && Did(t) == old(Did(t)) && Holds(t, b) && phase[b] == old(phase[b])
    {
      LetOthersRun(t);
    }

    // The rest of putBufferCount: return the buffer to the driver and announce it.
    method ReturnToDriver(b: nat, t: Thread) returns (returned: bool)
      requires Valid() && Holds(t, b) && phase[b].AtZero?
      modifies this, refCount, mVideoBufferUsing
      ensures Valid() && !Holds(t, b) && (t == Preview ==> prev.PrevIdle?)
      ensures Did(t) == old(Did(t)) + ReturnSteps(b, returned)
    {
      ghost var was := Did(t);
      returned := Requeue(b, t);
      if returned {
        LetOthersRunLocked(t, b);
        UncountAndAnnounce(b, t);
        Regroup(was, [PutReturn(b)], [PutUncount(b), PutPost(b)]);
      }
    }

    method UncountAndAnnounce(b: nat, t: Thread)
      requires Valid() && Holds(t, b) && phase[b].Requeued?
      modifies this, refCount, mVideoBufferUsing
      ensures Valid() && !Holds(t, b) && (t == Preview ==> prev.PrevIdle?)
      ensures Did(t) == old(Did(t)) + [PutUncount(b), PutPost(b)]
    {
      Uncount(b, t);
      LetOthersRunLocked(t, b);
      Announce(b, t);
    }

    // DevQueue (V4l2Queue), if the capture is running.
    method Requeue(b: nat, t: Thread) returns (returned: bool)
      requires Valid() && Holds(t, b) && phase[b].AtZero?
      modifies this, refCount
      ensures Took(t, PutReturn(b)) && InRange(View(), b)
      ensures returned == old(mCaptureRunning) == phase[b].Requeued? == Holds(t, b)
      ensures !returned && t == Preview ==> prev.PrevIdle?
    {
      returned := mCaptureRunning;
      if mCaptureRunning {
        QueueToDriver(b, t);
      } else {
        KeepFromDriver(b, t);
      }
    }

    method DevQueue(b: nat)
      requires b < refCount.Length && b < |phase|
      modifies this`driver, this`mQueuedBufNum, this`phase, refCount
      ensures View() == old(View().(driver := driver + {b}, queuedNum := mQueuedBufNum + 1,
                                    refCount := refCount[..][b := 0], phase := phase[b := Requeued]))
    {
      driver := driver + {b};
      mQueuedBufNum := mQueuedBufNum + 1;
      refCount[b] := 0;
      phase := phase[b := Requeued];
    }

    // The lock of b is given up at the end of putBufferCount.
    method Unlock(b: nat, t: Thread)
      requires b < |phase|
      modifies this`phase, this`prev
      ensures View() == old(View().(phase := phase[b := NoPut], prev := if t == Preview then PrevIdle else prev))
    {
      phase := phase[b := NoPut];
      if t == Preview {
        prev := PrevIdle;
      }
    }

    method QueueToDriver(b: nat, t: Thread)
      requires Valid() && Holds(t, b) && phase[b].AtZero? && mCaptureRunning
      modifies this, refCount
      ensures Took(t, PutReturn(b)) && Holds(t, b) && phase[b].Requeued?
    {
      ghost var before := View();
      DevQueue(b);
      Log(before, PutReturn(b), t);
    }

    method KeepFromDriver(b: nat, t: Thread)
      requires Valid() && Holds(t, b) && phase[b].AtZero? && !mCaptureRunning
      modifies this
      ensures Took(t, PutReturn(b)) && InRange(View(), b) && phase[b].NoPut? && (t == Preview ==> prev.PrevIdle?)
    {
      ghost var before := View();
      lost := lost + {b};
      Unlock(b, t);
      Log(before, PutReturn(b), t);
    }

    method Uncount(b: nat, t: Thread)
      requires Valid() && Holds(t, b) && phase[b].Requeued?
      modifies this
      ensures Took(t, PutUncount(b)) && Holds(t, b) && phase[b].Uncounted?
    {
      ghost var before := View();
      TakeOff(b);
      Log(before, PutUncount(b), t);
    }

    method TakeOff(b: nat)
      requires b < |phase|
      modifies this`mEnqueuedBufs, this`phase
      ensures View() == old(View().(enqueued := Wrap32(mEnqueuedBufs - 1), phase := phase[b := Uncounted]))
    {
      mEnqueuedBufs := Wrap32(mEnqueuedBufs - 1);
      phase := phase[b := Uncounted];
    }

    method Announce(b: nat, t: Thread)
      requires Valid() && Holds(t, b) && phase[b].Uncounted?
      modifies this
      ensures Took(t, PutPost(b)) && !Holds(t, b) && (t == Preview ==> prev.PrevIdle?)
    {
      ghost var before := View();
      mCaptureThreadQueue := mCaptureThreadQueue + [b];
      Unlock(b, t);
      Log(before, PutPost(b), t);
    }

    method WaitForLock(b: nat)
      requires Valid() && InRange(View(), b)
      modifies this, refCount, mVideoBufferUsing
      ensures Valid() && Did(Capture) == old(Did(Capture)) && cap == old(cap)
      ensures old(mRecordRunning) ==> mRecordRunning
      ensures InRange(View(), b) && phase[b].NoPut?
    {
      var steps := untilFree(ticks, b, View());
      OthersRun(Capture, View(), steps);
      RunsJoin(Capture, start, trace, steps);
      Become(Final(View(), steps));
      trace := trace + steps;
      ticks := ticks + 1;
    }

    // ---- captureframeThread -------------------------------------------------------------------

    method TakeCaptureMessage()
      requires Valid() && cap.CapIdle? && mCaptureThreadQueue != []
      modifies this, refCount, mVideoBufferUsing
      ensures Took(Capture, CapTake) && cap.CapHasMessage?
    {
      ghost var before := View();
      mCaptureThreadQueue := mCaptureThreadQueue[1..];
      cap := CapHasMessage;
      Log(before, CapTake, Capture);
      LetOthersRun(Capture);
    }

    // V4l2Dequeue: the driver always has a buffer to give.
    method DevDequeue() returns (b: nat)
      requires Valid() && cap.CapHasMessage?
      modifies this, refCount, mVideoBufferUsing
      ensures Took(Capture, CapDequeue(b)) && cap == CapDequeued(b)
    {
      ghost var before := View();
      DequeueNeverBlocks();
      b := pick(ticks, View());
      driver := driver - {b};
      mQueuedBufNum := mQueuedBufNum - 1;
      cap := CapDequeued(b);
      Log(before, CapDequeue(b), Capture);
      LetOthersRun(Capture);
    }

    lemma DequeueNeverBlocks()
      requires Valid() && cap.CapHasMessage?
      ensures View().driver != {}
    {
      DequeueFindsABuffer(View());
    }

    method FirstReference(b: nat)
      requires Valid() && cap == CapDequeued(b)
      modifies this, refCount, mVideoBufferUsing
      ensures Took(Capture, CapGet1) && cap == CapReferenced(b)
    {
      IsReachable();
      WaitForLock(b);
      GetBufferCount(b, CapGet1);
    }

    method PostToPreview(b: nat)
      requires Valid() && cap == CapReferenced(b)
      modifies this, refCount, mVideoBufferUsing
      ensures Took(Capture, CapPost) && cap == CapPosted(b)
    {
      ghost var before := View();
      mPreviewThreadQueue := mPreviewThreadQueue + [b];
      cap := CapPosted(b);
      Log(before, CapPost, Capture);
      LetOthersRun(Capture);
    }

    method TestRecording(b: nat) returns (encode: bool)
      requires Valid() && cap == CapPosted(b)
      modifies this, refCount, mVideoBufferUsing
      ensures Took(Capture, CapTestRecording)
      ensures cap == if encode then CapWillEncode(b) else CapIdle
      ensures encode == old(mRecordRunning)
    {
      ghost var before := View();
      encode := mRecordRunning;
      cap := if encode then CapWillEncode(b) else CapIdle;
      Log(before, CapTestRecording, Capture);
      LetOthersRun(Capture);
    }

    // The buffer is still on the preview side, so its lock is free.
    method SecondReference(b: nat)
      requires Valid() && cap == CapWillEncode(b)
      modifies this, refCount, mVideoBufferUsing
      ensures Took(Capture, CapGet2) && cap == CapReferencedTwice(b)
    {
      IsReachable();
      SecondReferenceFindsTheFirst(View(), OwnersOf(View()));
      GetBufferCount(b, CapGet2);
    }

    method PostToEncoder(b: nat)
      requires Valid() && cap == CapReferencedTwice(b)
      modifies this, refCount, mVideoBufferUsing
      ensures Took(Capture, CapPostEncode) && cap.CapIdle?
    {
      ghost var before := View();
      mEncodeThreadQueue := mEncodeThreadQueue + [b];
      cap := CapIdle;
      Log(before, CapPostEncode, Capture);
      LetOthersRun(Capture);
    }

    method TakeBuffer() returns (b: nat)
      requires Valid() && cap.CapIdle? && mCaptureThreadQueue != []
      modifies this, refCount, mVideoBufferUsing
      ensures Valid() && cap == CapDequeued(b)
      ensures Did(Capture) == old(Did(Capture)) + [CapTake, CapDequeue(b)]
      ensures old(mRecordRunning) ==> mRecordRunning
    {
      TakeCaptureMessage();
      b := DevDequeue();
    }

    method ReferenceAndPost(b: nat)
      requires Valid() && cap == CapDequeued(b)
      modifies this, refCount, mVideoBufferUsing
      ensures Valid() && cap == CapPosted(b)
      ensures Did(Capture) == old(Did(Capture)) + [CapGet1, CapPost]
      ensures old(mRecordRunning) ==> mRecordRunning
    {
      FirstReference(b);
      PostToPreview(b);
    }

    method ShareWithPreview() returns (b: nat)
      requires Valid() && cap.CapIdle? && mCaptureThreadQueue != []
      modifies this, refCount, mVideoBufferUsing
      ensures Valid() && cap == CapPosted(b)
      ensures Did(Capture) == old(Did(Capture)) + ShareSteps(b)
      ensures old(mRecordRunning) ==> mRecordRunning
    {
      ghost var was := Did(Capture);
      b := TakeBuffer();
      ReferenceAndPost(b);
      Regroup(was, [CapTake, CapDequeue(b)], [CapGet1, CapPost]);
    }

    method ShareWithEncoder(b: nat) returns (encode: bool)
      requires Valid() && cap == CapPosted(b)
      modifies this, refCount, mVideoBufferUsing
      ensures Valid() && cap.CapIdle?
      ensures Did(Capture) == old(Did(Capture)) + EncodeSteps(encode)
      ensures encode == old(mRecordRunning) && (encode ==> mRecordRunning)
    {
      encode := TestRecording(b);
      if encode {
        SecondReference(b);
        PostToEncoder(b);
      }
    }

    // waiting: no message arrived.
    method CaptureFrameThread() returns (waiting: bool, b: nat, encode: bool)
      requires Valid() && cap.CapIdle?
      modifies this, refCount, mVideoBufferUsing
      ensures Valid() && cap.CapIdle? && (waiting ==> mCaptureThreadQueue == [])
      ensures Did(Capture) == old(Did(Capture)) + if waiting then [] else CaptureSteps(b, encode)
      // A frame goes to the encoder if recording ran all along, and only if it runs in the end.
      ensures (!waiting && old(mRecordRunning) ==> encode) && (encode ==> mRecordRunning)
    {
      waiting, b, encode := false, 0, false;
      LetOthersRun(Capture);
      if mCaptureThreadQueue == [] {
        waiting := true;
        return;
      }
      ghost var was := Did(Capture);
      b := ShareWithPreview();
      encode := ShareWithEncoder(b);
      Regroup(was, ShareSteps(b), EncodeSteps(encode));
    }

    // ---- previewshowFrameThread -----------------------------------------------------------------

    method TakePreviewMessage() returns (b: nat)
      requires Valid() && prev.PrevIdle? && mPreviewThreadQueue != []
      modifies this, refCount, mVideoBufferUsing
      ensures Took(Preview, PrevTake) && prev == PrevHas(b)
    {
      ghost var before := View();
      b := mPreviewThreadQueue[0];
      mPreviewThreadQueue := mPreviewThreadQueue[1..];
      prev := PrevHas(b);
      Log(before, PrevTake, Preview);
      LetOthersRun(Preview);
    }

    method EnqueueToWindow(b: nat)
      requires Valid() && prev == PrevHas(b)
      modifies this, refCount, mVideoBufferUsing
      ensures Took(Preview, PrevEnqueue) && prev == PrevQueued(b)
    {
      ghost var before := View();
      window := window + [b];
      prev := PrevQueued(b);
      Log(before, PrevEnqueue, Preview);
      LetOthersRun(Preview);
    }

    method CountEnqueued(b: nat)
      requires Valid() && prev == PrevQueued(b)
      modifies this, refCount, mVideoBufferUsing
      ensures Took(Preview, PrevCount) && prev.PrevCounted?
    {
      ghost var before := View();
      mEnqueuedBufs := Wrap32(mEnqueuedBufs + 1);
      prev := PrevCounted;
      Log(before, PrevCount, Preview);
      LetOthersRun(Preview);
    }

    method TestEnqueued() returns (few: bool)
      requires Valid() && prev.PrevCounted?
      modifies this, refCount, mVideoBufferUsing
      ensures Took(Preview, PrevTest) && prev == if few then PrevIdle else PrevWantsBuffer
    {
      ghost var before := View();
      few := mEnqueuedBufs <= 2;
      prev := if few then PrevIdle else PrevWantsBuffer;
      Log(before, PrevTest, Preview);
      LetOthersRun(Preview);
    }

    lemma WindowIsDeep()
      requires Valid() && prev.PrevWantsBuffer?
      ensures |window| >= 3
    {
      IsReachable();
    }

    // The window holds at least three buffers, so dequeue_buffer has one to give.
    method DequeueFromWindow() returns (b: nat)
      requires Valid() && prev.PrevWantsBuffer?
      modifies this, refCount, mVideoBufferUsing
      ensures Took(Preview, PrevDequeue) && prev == PrevReturning(b)
    {
      ghost var before := View();
      WindowIsDeep();
      b := window[0];
      window := window[1..];
      prev := PrevReturning(b);
      Log(before, PrevDequeue, Preview);
      LetOthersRun(Preview);
    }

    method GiveToWindow() returns (b: nat)
      requires Valid() && prev.PrevIdle? && mPreviewThreadQueue != []
      modifies this, refCount, mVideoBufferUsing
      ensures Valid() && prev == PrevQueued(b)
      ensures Did(Preview) == old(Did(Preview)) + [PrevTake, PrevEnqueue]
    {
      b := TakePreviewMessage();
      EnqueueToWindow(b);
    }

    method ShowFrame() returns (b: nat, few: bool)
      requires Valid() && prev.PrevIdle? && mPreviewThreadQueue != []
      modifies this, refCount, mVideoBufferUsing
      ensures Valid() && prev == if few then PrevIdle else PrevWantsBuffer
      ensures Did(Preview) == old(Did(Preview)) + SHOW_STEPS
    {
      b := GiveToWindow();
      CountEnqueued(b);
      few := TestEnqueued();
    }

    method PutBack() returns (b: nat, zero: bool)
      requires Valid() && prev.PrevWantsBuffer?
      modifies this, refCount, mVideoBufferUsing
      ensures Valid() && Did(Preview) == old(Did(Preview)) + [PrevDequeue, PrevPut]
      ensures if zero then Holds(Preview, b) && phase[b].AtZero? else prev.PrevIdle?
    {
      b := DequeueFromWindow();
      zero := PreviewDecrements(b);
    }

    method TakeBack() returns (b: nat, zero: bool, returned: bool)
      requires Valid() && prev.PrevWantsBuffer?
      modifies this, refCount, mVideoBufferUsing
      ensures Valid() && prev.PrevIdle?
      ensures Did(Preview) == old(Did(Preview)) + BackSteps(b, zero, returned)
    {
      b, zero := PutBack();
      returned := false;
      if zero {
        returned := ReturnToDriver(b, Preview);
      }
    }

    method PreviewShowFrameThread() returns (waiting: bool, few: bool, given: nat, zero: bool, returned: bool)
      requires Valid() && prev.PrevIdle?
      modifies this, refCount, mVideoBufferUsing
      ensures Valid() && prev.PrevIdle? && (waiting ==> mPreviewThreadQueue == [])
      ensures Did(Preview) == old(Did(Preview)) +
        if waiting then [] else PreviewSteps(few, given, zero, returned)
    {
      waiting, few, given, zero, returned := false, false, 0, false, false;
      LetOthersRun(Preview);
      if mPreviewThreadQueue == [] {
        waiting := true;
        return;
      }
      var shown;
      ghost var before := Did(Preview);
      shown, few := ShowFrame();
      if !few {
        given, zero, returned := TakeBack();
        Regroup(before, SHOW_STEPS, BackSteps(given, zero, returned));
      }
    }

    // ---- encodeframeThread, releaseRecordingFrame, startRecording -------------------------------

    method TakeEncodeMessage() returns (b: nat)
      requires Valid() && enc.EncIdle? && mEncodeThreadQueue != []
      modifies this, refCount, mVideoBufferUsing
      ensures Took(Encode, EncTake) && enc == EncHas(b)
    {
      ghost var before := View();
      b := mEncodeThreadQueue[0];
      mEncodeThreadQueue := mEncodeThreadQueue[1..];
      enc := EncHas(b);
      Log(before, EncTake, Encode);
      LetOthersRun(Encode);
    }

    // Frames are on the encode side only once recording has been started.
    lemma FrameInHandExists(b: nat)
      requires Valid() && enc == EncHas(b)
      ensures InRange(View(), b) && mRecordRunning
    {
      IsReachable();
      var o := OwnersOf(View());
      OwnersFit(View());
      assert o.line[0] in o.line;
      assert b in o.frames;
    }

    method Lend(b: nat, videoFrame: bool) returns (lent: bool)
      requires Valid() && enc == EncHas(b)
      modifies this, refCount, mVideoBufferUsing
      ensures Took(Encode, if lent then EncLend else EncDrop) && enc.EncIdle?
      ensures lent == videoFrame
    {
      FrameInHandExists(b);
      lent := videoFrame && mRecordRunning;
      if lent {
        GiveToApp(b);
      } else {
        KeepFromApp(b);
      }
      LetOthersRun(Encode);
    }

    method GiveToApp(b: nat)
      requires Valid() && enc == EncHas(b) && mRecordRunning && InRange(View(), b)
      modifies this, mVideoBufferUsing
      ensures Took(Encode, EncLend) && enc.EncIdle?
    {
      ghost var before := View();
      mVideoBufferUsing[b] := true;
      app := app + {b};
      enc := EncIdle;
      Log(before, EncLend, Encode);
    }

    method KeepFromApp(b: nat)
      requires Valid() && enc == EncHas(b)
      modifies this
      ensures Took(Encode, EncDrop) && enc.EncIdle?
    {
      ghost var before := View();
      dropped := dropped + {b};
      enc := EncIdle;
      Log(before, EncDrop, Encode);
    }

    method EncodeFrameThread(videoFrame: bool) returns (waiting: bool, lent: bool)
      requires Valid() && enc.EncIdle?
      modifies this, refCount, mVideoBufferUsing
      ensures Valid() && enc.EncIdle? && (waiting ==> mEncodeThreadQueue == [])
      ensures lent == (!waiting && videoFrame)
      ensures Did(Encode) == old(Did(Encode)) +
        if waiting then [] else [EncTake, if lent then EncLend else EncDrop]
    {
      waiting, lent := false, false;
      LetOthersRun(Encode);
      if mEncodeThreadQueue == [] {
        waiting := true;
        return;
      }
      var b := TakeEncodeMessage();
      lent := Lend(b, videoFrame);
    }

    lemma LentFrameExists(b: nat)
      requires Valid() && b in app
      ensures InRange(View(), b)
    {
      IsReachable();
      assert b in OwnersOf(View()).frames;
    }

    method MarkReleased(b: nat)
      requires Valid() && b in app
      modifies this, refCount, mVideoBufferUsing
      ensures Took(Release(b), AppRelease(b)) && b in releasing
    {
      ghost var before := View();
      LentFrameExists(b);
      mVideoBufferUsing[b] := false;
      app := app - {b};
      releasing := releasing + {b};
      Log(before, AppRelease(b), Release(b));
      LetOthersRun(Release(b));
    }

    // The count of a frame that was lent is not zero, so the source's test for that never fires.
    method ReleaseRecordingFrame(b: nat) returns (zero: bool, returned: bool)
      requires Valid() && b in app
      modifies this, refCount, mVideoBufferUsing
      ensures Valid() && !Holds(Release(b), b)
      ensures Did(Release(b)) == old(Did(Release(b))) + [AppRelease(b), AppPut(b)] +
        if zero then ReturnSteps(b, returned) else []
    {
      MarkReleased(b);
      zero := ReleaseDecrements(b);
      returned := false;
      if zero {
        returned := ReturnToDriver(b, Release(b));
      }
    }

    method StartRecording()
      requires Valid()
      modifies this, refCount, mVideoBufferUsing
      ensures Valid() && mRecordRunning
      ensures Did(Control) == old(Did(Control)) + if old(mRecordRunning) then [] else [CameraProtocol.StartRecording]
    {
      if mRecordRunning {
        return;
      }
      ghost var before := View();
      var i := 0;
      while i < mVideoBufferUsing.Length
        invariant 0 <= i <= mVideoBufferUsing.Length
        invariant forall k :: 0 <= k < i ==> !mVideoBufferUsing[k]
        invariant View() == before.(using := mVideoBufferUsing[..])
        invariant trace == old(trace)
        modifies mVideoBufferUsing
      {
        mVideoBufferUsing[i] := false;
        i := i + 1;
      }
      mRecordRunning := true;
      assert mVideoBufferUsing[..] == seq(|before.using|, _ => false);
      Log(before, CameraProtocol.StartRecording, Control);
    }

    // ---- V4l2Prepare and CameraHALPreviewStart ----------------------------------------------------

    // The allocation leaves something in mVideoBufferUsing.
    constructor (n: nat, garbage: seq<bool>, others: Schedule, untilFree: Unlocking, pick: Driver)
      requires n < TWO32 && |garbage| == n && Legal(others) && Unlocks(untilFree) && Delivers(pick)
      ensures Valid() && unposted == n && mCaptureBufNum == n && trace == []
      ensures fresh(refCount) && fresh(mVideoBufferUsing)
    {
      this.others, this.untilFree, this.pick, ticks := others, untilFree, pick, 0;
      mCaptureBufNum := n;
      refCount := new int[n](_ => 0);
      mVideoBufferUsing := new bool[n](i requires 0 <= i < n => garbage[i]);
      mCaptureRunning, mRecordRunning, mEnqueuedBufs, cleared := false, false, 0, 0;
      mCaptureThreadQueue, mPreviewThreadQueue, mEncodeThreadQueue, window := [], [], [], [];
      app, releasing, dropped, lost := {}, {}, {}, {};
      unposted, phase := n, seq(n, _ => NoPut);
      cap, prev, enc := CapIdle, PrevIdle, EncIdle;
      var queued, count := V4l2Prepare(n);
      driver, mQueuedBufNum := queued, count;
      trace := [];
      start := State(n, false, false, n, seq(n, _ => 0), garbage, seq(n, _ => NoPut), 0, 0, count, queued,
                     [], [], [], [], {}, {}, {}, {}, CapIdle, PrevIdle, EncIdle);
      new;
      assert refCount[..] == start.refCount && mVideoBufferUsing[..] == start.using;
    }

    static method V4l2Prepare(mBufQueNum: nat) returns (queued: set<nat>, mQueuedBufNum: nat)
      ensures forall b: nat :: b in queued <==> b < mBufQueNum
      ensures mQueuedBufNum == mBufQueNum
    {
      queued, mQueuedBufNum := {}, 0;
      var i := 0;
      while i < mBufQueNum
        invariant i <= mBufQueNum && mQueuedBufNum == i
        invariant forall b: nat :: b in queued <==> b < i
      {
        queued := queued + {i};
        mQueuedBufNum := mQueuedBufNum + 1;
        i := i + 1;
      }
    }

    lemma UnpostedFit()
      requires Valid()
      ensures unposted <= mCaptureBufNum
    {
      IsReachable();
    }

    method PostInitialMessage()
      requires Valid() && unposted > 0
      modifies this, refCount, mVideoBufferUsing
      ensures Took(Control, PostInitial) && unposted == old(unposted) - 1
      ensures mCaptureRunning == old(mCaptureRunning)
    {
      ghost var before := View();
      UnpostedFit();
      mCaptureThreadQueue := mCaptureThreadQueue + [mCaptureBufNum - unposted];
      unposted := unposted - 1;
      Log(before, PostInitial, Control);
      LetOthersRun(Control);
    }

    method SetRunning()
      requires Valid() && !mCaptureRunning
      modifies this
      ensures Took(Control, CameraProtocol.SetRunning) && mCaptureRunning
    {
      ghost var before := View();
      mCaptureRunning := true;
      Log(before, CameraProtocol.SetRunning, Control);
    }

    // startPreview while the preview runs.
    method StartPreviewAgain()
      requires Valid() && mCaptureRunning
      modifies this`mEnqueuedBufs, this`cleared, this`trace
      ensures Took(Control, ClearCount) && mEnqueuedBufs == 0
    {
      ghost var before := View();
      cleared := Wrap32(cleared + mEnqueuedBufs);
      mEnqueuedBufs := 0;
      Log(before, ClearCount, Control);
    }

    // startPreview from the messages of CameraHALPreviewStart on.
    method StartPreview()
      requires Valid() && unposted == mCaptureBufNum && !mCaptureRunning
      modifies this, refCount, mVideoBufferUsing
      ensures Valid() && mCaptureRunning
      ensures Did(Control) == old(Did(Control)) + seq(mCaptureBufNum, _ => PostInitial) + [CameraProtocol.SetRunning]
    {
      var i := 0;
      while i < mCaptureBufNum
        invariant i <= mCaptureBufNum && unposted == mCaptureBufNum - i && !mCaptureRunning && Valid()
        invariant Did(Control) == old(Did(Control)) + seq(i, _ => PostInitial)
      {
        PostInitialMessage();
        assert seq(i + 1, _ => PostInitial) == seq(i, _ => PostInitial) + [PostInitial];
        i := i + 1;
      }
      SetRunning();
    }
  }

  const SHOW_STEPS := [PrevTake, PrevEnqueue, PrevCount, PrevTest]

  function BackSteps(given: nat, zero: bool, returned: bool): seq<Step> {
    [PrevDequeue, PrevPut] + if zero then ReturnSteps(given, returned) else []
  }

  function PreviewSteps(few: bool, given: nat, zero: bool, returned: bool): seq<Step> {
    SHOW_STEPS + if few then [] else BackSteps(given, zero, returned)
  }

  function ShareSteps(b: nat): seq<Step> {
    [CapTake, CapDequeue(b), CapGet1, CapPost]
  }

  function EncodeSteps(encode: bool): seq<Step> {
    [CapTestRecording] + if encode then [CapGet2, CapPostEncode] else []
  }

  function CaptureSteps(b: nat, encode: bool): seq<Step> {
    ShareSteps(b) + EncodeSteps(encode)
  }

  lemma StillUnmoved(t: Thread, s: State, u: State, v: State)
    requires Unmoved(t, s, u) && Unmoved(t, u, v)
    ensures Unmoved(t, s, v)
  {
  }

  lemma {:induction false} OthersRun(t: Thread, s: State, steps: seq<Step>)
    requires IsRun(s, steps) && StepsOf(t, s, steps) == []
    ensures Unmoved(t, s, Final(s, steps))
    decreases |steps|
  {
    if steps == [] {
    } else {
      var next := Apply(s, steps[0]);
      assert Owner(s, steps[0]) != t && StepsOf(t, next, steps[1..]) == [];
      OthersDoNotMove(t, s, steps[0]);
      OthersRun(t, next, steps[1..]);
      StillUnmoved(t, s, next, Final(s, steps));
    }
  }
}
