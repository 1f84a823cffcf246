/** What every run of the camera threads from CameraHALPreviewStart on guarantees. */
module CameraTheorems {
  import opened Arithmetic
  import opened CameraProtocol
  import opened CameraInvariant
  import opened Sequences

  // t is the end of some interleaving that starts in CameraHALPreviewStart.
  ghost predicate Reachable(t: State) {
    exists s, steps :: Init(s) && IsRun(s, steps) && t == Final(s, steps)
  }

  lemma ReachableKeepsInv(t: State)
    requires Reachable(t)
    ensures Inv(t) && Fits(t, OwnersOf(t))
  {
    var s, steps :| Init(s) && IsRun(s, steps) && t == Final(s, steps);
    InitHolds(s);
    RunKeepsInv(s, steps);
    OwnersFit(t);
  }

  // A reference count is the preview side's ownership plus the encode side's, and no buffer the
  // driver may write into is owned by either.
  lemma CountsAreOwnership(t: State, o: Owners, b: nat)
    requires Reachable(t) && o == OwnersOf(t) && b < t.n
    ensures |t.refCount| == t.n
    ensures t.refCount[b] == Bit(b in o.pipe) + Bit(b in o.frames)
    ensures b in t.driver ==> t.refCount[b] == 0 && b !in o.pipe && b !in o.frames
  {
    ReachableKeepsInv(t);
    assert OnePlace(t, o, b);
  }

  // Every buffer is in exactly one of five places: none is lost from sight or in two of them.
  lemma EveryBufferIsSomewhere(t: State, o: Owners, b: nat)
    requires Reachable(t) && o == OwnersOf(t) && b < t.n
    ensures |t.phase| == t.n
    ensures Bit(b in t.driver) + Bit(t.cap == CapDequeued(b)) + Bit(t.phase[b].AtZero?) + Bit(b in t.lost)
            + Bit(b in o.pipe || b in o.frames) == 1
  {
    ReachableKeepsInv(t);
    assert OnePlace(t, o, b);
  }

  // putBufferCount never takes a count below zero, and it hands a buffer to the driver only at
  // count zero, owned by nobody and not already queued there.
  lemma PutIsSafe(t: State, o: Owners, b: nat)
    requires Reachable(t) && o == OwnersOf(t)
    ensures t.prev == PrevReturning(b) || b in t.releasing ==> b < |t.refCount| && t.refCount[b] >= 1
    ensures b < |t.phase| && t.phase[b].AtZero? ==>
      b < |t.refCount| && t.refCount[b] == 0 && b !in t.driver && b !in o.pipe && b !in o.frames
  {
    ReachableKeepsInv(t);
    PutFindsItsCount(t, o, b);
  }

  lemma PutFindsItsCount(t: State, o: Owners, b: nat)
    requires InvOver(t, o) && Fits(t, o)
    ensures t.prev == PrevReturning(b) || b in t.releasing ==> b < |t.refCount| && t.refCount[b] >= 1
    ensures b < |t.phase| && t.phase[b].AtZero? ==>
      b < |t.refCount| && t.refCount[b] == 0 && b !in t.driver && b !in o.pipe && b !in o.frames
  {
    if b < t.n {
      assert OnePlace(t, o, b);
    }
  }

  // A buffer handed to the driver stays there, out of putBufferCount's reach, until the capture
  // thread dequeues it: between two returns of one buffer lies a DevDequeue of it.
  lemma ReturnedOnce(t: State, more: seq<Step>, b: nat)
    requires Inv(t) && b in t.driver && IsRun(t, more) && CapDequeue(b) !in more
    ensures b in Final(t, more).driver && !Enabled(Final(t, more), PutReturn(b))
    decreases |more|
  {
    if more == [] {
      assert OnePlace(t, OwnersOf(t), b);
    } else {
      assert more[0] in more;
      StepKeepsInv(t, more[0]);
      StaysAtDriver(t, more[0], b);
      ReturnedOnce(Apply(t, more[0]), more[1..], b);
    }
  }

  lemma StaysAtDriver(t: State, step: Step, b: nat)
    requires b in t.driver && Enabled(t, step) && step != CapDequeue(b)
    ensures b in Apply(t, step).driver
  {
  }

  // The tokens of the capture queue: DevDequeue is only reached with a buffer at the driver, and
  // with no thread in the middle of a step there are exactly as many messages as queued buffers.
  lemma DequeueFindsABuffer(t: State)
    requires Reachable(t)
    ensures t.queuedNum == |t.driver|
    ensures |t.captureQ| + Bit(t.cap.CapHasMessage?) <= |t.driver|
    ensures t.cap.CapHasMessage? ==> exists b :: b in t.driver && Enabled(t, CapDequeue(b))
    ensures t.unposted == 0 && !t.cap.CapHasMessage? && (forall b: nat :: b < |t.phase| ==> t.phase[b].NoPut?) ==>
      |t.captureQ| == |t.driver|
  {
    ReachableKeepsInv(t);
    if t.cap.CapHasMessage? {
      assert t.driver != {};
      var b :| b in t.driver;
      assert Enabled(t, CapDequeue(b));
    }
    if forall b: nat :: b < |t.phase| ==> t.phase[b].NoPut? {
      assert Unannounced(t) == {};
    }
  }

  // The second getBufferCount of the capture thread finds its buffer still on the preview side,
  // with exactly the first reference on it, away from the driver, and its lock free.
  lemma SecondReferenceFindsTheFirst(t: State, o: Owners)
    requires Reachable(t) && o == OwnersOf(t) && t.cap.CapWillEncode?
    ensures Enabled(t, CapGet2)
    ensures t.refCount[t.cap.b] == 1 && t.cap.b in o.pipe && t.cap.b !in t.driver
  {
    ReachableKeepsInv(t);
    assert o.pipe[|o.pipe| - 1] in o.pipe;
    assert OnePlace(t, o, t.cap.b);
  }

  // Between two steps of the preview thread and with no put under way: nothing is half done.
  predicate AtRest(t: State) {
    (t.prev.PrevIdle? || t.prev.PrevHas?) && t.lost == {} && forall b: nat :: b < |t.phase| ==> t.phase[b].NoPut?
  }

  // Then mEnqueuedBufs shows the depth of the window plus the buffers it gave back that the encode
  // side still holds, less what was taken off it; it is right exactly if nothing was.
  lemma EnqueuedIsDepthPlusHeld(t: State, o: Owners)
    requires Reachable(t) && o == OwnersOf(t) && AtRest(t)
    ensures t.enqueued == Shown(|t.window| + |o.frames - Members(o.pipe)|, t.cleared)
    ensures t.enqueued == |t.window| + |o.frames - Members(o.pipe)| <==> t.cleared == 0
  {
    ReachableKeepsInv(t);
    EnqueuedSplits(t, o);
  }

  lemma EnqueuedSplits(t: State, o: Owners)
    requires InvOver(t, o) && Fits(t, o) && AtRest(t)
    ensures |Counted(t, o)| == |t.window| + |o.frames - Members(o.pipe)|
  {
    var held := o.frames - Members(o.pipe);
    forall b: nat
      ensures b in Counted(t, o) <==> b in t.window || b in held
      ensures b in t.window ==> b !in held
    {
      CountedIsShownOrHeld(t, o, b);
    }
    SizeSplits(Counted(t, o), t.window, held);
  }

  // startPreview sets mEnqueuedBufs to zero before it looks whether the preview already runs.  A
  // second call takes everything counted off the counter, however often it has happened before.
  lemma StartingPreviewAgain(t: State, o: Owners)
    requires Reachable(t) && o == OwnersOf(t) && AtRest(t) && Enabled(t, ClearCount)
    ensures var u := Apply(t, ClearCount);
      Reachable(u) && u.enqueued == 0 && u.cleared == |t.window| + |o.frames - Members(o.pipe)|
  {
    ReachableKeepsInv(t);
    ReachableStep(t, ClearCount);
    ClearCountCore(t, o);
    EnqueuedSplits(t, o);
  }

  // Only a second startPreview takes anything off.
  lemma {:induction false} NeverCleared(s: State, steps: seq<Step>)
    requires IsRun(s, steps) && ClearCount !in steps
    ensures Final(s, steps).cleared == s.cleared
    decreases |steps|
  {
    if steps == [] {
    } else {
      assert steps[0] in steps;
      OnlyClearCountClears(s, steps[0]);
      NeverCleared(Apply(s, steps[0]), steps[1..]);
    }
  }

  lemma OnlyClearCountClears(s: State, step: Step)
    requires Enabled(s, step) && step != ClearCount
    ensures Apply(s, step).cleared == s.cleared
  {
  }

  lemma SizeSplits(all: set<nat>, shown: seq<nat>, held: set<nat>)
    requires Distinct(shown) && forall b: nat :: b in shown ==> b !in held
    requires forall b: nat :: b in all <==> b in shown || b in held
    ensures |all| == |shown| + |held|
  {
    SetOfDistinct(shown, Members(shown));
    assert all == Members(shown) + held;
  }

  lemma CountedIsShownOrHeld(t: State, o: Owners, b: nat)
    requires InvOver(t, o) && Fits(t, o) && AtRest(t)
    ensures (b < t.n && IsCounted(t, o, b)) == (b in t.window || (b in o.frames && b !in o.pipe))
    ensures b in t.window ==> b in o.pipe
  {
    assert b in t.window ==> b in o.pipe;
  }

  // The window never holds more than three frames and what was taken off the counter, and while the
  // encode side holds a frame the window gave back, it holds at least two.
  lemma WindowKeepsTwo(t: State, o: Owners)
    requires Reachable(t) && o == OwnersOf(t)
    ensures |t.window| <= 3 + t.cleared
    ensures o.frames - Members(o.pipe) != {} ==> |t.window| >= 2
  {
    ReachableKeepsInv(t);
    if o.frames - Members(o.pipe) != {} {
      var b :| b in o.frames - Members(o.pipe);
      assert IsCounted(t, o, b) && b !in t.window;
    }
  }

  // ---- which frames the application holds ---------------------------------------------------------

  // From the start of recording on mVideoBufferUsing marks exactly the frames lent to the application.
  // What it marks before is whatever was there.
  ghost predicate Marked(t: State) {
    |t.using| == t.n && (t.recording ==> forall b: nat :: b < t.n ==> (t.using[b] <==> b in t.app))
  }

  // Before recording starts no buffer has two references, so no put reclaims one; while it runs none does.
  lemma NothingToReclaim(t: State, b: nat)
    requires Inv(t) && InRange(t, b)
    ensures t.recording || t.refCount[b] < 2
  {
    assert OnePlace(t, OwnersOf(t), b);
  }

  lemma PutKeepsUsing(t: State, b: nat)
    requires InRange(t, b) && (t.recording || t.refCount[b] < 2)
    ensures PutDecrement(t, b).using == t.using && PutDecrement(t, b).app == t.app
  {
  }

  lemma PutsKeepUsing(t: State, step: Step)
    requires Inv(t) && Enabled(t, step) && (step.PrevPut? || step.AppPut?)
    ensures Apply(t, step).using == t.using && Apply(t, step).app == t.app
  {
    match step {
      case PrevPut =>
        NothingToReclaim(t, t.prev.b);
        PutKeepsUsing(t, t.prev.b);
      case AppPut(b) =>
        NothingToReclaim(t, b);
        PutKeepsUsing(t.(releasing := t.releasing - {b}), b);
    }
  }

  predicate TouchesUsing(step: Step) {
    step.StartRecording? || step.EncLend? || step.AppRelease? || step.PrevPut? || step.AppPut?
  }

  lemma OthersKeepUsing(t: State, step: Step)
    requires Enabled(t, step) && !TouchesUsing(step)
    ensures var t' := Apply(t, step); t'.using == t.using && t'.app == t.app && t'.recording == t.recording
  {
  }

  lemma StepKeepsMarked(t: State, step: Step)
    requires Inv(t) && Marked(t) && Enabled(t, step)
    ensures Marked(Apply(t, step))
  {
    if step.StartRecording? {
      assert t.app <= OwnersOf(t).frames;
    } else if step.PrevPut? || step.AppPut? {
      PutsKeepUsing(t, step);
    } else if step.EncLend? || step.AppRelease? {
      MarksWhatIsLent(t, step);
    } else {
      OthersKeepUsing(t, step);
    }
  }

  lemma MarksWhatIsLent(t: State, step: Step)
    requires Inv(t) && Marked(t) && Enabled(t, step) && (step.EncLend? || step.AppRelease?)
    ensures Marked(Apply(t, step))
  {
  }

  lemma {:induction false} RunKeepsMarked(s: State, steps: seq<Step>)
    requires Inv(s) && Marked(s) && IsRun(s, steps)
    ensures Marked(Final(s, steps))
    decreases |steps|
  {
    if steps == [] {
    } else {
      StepKeepsInv(s, steps[0]);
      StepKeepsMarked(s, steps[0]);
      RunKeepsMarked(Apply(s, steps[0]), steps[1..]);
    }
  }

  // A frame is marked exactly while the application holds it; before recording it holds none.
  lemma UsingIsLent(t: State, b: nat)
    requires Reachable(t) && b < t.n
    ensures |t.using| == t.n
    ensures if t.recording then t.using[b] <==> b in t.app else b !in t.app
  {
    var s, steps :| Init(s) && IsRun(s, steps) && t == Final(s, steps);
    InitHolds(s);
    RunKeepsMarked(s, steps);
    RunKeepsInv(s, steps);
    assert t.app <= OwnersOf(t).frames;
  }

  // putBufferCount up to its test.  Without recording a frame that is still marked as lent, and has
  // no other reference than this one and the application's, loses both and the mark; in every other
  // case the count goes down by one, through zero to 2^32 - 1, and nothing else changes.
  lemma WhatAPutDoes(t: State, b: nat)
    requires InRange(t, b) && 0 <= t.refCount[b] < TWO32 && t.phase[b].NoPut?
    ensures var t' := PutDecrement(t, b);
      if !t.recording && t.using[b] && t.refCount[b] == 2
      then t' == t.(refCount := t.refCount[b := 0], using := t.using[b := false], phase := t.phase[b := AtZero])
      else if t.refCount[b] == 1
      then t' == t.(refCount := t.refCount[b := 0], phase := t.phase[b := AtZero])
      else t' == t.(refCount := t.refCount[b := if t.refCount[b] == 0 then TWO32 - 1 else t.refCount[b] - 1])
  {
  }

  // releaseRecordingFrame finds a count of zero: it leaves the buffer alone.
  lemma ReleaseAtZero(t: State, b: nat)
    requires Enabled(t, AppPut(b)) && t.refCount[b] == 0
    ensures Apply(t, AppPut(b)) == t.(releasing := t.releasing - {b})
  {
  }

  // ---- the queues ---------------------------------------------------------------------------------------

  // The three message queues and the window.
  datatype Lane = Messages | Frames | Encoding | Window

  function Queue(s: State, lane: Lane): seq<nat> {
    match lane
    case Messages => s.captureQ
    case Frames => s.previewQ
    case Encoding => s.encodeQ
    case Window => s.window
  }

  // What a step puts in: to the capture queue CameraHALPreviewStart posts 0, 1, 2 and so on, and a put its
  // buffer; to the others the capture thread and the preview thread give the frame they hold.
  function PutBy(s: State, step: Step, lane: Lane): seq<nat>
    requires Enabled(s, step)
  {
    match (lane, step)
    case (Messages, PostInitial) => [s.n - s.unposted]
    case (Messages, PutPost(b)) => [b]
    case (Frames, CapPost) => [s.cap.b]
    case (Encoding, CapPostEncode) => [s.cap.b]
    case (Window, PrevEnqueue) => [s.prev.b]
    case _ => []
  }

  predicate Takes(step: Step, lane: Lane) {
    match lane
    case Messages => step == CapTake
    case Frames => step == PrevTake
    case Encoding => step == EncTake
    case Window => step == PrevDequeue
  }

  function Put(s: State, steps: seq<Step>, lane: Lane): seq<nat>
    requires IsRun(s, steps)
    decreases |steps|
  {
    if steps == [] then []
    else PutBy(s, steps[0], lane) + Put(Apply(s, steps[0]), steps[1..], lane)
  }

  function Taken(steps: seq<Step>, lane: Lane): nat {
    if steps == [] then 0 else (if Takes(steps[0], lane) then 1 else 0) + Taken(steps[1..], lane)
  }

  // Each queue holds what was put in and not yet taken out, in the order it was put in: frames are
  // shown, given back by the window and encoded in the order they were captured.
  lemma {:induction false} QueuesAreFifo(s: State, steps: seq<Step>, lane: Lane)
    requires IsRun(s, steps)
    ensures Taken(steps, lane) <= |Queue(s, lane) + Put(s, steps, lane)|
    ensures Queue(Final(s, steps), lane) == (Queue(s, lane) + Put(s, steps, lane))[Taken(steps, lane)..]
    decreases |steps|
  {
    if steps == [] {
    } else {
      var next, rest := Apply(s, steps[0]), steps[1..];
      QueuesAreFifo(next, rest, lane);
      PutFirst(s, steps[0], lane, Put(next, rest, lane));
    }
  }

  lemma PutFirst(s: State, step: Step, lane: Lane, more: seq<nat>)
    requires Enabled(s, step)
    ensures Takes(step, lane) ==> Queue(s, lane) != []
    ensures Queue(Apply(s, step), lane) + more ==
      (Queue(s, lane) + (PutBy(s, step, lane) + more))[if Takes(step, lane) then 1 else 0..]
  {
    OneStepOfAQueue(s, step, lane);
    TakenOrPut(Queue(s, lane), Queue(Apply(s, step), lane), PutBy(s, step, lane), more, Takes(step, lane));
  }

  lemma TakenOrPut(q: seq<nat>, q': seq<nat>, put: seq<nat>, more: seq<nat>, takes: bool)
    requires takes ==> q != [] && put == []
    requires q' == if takes then q[1..] else q + put
    ensures q' + more == (q + (put + more))[if takes then 1 else 0..]
  {
    assert [] + more == more;
    Regroup(q, put, more);
  }

  lemma OneStepOfAQueue(s: State, step: Step, lane: Lane)
    requires Enabled(s, step)
    ensures Takes(step, lane) ==> Queue(s, lane) != [] && PutBy(s, step, lane) == []
    ensures Queue(Apply(s, step), lane) ==
      if Takes(step, lane) then Queue(s, lane)[1..] else Queue(s, lane) + PutBy(s, step, lane)
  {
    if Queue(Apply(s, step), lane) == Queue(s, lane) {
      assert Queue(s, lane) + [] == Queue(s, lane);
    }
  }

  // ---- the buffers keep circulating ---------------------------------------------------------------

  // What nobody has to do: start recording, start the preview again, give a frame back.
  predicate Optional(step: Step) {
    step.StartRecording? || step.ClearCount? || step.AppRelease?
  }

  ghost predicate Stuck(t: State) {
    forall step :: Enabled(t, step) ==> Optional(step)
  }

  // Started, and no buffer was lost while it was not yet.
  predicate Started(t: State) {
    t.running && t.unposted == 0 && t.lost == {}
  }

  predicate AllRest(t: State) {
    && (forall b: nat :: b < |t.phase| ==> t.phase[b].NoPut?) && t.releasing == {}
    && t.cap.CapIdle? && t.prev.PrevIdle? && t.enc.EncIdle?
    && t.captureQ == t.previewQ == t.encodeQ == []
  }

  // While more buffers exist than the window may keep, the application holds and the encode thread
  // dropped, some thread can go on by itself.
  lemma CirculationGoesOn(t: State) returns (step: Step)
    requires Reachable(t) && Started(t)
    requires t.n > 2 + t.cleared + |t.app| + |t.dropped|
    ensures Enabled(t, step) && !Optional(step)
  {
    ReachableKeepsInv(t);
    if AllRest(t) {
      EverythingOut(t, OwnersOf(t));
    }
    step := SomeoneGoesOn(t);
  }

  lemma SomeoneGoesOn(t: State) returns (step: Step)
    requires Reachable(t) && Inv(t) && !AllRest(t)
    ensures Enabled(t, step) && !Optional(step)
  {
    if b: nat :| b < |t.phase| && !t.phase[b].NoPut? {
      step := match t.phase[b] case AtZero => PutReturn(b) case Requeued => PutUncount(b) case _ => PutPost(b);
    } else if b :| b in t.releasing {
      assert b in OwnersOf(t).frames;
      step := AppPut(b);
    } else if !t.cap.CapIdle? || t.captureQ != [] {
      step := CaptureGoesOn(t);
    } else if !t.prev.PrevIdle? || t.previewQ != [] {
      step := PreviewGoesOn(t);
    } else {
      step := if t.enc.EncIdle? then EncTake else EncDrop;
    }
  }

  lemma CaptureGoesOn(t: State) returns (step: Step)
    requires Reachable(t) && Inv(t) && (forall b: nat :: b < |t.phase| ==> t.phase[b].NoPut?)
    requires !t.cap.CapIdle? || t.captureQ != []
    ensures Enabled(t, step) && !Optional(step)
  {
    match t.cap {
      case CapIdle => step := CapTake;
      case CapHasMessage =>
        DequeueFindsABuffer(t);
        var b :| b in t.driver && Enabled(t, CapDequeue(b));
        step := CapDequeue(b);
      case CapDequeued(_) => step := CapGet1;
      case CapReferenced(_) => step := CapPost;
      case CapPosted(_) => step := CapTestRecording;
      case CapWillEncode(_) =>
        SecondReferenceFindsTheFirst(t, OwnersOf(t));
        step := CapGet2;
      case CapReferencedTwice(_) => step := CapPostEncode;
    }
  }

  lemma PreviewGoesOn(t: State) returns (step: Step)
    requires Inv(t) && (forall b: nat :: b < |t.phase| ==> t.phase[b].NoPut?)
    requires !t.prev.PrevIdle? || t.previewQ != []
    ensures Enabled(t, step) && !Optional(step)
  {
    match t.prev {
      case PrevIdle => step := PrevTake;
      case PrevHas(_) => step := PrevEnqueue;
      case PrevQueued(_) => step := PrevCount;
      case PrevCounted => step := PrevTest;
      case PrevWantsBuffer => step := PrevDequeue;
      case PrevReturning(b) =>
        assert Returned(t) == [b] && Returned(t)[0] in OwnersOf(t).pipe;
        step := PrevPut;
      case PrevPutting(_) =>
        assert false;
    }
  }

  // No message is left, so no buffer is at the driver.
  lemma DriverIsEmpty(t: State, o: Owners)
    requires Accounts(t, o) && AllRest(t) && t.unposted == 0
    ensures t.driver == {}
  {
    assert Unannounced(t) == {};
  }

  lemma OutOfHand(t: State, o: Owners, b: nat)
    requires InvOver(t, o) && o == OwnersOf(t) && AllRest(t) && Started(t) && b < t.n
    ensures b in t.window || b in t.app || b in t.dropped
  {
    DriverIsEmpty(t, o);
    assert OnePlace(t, o, b);
    assert o.pipe == t.window && o.line == [];
  }

  // With every thread at rest the buffers are in the window, with the application or dropped.
  lemma EverythingOut(t: State, o: Owners)
    requires InvOver(t, o) && o == OwnersOf(t) && AllRest(t) && Started(t)
    ensures t.n <= 2 + t.cleared + |t.app| + |t.dropped|
  {
    OwnersFit(t);
    var out := Members(t.window) + t.app + t.dropped;
    forall b: nat | b < t.n
      ensures b in out
    {
      OutOfHand(t, o, b);
    }
    SetOfDistinct(t.window, Members(t.window));
    AllAreIn(out, t.n);
  }

  lemma AllAreIn(c: set<nat>, n: nat)
    requires forall b: nat :: b < n ==> b in c
    ensures n <= |c|
  {
    if n == 0 {
    } else {
      AllAreIn(c - {n - 1}, n - 1);
    }
  }

  // A buffer leaves circulation in exactly two ways: the encode thread keeps the frame from the
  // application, or its count reaches zero before mCaptureRunning is set.
  predicate Leaves(s: State, step: Step, b: nat) {
    (step == EncDrop && s.enc == EncHas(b)) || (step == PutReturn(b) && !s.running)
  }

  predicate LeavesDuring(s: State, steps: seq<Step>, b: nat)
    requires IsRun(s, steps)
    decreases |steps|
  {
    steps != [] && (Leaves(s, steps[0], b) || LeavesDuring(Apply(s, steps[0]), steps[1..], b))
  }

  lemma LeavesInOneStep(t: State, step: Step, b: nat)
    requires Enabled(t, step)
    ensures var t' := Apply(t, step);
      b in t'.lost || b in t'.dropped <==> b in t.lost || b in t.dropped || Leaves(t, step, b)
  {
    if !step.EncDrop? && !step.PutReturn? {
      OthersKeepThem(t, step);
    }
  }

  lemma OthersKeepThem(t: State, step: Step)
    requires Enabled(t, step) && !step.EncDrop? && !step.PutReturn?
    ensures Apply(t, step).lost == t.lost && Apply(t, step).dropped == t.dropped
  {
  }

  lemma OutOfCirculation(t: State, more: seq<Step>, b: nat)
    requires IsRun(t, more)
    ensures var t' := Final(t, more);
      b in t'.lost || b in t'.dropped <==> b in t.lost || b in t.dropped || LeavesDuring(t, more, b)
    decreases |more|
  {
    if more == [] {
    } else {
      LeavesInOneStep(t, more[0], b);
      OutOfCirculation(Apply(t, more[0]), more[1..], b);
    }
  }

  // And then it never comes back.
  lemma NeverComesBack(t: State, more: seq<Step>, b: nat)
    requires Inv(t) && IsRun(t, more) && (b in t.lost || b in t.dropped)
    ensures var t' := Final(t, more); b !in t'.driver && (b in t'.lost || b in t'.dropped)
    decreases |more|
  {
    if more == [] {
      var o := OwnersOf(t);
      assert b in t.dropped ==> b in o.frames;
      assert OnePlace(t, o, b);
    } else {
      StepKeepsInv(t, more[0]);
      LeavesInOneStep(t, more[0], b);
      NeverComesBack(Apply(t, more[0]), more[1..], b);
    }
  }

  // ---- the window has to be a FIFO ------------------------------------------------------------

  lemma RunExtends(s: State, steps: seq<Step>, step: Step)
    requires IsRun(s, steps) && Enabled(Final(s, steps), step)
    ensures IsRun(s, steps + [step]) && Final(s, steps + [step]) == Apply(Final(s, steps), step)
    decreases |steps|
  {
    var more := steps + [step];
    if steps != [] {
      RunExtends(Apply(s, steps[0]), steps[1..], step);
      assert more[0] == steps[0] && more[1..] == steps[1..] + [step];
    } else {
      assert more[1..] == [];
    }
  }

  lemma ReachableStep(t: State, step: Step)
    requires Reachable(t) && Enabled(t, step)
    ensures Reachable(Apply(t, step))
  {
    var s, steps :| Init(s) && IsRun(s, steps) && t == Final(s, steps);
    RunExtends(s, steps, step);
  }

  lemma Take(t: State, b: nat) returns (u: State)
    requires Reachable(t) && t.cap.CapIdle? && t.captureQ != [] && b in t.driver
    ensures Reachable(u)
    ensures u == t.(captureQ := t.captureQ[1..], driver := t.driver - {b}, queuedNum := t.queuedNum - 1,
                    cap := CapDequeued(b))
  {
    ReachableStep(t, CapTake);
    var v := Apply(t, CapTake);
    ReachableStep(v, CapDequeue(b));
    u := Apply(v, CapDequeue(b));
  }

  // The capture thread dequeues b and takes its first reference.
  lemma Dequeue(t: State, b: nat) returns (u: State)
    requires Reachable(t) && t.cap.CapIdle? && t.captureQ != [] && b in t.driver
    requires InRange(t, b) && t.refCount[b] == 0 && t.phase[b].NoPut?
    ensures Reachable(u)
    ensures u == t.(captureQ := t.captureQ[1..], driver := t.driver - {b}, queuedNum := t.queuedNum - 1,
                    refCount := t.refCount[b := 1], cap := CapReferenced(b))
  {
    var v := Take(t, b);
    ReachableStep(v, CapGet1);
    u := Apply(v, CapGet1);
  }

  // It posts b and tests mRecordRunning.
  lemma Post(t: State, b: nat) returns (u: State)
    requires Reachable(t) && t.cap == CapReferenced(b)
    ensures Reachable(u)
    ensures u == t.(previewQ := t.previewQ + [b], cap := if t.recording then CapWillEncode(b) else CapIdle)
  {
    ReachableStep(t, CapPost);
    u := Apply(t, CapPost);
    ReachableStep(u, CapTestRecording);
    u := Apply(u, CapTestRecording);
  }

  // The preview thread enqueues the only frame of its queue to the window.
  lemma Enqueue(t: State, b: nat) returns (u: State)
    requires Reachable(t) && t.prev.PrevIdle? && t.previewQ == [b]
    ensures Reachable(u)
    ensures u == t.(previewQ := [], window := t.window + [b], prev := PrevQueued(b))
  {
    ReachableStep(t, PrevTake);
    u := Apply(t, PrevTake);
    ReachableStep(u, PrevEnqueue);
    u := Apply(u, PrevEnqueue);
  }

  // It counts the frame and decides whether to ask one back.
  lemma Count(t: State, b: nat) returns (u: State)
    requires Reachable(t) && t.prev == PrevQueued(b) && 0 <= t.enqueued < 10
    ensures Reachable(u)
    ensures u == t.(enqueued := t.enqueued + 1, prev := if t.enqueued <= 1 then PrevIdle else PrevWantsBuffer)
  {
    ReachableStep(t, PrevCount);
    u := Apply(t, PrevCount);
    ReachableStep(u, PrevTest);
    u := Apply(u, PrevTest);
  }

  // Buffer b travels from the driver into the window.
  lemma Display(t: State, b: nat) returns (u: State)
    requires Reachable(t) && t.cap.CapIdle? && t.captureQ != [] && b in t.driver
    requires InRange(t, b) && t.refCount[b] == 0 && t.phase[b].NoPut?
    requires t.prev.PrevIdle? && t.previewQ == [] && 0 <= t.enqueued < 10
    ensures Reachable(u)
    ensures u == t.(captureQ := t.captureQ[1..], driver := t.driver - {b}, queuedNum := t.queuedNum - 1,
                    refCount := t.refCount[b := 1], window := t.window + [b], enqueued := t.enqueued + 1,
                    cap := if t.recording then CapWillEncode(b) else CapIdle,
                    prev := if t.enqueued <= 1 then PrevIdle else PrevWantsBuffer)
  {
    u := Dequeue(t, b);
    u := Post(u, b);
    u := Enqueue(u, b);
    u := Count(u, b);
  }

  function Below(n: nat): (r: set<nat>)
    ensures forall b: nat :: b in r <==> b < n
  {
    if n == 0 then {} else Below(n - 1) + {n - 1}
  }

  // CameraHALPreviewStart after k messages, and after all of them.
  function Posting(n: nat, k: nat): State
    requires k <= n
  {
    State(n, false, false, n - k, seq(n, _ => 0), seq(n, _ => false), seq(n, _ => NoPut), 0, 0, n,
          Below(n), seq(k, i => i), [], [], [], {}, {}, {}, {}, CapIdle, PrevIdle, EncIdle)
  }

  function Running(n: nat): State {
    Posting(n, n).(running := true)
  }

  lemma {:induction false} PostingIsReachable(n: nat, k: nat)
    requires k <= n < TWO32
    ensures Reachable(Posting(n, k))
  {
    if k == 0 {
      assert Final(Posting(n, 0), []) == Posting(n, 0);
    } else {
      PostingIsReachable(n, k - 1);
      PostOne(n, k - 1);
    }
  }

  lemma PostOne(n: nat, k: nat)
    requires k < n && Reachable(Posting(n, k))
    ensures Reachable(Posting(n, k + 1))
  {
    ReachableStep(Posting(n, k), PostInitial);
    assert seq(k + 1, i => i) == seq(k, i => i) + [k];
  }

  lemma RunningIsReachable(n: nat)
    requires n < TWO32
    ensures Reachable(Running(n))
  {
    PostingIsReachable(n, n);
    ReachableStep(Posting(n, n), SetRunning);
  }

  lemma ThreeBuffersRunning() returns (t: State)
    ensures Reachable(t)
    ensures t == State(3, true, false, 0, [0, 0, 0], [false, false, false], [NoPut, NoPut, NoPut], 0, 0, 3,
                       {0, 1, 2}, [0, 1, 2], [], [], [], {}, {}, {}, {}, CapIdle, PrevIdle, EncIdle)
  {
    t := Running(3);
    RunningIsReachable(3);
    assert Below(3) == {0, 1, 2};
  }

  lemma FourBuffersRunning() returns (t: State)
    ensures Reachable(t)
    ensures t == State(4, true, false, 0, [0, 0, 0, 0], [false, false, false, false], [NoPut, NoPut, NoPut, NoPut],
                       0, 0, 4, {0, 1, 2, 3}, [0, 1, 2, 3], [], [], [], {}, {}, {}, {}, CapIdle, PrevIdle, EncIdle)
  {
    t := Running(4);
    RunningIsReachable(4);
    assert Below(4) == {0, 1, 2, 3};
  }

  // A frame on the screen, and the preview started again: the counter says none.
  lemma PreviewStartedTwice() returns (t: State)
    ensures Reachable(t) && AtRest(t) && t.window == [0] && OwnersOf(t).frames == {}
    ensures t.enqueued == 0 && t.cleared == 1
  {
    t := ThreeBuffersRunning();
    t := Display(t, 0);
    ReachableStep(t, ClearCount);
    t := Apply(t, ClearCount);
  }

  // Two more frames go to the window before the preview thread asks for one back.  With four buffers
  // that is the last of them: no thread ever goes on, though nothing was lost or lent.
  lemma StartedTwiceAndStuck() returns (t: State)
    ensures Reachable(t) && Started(t) && t.n == 4
    ensures |t.window| == 4 && t.app == t.dropped == {} && t.cleared == 2
    ensures forall more: seq<Step> :: IsRun(t, more) ==> Stuck(Final(t, more))
  {
    t := TwoShownAndCleared();
    t := Display(t, 2);
    t := Display(t, 3);
    forall more: seq<Step> | IsRun(t, more)
      ensures Stuck(Final(t, more))
    {
      StuckForGood(t, more);
    }
  }

  lemma TwoShownAndCleared() returns (t: State)
    ensures Reachable(t)
    ensures t == State(4, true, false, 0, [1, 1, 0, 0], [false, false, false, false], [NoPut, NoPut, NoPut, NoPut],
                       0, 2, 2, {2, 3}, [2, 3], [], [], [0, 1], {}, {}, {}, {}, CapIdle, PrevIdle, EncIdle)
  {
    t := FourBuffersRunning();
    t := Display(t, 0);
    t := Display(t, 1);
    ReachableStep(t, ClearCount);
    t := Apply(t, ClearCount);
  }

  // Every buffer is in the window or dropped, and every thread at rest.
  predicate NothingToDo(t: State) {
    AllRest(t) && t.running && t.unposted == 0 && t.driver == {} && t.app == {}
  }

  lemma NothingToDoIsStuck(t: State, step: Step)
    requires NothingToDo(t) && Enabled(t, step)
    ensures Optional(step) && NothingToDo(Apply(t, step))
  {
  }

  lemma {:induction false} StuckForGood(t: State, more: seq<Step>)
    requires NothingToDo(t) && IsRun(t, more)
    ensures Stuck(Final(t, more))
    decreases |more|
  {
    if more == [] {
      forall step | Enabled(t, step)
        ensures Optional(step)
      {
        NothingToDoIsStuck(t, step);
      }
    } else {
      NothingToDoIsStuck(t, more[0]);
      StuckForGood(Apply(t, more[0]), more[1..]);
    }
  }

  // The safety of the second reference rests on the window's order: a window that gave back its
  // newest frame would return a buffer to the driver that the capture thread is about to reference.
  lemma NewestFirstWindowIsUnsafe() returns (t: State)
    ensures Reachable(t) && Enabled(t, PrevDequeue) && t.cap.CapWillEncode?
    ensures var last := |t.window| - 1;
      var given := t.(window := t.window[..last], prev := PrevReturning(t.window[last]));
      && Enabled(given, PrevPut)
      && Enabled(Apply(given, PrevPut), PutReturn(t.cap.b))
      && t.cap.b in Apply(Apply(given, PrevPut), PutReturn(t.cap.b)).driver
  {
    t := ThreeBuffersRunning();
    t := Display(t, 0);
    t := Display(t, 1);
    ReachableStep(t, StartRecording);
    t := Apply(t, StartRecording);
    t := Display(t, 2);
  }
}
