/** The buffer circulation of CameraHal (mx5x/libcamera/CameraHal.cpp).

    The capture thread, the preview thread, the encode thread and the application share a
    handful of DMA buffers.  Each of the four is cut here into its atomic steps, and a run is
    any interleaving of those steps.  The native window gives buffers back in the order it got
    them; the driver may hand out any buffer it holds. */
module CameraProtocol {
  import opened Arithmetic

  datatype CapturePc =
    | CapIdle                        // before waitMessage
    | CapHasMessage                  // a NORMAL message is being handled, before DevDequeue
    | CapDequeued(b: nat)            // DevDequeue gave b
    | CapReferenced(b: nat)          // first getBufferCount done, not yet posted to the preview queue
    | CapPosted(b: nat)              // posted, about to test mRecordRunning
    | CapWillEncode(b: nat)          // mRecordRunning seen set, before the second getBufferCount
    | CapReferencedTwice(b: nat)     // second getBufferCount done, not yet posted to the encode queue

  datatype PreviewPc =
    | PrevIdle
    | PrevHas(b: nat)                // message taken, before enqueue_buffer
    | PrevQueued(b: nat)             // enqueue_buffer done, before mEnqueuedBufs++
    | PrevCounted                    // about to test mEnqueuedBufs <= 2
    | PrevWantsBuffer                // before dequeue_buffer
    | PrevReturning(b: nat)          // the window gave b back, before putBufferCount's lock
    | PrevPutting(b: nat)            // inside putBufferCount(b) with the count at zero

  datatype EncodePc = EncIdle | EncHas(b: nat)

  // How far the thread that holds a buffer's mBufferLock with the count at zero has come.
  datatype PutPhase = NoPut | AtZero | Requeued | Uncounted

  datatype State = State(
    n: nat,                          // mCaptureBufNum
    running: bool,                   // mCaptureRunning
    recording: bool,                 // mRecordRunning
    unposted: nat,                   // NORMAL messages CameraHALPreviewStart has still to post
    refCount: seq<int>,
    using: seq<bool>,                // mVideoBufferUsing
    phase: seq<PutPhase>,
    enqueued: int,                   // mEnqueuedBufs
    cleared: int,                    // what startPreview has taken off mEnqueuedBufs
    queuedNum: int,                  // mQueuedBufNum
    driver: set<nat>,                // buffers in the driver queue
    captureQ: seq<nat>,
    previewQ: seq<nat>,
    encodeQ: seq<nat>,
    window: seq<nat>,                // buffers in the native window, oldest first
    app: set<nat>,                   // frames lent to the application
    releasing: set<nat>,             // frames inside releaseRecordingFrame, before the lock
    dropped: set<nat>,               // frames the encode thread did not lend (no VIDEO_FRAME message)
    lost: set<nat>,                  // count reached zero while mCaptureRunning was not set
    cap: CapturePc,
    prev: PreviewPc,
    enc: EncodePc)

  datatype Step =
    | PostInitial | SetRunning | StartRecording | ClearCount
    | CapTake | CapDequeue(b: nat) | CapGet1 | CapPost | CapTestRecording | CapGet2 | CapPostEncode
    | PrevTake | PrevEnqueue | PrevCount | PrevTest | PrevDequeue | PrevPut
    | EncTake | EncLend | EncDrop
    | AppRelease(b: nat) | AppPut(b: nat)
    | PutReturn(b: nat) | PutUncount(b: nat) | PutPost(b: nat)

  function Wrap32(x: int): (r: int) {
    x % TWO32
  }

  // ---- the pieces of code between two scheduling points --------------------------------------

  function GetCount(s: State, b: nat): State
    requires b < |s.refCount|
  {
    s.(refCount := s.refCount[b := Wrap32(s.refCount[b] + 1)])
  }

  // putBufferCount up to and including the test for zero; a non-zero count ends the call.
  function PutDecrement(s: State, b: nat): State
    requires b < |s.refCount| && b < |s.using| && b < |s.phase|
  {
    var reclaim := !s.recording && s.using[b] && s.refCount[b] == 2;
    var count := if reclaim then s.refCount[b] - 1 else s.refCount[b];
    var count' := Wrap32(count - 1);
    s.(using := if reclaim then s.using[b := false] else s.using,
       refCount := s.refCount[b := count'],
       phase := if count' == 0 then s.phase[b := AtZero] else s.phase)
  }

  // The preview thread leaves putBufferCount(b) if it is the one inside it.
  function LeavePut(s: State, b: nat): PreviewPc {
    if s.prev == PrevPutting(b) then PrevIdle else s.prev
  }

  predicate InRange(s: State, b: nat) {
    b < s.n && b < |s.refCount| && b < |s.using| && b < |s.phase|
  }

  predicate Enabled(s: State, step: Step) {
    match step
    case PostInitial => 0 < s.unposted <= s.n
    case SetRunning => !s.running
    case StartRecording => !s.recording
    case ClearCount => s.running
    case CapTake => s.cap.CapIdle? && s.captureQ != []
    case CapDequeue(b) => s.cap.CapHasMessage? && b in s.driver
    case CapGet1 => s.cap.CapDequeued? && InRange(s, s.cap.b) && s.phase[s.cap.b].NoPut?
    case CapPost => s.cap.CapReferenced?
    case CapTestRecording => s.cap.CapPosted?
    case CapGet2 => s.cap.CapWillEncode? && InRange(s, s.cap.b) && s.phase[s.cap.b].NoPut?
    case CapPostEncode => s.cap.CapReferencedTwice?
    case PrevTake => s.prev.PrevIdle? && s.previewQ != []
    case PrevEnqueue => s.prev.PrevHas?
    case PrevCount => s.prev.PrevQueued?
    case PrevTest => s.prev.PrevCounted?
    case PrevDequeue => s.prev.PrevWantsBuffer? && s.window != []
    case PrevPut => s.prev.PrevReturning? && InRange(s, s.prev.b) && s.phase[s.prev.b].NoPut?
    case EncTake => s.enc.EncIdle? && s.encodeQ != []
    case EncLend => s.enc.EncHas? && s.recording && InRange(s, s.enc.b)
    case EncDrop => s.enc.EncHas?
    case AppRelease(b) => b in s.app && InRange(s, b)
    case AppPut(b) => b in s.releasing && InRange(s, b) && s.phase[b].NoPut?
    case PutReturn(b) => InRange(s, b) && s.phase[b].AtZero?
    case PutUncount(b) => InRange(s, b) && s.phase[b].Requeued?
    case PutPost(b) => InRange(s, b) && s.phase[b].Uncounted?
  }

  function Apply(s: State, step: Step): State
    requires Enabled(s, step)
  {
    match step
    case PostInitial => s.(captureQ := s.captureQ + [s.n - s.unposted], unposted := s.unposted - 1)
    case SetRunning => s.(running := true)
    case StartRecording => s.(recording := true, using := seq(|s.using|, _ => false))
    // startPreview once more: it clears mEnqueuedBufs before it finds the preview running.
    case ClearCount => s.(enqueued := 0, cleared := Wrap32(s.cleared + s.enqueued))
    case CapTake => s.(captureQ := s.captureQ[1..], cap := CapHasMessage)
    case CapDequeue(b) => s.(driver := s.driver - {b}, queuedNum := s.queuedNum - 1, cap := CapDequeued(b))
    case CapGet1 => GetCount(s, s.cap.b).(cap := CapReferenced(s.cap.b))
    case CapPost => s.(previewQ := s.previewQ + [s.cap.b], cap := CapPosted(s.cap.b))
    case CapTestRecording => s.(cap := if s.recording then CapWillEncode(s.cap.b) else CapIdle)
    case CapGet2 => GetCount(s, s.cap.b).(cap := CapReferencedTwice(s.cap.b))
    case CapPostEncode => s.(encodeQ := s.encodeQ + [s.cap.b], cap := CapIdle)
    case PrevTake => s.(previewQ := s.previewQ[1..], prev := PrevHas(s.previewQ[0]))
    case PrevEnqueue => s.(window := s.window + [s.prev.b], prev := PrevQueued(s.prev.b))
    case PrevCount => s.(enqueued := Wrap32(s.enqueued + 1), prev := PrevCounted)
    case PrevTest => s.(prev := if s.enqueued <= 2 then PrevIdle else PrevWantsBuffer)
    case PrevDequeue => s.(window := s.window[1..], prev := PrevReturning(s.window[0]))
    case PrevPut =>
      var b := s.prev.b;
      var s' := PutDecrement(s, b);
      s'.(prev := if s'.phase[b].AtZero? then PrevPutting(b) else PrevIdle)
    case EncTake => s.(encodeQ := s.encodeQ[1..], enc := EncHas(s.encodeQ[0]))
    case EncLend => s.(using := s.using[s.enc.b := true], app := s.app + {s.enc.b}, enc := EncIdle)
    case EncDrop => s.(dropped := s.dropped + {s.enc.b}, enc := EncIdle)
    case AppRelease(b) => s.(using := s.using[b := false], app := s.app - {b}, releasing := s.releasing + {b})
    case AppPut(b) =>
      var s' := s.(releasing := s.releasing - {b});
      if s.refCount[b] == 0 then s' else PutDecrement(s', b)
    case PutReturn(b) =>
      if s.running then
        s.(driver := s.driver + {b}, queuedNum := s.queuedNum + 1,
           refCount := s.refCount[b := 0], phase := s.phase[b := Requeued])
      else
        s.(lost := s.lost + {b}, phase := s.phase[b := NoPut], prev := LeavePut(s, b))
    case PutUncount(b) => s.(enqueued := Wrap32(s.enqueued - 1), phase := s.phase[b := Uncounted])
    case PutPost(b) =>
      s.(captureQ := s.captureQ + [b], phase := s.phase[b := NoPut], prev := LeavePut(s, b))
  }

  // CameraHALPreviewStart after DevStart: the driver holds every buffer, nothing is referenced.
  ghost predicate Init(s: State) {
    && s.n < TWO32
    && s.unposted == s.n && !s.running && !s.recording
    && |s.refCount| == |s.using| == |s.phase| == s.n
    && (forall b: nat :: b < s.n ==> s.refCount[b] == 0) && (forall b: nat :: b < s.n ==> s.phase[b].NoPut?)
    && s.enqueued == s.cleared == 0 && s.queuedNum == s.n
    && (forall b: nat :: b in s.driver <==> b < s.n)
    && s.captureQ == s.previewQ == s.encodeQ == s.window == []
    && s.app == s.releasing == s.dropped == s.lost == {}
    && s.cap.CapIdle? && s.prev.PrevIdle? && s.enc.EncIdle?
  }

  predicate IsRun(s: State, steps: seq<Step>)
    decreases |steps|
  {
    steps == [] || (Enabled(s, steps[0]) && IsRun(Apply(s, steps[0]), steps[1..]))
  }

  function Final(s: State, steps: seq<Step>): State
    requires IsRun(s, steps)
    decreases |steps|
  {
    if steps == [] then s else Final(Apply(s, steps[0]), steps[1..])
  }
}
