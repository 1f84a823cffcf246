/** What every interleaving of the camera threads keeps, and the proof that each step keeps it.

    A buffer is referenced by the preview side (its queue, the window, the frame in hand) and by
    the encode side (its queue, the frame in hand, the application).  The invariant is stated over
    those two sides, the Owners, so that the proof of a step never looks inside them. */
module CameraInvariant {
  import opened Arithmetic
  import opened CameraProtocol
  import opened Sequences

  // ---- who owns a reference ---------------------------------------------------------------

  function Returned(s: State): seq<nat> {
    match s.prev case PrevReturning(b) => [b] case _ => []
  }

  function Taken(s: State): seq<nat> {
    match s.prev case PrevHas(b) => [b] case _ => []
  }

  function Unsent(s: State): seq<nat> {
    match s.cap case CapReferenced(b) => [b] case _ => []
  }

  function Encoding(s: State): seq<nat> {
    match s.enc case EncHas(b) => [b] case _ => []
  }

  function UnsentToEncoder(s: State): seq<nat> {
    match s.cap case CapReferencedTwice(b) => [b] case _ => []
  }

  // The preview side, oldest first: given back, in the window, taken, queued, about to be queued.
  function Pipe(s: State): seq<nat> {
    Returned(s) + (s.window + (Taken(s) + (s.previewQ + Unsent(s))))
  }

  // The encode queue with the frame being handled and the one about to be posted.
  function EncodeLine(s: State): seq<nat> {
    Encoding(s) + (s.encodeQ + UnsentToEncoder(s))
  }

  // The two sides that own references.  frames is everything on the encode side: in the line,
  // with the application, being released, or never lent.
  datatype Owners = Owners(pipe: seq<nat>, line: seq<nat>, frames: set<nat>)

  function Members(q: seq<nat>): set<nat> {
    set b | b in q
  }

  ghost function OwnersOf(s: State): Owners {
    Owners(Pipe(s), EncodeLine(s), Members(EncodeLine(s)) + s.app + s.releasing + s.dropped)
  }

  function Bit(p: bool): (r: nat) {
    if p then 1 else 0
  }

  // Buffers that mEnqueuedBufs accounts for.
  ghost predicate IsCounted(s: State, o: Owners, b: nat)
    requires b < |s.phase|
  {
    || (b in s.window && s.prev != PrevQueued(b))
    || s.prev == PrevReturning(b)
    || (b in o.frames && b !in o.pipe)
    || s.phase[b].AtZero? || s.phase[b].Requeued?
    || b in s.lost
  }

  ghost function Counted(s: State, o: Owners): set<nat> {
    set b: nat | b < |s.phase| && IsCounted(s, o, b)
  }

  // Buffers whose put has reached the driver but not yet the capture queue.
  ghost function Unannounced(s: State): set<nat> {
    set b: nat | b < |s.phase| && (s.phase[b].Requeued? || s.phase[b].Uncounted?)
  }

  // ---- the invariant ----------------------------------------------------------------------

  ghost predicate Shape(s: State, o: Owners) {
    && s.n < TWO32 && s.unposted <= s.n
    && |s.refCount| == |s.using| == |s.phase| == s.n
    && (forall b: nat :: b in s.driver || b in s.lost || b in o.pipe || b in o.frames ==> b < s.n)
    && (s.cap.CapDequeued? ==> s.cap.b < s.n)
    && (s.prev.PrevPutting? ==> s.prev.b < s.n && !s.phase[s.prev.b].NoPut?)
  }

  // Where the pieces sit in the two lines; a consequence of how OwnersOf builds them.
  ghost predicate Fits(s: State, o: Owners) {
    && Distinct(s.window)
    && (forall b: nat :: b in s.window ==> b in o.pipe)
    && (s.prev.PrevReturning? ==> |o.pipe| > |s.window| && o.pipe[0] == s.prev.b && s.prev.b !in s.window)
    && (s.prev.PrevHas? ==> s.prev.b in o.pipe && s.prev.b !in s.window)
    && (s.cap.CapReferenced? ==> s.cap.b !in s.window)
    && (s.enc.EncHas? ==> o.line != [] && o.line[0] == s.enc.b)
  }

  // The two lines hold no buffer twice, and the frame being posted is the newest of the pipe.
  ghost predicate Ordered(s: State, o: Owners) {
    && Distinct(o.pipe) && Distinct(o.line)
    && (s.prev.PrevQueued? ==> s.window != [] && s.window[|s.window| - 1] == s.prev.b)
    && (s.cap.CapReferenced? || s.cap.CapPosted? || s.cap.CapWillEncode? || s.cap.CapReferencedTwice? ==>
          o.pipe != [] && o.pipe[|o.pipe| - 1] == s.cap.b)
  }

  ghost predicate Frames(s: State, o: Owners) {
    && s.app !! s.releasing && s.app !! s.dropped && s.releasing !! s.dropped
    && (forall b: nat :: b in o.line ==> b !in s.app && b !in s.releasing && b !in s.dropped)
    && (forall b: nat :: b in o.frames <==> b in o.line || b in s.app || b in s.releasing || b in s.dropped)
    && (s.cap.CapReferenced? || s.cap.CapPosted? || s.cap.CapWillEncode? ==> s.cap.b !in o.frames)
    && (s.cap.CapWillEncode? || s.cap.CapReferencedTwice? ==> s.recording)
    && (!s.recording ==> o.frames == {})
  }

  // Every buffer is in exactly one place, and its count is the number of sides that own it.
  ghost predicate OnePlace(s: State, o: Owners, b: nat)
    requires b < |s.refCount| && b < |s.phase|
  {
    && s.refCount[b] == Bit(b in o.pipe) + Bit(b in o.frames)
    && Bit(b in s.driver) + Bit(s.cap == CapDequeued(b)) + Bit(s.phase[b].AtZero?) + Bit(b in s.lost)
       + Bit(b in o.pipe || b in o.frames) == 1
    && (s.phase[b].Requeued? || s.phase[b].Uncounted? ==> b in s.driver || s.cap == CapDequeued(b))
  }

  function LeastDepth(prev: PreviewPc): nat {
    if prev.PrevQueued? || prev.PrevCounted? || prev.PrevWantsBuffer? then 3 else 2
  }

  // What mEnqueuedBufs shows when counted buffers are counted and cleared of them were taken off the
  // counter; it wraps around below zero.
  function Shown(counted: int, cleared: int): int {
    if counted >= cleared then counted - cleared else counted - cleared + TWO32
  }

  // Once the window has given a buffer back it keeps at least two, and so it does once the counter has
  // wrapped around.  What was taken off the counter is room for that many more.
  ghost predicate WindowDepth(s: State, o: Owners)
    requires |s.phase| == s.n
  {
    && (forall b: nat :: b < s.n && IsCounted(s, o, b) && b !in s.window ==> |s.window| >= LeastDepth(s.prev))
    && (s.prev.PrevWantsBuffer? ==> |s.window| >= 3)
    && |s.window| <= LeastDepth(s.prev) + s.cleared
    && (|Counted(s, o)| < s.cleared ==> |s.window| >= LeastDepth(s.prev))
  }

  ghost predicate Accounts(s: State, o: Owners) {
    && 0 <= s.cleared <= s.n && s.enqueued == Shown(|Counted(s, o)|, s.cleared)
    && s.queuedNum == |s.driver|
    && |s.captureQ| + Bit(s.cap.CapHasMessage?) + |Unannounced(s)| + s.unposted == |s.driver|
  }

  ghost predicate InvOver(s: State, o: Owners) {
    && Shape(s, o) && Ordered(s, o) && Frames(s, o)
    && (forall b: nat :: b < s.n ==> OnePlace(s, o, b))
    && WindowDepth(s, o) && Accounts(s, o)
  }

  ghost predicate Inv(s: State) {
    InvOver(s, OwnersOf(s))
  }

  // ---- counting lemmas ------------------------------------------------------------------------

  lemma CountBound(c: set<nat>, n: nat)
    requires forall x :: x in c ==> x < n
    ensures |c| <= n
  {
    if n == 0 {
      assert c == {};
    } else {
      CountBound(c - {n - 1}, n - 1);
    }
  }

  lemma SetOfDistinct(q: seq<nat>, c: set<nat>)
    requires Distinct(q) && forall x :: x in c <==> x in q
    ensures |c| == |q|
  {
    if q == [] {
      assert c == {};
    } else {
      var x, q' := q[|q| - 1], q[..|q| - 1];
      assert q == q' + [x] && x !in q';
      SetOfDistinct(q', c - {x});
    }
  }

  lemma NewestNotCounted(s: State, o: Owners)
    requires InvOver(s, o) && Fits(s, o) && s.prev.PrevQueued?
    ensures s.prev.b < s.n && s.prev.b in s.window && !IsCounted(s, o, s.prev.b)
  {
    assert s.prev.b in s.window;
    assert OnePlace(s, o, s.prev.b);
  }

  // Between the counting of a frame and the test every frame of the window is counted, and anything
  // else that is counted was given back by the window.
  lemma CountedCoversWindow(s: State, o: Owners)
    requires InvOver(s, o) && Fits(s, o) && s.prev.PrevCounted?
    ensures |s.window| <= |Counted(s, o)|
    ensures |Counted(s, o)| > |s.window| ==> |s.window| >= 3
  {
    var c := Counted(s, o);
    var w := Members(s.window);
    assert forall x: nat :: x in s.window ==> x < s.n && IsCounted(s, o, x);
    SetOfDistinct(s.window, w);
    assert c == w + (c - w) && |c| == |w| + |c - w|;
    if c - w != {} {
      var b :| b in c - w;
      assert IsCounted(s, o, b) && b !in s.window;
    }
  }

  // At any time all but the newest are.
  lemma CountedAlmostCovers(s: State, o: Owners)
    requires InvOver(s, o) && Fits(s, o)
    ensures |s.window| <= |Counted(s, o)| + 1
  {
    var c := Counted(s, o);
    var newest := if s.prev.PrevQueued? then {s.prev.b} else {};
    var w := Members(s.window) - newest;
    assert forall x: nat :: x in w ==> x < s.n && IsCounted(s, o, x);
    SetOfDistinct(s.window, Members(s.window));
    SubsetSize(w, c);
    SubsetSize(Members(s.window), w + newest);
  }

  lemma SubsetSize(a: set<nat>, b: set<nat>)
    requires a <= b
    ensures |a| <= |b|
  {
    assert b == a + (b - a);
  }

  lemma CountedFit(s: State, o: Owners)
    requires |s.phase| == s.n
    ensures |Counted(s, o)| <= s.n
  {
    CountBound(Counted(s, o), s.n);
  }

  // The counter goes up and down with what is counted, through zero.
  lemma ShownMoves(counted: nat, cleared: nat)
    requires counted < TWO32 && cleared < TWO32
    ensures counted + 1 < TWO32 ==> Wrap32(Shown(counted, cleared) + 1) == Shown(counted + 1, cleared)
    ensures counted > 0 ==> Wrap32(Shown(counted, cleared) - 1) == Shown(counted - 1, cleared)
    ensures Wrap32(cleared + Shown(counted, cleared)) == counted
  {
  }

  // A step that touches no count, no lock and not the driver, and counts no frame anew.
  ghost predicate Quiet(s: State, s': State) {
    && s'.n == s.n && s'.refCount == s.refCount && s'.phase == s.phase
    && s'.driver == s.driver && s'.lost == s.lost
    && s'.enqueued == s.enqueued && s'.cleared == s.cleared && s'.queuedNum == s.queuedNum
    && (s'.cap == s.cap || (!s.cap.CapDequeued? && !s'.cap.CapDequeued?))
    && (forall b: nat :: (b in s'.window && s'.prev != PrevQueued(b)) || s'.prev == PrevReturning(b)
                         <==> (b in s.window && s.prev != PrevQueued(b)) || s.prev == PrevReturning(b))
  }

  lemma QuietKeeps(s: State, s': State, o: Owners, o': Owners)
    requires InvOver(s, o) && Quiet(s, s') && o'.pipe == o.pipe && o'.frames == o.frames
    ensures forall b: nat :: b < s.n ==> OnePlace(s', o', b)
    ensures forall b: nat :: b < s.n ==> IsCounted(s', o', b) == IsCounted(s, o, b)
    ensures Counted(s', o') == Counted(s, o) && Unannounced(s') == Unannounced(s)
  {
    forall b: nat | b < s.n ensures OnePlace(s', o', b) {
      assert OnePlace(s, o, b);
    }
  }

  lemma ControlCore(s: State, o: Owners, step: Step)
    requires InvOver(s, o) && Fits(s, o) && Enabled(s, step)
    requires step.PostInitial? || step.SetRunning? || step.StartRecording?
    ensures InvOver(Apply(s, step), o)
  {
    QuietKeeps(s, Apply(s, step), o, o);
  }

  // However many buffers are counted, clearing the counter takes them all off.
  lemma ClearCountCore(s: State, o: Owners)
    requires InvOver(s, o) && Fits(s, o) && Enabled(s, ClearCount)
    ensures InvOver(Apply(s, ClearCount), o) && Apply(s, ClearCount).cleared == |Counted(s, o)|
  {
    var s' := Apply(s, ClearCount);
    CountedFit(s, o);
    CountedAlmostCovers(s, o);
    ShownMoves(|Counted(s, o)|, s.cleared);
    SamePlaces(s, s', o);
  }

  // A step that moves nothing but the counter.
  lemma SamePlaces(s: State, s': State, o: Owners)
    requires InvOver(s, o) && s' == s.(enqueued := s'.enqueued, cleared := s'.cleared)
    ensures Shape(s', o) && Ordered(s', o) && Frames(s', o) && forall b: nat :: b < s.n ==> OnePlace(s', o, b)
    ensures Counted(s', o) == Counted(s, o) && Unannounced(s') == Unannounced(s)
    ensures forall b: nat :: b < s.n ==> IsCounted(s', o, b) == IsCounted(s, o, b)
  {
    forall b: nat | b < s.n ensures OnePlace(s', o, b) {
      assert OnePlace(s, o, b);
    }
  }

  lemma CaptureCore(s: State, o: Owners, step: Step)
    requires InvOver(s, o) && Fits(s, o) && Enabled(s, step)
    requires step.CapTake? || step.CapPost? || step.CapTestRecording? || step.CapPostEncode?
    ensures InvOver(Apply(s, step), o)
  {
    QuietKeeps(s, Apply(s, step), o, o);
  }

  lemma PrevTakeCore(s: State, o: Owners)
    requires InvOver(s, o) && Fits(s, o) && Enabled(s, PrevTake)
    ensures InvOver(Apply(s, PrevTake), o)
  {
    QuietKeeps(s, Apply(s, PrevTake), o, o);
  }

  lemma PrevEnqueueCore(s: State, o: Owners)
    requires InvOver(s, o) && Fits(s, o) && Enabled(s, PrevEnqueue)
    ensures InvOver(Apply(s, PrevEnqueue), o)
  {
    QuietKeeps(s, Apply(s, PrevEnqueue), o, o);
  }

  lemma PrevTestCore(s: State, o: Owners)
    requires InvOver(s, o) && Fits(s, o) && Enabled(s, PrevTest)
    ensures InvOver(Apply(s, PrevTest), o)
  {
    CountedCoversWindow(s, o);
    QuietKeeps(s, Apply(s, PrevTest), o, o);
  }

  lemma PrevDequeueCore(s: State, o: Owners)
    requires InvOver(s, o) && Fits(s, o) && Enabled(s, PrevDequeue)
    ensures InvOver(Apply(s, PrevDequeue), o)
  {
    QuietKeeps(s, Apply(s, PrevDequeue), o, o);
  }

  lemma EncTakeCore(s: State, o: Owners)
    requires InvOver(s, o) && Fits(s, o) && Enabled(s, EncTake)
    ensures InvOver(Apply(s, EncTake), o)
  {
    QuietKeeps(s, Apply(s, EncTake), o, o);
  }

  lemma EncDoneCore(s: State, o: Owners, step: Step)
    requires InvOver(s, o) && Fits(s, o) && Enabled(s, step)
    requires step.EncLend? || step.EncDrop?
    ensures InvOver(Apply(s, step), o.(line := o.line[1..]))
  {
    QuietKeeps(s, Apply(s, step), o, o.(line := o.line[1..]));
  }

  lemma AppReleaseCore(s: State, o: Owners, b: nat)
    requires InvOver(s, o) && Fits(s, o) && Enabled(s, AppRelease(b))
    ensures InvOver(Apply(s, AppRelease(b)), o)
  {
    QuietKeeps(s, Apply(s, AppRelease(b)), o, o);
  }

  lemma CapDequeueCore(s: State, o: Owners, b: nat)
    requires InvOver(s, o) && Fits(s, o) && Enabled(s, CapDequeue(b))
    ensures InvOver(Apply(s, CapDequeue(b)), o)
  {
    var s', o' := Apply(s, CapDequeue(b)), o;
    assert OnePlace(s, o, b);
    forall x: nat | x < s.n
      ensures OnePlace(s', o', x) && IsCounted(s', o', x) == (IsCounted(s, o, x))
    {
      assert OnePlace(s, o, x);
    }
    assert Counted(s', o') == Counted(s, o);
    assert Unannounced(s') == Unannounced(s);
  }

  lemma CapGet1Core(s: State, o: Owners)
    requires InvOver(s, o) && Fits(s, o) && Enabled(s, CapGet1)
    ensures InvOver(Apply(s, CapGet1), o.(pipe := o.pipe + [s.cap.b]))
  {
    var s', o' := Apply(s, CapGet1), o.(pipe := o.pipe + [s.cap.b]);
    assert OnePlace(s, o, s.cap.b);
    forall x: nat | x < s.n
      ensures OnePlace(s', o', x) && IsCounted(s', o', x) == (IsCounted(s, o, x))
    {
      assert OnePlace(s, o, x);
    }
    assert Counted(s', o') == Counted(s, o);
    assert Unannounced(s') == Unannounced(s);
  }

  lemma CapGet2Core(s: State, o: Owners)
    requires InvOver(s, o) && Fits(s, o) && Enabled(s, CapGet2)
    ensures InvOver(Apply(s, CapGet2), o.(line := o.line + [s.cap.b], frames := o.frames + {s.cap.b}))
  {
    var s', o' := Apply(s, CapGet2), o.(line := o.line + [s.cap.b], frames := o.frames + {s.cap.b});
    assert OnePlace(s, o, s.cap.b);
    forall x: nat | x < s.n
      ensures OnePlace(s', o', x) && IsCounted(s', o', x) == (IsCounted(s, o, x))
    {
      assert OnePlace(s, o, x);
    }
    assert Counted(s', o') == Counted(s, o);
    assert Unannounced(s') == Unannounced(s);
  }

  lemma PrevCountCounts(s: State, o: Owners)
    requires InvOver(s, o) && Fits(s, o) && s.prev.PrevQueued?
    ensures s.prev.b < s.n && s.prev.b in s.window
    ensures Counted(Apply(s, PrevCount), o) == Counted(s, o) + {s.prev.b}
    ensures |Counted(s, o) + {s.prev.b}| == |Counted(s, o)| + 1 <= s.n
  {
    NewestNotCounted(s, o);
    CountBound(Counted(s, o) + {s.prev.b}, s.n);
  }

  lemma PrevCountPlaces(s: State, o: Owners)
    requires InvOver(s, o) && Fits(s, o) && Enabled(s, PrevCount)
    ensures forall x: nat :: x < s.n ==> OnePlace(Apply(s, PrevCount), o, x)
    ensures forall x: nat :: x < s.n && IsCounted(Apply(s, PrevCount), o, x) && x !in s.window ==> IsCounted(s, o, x)
    ensures Shape(Apply(s, PrevCount), o) && Ordered(Apply(s, PrevCount), o) && Frames(Apply(s, PrevCount), o)
  {
    forall x: nat | x < s.n ensures OnePlace(Apply(s, PrevCount), o, x) {
      assert OnePlace(s, o, x);
    }
  }

  lemma PrevCountAccounts(s: State, o: Owners)
    requires Enabled(s, PrevCount) && |s.phase| == s.n < TWO32 && Accounts(s, o)
    requires Counted(Apply(s, PrevCount), o) == Counted(s, o) + {s.prev.b}
    requires |Counted(s, o) + {s.prev.b}| == |Counted(s, o)| + 1 <= s.n
    ensures Accounts(Apply(s, PrevCount), o)
  {
    ShownMoves(|Counted(s, o)|, s.cleared);
    assert Unannounced(Apply(s, PrevCount)) == Unannounced(s);
  }

  lemma PrevCountCore(s: State, o: Owners)
    requires InvOver(s, o) && Fits(s, o) && Enabled(s, PrevCount)
    ensures InvOver(Apply(s, PrevCount), o)
  {
    PrevCountCounts(s, o);
    PrevCountPlaces(s, o);
    PrevCountAccounts(s, o);
  }

  // A step that counts the same buffers and keeps the window keeps its depth.
  lemma SameDepth(s: State, o: Owners, s': State, o': Owners)
    requires |s.phase| == s.n && |s'.phase| == s'.n == s.n && WindowDepth(s, o)
    requires s'.window == s.window && LeastDepth(s'.prev) == LeastDepth(s.prev)
    requires s'.prev.PrevWantsBuffer? ==> s.prev.PrevWantsBuffer?
    requires forall x: nat :: x < s.n && IsCounted(s', o', x) ==> IsCounted(s, o, x)
    requires s'.cleared == s.cleared
    requires |Counted(s', o')| < s.cleared ==> |s.window| >= LeastDepth(s.prev)
    ensures WindowDepth(s', o')
  {
  }

  lemma SameCounts(s: State, o: Owners, s': State, o': Owners)
    requires |s'.phase| == |s.phase|
    requires forall x: nat :: x < |s.phase| ==> IsCounted(s', o', x) == IsCounted(s, o, x)
    ensures Counted(s', o') == Counted(s, o)
  {
  }

  // A put changes one buffer: its side gives up the reference, and at count zero its lock is held.
  lemma PrevPutPlaces(s: State, o: Owners)
    requires InvOver(s, o) && Fits(s, o) && Enabled(s, PrevPut)
    ensures forall x: nat :: x < s.n ==>
      && OnePlace(Apply(s, PrevPut), o.(pipe := o.pipe[1..]), x)
      && IsCounted(Apply(s, PrevPut), o.(pipe := o.pipe[1..]), x) == IsCounted(s, o, x)
  {
    var s', o' := Apply(s, PrevPut), o.(pipe := o.pipe[1..]);
    assert OnePlace(s, o, s.prev.b);
    assert o.pipe == [s.prev.b] + o'.pipe;
    forall x: nat | x < s.n ensures OnePlace(s', o', x) && IsCounted(s', o', x) == IsCounted(s, o, x) {
      assert OnePlace(s, o, x);
    }
  }

  lemma PrevPutSides(s: State, o: Owners)
    requires InvOver(s, o) && Fits(s, o) && Enabled(s, PrevPut)
    ensures var s', o' := Apply(s, PrevPut), o.(pipe := o.pipe[1..]);
      Shape(s', o') && Ordered(s', o') && Frames(s', o')
  {
    assert o.pipe == [s.prev.b] + o.pipe[1..];
  }

  lemma PrevPutCore(s: State, o: Owners)
    requires InvOver(s, o) && Fits(s, o) && Enabled(s, PrevPut)
    ensures InvOver(Apply(s, PrevPut), o.(pipe := o.pipe[1..]))
  {
    var s', o' := Apply(s, PrevPut), o.(pipe := o.pipe[1..]);
    PrevPutPlaces(s, o);
    PrevPutSides(s, o);
    SameCounts(s, o, s', o');
    SameDepth(s, o, s', o');
    assert Unannounced(s') == Unannounced(s);
  }

  lemma AppPutPlaces(s: State, o: Owners, b: nat)
    requires InvOver(s, o) && Fits(s, o) && Enabled(s, AppPut(b))
    ensures forall x: nat :: x < s.n ==>
      && OnePlace(Apply(s, AppPut(b)), o.(frames := o.frames - {b}), x)
      && IsCounted(Apply(s, AppPut(b)), o.(frames := o.frames - {b}), x) == IsCounted(s, o, x)
  {
    var s', o' := Apply(s, AppPut(b)), o.(frames := o.frames - {b});
    assert OnePlace(s, o, b);
    forall x: nat | x < s.n ensures OnePlace(s', o', x) && IsCounted(s', o', x) == IsCounted(s, o, x) {
      assert OnePlace(s, o, x);
    }
  }

  lemma AppPutSides(s: State, o: Owners, b: nat)
    requires InvOver(s, o) && Fits(s, o) && Enabled(s, AppPut(b))
    ensures var s', o' := Apply(s, AppPut(b)), o.(frames := o.frames - {b});
      Shape(s', o') && Ordered(s', o') && Frames(s', o')
  {
  }

  lemma AppPutCore(s: State, o: Owners, b: nat)
    requires InvOver(s, o) && Fits(s, o) && Enabled(s, AppPut(b))
    ensures InvOver(Apply(s, AppPut(b)), o.(frames := o.frames - {b}))
  {
    var s', o' := Apply(s, AppPut(b)), o.(frames := o.frames - {b});
    AppPutPlaces(s, o, b);
    AppPutSides(s, o, b);
    SameCounts(s, o, s', o');
    SameDepth(s, o, s', o');
    assert Unannounced(s') == Unannounced(s);
  }

  // The steps of putBufferCount after the test for zero leave the two sides alone.
  lemma PutKeepsSides(s: State, o: Owners, step: Step)
    requires InvOver(s, o) && Enabled(s, step)
    requires step.PutReturn? || step.PutUncount? || step.PutPost?
    ensures Shape(Apply(s, step), o) && Ordered(Apply(s, step), o) && Frames(Apply(s, step), o)
  {
    var s' := Apply(s, step);
    assert s'.prev == s.prev || (s.prev.PrevPutting? && s'.prev.PrevIdle?);
    assert s'.cap == s.cap && s'.window == s.window && s'.recording == s.recording;
    assert s'.app == s.app && s'.releasing == s.releasing && s'.dropped == s.dropped;
  }

  lemma PutReturnPlaces(s: State, o: Owners, b: nat)
    requires InvOver(s, o) && Fits(s, o) && Enabled(s, PutReturn(b)) && s.running
    ensures b !in s.driver
    ensures forall x: nat :: x < s.n ==>
      OnePlace(Apply(s, PutReturn(b)), o, x) && IsCounted(Apply(s, PutReturn(b)), o, x) == IsCounted(s, o, x)
  {
    var s' := Apply(s, PutReturn(b));
    assert OnePlace(s, o, b);
    forall x: nat | x < s.n ensures OnePlace(s', o, x) && IsCounted(s', o, x) == IsCounted(s, o, x) {
      assert OnePlace(s, o, x);
    }
  }

  lemma PutReturnAccounts(s: State, o: Owners, b: nat)
    requires Enabled(s, PutReturn(b)) && |s.phase| == s.n < TWO32 && Accounts(s, o)
    requires s.running && b !in s.driver && Counted(Apply(s, PutReturn(b)), o) == Counted(s, o)
    ensures Accounts(Apply(s, PutReturn(b)), o)
  {
    assert Unannounced(Apply(s, PutReturn(b))) == Unannounced(s) + {b};
  }

  lemma PutReturnCore(s: State, o: Owners, b: nat)
    requires InvOver(s, o) && Fits(s, o) && Enabled(s, PutReturn(b)) && s.running
    ensures InvOver(Apply(s, PutReturn(b)), o)
  {
    var s' := Apply(s, PutReturn(b));
    PutReturnPlaces(s, o, b);
    PutKeepsSides(s, o, PutReturn(b));
    SameCounts(s, o, s', o);
    SameDepth(s, o, s', o);
    PutReturnAccounts(s, o, b);
  }

  lemma PutLosePlaces(s: State, o: Owners, b: nat)
    requires InvOver(s, o) && Fits(s, o) && Enabled(s, PutReturn(b)) && !s.running
    ensures forall x: nat :: x < s.n ==>
      OnePlace(Apply(s, PutReturn(b)), o, x) && IsCounted(Apply(s, PutReturn(b)), o, x) == IsCounted(s, o, x)
  {
    var s' := Apply(s, PutReturn(b));
    assert OnePlace(s, o, b);
    forall x: nat | x < s.n ensures OnePlace(s', o, x) && IsCounted(s', o, x) == IsCounted(s, o, x) {
      assert OnePlace(s, o, x);
    }
  }

  lemma PutLoseCore(s: State, o: Owners, b: nat)
    requires InvOver(s, o) && Fits(s, o) && Enabled(s, PutReturn(b)) && !s.running
    ensures InvOver(Apply(s, PutReturn(b)), o)
  {
    var s' := Apply(s, PutReturn(b));
    PutLosePlaces(s, o, b);
    PutKeepsSides(s, o, PutReturn(b));
    SameCounts(s, o, s', o);
    SameDepth(s, o, s', o);
    assert Unannounced(s') == Unannounced(s);
  }

  lemma PutUncountPlaces(s: State, o: Owners, b: nat)
    requires InvOver(s, o) && Fits(s, o) && Enabled(s, PutUncount(b))
    ensures IsCounted(s, o, b) && b !in s.window
    ensures forall x: nat :: x < s.n ==>
      && OnePlace(Apply(s, PutUncount(b)), o, x)
      && IsCounted(Apply(s, PutUncount(b)), o, x) == (IsCounted(s, o, x) && x != b)
  {
    var s' := Apply(s, PutUncount(b));
    assert OnePlace(s, o, b);
    forall x: nat | x < s.n
      ensures OnePlace(s', o, x) && IsCounted(s', o, x) == (IsCounted(s, o, x) && x != b)
    {
      assert OnePlace(s, o, x);
    }
  }

  lemma PutUncountAccounts(s: State, o: Owners, b: nat)
    requires Enabled(s, PutUncount(b)) && |s.phase| == s.n < TWO32 && Accounts(s, o)
    requires b in Counted(s, o) && Counted(Apply(s, PutUncount(b)), o) == Counted(s, o) - {b}
    ensures Accounts(Apply(s, PutUncount(b)), o)
  {
    CountedFit(s, o);
    ShownMoves(|Counted(s, o)|, s.cleared);
    assert Unannounced(Apply(s, PutUncount(b))) == Unannounced(s);
  }

  lemma PutUncountCore(s: State, o: Owners, b: nat)
    requires InvOver(s, o) && Fits(s, o) && Enabled(s, PutUncount(b))
    ensures InvOver(Apply(s, PutUncount(b)), o)
  {
    var s' := Apply(s, PutUncount(b));
    PutUncountPlaces(s, o, b);
    PutKeepsSides(s, o, PutUncount(b));
    assert b in Counted(s, o) && Counted(s', o) == Counted(s, o) - {b};
    SameDepth(s, o, s', o);
    PutUncountAccounts(s, o, b);
  }

  lemma PutPostPlaces(s: State, o: Owners, b: nat)
    requires InvOver(s, o) && Fits(s, o) && Enabled(s, PutPost(b))
    ensures forall x: nat :: x < s.n ==>
      OnePlace(Apply(s, PutPost(b)), o, x) && IsCounted(Apply(s, PutPost(b)), o, x) == IsCounted(s, o, x)
  {
    var s' := Apply(s, PutPost(b));
    assert OnePlace(s, o, b);
    assert s'.prev == s.prev || (s.prev.PrevPutting? && s'.prev.PrevIdle?);
    forall x: nat | x < s.n ensures OnePlace(s', o, x) && IsCounted(s', o, x) == IsCounted(s, o, x) {
      assert OnePlace(s, o, x);
      assert s'.phase[x] == if x == b then NoPut else s.phase[x];
    }
  }

  lemma PutPostAccounts(s: State, o: Owners, b: nat)
    requires Enabled(s, PutPost(b)) && |s.phase| == s.n < TWO32 && Accounts(s, o)
    requires Counted(Apply(s, PutPost(b)), o) == Counted(s, o)
    ensures Accounts(Apply(s, PutPost(b)), o)
  {
    assert Unannounced(Apply(s, PutPost(b))) == Unannounced(s) - {b};
  }

  lemma PutPostCore(s: State, o: Owners, b: nat)
    requires InvOver(s, o) && Fits(s, o) && Enabled(s, PutPost(b))
    ensures InvOver(Apply(s, PutPost(b)), o)
  {
    var s' := Apply(s, PutPost(b));
    PutPostPlaces(s, o, b);
    PutKeepsSides(s, o, PutPost(b));
    SameCounts(s, o, s', o);
    SameDepth(s, o, s', o);
    PutPostAccounts(s, o, b);
  }

  // ---- the two lines as the steps move them ---------------------------------------------------

  lemma EmptyFirst(a: seq<nat>)
    ensures [] + a == a
  {
  }

  lemma DistinctParts(a: seq<nat>, b: seq<nat>)
    requires Distinct(a + b)
    ensures Distinct(a) && Distinct(b)
    ensures forall x :: x in a ==> x !in b
  {
    var q := a + b;
    forall i, j | 0 <= i < |a| && 0 <= j < |b| ensures a[i] != b[j] {
      assert q[i] == a[i] && q[|a| + j] == b[j];
    }
    forall i, j | 0 <= i < j < |a| ensures a[i] != a[j] {
      assert q[i] == a[i] && q[j] == a[j];
    }
    forall i, j | 0 <= i < j < |b| ensures b[i] != b[j] {
      assert q[|a| + i] == b[i] && q[|a| + j] == b[j];
    }
  }

  lemma OwnersFit(s: State)
    requires Ordered(s, OwnersOf(s))
    ensures Fits(s, OwnersOf(s))
  {
    var rest := Taken(s) + (s.previewQ + Unsent(s));
    DistinctParts(Returned(s), s.window + rest);
    DistinctParts(s.window, rest);
  }

  lemma CapGet1Owners(s: State)
    requires Enabled(s, CapGet1)
    ensures OwnersOf(Apply(s, CapGet1)) == OwnersOf(s).(pipe := Pipe(s) + [s.cap.b])
  {
    var x := [s.cap.b];
    assert s.previewQ + Unsent(s) == s.previewQ;
    Regroup(Taken(s), s.previewQ, x);
    Regroup(s.window, Taken(s) + s.previewQ, x);
    Regroup(Returned(s), s.window + (Taken(s) + s.previewQ), x);
  }

  lemma CapPostOwners(s: State)
    requires Enabled(s, CapPost)
    ensures OwnersOf(Apply(s, CapPost)) == OwnersOf(s)
  {
    var s' := Apply(s, CapPost);
    assert s.previewQ + Unsent(s) == s'.previewQ + Unsent(s');
  }

  lemma CapGet2Owners(s: State)
    requires Enabled(s, CapGet2)
    ensures var o := OwnersOf(s);
      OwnersOf(Apply(s, CapGet2)) == o.(line := o.line + [s.cap.b], frames := o.frames + {s.cap.b})
  {
    var s', x := Apply(s, CapGet2), s.cap.b;
    assert s.encodeQ + UnsentToEncoder(s) == s.encodeQ;
    Regroup(Encoding(s), s.encodeQ, [x]);
    MembersOfMore(EncodeLine(s), x);
    FrameAdded(Members(EncodeLine(s)), s.app, s.releasing, s.dropped, x);
  }

  lemma MembersOfMore(q: seq<nat>, b: nat)
    ensures Members(q + [b]) == Members(q) + {b}
  {
    forall x: nat ensures x in q + [b] <==> x == b || x in q {
    }
  }

  lemma FrameAdded(line: set<nat>, app: set<nat>, releasing: set<nat>, dropped: set<nat>, b: nat)
    ensures line + {b} + app + releasing + dropped == line + app + releasing + dropped + {b}
  {
  }

  lemma CapPostEncodeOwners(s: State)
    requires Enabled(s, CapPostEncode)
    ensures OwnersOf(Apply(s, CapPostEncode)) == OwnersOf(s)
  {
    assert s.encodeQ + UnsentToEncoder(s) == (s.encodeQ + [s.cap.b]) + [];
  }

  lemma CaptureLeavesOwners(s: State, step: Step)
    requires step.CapTake? || step.CapDequeue? || step.CapTestRecording?
    requires Enabled(s, step)
    ensures OwnersOf(Apply(s, step)) == OwnersOf(s)
  {
    assert Pipe(Apply(s, step)) == Pipe(s) && EncodeLine(Apply(s, step)) == EncodeLine(s);
  }

  lemma PrevTakeOwners(s: State)
    requires Enabled(s, PrevTake)
    ensures OwnersOf(Apply(s, PrevTake)) == OwnersOf(s)
  {
    EmptyFirst(s.previewQ + Unsent(s));
    Regroup([s.previewQ[0]], s.previewQ[1..], Unsent(s));
    assert [s.previewQ[0]] + s.previewQ[1..] == s.previewQ;
  }

  lemma PrevEnqueueOwners(s: State)
    requires Enabled(s, PrevEnqueue)
    ensures OwnersOf(Apply(s, PrevEnqueue)) == OwnersOf(s)
  {
    EmptyFirst(s.previewQ + Unsent(s));
    Regroup(s.window, [s.prev.b], s.previewQ + Unsent(s));
  }

  lemma PrevDequeueOwners(s: State)
    requires Enabled(s, PrevDequeue)
    ensures OwnersOf(Apply(s, PrevDequeue)) == OwnersOf(s)
  {
    var rest := Taken(s) + (s.previewQ + Unsent(s));
    EmptyFirst(s.window + rest);
    Regroup([s.window[0]], s.window[1..], rest);
    assert [s.window[0]] + s.window[1..] == s.window;
  }

  lemma PrevPutOwners(s: State)
    requires Enabled(s, PrevPut)
    ensures OwnersOf(Apply(s, PrevPut)) == OwnersOf(s).(pipe := Pipe(s)[1..])
  {
    assert Pipe(s) == [s.prev.b] + Pipe(Apply(s, PrevPut));
  }

  lemma EncTakeOwners(s: State)
    requires Enabled(s, EncTake)
    ensures OwnersOf(Apply(s, EncTake)) == OwnersOf(s)
  {
    EmptyFirst(s.encodeQ + UnsentToEncoder(s));
    Regroup([s.encodeQ[0]], s.encodeQ[1..], UnsentToEncoder(s));
    assert [s.encodeQ[0]] + s.encodeQ[1..] == s.encodeQ;
  }

  lemma MembersOfCons(b: nat, q: seq<nat>)
    ensures Members([b] + q) == {b} + Members(q) && ([b] + q)[1..] == q
  {
    assert ([b] + q)[1..] == q;
    forall x: nat ensures x in [b] + q <==> x == b || x in q {
    }
  }

  lemma FrameMoves(line: set<nat>, app: set<nat>, releasing: set<nat>, dropped: set<nat>, b: nat)
    ensures {b} + line + app + releasing + dropped == line + (app + {b}) + releasing + dropped
    ensures {b} + line + app + releasing + dropped == line + app + releasing + (dropped + {b})
  {
  }

  // Lending a frame, or keeping it back, moves it from the line into app or dropped.
  lemma EncDoneOwners(s: State, step: Step)
    requires step.EncLend? || step.EncDrop?
    requires Enabled(s, step)
    ensures OwnersOf(Apply(s, step)) == OwnersOf(s).(line := EncodeLine(s)[1..])
  {
    var s' := Apply(s, step);
    var line := EncodeLine(s');
    assert EncodeLine(s) == [s.enc.b] + line && Pipe(s') == Pipe(s);
    MembersOfCons(s.enc.b, line);
    FrameMoves(Members(line), s.app, s.releasing, s.dropped, s.enc.b);
  }

  lemma AppReleaseOwners(s: State, b: nat)
    requires Enabled(s, AppRelease(b))
    ensures OwnersOf(Apply(s, AppRelease(b))) == OwnersOf(s)
  {
    assert OwnersOf(Apply(s, AppRelease(b))).frames == OwnersOf(s).frames;
  }

  lemma AppPutOwners(s: State, b: nat)
    requires Frames(s, OwnersOf(s)) && Enabled(s, AppPut(b))
    ensures OwnersOf(Apply(s, AppPut(b))) == OwnersOf(s).(frames := OwnersOf(s).frames - {b})
  {
    var o, s' := OwnersOf(s), Apply(s, AppPut(b));
    assert Pipe(s') == o.pipe && EncodeLine(s') == o.line;
    assert b in o.frames && b !in o.line;
    assert OwnersOf(s').frames == o.frames - {b};
  }

  lemma PutLeavesOwners(s: State, step: Step)
    requires step.PutReturn? || step.PutUncount? || step.PutPost?
    requires Enabled(s, step)
    ensures OwnersOf(Apply(s, step)) == OwnersOf(s)
  {
    var s' := Apply(s, step);
    assert Returned(s') == Returned(s) && Taken(s') == Taken(s);
    assert Pipe(s') == Pipe(s) && EncodeLine(s') == EncodeLine(s);
  }

  // ---- every run ----------------------------------------------------------------------------

  lemma ControlLeavesOwners(s: State, step: Step)
    requires step.PostInitial? || step.SetRunning? || step.StartRecording? || step.ClearCount?
    requires Enabled(s, step)
    ensures OwnersOf(Apply(s, step)) == OwnersOf(s)
  {
    assert Pipe(Apply(s, step)) == Pipe(s) && EncodeLine(Apply(s, step)) == EncodeLine(s);
  }

  lemma PostInitialKeeps(s: State)
    requires Inv(s) && Enabled(s, PostInitial)
    ensures Inv(Apply(s, PostInitial))
  {
    var o := OwnersOf(s);
    OwnersFit(s);
    ControlLeavesOwners(s, PostInitial);
    ControlCore(s, o, PostInitial);
  }

  lemma SetRunningKeeps(s: State)
    requires Inv(s) && Enabled(s, SetRunning)
    ensures Inv(Apply(s, SetRunning))
  {
    var o := OwnersOf(s);
    OwnersFit(s);
    ControlLeavesOwners(s, SetRunning);
    ControlCore(s, o, SetRunning);
  }

  lemma StartRecordingKeeps(s: State)
    requires Inv(s) && Enabled(s, StartRecording)
    ensures Inv(Apply(s, StartRecording))
  {
    var o := OwnersOf(s);
    OwnersFit(s);
    ControlLeavesOwners(s, StartRecording);
    ControlCore(s, o, StartRecording);
  }

  lemma ClearCountKeeps(s: State)
    requires Inv(s) && Enabled(s, ClearCount)
    ensures Inv(Apply(s, ClearCount))
  {
    var o := OwnersOf(s);
    OwnersFit(s);
    ControlLeavesOwners(s, ClearCount);
    ClearCountCore(s, o);
  }

  lemma CapTakeKeeps(s: State)
    requires Inv(s) && Enabled(s, CapTake)
    ensures Inv(Apply(s, CapTake))
  {
    var o := OwnersOf(s);
    OwnersFit(s);
    CaptureLeavesOwners(s, CapTake);
    CaptureCore(s, o, CapTake);
  }

  lemma CapDequeueKeeps(s: State, b: nat)
    requires Inv(s) && Enabled(s, CapDequeue(b))
    ensures Inv(Apply(s, CapDequeue(b)))
  {
    var o := OwnersOf(s);
    OwnersFit(s);
    CaptureLeavesOwners(s, CapDequeue(b));
    CapDequeueCore(s, o, b);
  }

  lemma CapGet1Keeps(s: State)
    requires Inv(s) && Enabled(s, CapGet1)
    ensures Inv(Apply(s, CapGet1))
  {
    var o := OwnersOf(s);
    OwnersFit(s);
    CapGet1Owners(s);
    CapGet1Core(s, o);
  }

  lemma CapPostKeeps(s: State)
    requires Inv(s) && Enabled(s, CapPost)
    ensures Inv(Apply(s, CapPost))
  {
    var o := OwnersOf(s);
    OwnersFit(s);
    CapPostOwners(s);
    CaptureCore(s, o, CapPost);
  }

  lemma CapTestRecordingKeeps(s: State)
    requires Inv(s) && Enabled(s, CapTestRecording)
    ensures Inv(Apply(s, CapTestRecording))
  {
    var o := OwnersOf(s);
    OwnersFit(s);
    CaptureLeavesOwners(s, CapTestRecording);
    CaptureCore(s, o, CapTestRecording);
  }

  lemma CapGet2Keeps(s: State)
    requires Inv(s) && Enabled(s, CapGet2)
    ensures Inv(Apply(s, CapGet2))
  {
    var o := OwnersOf(s);
    OwnersFit(s);
    CapGet2Owners(s);
    CapGet2Core(s, o);
  }

  lemma CapPostEncodeKeeps(s: State)
    requires Inv(s) && Enabled(s, CapPostEncode)
    ensures Inv(Apply(s, CapPostEncode))
  {
    var o := OwnersOf(s);
    OwnersFit(s);
    CapPostEncodeOwners(s);
    CaptureCore(s, o, CapPostEncode);
  }

  lemma PrevTakeKeeps(s: State)
    requires Inv(s) && Enabled(s, PrevTake)
    ensures Inv(Apply(s, PrevTake))
  {
    var o := OwnersOf(s);
    OwnersFit(s);
    PrevTakeOwners(s);
    OwnersFit(Apply(s, PrevTake));
    PrevTakeCore(s, o);
  }

  lemma PrevEnqueueKeeps(s: State)
    requires Inv(s) && Enabled(s, PrevEnqueue)
    ensures Inv(Apply(s, PrevEnqueue))
  {
    var o := OwnersOf(s);
    OwnersFit(s);
    PrevEnqueueOwners(s);
    PrevEnqueueCore(s, o);
  }

  lemma PrevCountKeeps(s: State)
    requires Inv(s) && Enabled(s, PrevCount)
    ensures Inv(Apply(s, PrevCount))
  {
    var o := OwnersOf(s);
    OwnersFit(s);
    assert OwnersOf(Apply(s, PrevCount)) == o;
    PrevCountCore(s, o);
  }

  lemma PrevTestKeeps(s: State)
    requires Inv(s) && Enabled(s, PrevTest)
    ensures Inv(Apply(s, PrevTest))
  {
    var o := OwnersOf(s);
    OwnersFit(s);
    assert OwnersOf(Apply(s, PrevTest)) == o;
    PrevTestCore(s, o);
  }

  lemma PrevDequeueKeeps(s: State)
    requires Inv(s) && Enabled(s, PrevDequeue)
    ensures Inv(Apply(s, PrevDequeue))
  {
    var o := OwnersOf(s);
    OwnersFit(s);
    PrevDequeueOwners(s);
    PrevDequeueCore(s, o);
  }

  lemma PrevPutKeeps(s: State)
    requires Inv(s) && Enabled(s, PrevPut)
    ensures Inv(Apply(s, PrevPut))
  {
    var o := OwnersOf(s);
    OwnersFit(s);
    PrevPutOwners(s);
    PrevPutCore(s, o);
  }

  lemma EncTakeKeeps(s: State)
    requires Inv(s) && Enabled(s, EncTake)
    ensures Inv(Apply(s, EncTake))
  {
    var o := OwnersOf(s);
    OwnersFit(s);
    EncTakeOwners(s);
    EncTakeCore(s, o);
  }

  lemma EncLendKeeps(s: State)
    requires Inv(s) && Enabled(s, EncLend)
    ensures Inv(Apply(s, EncLend))
  {
    var o := OwnersOf(s);
    OwnersFit(s);
    EncDoneOwners(s, EncLend);
    EncDoneCore(s, o, EncLend);
  }

  lemma EncDropKeeps(s: State)
    requires Inv(s) && Enabled(s, EncDrop)
    ensures Inv(Apply(s, EncDrop))
  {
    var o := OwnersOf(s);
    OwnersFit(s);
    EncDoneOwners(s, EncDrop);
    EncDoneCore(s, o, EncDrop);
  }

  lemma AppReleaseKeeps(s: State, b: nat)
    requires Inv(s) && Enabled(s, AppRelease(b))
    ensures Inv(Apply(s, AppRelease(b)))
  {
    var o := OwnersOf(s);
    OwnersFit(s);
    AppReleaseOwners(s, b);
    AppReleaseCore(s, o, b);
  }

  lemma AppPutKeeps(s: State, b: nat)
    requires Inv(s) && Enabled(s, AppPut(b))
    ensures Inv(Apply(s, AppPut(b)))
  {
    var o := OwnersOf(s);
    OwnersFit(s);
    AppPutOwners(s, b);
    AppPutCore(s, o, b);
  }

  lemma PutReturnKeeps(s: State, b: nat)
    requires Inv(s) && Enabled(s, PutReturn(b))
    ensures Inv(Apply(s, PutReturn(b)))
  {
    var o := OwnersOf(s);
    OwnersFit(s);
    PutLeavesOwners(s, PutReturn(b));
    if s.running {
      PutReturnCore(s, o, b);
    } else {
      PutLoseCore(s, o, b);
    }
  }

  lemma PutUncountKeeps(s: State, b: nat)
    requires Inv(s) && Enabled(s, PutUncount(b))
    ensures Inv(Apply(s, PutUncount(b)))
  {
    var o := OwnersOf(s);
    OwnersFit(s);
    PutLeavesOwners(s, PutUncount(b));
    PutUncountCore(s, o, b);
  }

  lemma PutPostKeeps(s: State, b: nat)
    requires Inv(s) && Enabled(s, PutPost(b))
    ensures Inv(Apply(s, PutPost(b)))
  {
    var o := OwnersOf(s);
    OwnersFit(s);
    PutLeavesOwners(s, PutPost(b));
    PutPostCore(s, o, b);
  }

  predicate OfCapture(step: Step) {
    step.CapTake? || step.CapDequeue? || step.CapGet1? || step.CapPost? || step.CapTestRecording? || step.CapGet2?
    || step.CapPostEncode?
  }

  predicate OfPreview(step: Step) {
    step.PrevTake? || step.PrevEnqueue? || step.PrevCount? || step.PrevTest? || step.PrevDequeue? || step.PrevPut?
  }

  lemma CaptureStepKeeps(s: State, step: Step)
    requires Inv(s) && Enabled(s, step)
    requires OfCapture(step)
    ensures Inv(Apply(s, step))
  {
    match step {
      case CapTake => CapTakeKeeps(s);
      case CapDequeue(b) => CapDequeueKeeps(s, b);
      case CapGet1 => CapGet1Keeps(s);
      case CapPost => CapPostKeeps(s);
      case CapTestRecording => CapTestRecordingKeeps(s);
      case CapGet2 => CapGet2Keeps(s);
      case CapPostEncode => CapPostEncodeKeeps(s);
    }
  }

  lemma PreviewStepKeeps(s: State, step: Step)
    requires Inv(s) && Enabled(s, step)
    requires OfPreview(step)
    ensures Inv(Apply(s, step))
  {
    match step {
      case PrevTake => PrevTakeKeeps(s);
      case PrevEnqueue => PrevEnqueueKeeps(s);
      case PrevCount => PrevCountKeeps(s);
      case PrevTest => PrevTestKeeps(s);
      case PrevDequeue => PrevDequeueKeeps(s);
      case PrevPut => PrevPutKeeps(s);
    }
  }

  lemma OtherStepKeeps(s: State, step: Step)
    requires Inv(s) && Enabled(s, step)
    requires !OfCapture(step) && !OfPreview(step)
    ensures Inv(Apply(s, step))
  {
    match step {
      case PostInitial => PostInitialKeeps(s);
      case SetRunning => SetRunningKeeps(s);
      case StartRecording => StartRecordingKeeps(s);
      case ClearCount => ClearCountKeeps(s);
      case EncTake => EncTakeKeeps(s);
      case EncLend => EncLendKeeps(s);
      case EncDrop => EncDropKeeps(s);
      case AppRelease(b) => AppReleaseKeeps(s, b);
      case AppPut(b) => AppPutKeeps(s, b);
      case PutReturn(b) => PutReturnKeeps(s, b);
      case PutUncount(b) => PutUncountKeeps(s, b);
      case PutPost(b) => PutPostKeeps(s, b);
    }
  }

  lemma StepKeepsInv(s: State, step: Step)
    requires Inv(s) && Enabled(s, step)
    ensures Inv(Apply(s, step))
  {
    if OfCapture(step) {
      CaptureStepKeeps(s, step);
    } else if OfPreview(step) {
      PreviewStepKeeps(s, step);
    } else {
      OtherStepKeeps(s, step);
    }
  }

  lemma InitHolds(s: State)
    requires Init(s)
    ensures Inv(s)
  {
    var o := OwnersOf(s);
    assert o == Owners([], [], {});
    assert Counted(s, o) == {} && Unannounced(s) == {};
    FullDriver(s.driver, s.n);
  }

  lemma FullDriver(c: set<nat>, n: nat)
    requires forall x: nat :: x in c <==> x < n
    ensures |c| == n
  {
    if n == 0 {
      assert c == {};
    } else {
      FullDriver(c - {n - 1}, n - 1);
    }
  }

  lemma RunKeepsInv(s: State, steps: seq<Step>)
    requires Inv(s) && IsRun(s, steps)
    ensures Inv(Final(s, steps))
    decreases |steps|
  {
    if steps == [] {
    } else {
      StepKeepsInv(s, steps[0]);
      RunKeepsInv(Apply(s, steps[0]), steps[1..]);
    }
  }
}
