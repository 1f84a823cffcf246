/** The standby/active life of the one output and the one input stream of the mx5x audio HAL
    (mx5x/audio/audio_hw.c).  Which kernel PCM a pcm_open call gets is its serial number here; whether
    there is one, whether it comes up ready and whether a resampler can be made is up to the driver. */
module StreamStandby {
  import opened Sequences
  import opened Wrappers

  datatype Config = Main | Sco

  const MAIN_RATE: nat := 44100
  const SCO_RATE: nat := 8000

  function Rate(c: Config): nat {
    match c case Main => MAIN_RATE case Sco => SCO_RATE
  }

  // All open PCMs have to use rates of one group.
  predicate SameGroup(a: nat, b: nat) {
    (a % 8000 == 0 && b % 8000 == 0) || (a % 11025 == 0 && b % 11025 == 0)
  }

  // The test of start_output_stream and start_input_stream.
  predicate Conflicts(mine: nat, other: nat) {
    (mine % 8000 == 0 && other % 8000 != 0) || (mine % 11025 == 0 && other % 11025 != 0)
  }

  // A device word as the set of its one bits: & is intersection, ^ the symmetric difference.
  type Bits = set<nat>

  function Xor(a: Bits, b: Bits): (r: Bits) {
    (a - b) + (b - a)
  }

  datatype Stream = Stream(
    standby: bool,
    config: Config,
    pcm: Option<nat>,              // the pointer; after a failed start it dangles
    resampler: bool,
    buffer: bool)

  // scoOut and scoIn are the masks AUDIO_DEVICE_OUT_ALL_SCO and AUDIO_DEVICE_IN_ALL_SCO.
  datatype Hal = Hal(
    scoOut: Bits, scoIn: Bits,
    outDevice: Bits, inDevice: Bits,
    out: Stream, inp: Stream,
    outActive: bool, inActive: bool,     // adev->active_out, adev->active_in set
    requestedRate: nat,
    opens: nat,                         // pcm_open calls so far
    open: set<nat>, closed: seq<nat>)    // PCMs open now; pcm_close calls so far

  function ClosePcm(h: Hal, pcm: Option<nat>): Hal {
    match pcm
    case None => h
    case Some(p) => h.(open := h.open - {p}, closed := h.closed + [p])
  }

  function OutToStandby(h: Hal): Hal {
    if h.out.standby then h
    else ClosePcm(h, h.out.pcm).(out := Stream(true, h.out.config, None, false, false), outActive := false)
  }

  function InToStandby(h: Hal): Hal {
    if h.inp.standby then h
    else ClosePcm(h, h.inp.pcm).(inp := Stream(true, h.inp.config, None, false, false), inActive := false)
  }

  predicate OutRoutedToSco(h: Hal) {
    h.outDevice * h.scoOut != {}
  }

  predicate InRoutedToSco(h: Hal) {
    h.inDevice * h.scoIn != {}
  }

  // What pcm_open and pcm_is_ready say: Null is a pcm_open that gives no PCM at all.
  datatype Answer = Ready | NotReady | Null

  function NewPcm(h: Hal, answer: Answer): Option<nat> {
    if answer.Null? then None else Some(h.opens)
  }

  function OpenPcm(h: Hal, answer: Answer): Hal {
    if answer.Null? then h else h.(opens := h.opens + 1, open := h.open + {h.opens})
  }

  // Choose the configuration, and put the other stream into standby if its rate conflicts.
  function MakeRoomForOut(h: Hal): Hal {
    var config := if OutRoutedToSco(h) then Sco else Main;
    var h1 := h.(out := h.out.(config := config));
    if h1.inActive && Conflicts(Rate(config), Rate(h1.inp.config)) then InToStandby(h1) else h1
  }

  function MakeRoomForIn(h: Hal): Hal {
    var config := if InRoutedToSco(h) then Sco else Main;
    var h1 := h.(inp := h.inp.(config := config));
    if h1.outActive && Conflicts(Rate(config), Rate(h1.out.config)) then OutToStandby(h1) else h1
  }

  // A PCM that is not ready is closed again, and its pointer kept.
  function OpenedOut(h: Hal, answer: Answer): Hal {
    var pcm := NewPcm(h, answer);
    var h' := OpenPcm(h, answer).(out := h.out.(pcm := pcm));
    if answer.NotReady? then ClosePcm(h', pcm) else h'
  }

  function OpenedIn(h: Hal, answer: Answer): Hal {
    var pcm := NewPcm(h, answer);
    var h' := OpenPcm(h, answer).(inp := h.inp.(pcm := pcm));
    if answer.NotReady? then ClosePcm(h', pcm) else h'
  }

  // The first half of out_write: start_output_stream if needed.  made is whether create_resampler
  // succeeds, which nobody asks; nor does anybody but pcm_is_ready ask whether there is a PCM.
  function StartOut(h: Hal, answer: Answer, made: bool): Hal {
    if !h.out.standby then h
    else
      var h' := OpenedOut(MakeRoomForOut(h), answer);
      if answer.NotReady? then h'
      else
        var resample := MAIN_RATE != Rate(h'.out.config);
        h'.(out := Stream(false, h'.out.config, h'.out.pcm, resample && made, resample), outActive := true)
  }

  function StartIn(h: Hal, answer: Answer, made: bool): Hal {
    if !h.inp.standby then h
    else
      var h' := OpenedIn(MakeRoomForIn(h), answer);
      if answer.NotReady? then h'
      else
        var resample := h'.requestedRate != Rate(h'.inp.config);
        h'.(inp := Stream(false, h'.inp.config, h'.inp.pcm, resample && made, true), inActive := true)
  }

  function RouteOut(h: Hal, val: Bits): Hal {
    if h.outDevice == val || val == {} then h
    else
      var toggled := Xor(val * h.scoOut, h.outDevice * h.scoOut);
      (if toggled != {} then OutToStandby(h) else h).(outDevice := val)
  }

  function RouteIn(h: Hal, val: Bits): Hal {
    if h.inDevice == val || val == {} then h
    else
      var toggled := Xor(val * h.scoIn, h.inDevice * h.scoIn);
      (if toggled != {} then InToStandby(h) else h).(inDevice := val)
  }

  datatype Event =
    | Write(answer: Answer, made: bool) | Read(answer: Answer, made: bool)
    | OutStandby | InStandby
    | OutRouting(val: Bits) | InRouting(val: Bits)

  function Handle(h: Hal, e: Event): Hal {
    match e
    case Write(answer, made) => StartOut(h, answer, made)
    case Read(answer, made) => StartIn(h, answer, made)
    case OutStandby => OutToStandby(h)
    case InStandby => InToStandby(h)
    case OutRouting(val) => RouteOut(h, val)
    case InRouting(val) => RouteIn(h, val)
  }

  function HandleAll(h: Hal, events: seq<Event>): Hal
    decreases |events|
  {
    if events == [] then h else HandleAll(Handle(h, events[0]), events[1..])
  }

  predicate Initial(h: Hal) {
    && h.out.standby && h.inp.standby && !h.outActive && !h.inActive
    && !h.out.resampler && !h.out.buffer && !h.inp.resampler && !h.inp.buffer
    && h.opens == 0 && h.open == {} && h.closed == []
  }

  // ---- every sequence of calls ------------------------------------------------------------------

  // A stream is active exactly while it is not in standby; its PCM, if it got one, is open for that
  // time, and outside of it the stream owns neither resampler nor buffer.
  predicate StreamOk(h: Hal, s: Stream, active: bool) {
    && active == !s.standby
    && (active && s.pcm.Some? ==> s.pcm.value in h.open)
    && (!active ==> !s.resampler && !s.buffer)
  }

  // Every PCM ever opened is either still open, and then owned by an active stream, or has been
  // closed exactly once.
  ghost predicate PcmsOk(h: Hal) {
    && Distinct(h.closed)
    && (forall p: nat :: p < h.opens <==> p in h.open || p in h.closed)
    && (forall p :: p in h.open ==> p !in h.closed)
    && (forall p :: p in h.open <==> (h.outActive && h.out.pcm == Some(p)) || (h.inActive && h.inp.pcm == Some(p)))
    && (h.outActive && h.inActive && h.out.pcm.Some? ==> h.out.pcm != h.inp.pcm)
  }

  predicate RatesOk(h: Hal) {
    h.outActive && h.inActive ==> SameGroup(Rate(h.out.config), Rate(h.inp.config))
  }

  predicate RoutesOk(h: Hal) {
    && (h.outActive ==> (h.out.config.Sco? <==> OutRoutedToSco(h)))
    && (h.inActive ==> (h.inp.config.Sco? <==> InRoutedToSco(h)))
  }

  ghost predicate Inv(h: Hal) {
    StreamOk(h, h.out, h.outActive) && StreamOk(h, h.inp, h.inActive) && PcmsOk(h) && RatesOk(h) && RoutesOk(h)
  }

  lemma OutStandbyKeeps(h: Hal)
    requires StreamOk(h, h.out, h.outActive) && StreamOk(h, h.inp, h.inActive) && PcmsOk(h)
    ensures var h' := OutToStandby(h);
      && StreamOk(h', h'.out, h'.outActive) && StreamOk(h', h'.inp, h'.inActive) && PcmsOk(h')
      && !h'.outActive && h'.inActive == h.inActive
  {
  }

  lemma InStandbyKeeps(h: Hal)
    requires StreamOk(h, h.out, h.outActive) && StreamOk(h, h.inp, h.inActive) && PcmsOk(h)
    ensures var h' := InToStandby(h);
      && StreamOk(h', h'.out, h'.outActive) && StreamOk(h', h'.inp, h'.inActive) && PcmsOk(h')
      && !h'.inActive && h'.outActive == h.outActive
  {
  }

  // What holds between the choice of a configuration and the end of the start.
  ghost predicate Starting(h: Hal) {
    StreamOk(h, h.out, h.outActive) && StreamOk(h, h.inp, h.inActive) && PcmsOk(h) && RoutesOk(h)
  }

  lemma RoomForOut(h: Hal)
    requires Inv(h) && h.out.standby
    ensures var h' := MakeRoomForOut(h);
      && Starting(h') && h'.out.standby && !h'.outActive && (h'.out.config.Sco? <==> OutRoutedToSco(h'))
      && (h'.inActive ==> SameGroup(Rate(h'.out.config), Rate(h'.inp.config)))
  {
    InStandbyKeeps(h.(out := h.out.(config := if OutRoutedToSco(h) then Sco else Main)));
  }

  lemma RoomForIn(h: Hal)
    requires Inv(h) && h.inp.standby
    ensures var h' := MakeRoomForIn(h);
      && Starting(h') && h'.inp.standby && !h'.inActive && (h'.inp.config.Sco? <==> InRoutedToSco(h'))
      && (h'.outActive ==> SameGroup(Rate(h'.out.config), Rate(h'.inp.config)))
  {
    OutStandbyKeeps(h.(inp := h.inp.(config := if InRoutedToSco(h) then Sco else Main)));
  }

  lemma StartOutKeeps(h: Hal, answer: Answer, made: bool)
    requires Inv(h)
    ensures Inv(StartOut(h, answer, made))
  {
    if h.out.standby {
      RoomForOut(h);
    }
  }

  lemma StartInKeeps(h: Hal, answer: Answer, made: bool)
    requires Inv(h)
    ensures Inv(StartIn(h, answer, made))
  {
    if h.inp.standby {
      RoomForIn(h);
    }
  }

  // No toggled bit means the masked words are the same, so the route to SCO is the same.
  lemma XorEmpty(a: Bits, b: Bits)
    ensures Xor(a, b) == {} <==> a == b
  {
    if Xor(a, b) == {} {
      assert forall x :: x in a - b || x in b - a ==> x in Xor(a, b);
      assert a == b;
    }
  }

  lemma RouteOutKeeps(h: Hal, val: Bits)
    requires Inv(h)
    ensures Inv(RouteOut(h, val))
  {
    OutStandbyKeeps(h);
    XorEmpty(val * h.scoOut, h.outDevice * h.scoOut);
  }

  lemma RouteInKeeps(h: Hal, val: Bits)
    requires Inv(h)
    ensures Inv(RouteIn(h, val))
  {
    InStandbyKeeps(h);
    XorEmpty(val * h.scoIn, h.inDevice * h.scoIn);
  }

  lemma HandleKeeps(h: Hal, e: Event)
    requires Inv(h)
    ensures Inv(Handle(h, e))
  {
    match e {
      case Write(answer, made) => StartOutKeeps(h, answer, made);
      case Read(answer, made) => StartInKeeps(h, answer, made);
      case OutStandby => OutStandbyKeeps(h);
      case InStandby => InStandbyKeeps(h);
      case OutRouting(val) => RouteOutKeeps(h, val);
      case InRouting(val) => RouteInKeeps(h, val);
    }
  }

  lemma {:induction false} AnyCallsKeep(h: Hal, events: seq<Event>)
    requires Inv(h)
    ensures Inv(HandleAll(h, events))
    decreases |events|
  {
    if events == [] {
    } else {
      HandleKeeps(h, events[0]);
      AnyCallsKeep(Handle(h, events[0]), events[1..]);
    }
  }

  // From the state after open on: every call sequence, with pcm_open failing whenever it likes.
  lemma FromOpenOn(h: Hal, events: seq<Event>)
    requires Initial(h)
    ensures var h' := HandleAll(h, events);
      && (h'.outActive <==> !h'.out.standby) && (h'.inActive <==> !h'.inp.standby)
      && (h'.outActive && h'.inActive ==> SameGroup(Rate(h'.out.config), Rate(h'.inp.config)))
      && (h'.outActive ==> (h'.out.config == Sco <==> OutRoutedToSco(h')))
      && (h'.inActive ==> (h'.inp.config == Sco <==> InRoutedToSco(h')))
      && Distinct(h'.closed) && |h'.open| <= 2
      && (forall p: nat :: p < h'.opens ==> (p in h'.open) != (p in h'.closed))
    ensures EquippedThroughout(h, events) <==> NoPoorStarts(h, events)
  {
    AnyCallsKeep(h, events);
    var h' := HandleAll(h, events);
    var owners := Owned(h'.outActive, h'.out.pcm) + Owned(h'.inActive, h'.inp.pcm);
    assert h'.open == owners;
    EquippedExactly(h, events);
  }

  function Owned(active: bool, pcm: Option<nat>): (r: set<nat>)
    ensures |r| <= 1
  {
    if active && pcm.Some? then {pcm.value} else {}
  }

  // Every active stream has an open PCM, and a resampler if its rate is not the PCM's.
  predicate Equipped(h: Hal) {
    && (h.outActive ==> h.out.pcm.Some? && h.out.pcm.value in h.open)
    && (h.outActive && MAIN_RATE != Rate(h.out.config) ==> h.out.resampler)
    && (h.inActive ==> h.inp.pcm.Some? && h.inp.pcm.value in h.open)
    && (h.inActive && h.requestedRate != Rate(h.inp.config) ==> h.inp.resampler)
  }

  // The call starts a stream without a PCM or without the resampler it needs.
  predicate PoorStart(h: Hal, e: Event) {
    match e
    case Write(answer, made) =>
      h.out.standby && (answer.Null? || (answer.Ready? && OutRoutedToSco(h) && !made))
    case Read(answer, made) =>
      h.inp.standby && (answer.Null? ||
        (answer.Ready? && h.requestedRate != (if InRoutedToSco(h) then SCO_RATE else MAIN_RATE) && !made))
    case _ => false
  }

  predicate NoPoorStarts(h: Hal, events: seq<Event>)
    decreases |events|
  {
    events == [] || (!PoorStart(h, events[0]) && NoPoorStarts(Handle(h, events[0]), events[1..]))
  }

  predicate EquippedThroughout(h: Hal, events: seq<Event>)
    decreases |events|
  {
    Equipped(h) && (events == [] || EquippedThroughout(Handle(h, events[0]), events[1..]))
  }

  lemma EquippedAfterOut(h: Hal, answer: Answer, made: bool)
    requires Inv(h) && Equipped(h)
    ensures Equipped(StartOut(h, answer, made)) <==> !PoorStart(h, Write(answer, made))
  {
    StartOutKeeps(h, answer, made);
    InStandbyKeeps(h);
  }

  lemma EquippedAfterIn(h: Hal, answer: Answer, made: bool)
    requires Inv(h) && Equipped(h)
    ensures Equipped(StartIn(h, answer, made)) <==> !PoorStart(h, Read(answer, made))
  {
    StartInKeeps(h, answer, made);
    OutStandbyKeeps(h);
  }

  lemma EquippedAfterOne(h: Hal, e: Event)
    requires Inv(h) && Equipped(h)
    ensures Equipped(Handle(h, e)) <==> !PoorStart(h, e)
  {
    match e {
      case Write(answer, made) => EquippedAfterOut(h, answer, made);
      case Read(answer, made) => EquippedAfterIn(h, answer, made);
      case OutStandby => OutStandbyKeeps(h);
      case InStandby => InStandbyKeeps(h);
      case OutRouting(val) => OutStandbyKeeps(h);
      case InRouting(val) => InStandbyKeeps(h);
    }
  }

  // The active streams are equipped throughout a run exactly if no start in it was a poor one.
  lemma {:induction false} EquippedExactly(h: Hal, events: seq<Event>)
    requires Inv(h) && Equipped(h)
    ensures EquippedThroughout(h, events) <==> NoPoorStarts(h, events)
    decreases |events|
  {
    if events == [] {
    } else {
      EquippedAfterOne(h, events[0]);
      HandleKeeps(h, events[0]);
      if Equipped(Handle(h, events[0])) {
        EquippedExactly(Handle(h, events[0]), events[1..]);
      }
    }
  }

  // The first write gets no PCM from pcm_open, and the output is active all the same.
  lemma StartedWithoutPcm(h: Hal, made: bool)
    requires Initial(h)
    ensures var h' := HandleAll(h, [Write(Null, made)]);
      h'.outActive && h'.out.pcm.None? && !EquippedThroughout(h, [Write(Null, made)])
  {
    var events := [Write(Null, made)];
    assert events[1..] == [];
    assert HandleAll(h, events) == HandleAll(Handle(h, events[0]), []);
    EquippedExactly(h, events);
  }

  // ---- routing ----------------------------------------------------------------------------------------

  // The last device word routed to the output, or the one before; an empty word is not one.
  function LastOutWord(events: seq<Event>, was: Bits): Bits {
    if events == [] then was
    else
      match events[|events| - 1]
      case OutRouting(val) => if val != {} then val else LastOutWord(events[..|events| - 1], was)
      case _ => LastOutWord(events[..|events| - 1], was)
  }

  function LastInWord(events: seq<Event>, was: Bits): Bits {
    if events == [] then was
    else
      match events[|events| - 1]
      case InRouting(val) => if val != {} then val else LastInWord(events[..|events| - 1], was)
      case _ => LastInWord(events[..|events| - 1], was)
  }

  lemma {:induction false} HandleOneMore(h: Hal, events: seq<Event>)
    requires events != []
    ensures HandleAll(h, events) == Handle(HandleAll(h, events[..|events| - 1]), events[|events| - 1])
    decreases |events|
  {
    var n := |events| - 1;
    if n == 0 {
      assert HandleAll(Handle(h, events[0]), events[1..]) == Handle(h, events[0]);
    } else {
      HandleOneMore(Handle(h, events[0]), events[1..]);
      assert events[1..][..n - 1] == events[..n][1..];
    }
  }

  predicate SameWords(h: Hal, h': Hal) {
    && h'.scoOut == h.scoOut && h'.scoIn == h.scoIn && h'.requestedRate == h.requestedRate
    && h'.outDevice == h.outDevice && h'.inDevice == h.inDevice
  }

  lemma StartOutKeepsWords(h: Hal, answer: Answer, made: bool)
    ensures SameWords(h, StartOut(h, answer, made))
  {
    assert SameWords(h, MakeRoomForOut(h));
    assert SameWords(h, OpenedOut(MakeRoomForOut(h), answer));
  }

  lemma StartInKeepsWords(h: Hal, answer: Answer, made: bool)
    ensures SameWords(h, StartIn(h, answer, made))
  {
    assert SameWords(h, MakeRoomForIn(h));
    assert SameWords(h, OpenedIn(MakeRoomForIn(h), answer));
  }

  // Writes, reads and standbys leave the device words alone; a routing sets its own.
  lemma WordsOfOne(h: Hal, e: Event)
    ensures var h' := Handle(h, e);
      && h'.scoOut == h.scoOut && h'.scoIn == h.scoIn && h'.requestedRate == h.requestedRate
      && h'.outDevice == (if e.OutRouting? && e.val != {} then e.val else h.outDevice)
      && h'.inDevice == (if e.InRouting? && e.val != {} then e.val else h.inDevice)
  {
    match e {
      case Write(answer, made) => StartOutKeepsWords(h, answer, made);
      case Read(answer, made) => StartInKeepsWords(h, answer, made);
      case OutStandby =>
      case InStandby =>
      case OutRouting(val) => RoutingStandsBy(h, val);
      case InRouting(val) => RoutingInStandsBy(h, val);
    }
  }

  // After any run the device words are the last ones routed, or those of open.
  lemma {:induction false} RoutedLast(h: Hal, events: seq<Event>)
    ensures HandleAll(h, events).outDevice == LastOutWord(events, h.outDevice)
    ensures HandleAll(h, events).inDevice == LastInWord(events, h.inDevice)
    decreases |events|
  {
    if events == [] {
    } else {
      var n := |events| - 1;
      RoutedLast(h, events[..n]);
      HandleOneMore(h, events);
      WordsOfOne(HandleAll(h, events[..n]), events[n]);
    }
  }

  // A bit of the mask that one word has and the other has not.
  predicate Differ(mask: Bits, a: Bits, b: Bits) {
    exists bit :: bit in mask && ((bit in a && bit !in b) || (bit in b && bit !in a))
  }

  lemma ToggledMeansDiffer(mask: Bits, a: Bits, b: Bits)
    ensures Xor(a * mask, b * mask) != {} <==> Differ(mask, a, b)
    ensures Differ(mask, a, b) <==> a * mask != b * mask
  {
    if Differ(mask, a, b) {
      var bit :| bit in mask && ((bit in a && bit !in b) || (bit in b && bit !in a));
      assert bit in Xor(a * mask, b * mask);
    }
    if Xor(a * mask, b * mask) != {} {
      var bit :| bit in Xor(a * mask, b * mask);
      assert bit in mask;
    }
    XorEmpty(a * mask, b * mask);
  }

  // A routing of the output stores its word, puts the output into standby exactly if the words differ
  // in a SCO bit, and touches nothing else.
  lemma RoutingStandsBy(h: Hal, val: Bits)
    ensures var h' := RouteOut(h, val);
      && h'.outDevice == (if val == {} then h.outDevice else val)
      && (h'.out.standby <==> h.out.standby || (val != {} && Differ(h.scoOut, val, h.outDevice)))
      && h'.inp == h.inp && h'.inActive == h.inActive && h'.inDevice == h.inDevice
      && (h'.out.standby == h.out.standby ==> h' == h.(outDevice := h'.outDevice))
      && (h'.out.standby != h.out.standby ==> h' == OutToStandby(h).(outDevice := val))
  {
    ToggledMeansDiffer(h.scoOut, val, h.outDevice);
  }

  lemma RoutingInStandsBy(h: Hal, val: Bits)
    ensures var h' := RouteIn(h, val);
      && h'.inDevice == (if val == {} then h.inDevice else val)
      && (h'.inp.standby <==> h.inp.standby || (val != {} && Differ(h.scoIn, val, h.inDevice)))
      && h'.out == h.out && h'.outActive == h.outActive && h'.outDevice == h.outDevice
      && (h'.inp.standby == h.inp.standby ==> h' == h.(inDevice := h'.inDevice))
      && (h'.inp.standby != h.inp.standby ==> h' == InToStandby(h).(inDevice := val))
  {
    ToggledMeansDiffer(h.scoIn, val, h.inDevice);
  }

  // Standby gives everything of the stream back: the PCM is closed, its pointer gone.
  lemma StandbyGivesBack(h: Hal, p: nat)
    ensures var h' := OutToStandby(h);
      && h'.out.standby && h'.inp == h.inp && h'.inActive == h.inActive && h'.opens == h.opens
      && (h.out.standby ==> h' == h)
      && (!h.out.standby ==> h'.out == Stream(true, h.out.config, None, false, false) && !h'.outActive)
      && (!h.out.standby && h.out.pcm == Some(p) ==> h'.open == h.open - {p} && h'.closed == h.closed + [p])
    ensures var h' := InToStandby(h);
      && h'.inp.standby && h'.out == h.out && h'.outActive == h.outActive && h'.opens == h.opens
      && (h.inp.standby ==> h' == h)
      && (!h.inp.standby ==> h'.inp == Stream(true, h.inp.config, None, false, false) && !h'.inActive)
      && (!h.inp.standby && h.inp.pcm == Some(p) ==> h'.open == h.open - {p} && h'.closed == h.closed + [p])
  {
  }

  // What a write makes of an output in standby.  It gets the PCM opened next, if any; routed to SCO its
  // rate is not the HAL's, and it gets a buffer and, if it can be made, a resampler.  A PCM that is not
  // ready is closed again and the stream stays in standby.
  lemma WhatAStartGives(h: Hal, answer: Answer, made: bool)
    requires h.out.standby
    ensures var h', sco := StartOut(h, answer, made), h.outDevice * h.scoOut != {};
      && h'.out.config == (if sco then Sco else Main)
      && h'.out.pcm == (if answer == Null then None else Some(h.opens))
      && h'.opens == (if answer == Null then h.opens else h.opens + 1)
      && (answer == NotReady ==>
            && h'.out == h.out.(config := h'.out.config, pcm := h'.out.pcm) && h'.outActive == h.outActive
            && h.opens in h'.closed && h.opens !in h'.open)
      && (answer != NotReady ==>
            && !h'.out.standby && h'.outActive && h'.out.resampler == (sco && made) && h'.out.buffer == sco
            && (answer == Ready ==> h.opens in h'.open))
  {
  }

  lemma WhatAStartOfInputGives(h: Hal, answer: Answer, made: bool)
    requires h.inp.standby
    ensures var h', sco := StartIn(h, answer, made), h.inDevice * h.scoIn != {};
      && h'.inp.config == (if sco then Sco else Main)
      && h'.inp.pcm == (if answer == Null then None else Some(h.opens))
      && h'.opens == (if answer == Null then h.opens else h.opens + 1)
      && (answer == NotReady ==>
            && h'.inp == h.inp.(config := h'.inp.config, pcm := h'.inp.pcm) && h'.inActive == h.inActive
            && h.opens in h'.closed && h.opens !in h'.open)
      && (answer != NotReady ==>
            && !h'.inp.standby && h'.inActive && h'.inp.buffer
            && h'.inp.resampler == (made && h.requestedRate != (if sco then 8000 else 44100))
            && (answer == Ready ==> h.opens in h'.open))
  {
  }

  // A write that finds the output in standby leaves the output active unless its PCM is not ready;
  // the input keeps running exactly if its rate is in the group of the rate the output is routed to.
  lemma WriteWins(h: Hal, answer: Answer, made: bool)
    requires Inv(h) && h.out.standby
    ensures var h' := StartOut(h, answer, made);
      && (h'.outActive <==> !answer.NotReady?)
      && (h'.inActive <==> h.inActive && (h.inp.config.Sco? <==> OutRoutedToSco(h)))
  {
  }

  lemma ReadWins(h: Hal, answer: Answer, made: bool)
    requires Inv(h) && h.inp.standby
    ensures var h' := StartIn(h, answer, made);
      && (h'.inActive <==> !answer.NotReady?)
      && (h'.outActive <==> h.outActive && (h.out.config.Sco? <==> InRoutedToSco(h)))
  {
  }

  // ---- the fields and the code that updates them ---------------------------------------------------

  class AudioDevice {
    const scoOut: Bits
    const scoIn: Bits
    const requestedRate: nat
    var outDevice: Bits
    var inDevice: Bits
    var outActive: bool
    var inActive: bool

    var outStandby: bool
    var outConfig: Config
    var outPcm: Option<nat>
    var outResampler: bool
    var outBuffer: bool

    var inStandby: bool
    var inConfig: Config
    var inPcm: Option<nat>
    var inResampler: bool
    var inBuffer: bool

    // The kernel's side.
    var opens: nat
    var open: set<nat>
    var closed: seq<nat>

    ghost function View(): Hal
      reads this
    {
      Hal(scoOut, scoIn, outDevice, inDevice,
          Stream(outStandby, outConfig, outPcm, outResampler, outBuffer),
          Stream(inStandby, inConfig, inPcm, inResampler, inBuffer),
          outActive, inActive, requestedRate, opens, open, closed)
    }

    constructor (scoOut: Bits, scoIn: Bits, outDevice: Bits, inDevice: Bits, requestedRate: nat)
      ensures Initial(View()) && Inv(View())
      ensures View().outDevice == outDevice && View().inDevice == inDevice
    {
      this.scoOut, this.scoIn, this.requestedRate := scoOut, scoIn, requestedRate;
      this.outDevice, this.inDevice := outDevice, inDevice;
      outActive, inActive := false, false;
      outStandby, outConfig, outPcm, outResampler, outBuffer := true, Main, None, false, false;
      inStandby, inConfig, inPcm, inResampler, inBuffer := true, Main, None, false, false;
      opens, open, closed := 0, {}, [];
    }

    method PcmOpen(answer: Answer) returns (pcm: Option<nat>)
      modifies this`opens, this`open
      ensures View() == OpenPcm(old(View()), answer) && pcm == NewPcm(old(View()), answer)
    {
      if answer.Null? {
        return None;
      }
      pcm := Some(opens);
      open := open + {opens};
      opens := opens + 1;
    }

    method PcmClose(pcm: Option<nat>)
      modifies this`open, this`closed
      ensures View() == ClosePcm(old(View()), pcm)
    {
      if pcm.Some? {
        open := open - {pcm.value};
        closed := closed + [pcm.value];
      }
    }

    method ReleaseOut()
      modifies this`outResampler, this`outBuffer
      ensures !outResampler && !outBuffer
    {
      if outResampler {
        outResampler := false;
      }
      if outBuffer {
        outBuffer := false;
      }
    }

    method StopOut()
      modifies this`outPcm, this`outActive, this`outResampler, this`outBuffer, this`outStandby
      ensures View() == old(View().(out := Stream(true, outConfig, None, false, false), outActive := false))
    {
      outPcm := None;
      outActive := false;
      ReleaseOut();
      outStandby := true;
    }

    method DoOutStandby()
      modifies this
      ensures View() == OutToStandby(old(View()))
    {
      if !outStandby {
        PcmClose(outPcm);
        StopOut();
      }
    }

    method ReleaseIn()
      modifies this`inResampler, this`inBuffer
      ensures !inResampler && !inBuffer
    {
      if inResampler {
        inResampler := false;
      }
      if inBuffer {
        inBuffer := false;
      }
    }

    method StopIn()
      modifies this`inPcm, this`inActive, this`inResampler, this`inBuffer, this`inStandby
      ensures View() == old(View().(inp := Stream(true, inConfig, None, false, false), inActive := false))
    {
      inPcm := None;
      inActive := false;
      ReleaseIn();
      inStandby := true;
    }

    method DoInStandby()
      modifies this
      ensures View() == InToStandby(old(View()))
    {
      if !inStandby {
        PcmClose(inPcm);
        StopIn();
      }
    }

    method ChooseOutConfig()
      modifies this
      ensures View() == MakeRoomForOut(old(View()))
    {
      if outDevice * scoOut != {} {
        outConfig := Sco;
      } else {
        outConfig := Main;
      }
      if inActive {
        if Conflicts(Rate(outConfig), Rate(inConfig)) {
          DoInStandby();
        }
      }
    }

    method ChooseInConfig()
      modifies this
      ensures View() == MakeRoomForIn(old(View()))
    {
      if inDevice * scoIn != {} {
        inConfig := Sco;
      } else {
        inConfig := Main;
      }
      if outActive {
        if Conflicts(Rate(inConfig), Rate(outConfig)) {
          DoOutStandby();
        }
      }
    }

    method OpenOut(answer: Answer) returns (ok: bool)
      modifies this`outPcm, this`opens, this`open, this`closed
      ensures ok == !answer.NotReady?
      ensures View() == OpenedOut(old(View()), answer)
    {
      outPcm := PcmOpen(answer);
      ok := !(outPcm.Some? && answer.NotReady?);
      if !ok {
        PcmClose(outPcm);
      }
    }

    method EquipOut(made: bool)
      requires !outResampler && !outBuffer
      modifies this`outResampler, this`outBuffer, this`outActive
      ensures outResampler == (outBuffer && made) && outBuffer == (MAIN_RATE != Rate(outConfig)) && outActive
    {
      if MAIN_RATE != Rate(outConfig) {
        outResampler := made;
        outBuffer := true;
      }
      outActive := true;
    }

    method OpenIn(answer: Answer) returns (ok: bool)
      modifies this`inPcm, this`opens, this`open, this`closed
      ensures ok == !answer.NotReady?
      ensures View() == OpenedIn(old(View()), answer)
    {
      inPcm := PcmOpen(answer);
      ok := !(inPcm.Some? && answer.NotReady?);
      if !ok {
        PcmClose(inPcm);
      }
    }

    method EquipIn(made: bool)
      requires !inResampler
      modifies this`inResampler, this`inBuffer, this`inActive
      ensures inResampler == (requestedRate != Rate(inConfig) && made) && inBuffer && inActive
    {
      if requestedRate != Rate(inConfig) {
        inResampler := made;
      }
      inBuffer := true;
      inActive := true;
    }

    // start_output_stream; ok is its return value 0.
    method StartOutputStream(answer: Answer, made: bool) returns (ok: bool)
      requires outStandby && !outResampler && !outBuffer
      modifies this
      ensures ok == !answer.NotReady?
      ensures (if ok then View().(out := View().out.(standby := false)) else View()) ==
        StartOut(old(View()), answer, made)
    {
      ChooseOutConfig();
      ok := OpenOut(answer);
      if ok {
        EquipOut(made);
      }
    }

    method StartInputStream(answer: Answer, made: bool) returns (ok: bool)
      requires inStandby && !inResampler && !inBuffer
      modifies this
      ensures ok == !answer.NotReady?
      ensures (if ok then View().(inp := View().inp.(standby := false)) else View()) ==
        StartIn(old(View()), answer, made)
    {
      ChooseInConfig();
      ok := OpenIn(answer);
      if ok {
        EquipIn(made);
      }
    }

    // out_write up to the release of the device mutex.
    method OutWrite(answer: Answer, made: bool)
      requires Inv(View())
      modifies this
      ensures View() == StartOut(old(View()), answer, made) && Inv(View())
    {
      StartOutKeeps(View(), answer, made);
      if outStandby {
        var ok := StartOutputStream(answer, made);
        if ok {
          outStandby := false;
        }
      }
    }

    method InRead(answer: Answer, made: bool)
      requires Inv(View())
      modifies this
      ensures View() == StartIn(old(View()), answer, made) && Inv(View())
    {
      StartInKeeps(View(), answer, made);
      if inStandby {
        var ok := StartInputStream(answer, made);
        if ok {
          inStandby := false;
        }
      }
    }

    method OutSetParameters(val: Bits)
      requires Inv(View())
      modifies this
      ensures View() == RouteOut(old(View()), val) && Inv(View())
    {
      RouteOutKeeps(View(), val);
      if outDevice != val && val != {} {
        if Xor(val * scoOut, outDevice * scoOut) != {} {
          DoOutStandby();
        }
        outDevice := val;
      }
    }

    method InSetParameters(val: Bits)
      requires Inv(View())
      modifies this
      ensures View() == RouteIn(old(View()), val) && Inv(View())
    {
      RouteInKeeps(View(), val);
      if inDevice != val && val != {} {
        if Xor(val * scoIn, inDevice * scoIn) != {} {
          DoInStandby();
        }
        inDevice := val;
      }
    }
  }
}
