/** readEvents of the pressure and the magnetic sensor drivers (libsensors/PressSensor.cpp,
    libsensors/MagSensor.cpp, with no flush pending).  Data events collect in one pending event per
    sensor; a SYN event sends the pending events that have news.  A caller with too small a buffer
    gets part of them and the rest with the next call.

    Sensor values are the raw values of the input events. */
module EventConsumer {
  import opened EventRing
  import opened Sequences

  const ABS_X := 0
  const ABS_Y := 1
  const ABS_Z := 2
  const ABS_RX := 3
  const ABS_RY := 4
  const ABS_RZ := 5
  const ABS_WHEEL := 8
  const ABS_PRESSURE := 24
  const ABS_MISC := 40

  // Both drivers serve two sensors: pressure and temperature, magnetic field and orientation.
  datatype Driver = Press | Mag

  datatype SensorEvent = SensorEvent(sensor: nat, timestamp: int, x: int, y: int, z: int, status: int)

  // mPendingMask, one bit per sensor, and mPendingEvent.
  datatype Pending = Pending(mask: seq<bool>, event: seq<SensorEvent>)

  predicate TwoSensors(p: Pending) {
    |p.mask| == |p.event| == 2
  }

  function With(p: Pending, i: nat, e: SensorEvent): (r: Pending)
    requires TwoSensors(p) && i < 2
    ensures TwoSensors(r)
  {
    Pending(p.mask[i := true], p.event[i := e])
  }

  function Collect(d: Driver, p: Pending, code: int, value: int): (r: Pending)
    requires TwoSensors(p)
    ensures TwoSensors(r)
  {
    if d.Press? then
      if code == ABS_PRESSURE then With(p, 0, p.event[0].(x := value))
      else if code == ABS_MISC then With(p, 1, p.event[1].(x := value))
      else p
    else
      if code == ABS_X then With(p, 0, p.event[0].(x := value))
      else if code == ABS_Y then With(p, 0, p.event[0].(y := value))
      else if code == ABS_Z then With(p, 0, p.event[0].(z := value))
      else if code == ABS_RX then With(p, 1, p.event[1].(x := value))
      else if code == ABS_RY then With(p, 1, p.event[1].(y := value))
      else if code == ABS_RZ then With(p, 1, p.event[1].(z := value))
      else if code == ABS_WHEEL then
        With(With(p, 0, p.event[0].(status := value)), 1, p.event[1].(status := value))
      else p
  }

  // ---- what a caller with room for everything gets --------------------------------------------------

  datatype Delivery = Delivery(pending: Pending, output: seq<SensorEvent>)

  function Report(p: Pending, enabled: seq<bool>, i: nat, time: int): seq<SensorEvent>
    requires TwoSensors(p) && |enabled| == 2 && i < 2
  {
    if p.mask[i] && enabled[i] then [p.event[i].(timestamp := time)] else []
  }

  function Settle(p: Pending, i: nat, time: int): (r: Pending)
    requires TwoSensors(p) && i < 2
    ensures TwoSensors(r)
  {
    if p.mask[i] then Pending(p.mask[i := false], p.event[i := p.event[i].(timestamp := time)]) else p
  }

  function Deliver(d: Driver, enabled: seq<bool>, p: Pending, events: seq<InputEvent>): (r: Delivery)
    requires TwoSensors(p) && |enabled| == 2
    ensures TwoSensors(r.pending)
    decreases |events|
  {
    if events == [] then Delivery(p, [])
    else
      var e := events[0];
      if e.kind == EV_ABS || e.kind == EV_REL || e.kind == EV_KEY then
        Deliver(d, enabled, Collect(d, p, e.code, e.value), events[1..])
      else if e.kind == EV_SYN then
        var rest := Deliver(d, enabled, Settle(Settle(p, 0, e.time), 1, e.time), events[1..]);
        Delivery(rest.pending, Report(p, enabled, 0, e.time) + Report(p, enabled, 1, e.time) + rest.output)
      else
        Deliver(d, enabled, p, events[1..])
  }

  lemma {:induction false} DeliverInTwoParts(d: Driver, enabled: seq<bool>, p: Pending,
                                             a: seq<InputEvent>, b: seq<InputEvent>)
    requires TwoSensors(p) && |enabled| == 2
    ensures var first := Deliver(d, enabled, p, a);
      var second := Deliver(d, enabled, first.pending, b);
      Deliver(d, enabled, p, a + b) == Delivery(second.pending, first.output + second.output)
    decreases |a|
  {
    if a == [] {
      assert a + b == b;
    } else {
      var e := a[0];
      assert (a + b)[0] == e && (a + b)[1..] == a[1..] + b;
      if e.kind == EV_ABS || e.kind == EV_REL || e.kind == EV_KEY {
        DeliverInTwoParts(d, enabled, Collect(d, p, e.code, e.value), a[1..], b);
      } else if e.kind == EV_SYN {
        DeliverInTwoParts(d, enabled, Settle(Settle(p, 0, e.time), 1, e.time), a[1..], b);
      } else {
        DeliverInTwoParts(d, enabled, p, a[1..], b);
      }
    }
  }

  // ---- what an event carries --------------------------------------------------------------------------

  predicate IsData(e: InputEvent) {
    e.kind == EV_ABS || e.kind == EV_REL || e.kind == EV_KEY
  }

  predicate NoSyn(events: seq<InputEvent>, k: nat) {
    forall j :: k <= j < |events| ==> events[j].kind != EV_SYN
  }

  predicate NoData(events: seq<InputEvent>, code: int, k: nat) {
    forall j :: k <= j < |events| ==> !(IsData(events[j]) && events[j].code == code)
  }

  // The value of the last data event with this code, or what was there before.
  function Latest(events: seq<InputEvent>, code: int, was: int): int {
    if events == [] then was
    else
      var n := |events| - 1;
      if IsData(events[n]) && events[n].code == code then events[n].value else Latest(events[..n], code, was)
  }

  // If no such event comes at or after k, and the one right before k is such an event, that one decides.
  lemma {:induction false} LatestIs(events: seq<InputEvent>, code: int, was: int, k: nat)
    requires k <= |events| && NoData(events, code, k)
    requires k > 0 ==> IsData(events[k - 1]) && events[k - 1].code == code
    ensures Latest(events, code, was) == if k == 0 then was else events[k - 1].value
  {
    if k == |events| {
    } else {
      var n := |events| - 1;
      assert !(IsData(events[n]) && events[n].code == code);
      assert NoData(events[..n], code, k);
      LatestIs(events[..n], code, was, k);
    }
  }

  // A data event with one of these codes has come since the last SYN event, or nothing was sent since.
  ghost predicate HasNews(events: seq<InputEvent>, codes: set<int>, was: bool) {
    || (was && NoSyn(events, 0))
    || exists k :: 0 <= k < |events| && IsData(events[k]) && events[k].code in codes && NoSyn(events, k + 1)
  }

  lemma SynsAfterOne(events: seq<InputEvent>, e: InputEvent, k: nat)
    requires k <= |events|
    ensures NoSyn(events + [e], k) <==> NoSyn(events, k) && e.kind != EV_SYN
  {
    var more, n := events + [e], |events|;
    if NoSyn(more, k) {
      assert more[n].kind != EV_SYN;
      assert forall j :: k <= j < n ==> events[j] == more[j];
    }
  }

  lemma NewsAfterOne(events: seq<InputEvent>, e: InputEvent, codes: set<int>, was: bool)
    ensures HasNews(events + [e], codes, was) <==>
      e.kind != EV_SYN && (HasNews(events, codes, was) || (IsData(e) && e.code in codes))
  {
    var more, n := events + [e], |events|;
    forall k: nat | k <= n
      ensures NoSyn(more, k) <==> NoSyn(events, k) && e.kind != EV_SYN
    {
      SynsAfterOne(events, e, k);
    }
    if IsData(e) && e.code in codes && e.kind != EV_SYN {
      assert more[n] == e && NoSyn(more, n + 1);
    }
    if e.kind != EV_SYN && HasNews(events, codes, was) && !(was && NoSyn(events, 0)) {
      var k :| 0 <= k < n && IsData(events[k]) && events[k].code in codes && NoSyn(events, k + 1);
      assert more[k] == events[k] && NoSyn(more, k + 1);
    }
    if HasNews(more, codes, was) && !(was && NoSyn(more, 0)) {
      var k :| 0 <= k <= n && IsData(more[k]) && more[k].code in codes && NoSyn(more, k + 1);
      if k < n {
        assert events[k] == more[k] && NoSyn(events, k + 1);
      } else {
        assert more[k] == e;
      }
    }
  }

  // The codes of each sensor.
  function CodesOf(d: Driver, i: nat): set<int> {
    match d
    case Press => if i == 0 then {24} else {40}
    case Mag => if i == 0 then {0, 1, 2, 8} else {3, 4, 5, 8}
  }

  // Sensor i's values after these events, from its values e before them.
  ghost predicate Carries(d: Driver, i: nat, e: SensorEvent, events: seq<InputEvent>, r: SensorEvent) {
    && r.sensor == e.sensor
    && match d
       case Press =>
         && r.x == Latest(events, if i == 0 then 24 else 40, e.x) && r.y == e.y && r.z == e.z && r.status == e.status
       case Mag =>
         && r.x == Latest(events, if i == 0 then 0 else 3, e.x)
         && r.y == Latest(events, if i == 0 then 1 else 4, e.y)
         && r.z == Latest(events, if i == 0 then 2 else 5, e.z)
         && r.status == Latest(events, 8, e.status)
  }

  // The pending event of each sensor holds the latest value of each of its codes, and is marked
  // exactly if there is news since the last SYN event.
  lemma {:induction false} PendingIsLatest(d: Driver, enabled: seq<bool>, p: Pending, events: seq<InputEvent>, i: nat)
    requires TwoSensors(p) && |enabled| == 2 && i < 2
    ensures var q := Deliver(d, enabled, p, events).pending;
      Carries(d, i, p.event[i], events, q.event[i]) && (q.mask[i] <==> HasNews(events, CodesOf(d, i), p.mask[i]))
  {
    if events == [] {
    } else {
      var n := |events| - 1;
      assert events == events[..n] + [events[n]];
      PendingIsLatest(d, enabled, p, events[..n], i);
      DeliverOneMore(d, enabled, p, events[..n], events[n]);
      NewsAfterOne(events[..n], events[n], CodesOf(d, i), p.mask[i]);
      OneMoreCarried(d, p.event[i], events[..n], events[n], Deliver(d, enabled, p, events[..n]).pending, i);
    }
  }

  // What one event does to what is pending.
  function Pended(d: Driver, p: Pending, e: InputEvent): (r: Pending)
    requires TwoSensors(p)
    ensures TwoSensors(r)
  {
    if IsData(e) then Collect(d, p, e.code, e.value)
    else if e.kind == EV_SYN then Settle(Settle(p, 0, e.time), 1, e.time)
    else p
  }

  lemma DeliverOneMore(d: Driver, enabled: seq<bool>, p: Pending, events: seq<InputEvent>, e: InputEvent)
    requires TwoSensors(p) && |enabled| == 2
    ensures var r := Deliver(d, enabled, p, events);
      Deliver(d, enabled, p, events + [e]) == Delivery(Pended(d, r.pending, e),
        r.output + if e.kind == EV_SYN then Reports(r.pending, enabled, e.time) else [])
  {
    var r := Deliver(d, enabled, p, events);
    DeliverInTwoParts(d, enabled, p, events, [e]);
    OneEvent(d, enabled, r.pending, e);
  }

  lemma OneEvent(d: Driver, enabled: seq<bool>, p: Pending, e: InputEvent)
    requires TwoSensors(p) && |enabled| == 2
    ensures Deliver(d, enabled, p, [e]) ==
      Delivery(Pended(d, p, e), if e.kind == EV_SYN then Reports(p, enabled, e.time) else [])
  {
    assert [e][1..] == [];
  }

  lemma OneMoreCarried(d: Driver, was: SensorEvent, events: seq<InputEvent>, e: InputEvent, p: Pending, i: nat)
    requires TwoSensors(p) && i < 2 && Carries(d, i, was, events, p.event[i])
    ensures Carries(d, i, was, events + [e], Pended(d, p, e).event[i])
    ensures Pended(d, p, e).mask[i] <==>
      e.kind != EV_SYN && (p.mask[i] || (IsData(e) && e.code in CodesOf(d, i)))
  {
    assert (events + [e])[..|events|] == events;
  }

  // A SYN event delivers one event with its time and the latest values for each enabled sensor with
  // news, sensor 0 first; every other event delivers nothing.
  lemma WhatIsDelivered(d: Driver, enabled: seq<bool>, p: Pending, events: seq<InputEvent>, e: InputEvent)
    returns (first: seq<SensorEvent>, second: seq<SensorEvent>)
    requires TwoSensors(p) && |enabled| == 2
    ensures Deliver(d, enabled, p, []).output == []
    ensures Deliver(d, enabled, p, events + [e]).output == Deliver(d, enabled, p, events).output + first + second
    ensures |first| == if e.kind == EV_SYN && enabled[0] && HasNews(events, CodesOf(d, 0), p.mask[0]) then 1 else 0
    ensures |second| == if e.kind == EV_SYN && enabled[1] && HasNews(events, CodesOf(d, 1), p.mask[1]) then 1 else 0
    ensures forall r :: r in first ==> r.timestamp == e.time && Carries(d, 0, p.event[0], events, r)
    ensures forall r :: r in second ==> r.timestamp == e.time && Carries(d, 1, p.event[1], events, r)
  {
    PendingIsLatest(d, enabled, p, events, 0);
    PendingIsLatest(d, enabled, p, events, 1);
    DeliverOneMore(d, enabled, p, events, e);
    var q := Deliver(d, enabled, p, events).pending;
    first := if e.kind == EV_SYN then Report(q, enabled, 0, e.time) else [];
    second := if e.kind == EV_SYN then Report(q, enabled, 1, e.time) else [];
    Regroup(Deliver(d, enabled, p, events).output, first, second);
  }

  // ---- one call -----------------------------------------------------------------------------------

  // What readEvents leaves between two calls.
  datatype State = State(pending: Pending, unread: seq<InputEvent>)

  // The output still to come from what has been read so far.
  function Future(d: Driver, enabled: seq<bool>, s: State): Delivery
    requires TwoSensors(s.pending) && |enabled| == 2
  {
    Deliver(d, enabled, s.pending, s.unread)
  }

  // A call with room for count events, during which the accepted ones were read.  It hands over the
  // first events of what is due; only for lack of room it leaves anything behind.
  ghost predicate Called(d: Driver, enabled: seq<bool>, s: State, accepted: seq<InputEvent>, count: nat,
                         output: seq<SensorEvent>, s': State)
    requires |enabled| == 2
  {
    && TwoSensors(s.pending) && TwoSensors(s'.pending)
    && (exists k :: 0 <= k <= |s.unread + accepted| && s'.unread == (s.unread + accepted)[k..])
    && |output| <= count && (|output| < count ==> s'.unread == [])
    && Future(d, enabled, State(s.pending, s.unread + accepted)) == After(output, Future(d, enabled, s'))
  }

  class SensorDriver {
    const driver: Driver
    const mEnabled: array<bool>
    const mPendingMask: array<bool>
    const mPendingEvent: array<SensorEvent>
    const mInputReader: InputEventCircularReader

    ghost function Repr(): set<object> {
      {this, mEnabled, mPendingMask, mPendingEvent, mInputReader, mInputReader.buffer}
    }

    ghost predicate Valid()
      reads Repr()
    {
      && mEnabled.Length == mPendingMask.Length == mPendingEvent.Length == 2
      && mEnabled != mPendingMask
      && mInputReader.Valid()
    }

    function View(): Pending
      reads mPendingMask, mPendingEvent
    {
      Pending(mPendingMask[..], mPendingEvent[..])
    }

    ghost function Now(): State
      reads mPendingMask, mPendingEvent, mInputReader
    {
      State(View(), mInputReader.contents)
    }

    // 4 events for the pressure driver, 16 for the magnetic one.
    constructor (driver: Driver)
      ensures Valid() && fresh(Repr())
      ensures this.driver == driver && mEnabled[..] == [false, false] && View().mask == [false, false]
      ensures mInputReader.contents == []
    {
      this.driver := driver;
      mEnabled, mPendingMask := new bool[2](_ => false), new bool[2](_ => false);
      mPendingEvent := new SensorEvent[2](i => SensorEvent(if i == 0 then 0 else 1, 0, 0, 0, 0, 0));
      mInputReader := new InputEventCircularReader(if driver.Press? then 4 else 16);
    }

    method Put(i: nat, e: SensorEvent)
      requires Valid() && i < 2
      modifies mPendingMask, mPendingEvent
      ensures View() == With(old(View()), i, e)
    {
      mPendingMask[i] := true;
      mPendingEvent[i] := e;
    }

    method ProcessEvent(code: int, value: int)
      requires Valid()
      modifies mPendingMask, mPendingEvent
      ensures View() == Collect(driver, old(View()), code, value)
    {
      match driver {
        case Press =>
          if code == ABS_PRESSURE {
            Put(0, mPendingEvent[0].(x := value));
          } else if code == ABS_MISC {
            Put(1, mPendingEvent[1].(x := value));
          }
        case Mag =>
          if code == ABS_X {
            Put(0, mPendingEvent[0].(x := value));
          } else if code == ABS_Y {
            Put(0, mPendingEvent[0].(y := value));
          } else if code == ABS_Z {
            Put(0, mPendingEvent[0].(z := value));
          } else if code == ABS_RX {
            Put(1, mPendingEvent[1].(x := value));
          } else if code == ABS_RY {
            Put(1, mPendingEvent[1].(y := value));
          } else if code == ABS_RZ {
            Put(1, mPendingEvent[1].(z := value));
          } else if code == ABS_WHEEL {
            Put(0, mPendingEvent[0].(status := value));
            Put(1, mPendingEvent[1].(status := value));
          }
      }
    }

    // The loop over the sensors at a SYN event, with room for count events.
    method Flush(time: int, count: nat) returns (sent: seq<SensorEvent>)
      requires Valid()
      modifies mPendingMask, mPendingEvent
      ensures Rest(mEnabled[..], View(), time, sent) == Rest(mEnabled[..], old(View()), time, [])
      ensures |sent| <= count && (mPendingMask[0] || mPendingMask[1] ==> |sent| == count)
    {
      sent := [];
      var i := 0;
      while i < 2 && (mPendingMask[0] || mPendingMask[1]) && |sent| < count
        invariant i <= 2 && |sent| <= count && forall k :: 0 <= k < i ==> !mPendingMask[k]
        invariant Rest(mEnabled[..], View(), time, sent) == Rest(mEnabled[..], old(View()), time, [])
      {
        if mPendingMask[i] {
          ghost var before, had := View(), sent;
          mPendingMask[i] := false;
          mPendingEvent[i] := mPendingEvent[i].(timestamp := time);
          if mEnabled[i] {
            sent := sent + [mPendingEvent[i]];
          }
          assert View() == Settle(before, i, time);
          OneSettled(mEnabled[..], before, i, time, had);
        }
        i := i + 1;
      }
    }

    // The body of the loop of readEvents, with room for count events.  A SYN event whose flush is
    // cut short stays at the head.
    method HandleEvent(count: nat) returns (sent: seq<SensorEvent>)
      requires Valid() && mInputReader.contents != [] && count > 0
      modifies mPendingMask, mPendingEvent, mInputReader, mInputReader.buffer
      ensures Valid() && mEnabled[..] == old(mEnabled[..]) && |sent| <= count
      ensures mInputReader.contents == old(mInputReader.contents)[1..] ||
        (mInputReader.contents == old(mInputReader.contents) && |sent| == count)
      ensures old(Future(driver, mEnabled[..], Now())) == After(sent, Future(driver, mEnabled[..], Now()))
    {
      sent := [];
      var available, event := mInputReader.ReadEvent();
      ghost var before := Now();
      if event.kind == EV_ABS || event.kind == EV_REL || event.kind == EV_KEY {
        ProcessEvent(event.code, event.value);
        mInputReader.Next();
      } else if event.kind == EV_SYN {
        sent := Flush(event.time, count);
        SynStep(driver, mEnabled[..], before, View(), sent);
        if !mPendingMask[0] && !mPendingMask[1] {
          mInputReader.Next();
        }
      } else {
        mInputReader.Next();
      }
    }

    method ReadEvents(count: int, answer: Answer) returns (ret: int, data: seq<SensorEvent>)
      requires Valid()
      requires answer.Failed? ==> answer.errno > 0
      requires answer.Got? ==> |answer.events| <= mInputReader.freeSpace
      modifies mPendingMask, mPendingEvent, mInputReader, mInputReader.buffer
      ensures Valid() && mEnabled[..] == old(mEnabled[..])
      ensures count < 1 ==> ret == 0 - EINVAL && data == [] && Now() == old(Now())
      ensures ret < 0 ==> data == [] && Now() == old(Now())
      ensures count >= 1 && ret < 0 ==> ret == if answer.Failed? then 0 - answer.errno else 0 - EINVAL
      ensures ret >= 0 ==> count >= 1 && ret == |data|
      ensures ret >= 0 ==>
        Called(driver, mEnabled[..], old(Now()), if old(mInputReader.freeSpace) == 0 then [] else Accepted(answer),
               count, data, Now())
      ensures ret < 0 <==>
        count < 1 || (old(mInputReader.freeSpace) > 0 && (answer.Failed? || answer.partial))
    {
      data := [];
      if count < 1 {
        return 0 - EINVAL, data;
      }
      var n := mInputReader.Fill(answer);
      if n < 0 {
        return n, data;
      }
      ghost var all := mInputReader.contents;
      assert all == old(mInputReader.contents) + if old(mInputReader.freeSpace) == 0 then [] else Accepted(answer);
      ghost var due := Future(driver, mEnabled[..], Now());
      ghost var k := 0;
      while |data| < count && mInputReader.freeSpace < mInputReader.n
        invariant Valid() && mEnabled[..] == old(mEnabled[..])
        invariant k <= |all| && mInputReader.contents == all[k..]
        invariant |data| <= count
        invariant due == After(data, Future(driver, mEnabled[..], Now()))
        decreases |mInputReader.contents|, count - |data|
      {
        var sent := HandleEvent(count - |data|);
        AfterBoth(data, sent);
        if mInputReader.contents != all[k..] {
          k := k + 1;
        }
        data := data + sent;
      }
      ret := |data|;
    }
  }

  function After(sent: seq<SensorEvent>, due: Delivery): Delivery {
    due.(output := sent + due.output)
  }

  lemma AfterBoth(a: seq<SensorEvent>, b: seq<SensorEvent>)
    ensures forall due: Delivery :: After(a, After(b, due)) == After(a + b, due)
  {
    forall due: Delivery
      ensures After(a, After(b, due)) == After(a + b, due)
    {
      assert a + (b + due.output) == a + b + due.output;
    }
  }

  // What a SYN event makes of p, after some has been sent already.
  function Rest(enabled: seq<bool>, p: Pending, time: int, sent: seq<SensorEvent>): Delivery
    requires TwoSensors(p) && |enabled| == 2
  {
    Delivery(Settle(Settle(p, 0, time), 1, time), sent + Reports(p, enabled, time))
  }

  // Sensors before i have nothing to report.
  lemma OneSettled(enabled: seq<bool>, p: Pending, i: nat, time: int, sent: seq<SensorEvent>)
    requires TwoSensors(p) && |enabled| == 2 && i < 2 && forall k :: 0 <= k < i ==> !p.mask[k]
    ensures Rest(enabled, Settle(p, i, time), time, sent + Report(p, enabled, i, time)) == Rest(enabled, p, time, sent)
  {
    var q := Settle(p, i, time);
    assert Report(q, enabled, i, time) == [];
    if i == 0 {
      assert Settle(q, 0, time) == q;
    } else {
      assert Settle(p, 0, time) == p && Settle(q, 0, time) == q && Settle(q, 1, time) == q;
    }
  }

  function Reports(p: Pending, enabled: seq<bool>, time: int): seq<SensorEvent>
    requires TwoSensors(p) && |enabled| == 2
  {
    Report(p, enabled, 0, time) + Report(p, enabled, 1, time)
  }

  lemma DeliverSyn(d: Driver, enabled: seq<bool>, p: Pending, events: seq<InputEvent>, settled: Pending)
    requires TwoSensors(p) && TwoSensors(settled) && |enabled| == 2 && events != [] && events[0].kind == EV_SYN
    requires settled == Settle(Settle(p, 0, events[0].time), 1, events[0].time)
    ensures Deliver(d, enabled, p, events)
         == After(Reports(p, enabled, events[0].time), Deliver(d, enabled, settled, events[1..]))
  {
  }

  // A SYN event at the head, flushed in part or as a whole, leaves the rest of the output due.
  lemma SynStep(d: Driver, enabled: seq<bool>, s: State, p: Pending, sent: seq<SensorEvent>)
    requires TwoSensors(s.pending) && TwoSensors(p) && |enabled| == 2
    requires s.unread != [] && s.unread[0].kind == EV_SYN
    requires Rest(enabled, p, s.unread[0].time, sent) == Rest(enabled, s.pending, s.unread[0].time, [])
    ensures Future(d, enabled, s) == After(sent, Future(d, enabled, State(p, s.unread)))
    ensures !p.mask[0] && !p.mask[1] ==>
      Future(d, enabled, s) == After(sent, Future(d, enabled, State(p, s.unread[1..])))
  {
    var time := s.unread[0].time;
    var settled := Settle(Settle(p, 0, time), 1, time);
    var rest := Deliver(d, enabled, settled, s.unread[1..]);
    DeliverSyn(d, enabled, s.pending, s.unread, settled);
    DeliverSyn(d, enabled, p, s.unread, settled);
    Regroup(sent, Reports(p, enabled, time), rest.output);
    assert [] + Reports(s.pending, enabled, time) == Reports(s.pending, enabled, time);
    if !p.mask[0] && !p.mask[1] {
      assert settled == p && Reports(p, enabled, time) == [];
      assert [] + rest.output == rest.output;
    }
  }

  // ---- any number of calls --------------------------------------------------------------------------

  datatype CallRecord = CallRecord(accepted: seq<InputEvent>, count: nat, output: seq<SensorEvent>, after: State)

  function StateAfter(s: State, calls: seq<CallRecord>): State {
    if calls == [] then s else calls[|calls| - 1].after
  }

  ghost predicate Calls(d: Driver, enabled: seq<bool>, s: State, calls: seq<CallRecord>)
    requires |enabled| == 2
  {
    && TwoSensors(s.pending)
    && forall i :: 0 <= i < |calls| ==>
          Called(d, enabled, StateAfter(s, calls[..i]),
                calls[i].accepted, calls[i].count, calls[i].output, calls[i].after)
  }

  function AllAccepted(calls: seq<CallRecord>): seq<InputEvent> {
    if calls == [] then [] else AllAccepted(calls[..|calls| - 1]) + calls[|calls| - 1].accepted
  }

  function AllOutput(calls: seq<CallRecord>): seq<SensorEvent> {
    if calls == [] then [] else AllOutput(calls[..|calls| - 1]) + calls[|calls| - 1].output
  }

  // However the room is divided over the calls, together they hand over the first events of what one
  // delivery of all the input would, and what is missing is still to come.
  lemma {:induction false} ChunkingDoesNotMatter(d: Driver, enabled: seq<bool>, s: State, calls: seq<CallRecord>)
    requires |enabled| == 2 && Calls(d, enabled, s, calls)
    ensures TwoSensors(StateAfter(s, calls).pending)
    ensures Deliver(d, enabled, s.pending, s.unread + AllAccepted(calls))
         == After(AllOutput(calls), Future(d, enabled, StateAfter(s, calls)))
    decreases |calls|
  {
    if calls == [] {
      assert s.unread + [] == s.unread;
    } else {
      var before, c := calls[..|calls| - 1], calls[|calls| - 1];
      forall i | 0 <= i < |before|
        ensures calls[i] == before[i] && calls[..i] == before[..i]
      {
      }
      ChunkingDoesNotMatter(d, enabled, s, before);
      var mid := StateAfter(s, before);
      assert Called(d, enabled, StateAfter(s, calls[..|before|]), c.accepted, c.count, c.output, c.after);
      LaterInput(d, enabled, s, AllAccepted(before), c.accepted, AllOutput(before), mid);
      AfterBoth(AllOutput(before), c.output);
    }
  }

  lemma LaterInput(d: Driver, enabled: seq<bool>, s: State, a: seq<InputEvent>, more: seq<InputEvent>,
                   output: seq<SensorEvent>, mid: State)
    requires |enabled| == 2 && TwoSensors(s.pending) && TwoSensors(mid.pending)
    requires Deliver(d, enabled, s.pending, s.unread + a) == After(output, Future(d, enabled, mid))
    ensures Deliver(d, enabled, s.pending, s.unread + (a + more))
         == After(output, Deliver(d, enabled, mid.pending, mid.unread + more))
  {
    DeliverInTwoParts(d, enabled, s.pending, s.unread + a, more);
    DeliverInTwoParts(d, enabled, mid.pending, mid.unread, more);
    assert s.unread + (a + more) == s.unread + a + more;
    var rest := Deliver(d, enabled, Future(d, enabled, mid).pending, more).output;
    assert output + Future(d, enabled, mid).output + rest == output + (Future(d, enabled, mid).output + rest);
  }

  // If the last call had room to spare, everything has been handed over.
  lemma NothingIsLeftBehind(d: Driver, enabled: seq<bool>, s: State, calls: seq<CallRecord>)
    requires |enabled| == 2 && Calls(d, enabled, s, calls)
    requires calls != [] && |calls[|calls| - 1].output| < calls[|calls| - 1].count
    ensures AllOutput(calls) == Deliver(d, enabled, s.pending, s.unread + AllAccepted(calls)).output
    ensures TwoSensors(StateAfter(s, calls).pending)
    ensures StateAfter(s, calls).pending == Deliver(d, enabled, s.pending, s.unread + AllAccepted(calls)).pending
  {
    ChunkingDoesNotMatter(d, enabled, s, calls);
    var i, c := |calls| - 1, calls[|calls| - 1];
    assert Called(d, enabled, StateAfter(s, calls[..i]), c.accepted, c.count, c.output, c.after);
  }
}
