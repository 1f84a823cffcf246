/** Who decides what the accelerometer does (libsensors/sensors.cpp, libsensors/AccelSensor.cpp,
    libsensors/MagSensor.cpp).  The magnetic and the orientation sensor need it in continuous mode,
    so while one of them runs, a batch request for the accelerometer is only recorded. */
module AccelArbiter {

  const ID_A := 0
  const ID_M := 1
  const ID_O := 2
  const ID_L := 4
  const ID_PX := 7
  const HANDLES := 32
  const EINVAL := 22
  const ACC_FIFO_MAX_TIMEOUT := 20480000000

  datatype Parameter = Parameter(period: int, timeout: int)

  datatype Accel = Accel(
    user: nat,                 // mUser
    enabled: nat,              // mEnabled
    on: bool,                  // the last value written to the enable attribute
    batching: bool,            // the ID_A bit of mBatchEnabled
    fifo: Parameter,           // the last values written to the fifo attribute
    delay: int)                // mDelay

  datatype Magnet = Magnet(mag: nat, orn: nat, on: bool)

  datatype State = State(
    runTimes: nat,             // magRunTimes
    recorded: seq<Parameter>,  // mBatchParameter
    accel: Accel,
    magnet: Magnet)

  function Down(n: nat): nat {
    if n > 0 then n - 1 else 0
  }

  function Count(n: nat, enable: bool): nat {
    if enable then n + 1 else Down(n)
  }

  function AccelBatch(a: Accel, period: int, timeout: int): Accel {
    a.(fifo := Parameter(period, timeout), delay := period, batching := timeout > 0)
  }

  function AccelEnable(a: Accel, handle: int, enable: bool): Accel {
    var user := Count(a.user, enable);
    a.(user := user, enabled := if handle == ID_A then Count(a.enabled, enable) else a.enabled, on := user > 0)
  }

  function MagnetEnable(m: Magnet, handle: int, enable: bool): Magnet {
    var mag := if handle == ID_O then m.mag else Count(m.mag, enable);
    var orn := if handle == ID_O then Count(m.orn, enable) else m.orn;
    Magnet(mag, orn, mag > 0 || orn > 0)
  }

  predicate IsMagnet(handle: int) {
    handle == ID_M || handle == ID_O
  }

  // The handles that share the accelerometer.
  predicate Counts(handle: int) {
    handle == ID_A || IsMagnet(handle)
  }

  predicate Shape(s: State) {
    |s.recorded| == HANDLES
  }

  function Activated(s: State, handle: int, enable: bool): State
    requires Shape(s)
  {
    if handle == ID_A then
      var a := if enable && s.runTimes > 0 then AccelBatch(s.accel, s.recorded[ID_A].period, 0) else s.accel;
      s.(accel := AccelEnable(a, ID_A, enable))
    else if IsMagnet(handle) then
      var run := Count(s.runTimes, enable);
      var a := if run > 0 then AccelBatch(s.accel, s.recorded[handle].period, 0)
               else AccelBatch(s.accel, s.recorded[ID_A].period, s.recorded[ID_A].timeout);
      State(run, s.recorded, AccelEnable(a, handle, enable), MagnetEnable(s.magnet, handle, enable))
    else s
  }

  function Batched(s: State, handle: int, dryRun: bool, period: int, timeout: int): State
    requires Shape(s)
  {
    if dryRun || (handle != ID_A && !IsMagnet(handle) && handle != ID_L && handle != ID_PX) then s
    else
      var s' := if handle == ID_A then
          s.(accel := AccelBatch(s.accel, period, if s.runTimes > 0 then 0 else timeout))
        else s;
      s'.(recorded := s.recorded[handle := Parameter(period, timeout)])
  }

  datatype Call =
    | DoActivate(handle: int, enable: bool)
    | DoBatch(handle: int, dryRun: bool, period: int, timeout: int)

  function Do(s: State, c: Call): (r: State)
    requires Shape(s)
    ensures Shape(r)
  {
    match c
    case DoActivate(h, enable) => Activated(s, h, enable)
    case DoBatch(h, dryRun, period, timeout) => Batched(s, h, dryRun, period, timeout)
  }

  function After(s: State, calls: seq<Call>): (r: State)
    requires Shape(s)
    ensures Shape(r)
  {
    if calls == [] then s else Do(After(s, calls[..|calls| - 1]), calls[|calls| - 1])
  }

  // The constructors leave mBatchParameter as it is.
  predicate Fresh(s: State) {
    && Shape(s) && s.runTimes == 0
    && s.accel.user == s.accel.enabled == 0 && !s.accel.on && !s.accel.batching && s.accel.fifo.timeout <= 0
    && s.magnet == Magnet(0, 0, false)
  }

  // ---- batch mode --------------------------------------------------------------------------------

  // The accelerometer batches exactly when no magnetic sensor runs and the last recorded request
  // has a timeout; the fifo was configured accordingly.
  predicate Arbitrated(s: State)
    requires Shape(s)
  {
    && (s.accel.batching <==> s.runTimes == 0 && s.recorded[ID_A].timeout > 0)
    && (s.accel.fifo.timeout > 0 <==> s.accel.batching)
  }

  lemma DoKeepsArbitrated(s: State, c: Call)
    requires Shape(s) && Arbitrated(s)
    ensures Arbitrated(Do(s, c))
  {
  }

  // The parameters of the last batch call for a handle that was not a dry run, or those before.
  function LastRequest(calls: seq<Call>, handle: int, was: Parameter): Parameter {
    if calls == [] then was
    else
      match calls[|calls| - 1]
      case DoBatch(h, dryRun, period, timeout) =>
        if h == handle && !dryRun then Parameter(period, timeout) else LastRequest(calls[..|calls| - 1], handle, was)
      case DoActivate(_, _) => LastRequest(calls[..|calls| - 1], handle, was)
  }

  // Every request is recorded, whatever runs, and for its own handle only.
  lemma {:induction false} RecordedIsLastRequest(s: State, calls: seq<Call>, handle: int)
    requires Shape(s) && handle in {0, 1, 2, 4, 7}
    ensures After(s, calls).recorded[handle] == LastRequest(calls, handle, s.recorded[handle])
    decreases |calls|
  {
    if calls == [] {
    } else {
      RecordedIsLastRequest(s, calls[..|calls| - 1], handle);
    }
  }

  // A count of users, one call on: never below zero.
  function Used(users: nat, c: Call, handles: set<int>): nat {
    match c
    case DoActivate(h, enable) =>
      if h !in handles then users else if enable then users + 1 else if users > 0 then users - 1 else 0
    case DoBatch(_, _, _, _) => users
  }

  // How many of the handles are in use.
  function InUse(calls: seq<Call>, handles: set<int>): nat {
    if calls == [] then 0 else Used(InUse(calls[..|calls| - 1], handles), calls[|calls| - 1], handles)
  }

  predicate AttributesFollow(t: State) {
    (t.accel.on <==> t.accel.user > 0) && (t.magnet.on <==> t.magnet.mag > 0 || t.magnet.orn > 0)
  }

  lemma DoCountsForAccel(t: State, c: Call)
    requires Shape(t)
    ensures var u := Do(t, c);
      && u.accel.user == Used(t.accel.user, c, {0, 1, 2}) && u.accel.enabled == Used(t.accel.enabled, c, {0})
      && ((t.accel.on <==> t.accel.user > 0) ==> (u.accel.on <==> u.accel.user > 0))
  {
  }

  lemma DoCountsForMagnet(t: State, c: Call)
    requires Shape(t)
    ensures var u := Do(t, c);
      && u.runTimes == Used(t.runTimes, c, {1, 2})
      && u.magnet.mag == Used(t.magnet.mag, c, {1}) && u.magnet.orn == Used(t.magnet.orn, c, {2})
      && ((t.magnet.on <==> t.magnet.mag > 0 || t.magnet.orn > 0) ==>
            (u.magnet.on <==> u.magnet.mag > 0 || u.magnet.orn > 0))
  {
  }

  // Each of the five counters counts the activations of its own handles.
  lemma {:induction false} CountersCount(s: State, calls: seq<Call>)
    requires Fresh(s)
    ensures var t := After(s, calls);
      && t.accel.user == InUse(calls, {0, 1, 2}) && t.accel.enabled == InUse(calls, {0})
      && t.runTimes == InUse(calls, {1, 2})
      && t.magnet.mag == InUse(calls, {1}) && t.magnet.orn == InUse(calls, {2})
      && AttributesFollow(t)
    decreases |calls|
  {
    if calls == [] {
    } else {
      CountersCount(s, calls[..|calls| - 1]);
      DoCountsForAccel(After(s, calls[..|calls| - 1]), calls[|calls| - 1]);
      DoCountsForMagnet(After(s, calls[..|calls| - 1]), calls[|calls| - 1]);
    }
  }

  // What the calls ask of the accelerometer: it batches if no magnetic sensor is in use and the last
  // request for it has a timeout.
  ghost predicate BatchesAsAsked(s: State, calls: seq<Call>)
    requires Shape(s)
  {
    var t := After(s, calls);
    && (t.accel.batching <==> InUse(calls, {1, 2}) == 0 && LastRequest(calls, 0, s.recorded[0]).timeout > 0)
    && (t.accel.fifo.timeout > 0 <==> t.accel.batching)
  }

  lemma AskedIsArbitrated(s: State, calls: seq<Call>)
    requires Fresh(s)
    ensures BatchesAsAsked(s, calls) <==> Arbitrated(After(s, calls))
  {
    RecordedIsLastRequest(s, calls, 0);
    CountersCount(s, calls);
  }

  // It does so after every run of calls exactly if mBatchParameter does not start with a positive
  // timeout for the accelerometer, about which the constructor does nothing.
  lemma {:induction false} ArbitratedThroughout(s: State)
    requires Fresh(s)
    ensures (forall calls: seq<Call> :: BatchesAsAsked(s, calls)) <==> s.recorded[ID_A].timeout <= 0
  {
    if s.recorded[ID_A].timeout <= 0 {
      forall calls: seq<Call> ensures BatchesAsAsked(s, calls) {
        ArbitratedAfter(s, calls);
        AskedIsArbitrated(s, calls);
      }
    } else {
      AskedIsArbitrated(s, []);
      assert !Arbitrated(After(s, []));
    }
  }

  // The parameters a call gives the accelerometer's fifo, if any: magnets is whether a magnetic sensor
  // is in use then, and a, m and o are the last requests for the three handles.  While one is, an
  // activate of it sets the fifo to its own last period, an enable of the accelerometer to the
  // accelerometer's, and a request for that to the requested one, each without a timeout.  Otherwise a
  // request is followed as it is, and the end of the last one brings back the accelerometer's.
  function Configured(c: Call, magnets: bool, a: Parameter, m: Parameter, o: Parameter, was: Parameter): Parameter {
    match c
    case DoActivate(h, enable) =>
      if h == 1 then if magnets then Parameter(m.period, 0) else a
      else if h == 2 then if magnets then Parameter(o.period, 0) else a
      else if h == 0 && enable && magnets then Parameter(a.period, 0)
      else was
    case DoBatch(h, dryRun, period, timeout) =>
      if h == 0 && !dryRun then Parameter(period, if magnets then 0 else timeout) else was
  }

  lemma DoConfigures(t: State, c: Call)
    requires Shape(t)
    ensures var u := Do(t, c);
      && u.accel.fifo == Configured(c, u.runTimes > 0, u.recorded[0], u.recorded[1], u.recorded[2], t.accel.fifo)
      && (t.accel.delay == t.accel.fifo.period ==> u.accel.delay == u.accel.fifo.period)
  {
  }

  function Wanted(calls: seq<Call>, recorded: seq<Parameter>, was: Parameter): Parameter
    requires |recorded| == HANDLES
  {
    if calls == [] then was
    else
      Configured(calls[|calls| - 1], InUse(calls, {1, 2}) > 0, LastRequest(calls, 0, recorded[0]),
                 LastRequest(calls, 1, recorded[1]), LastRequest(calls, 2, recorded[2]),
                 Wanted(calls[..|calls| - 1], recorded, was))
  }

  // After any run the fifo has the parameters that the calls, in turn, gave it.
  lemma {:induction false} FifoIsAsWanted(s: State, calls: seq<Call>)
    requires Fresh(s)
    ensures After(s, calls).accel.fifo == Wanted(calls, s.recorded, s.accel.fifo)
    ensures s.accel.delay == s.accel.fifo.period ==> After(s, calls).accel.delay == After(s, calls).accel.fifo.period
    decreases |calls|
  {
    if calls == [] {
    } else {
      var n := |calls| - 1;
      FifoIsAsWanted(s, calls[..n]);
      DoConfigures(After(s, calls[..n]), calls[n]);
      CountersCount(s, calls);
      RecordedIsLastRequest(s, calls, 0);
      RecordedIsLastRequest(s, calls, 1);
      RecordedIsLastRequest(s, calls, 2);
    }
  }

  lemma {:induction false} ArbitratedAfter(s: State, calls: seq<Call>)
    requires Shape(s) && Arbitrated(s)
    ensures Arbitrated(After(s, calls))
    decreases |calls|
  {
    if calls == [] {
    } else {
      ArbitratedAfter(s, calls[..|calls| - 1]);
      DoKeepsArbitrated(After(s, calls[..|calls| - 1]), calls[|calls| - 1]);
    }
  }

  // ---- counting users ------------------------------------------------------------------------------

  function UsersOf(s: State, handle: int): nat {
    if handle == ID_A then s.accel.enabled else if handle == ID_O then s.magnet.orn else s.magnet.mag
  }

  predicate Balanced(s: State) {
    && s.runTimes == s.magnet.mag + s.magnet.orn
    && s.accel.user == s.runTimes + s.accel.enabled
    && (s.accel.on <==> s.accel.user > 0)
    && (s.magnet.on <==> s.runTimes > 0)
  }

  // The shared counters come apart exactly when a sensor that is not enabled is disabled while
  // another one of the three is.
  lemma WhenTheCountsComeApart(s: State, handle: int, enable: bool)
    requires Shape(s) && Balanced(s) && Counts(handle)
    ensures Balanced(Activated(s, handle, enable)) <==>
      enable || UsersOf(s, handle) > 0 || s.accel.user == 0
  {
  }

  lemma UsersAreInUse(s: State, calls: seq<Call>, handle: int)
    requires Fresh(s) && Counts(handle)
    ensures UsersOf(After(s, calls), handle) == InUse(calls, {handle})
  {
    CountersCount(s, calls);
  }

  // The call does not disable a sensor that is off while another one of the three is on.
  predicate Fair(before: seq<Call>, c: Call) {
    c.DoActivate? && Counts(c.handle) && !c.enable ==>
      InUse(before, {c.handle}) > 0 || InUse(before, {ID_A}) + InUse(before, {ID_M}) + InUse(before, {ID_O}) == 0
  }

  predicate FairThroughout(calls: seq<Call>) {
    calls == [] || (FairThroughout(calls[..|calls| - 1]) && Fair(calls[..|calls| - 1], calls[|calls| - 1]))
  }

  predicate BalancedThroughout(s: State, calls: seq<Call>)
    requires Shape(s)
  {
    Balanced(After(s, calls)) && (calls == [] || BalancedThroughout(s, calls[..|calls| - 1]))
  }

  // From the start and over any run the shared counters add up after every call exactly if no call
  // disables a sensor that is off while another one is on.
  lemma {:induction false} BalancedExactlyIfFair(s: State, calls: seq<Call>)
    requires Fresh(s)
    ensures BalancedThroughout(s, calls) <==> FairThroughout(calls)
    decreases |calls|
  {
    if calls == [] {
    } else {
      var before, last := calls[..|calls| - 1], calls[|calls| - 1];
      BalancedExactlyIfFair(s, before);
      if BalancedThroughout(s, before) {
        BalancedAfterOne(s, before, last);
      }
    }
  }

  lemma BalancedAfterOne(s: State, before: seq<Call>, c: Call)
    requires Fresh(s) && Balanced(After(s, before))
    ensures Balanced(Do(After(s, before), c)) <==> Fair(before, c)
  {
    UsersAreInUse(s, before, ID_A);
    UsersAreInUse(s, before, ID_M);
    UsersAreInUse(s, before, ID_O);
    if c.DoActivate? && Counts(c.handle) {
      WhenTheCountsComeApart(After(s, before), c.handle, c.enable);
    }
  }

  // Enables of a handle minus its disables.
  function Outstanding(calls: seq<Call>, handle: int): int {
    if calls == [] then 0
    else
      Outstanding(calls[..|calls| - 1], handle) +
      Change(calls[|calls| - 1], handle)
  }

  function Change(c: Call, handle: int): int {
    if c.DoBatch? || c.handle != handle then 0 else if c.enable then 1 else -1
  }

  lemma CountsFollow(t: State, c: Call)
    requires Shape(t) && Balanced(t)
    requires UsersOf(t, ID_A) + Change(c, ID_A) >= 0
    requires UsersOf(t, ID_M) + Change(c, ID_M) >= 0
    requires UsersOf(t, ID_O) + Change(c, ID_O) >= 0
    ensures Balanced(Do(t, c))
    ensures UsersOf(Do(t, c), ID_A) == UsersOf(t, ID_A) + Change(c, ID_A)
    ensures UsersOf(Do(t, c), ID_M) == UsersOf(t, ID_M) + Change(c, ID_M)
    ensures UsersOf(Do(t, c), ID_O) == UsersOf(t, ID_O) + Change(c, ID_O)
  {
  }

  ghost predicate NeverBelowZero(calls: seq<Call>, handle: int) {
    forall k :: 0 <= k <= |calls| ==> Outstanding(calls[..k], handle) >= 0
  }

  // If no handle is ever disabled more often than enabled, every counter is what its name says: the
  // accelerometer runs exactly while one of the three is enabled, and the magnetometer exactly while
  // one of its two is.
  lemma {:induction false} CountsAreOutstanding(s: State, calls: seq<Call>)
    requires Fresh(s)
    requires NeverBelowZero(calls, ID_A) && NeverBelowZero(calls, ID_M) && NeverBelowZero(calls, ID_O)
    ensures var t := After(s, calls);
      && Balanced(t)
      && t.accel.enabled == Outstanding(calls, ID_A)
      && t.magnet.mag == Outstanding(calls, ID_M)
      && t.magnet.orn == Outstanding(calls, ID_O)
    ensures After(s, calls).accel.on <==>
      Outstanding(calls, ID_A) + Outstanding(calls, ID_M) + Outstanding(calls, ID_O) > 0
    ensures After(s, calls).magnet.on <==> Outstanding(calls, ID_M) + Outstanding(calls, ID_O) > 0
    decreases |calls|
  {
    if calls == [] {
    } else {
      var before := calls[..|calls| - 1];
      forall h | h in {ID_A, ID_M, ID_O}
        ensures NeverBelowZero(before, h) && Outstanding(calls, h) >= 0
      {
        Shorter(calls, h);
      }
      CountsAreOutstanding(s, before);
      CountsFollow(After(s, before), calls[|calls| - 1]);
    }
  }

  lemma Shorter(calls: seq<Call>, h: int)
    requires calls != [] && NeverBelowZero(calls, h)
    ensures NeverBelowZero(calls[..|calls| - 1], h) && Outstanding(calls, h) >= 0
  {
    assert calls[..|calls|] == calls;
    assert Outstanding(calls[..|calls|], h) >= 0;
    var before := calls[..|calls| - 1];
    forall k | 0 <= k <= |before|
      ensures Outstanding(before[..k], h) >= 0
    {
      assert before[..k] == calls[..k];
    }
  }

  // The orientation sensor was never enabled; disabling it takes the accelerometer away from the
  // magnetic sensor.
  lemma DisablingWhatIsOff(s: State)
    requires Fresh(s)
    ensures var t := After(s, [DoActivate(ID_M, true), DoActivate(ID_O, false)]);
      t.magnet.on && !t.accel.on && t.runTimes == 0 && !Balanced(t)
  {
    var calls := [DoActivate(ID_M, true), DoActivate(ID_O, false)];
    assert calls[..1] == [DoActivate(ID_M, true)];
    assert [DoActivate(ID_M, true)][..0] == [];
    assert After(s, calls[..1]) == Do(s, calls[0]);
  }

  // ---- the drivers ---------------------------------------------------------------------------------

  class AccelSensor {
    var mUser: int
    var mEnabled: int
    var written: bool
    var mBatchEnabled: bool
    var fifo: Parameter
    var mDelay: int

    ghost predicate Valid()
      reads this
    {
      mUser >= 0 && mEnabled >= 0
    }

    ghost function View(): Accel
      requires Valid()
      reads this
    {
      Accel(mUser, mEnabled, written, mBatchEnabled, fifo, mDelay)
    }

    constructor ()
      ensures Valid() && View() == Accel(0, 0, false, false, Parameter(0, 0), 0)
    {
      mUser, mEnabled, written, mBatchEnabled := 0, 0, false, false;
      fifo, mDelay := Parameter(0, 0), 0;
    }

    // fails is what the write to the enable attribute answers.
    method SetEnable(handle: int, en: bool, fails: int) returns (err: int)
      requires Valid()
      modifies this
      ensures Valid()
      ensures if handle == ID_A || IsMagnet(handle)
        then err == fails && View() == AccelEnable(old(View()), handle, en)
        else err == -1 && View() == old(View())
    {
      if handle != ID_A && handle != ID_O && handle != ID_M {
        return -1;
      }
      if en {
        mUser := mUser + 1;
        if handle == ID_A {
          mEnabled := mEnabled + 1;
        }
      } else {
        mUser := mUser - 1;
        if handle == ID_A {
          mEnabled := mEnabled - 1;
        }
      }
      if mUser < 0 {
        mUser := 0;
      }
      if mEnabled < 0 {
        mEnabled := 0;
      }
      written := mUser != 0;
      err := fails;
    }

    method Batch(dryRun: bool, period: int, timeout: int) returns (err: int)
      requires Valid()
      modifies this
      ensures Valid() && View() == if dryRun then old(View()) else AccelBatch(old(View()), period, timeout)
      ensures err == if dryRun && timeout > ACC_FIFO_MAX_TIMEOUT then 0 - EINVAL else 0
    {
      if dryRun {
        if timeout > ACC_FIFO_MAX_TIMEOUT {
          return 0 - EINVAL;
        }
        return 0;
      }
      fifo := Parameter(period, timeout);
      mDelay := period;
      mBatchEnabled := timeout > 0;
      return 0;
    }
  }

  class MagSensor {
    const mEnabled: array<int>     // mag, orn
    var written: bool

    ghost predicate Valid()
      reads this, mEnabled
    {
      mEnabled.Length == 2 && mEnabled[0] >= 0 && mEnabled[1] >= 0
    }

    ghost function View(): Magnet
      requires Valid()
      reads this, mEnabled
    {
      Magnet(mEnabled[0], mEnabled[1], written)
    }

    constructor ()
      ensures Valid() && View() == Magnet(0, 0, false) && fresh(mEnabled)
    {
      mEnabled := new int[2](_ => 0);
      written := false;
    }

    method SetEnable(handle: int, en: bool, fails: int) returns (err: int)
      requires Valid()
      modifies this, mEnabled
      ensures Valid() && err == fails && View() == MagnetEnable(old(View()), handle, en)
    {
      var what := 0;
      if handle == ID_O {
        what := 1;
      }
      if en {
        mEnabled[what] := mEnabled[what] + 1;
      } else {
        mEnabled[what] := mEnabled[what] - 1;
      }
      if mEnabled[what] < 0 {
        mEnabled[what] := 0;
      }
      written := mEnabled[0] > 0 || mEnabled[1] > 0;
      err := fails;
    }
  }

  class PollContext {
    const accel: AccelSensor
    const magnet: MagSensor
    const mBatchParameter: array<Parameter>
    var magRunTimes: int
    var wakes: nat               // wake messages written

    ghost predicate Valid()
      reads this, accel, magnet, magnet.mEnabled, mBatchParameter
    {
      accel.Valid() && magnet.Valid() && mBatchParameter.Length == HANDLES && magRunTimes >= 0
    }

    ghost function View(): State
      requires Valid()
      reads this, accel, magnet, magnet.mEnabled, mBatchParameter
    {
      State(magRunTimes, mBatchParameter[..], accel.View(), magnet.View())
    }

    // The allocation leaves something in mBatchParameter.
    constructor (garbage: seq<Parameter>)
      requires |garbage| == HANDLES
      ensures Valid() && Fresh(View()) && View().recorded == garbage
    {
      accel := new AccelSensor();
      magnet := new MagSensor();
      mBatchParameter := new Parameter[HANDLES](i requires 0 <= i < HANDLES => garbage[i]);
      magRunTimes, wakes := 0, 0;
      new;
      assert mBatchParameter[..] == garbage;
    }

    method CountRun(enabled: bool)
      requires magRunTimes >= 0
      modifies this`magRunTimes
      ensures magRunTimes == Count(old(magRunTimes), enabled)
    {
      if enabled {
        magRunTimes := magRunTimes + 1;
      } else {
        magRunTimes := magRunTimes - 1;
        if magRunTimes < 0 {
          magRunTimes := 0;
        }
      }
    }

    // The branch of activate for the two magnetic sensors.
    method ActivateMagnet(handle: int, enabled: bool, accelErr: int, otherErr: int) returns (err: int)
      requires Valid() && IsMagnet(handle)
      modifies this`magRunTimes, accel, magnet, magnet.mEnabled
      ensures Valid() && View() == Activated(old(View()), handle, enabled)
      ensures err == 0 <==> accelErr == 0 && otherErr == 0
    {
      CountRun(enabled);
      if magRunTimes > 0 {
        err := accel.Batch(false, mBatchParameter[handle].period, 0);
      } else {
        err := accel.Batch(false, mBatchParameter[ID_A].period, mBatchParameter[ID_A].timeout);
      }
      err := accel.SetEnable(handle, enabled, accelErr);
      var err' := magnet.SetEnable(handle, enabled, otherErr);
      err := if err != 0 then err else err';
    }

    // accelErr and otherErr are the answers of the enable attributes.
    method Activate(handle: int, enabled: bool, accelErr: int, otherErr: int) returns (err: int)
      requires Valid()
      modifies this, accel, magnet, magnet.mEnabled
      ensures Valid() && View() == Activated(old(View()), handle, enabled)
      ensures err == 0 <==>
        if handle == ID_A then accelErr == 0
        else if IsMagnet(handle) then accelErr == 0 && otherErr == 0
        else (handle == ID_L || handle == ID_PX) && otherErr == 0
      ensures wakes == old(wakes) + if err == 0 then 1 else 0
    {
      err := 0;
      if handle == ID_A {
        if enabled && magRunTimes > 0 {
          err := accel.Batch(false, mBatchParameter[handle].period, 0);
        }
        var err' := accel.SetEnable(handle, enabled, accelErr);
        err := if err != 0 then err else err';
      } else if handle == ID_O || handle == ID_M {
        err := ActivateMagnet(handle, enabled, accelErr, otherErr);
      } else if handle == ID_L || handle == ID_PX {
        err := otherErr;
      } else {
        return 0 - EINVAL;
      }
      if err == 0 {
        wakes := wakes + 1;
      }
    }

    // wakeUp is the flag SENSORS_BATCH_WAKE_UPON_FIFO_FULL, which only the accelerometer knows.
    method Batch(handle: int, dryRun: bool, wakeUp: bool, period: int, timeout: int) returns (ret: int)
      requires Valid()
      modifies this, accel, mBatchParameter
      ensures Valid() && View() == Batched(old(View()), handle, dryRun, period, timeout)
      ensures wakes == old(wakes) +
        if !dryRun && (handle == ID_A || IsMagnet(handle) || handle == ID_L || handle == ID_PX) then 1 else 0
      ensures ret == 0 <==>
        if handle == ID_A then !(dryRun && timeout > ACC_FIFO_MAX_TIMEOUT)
        else (IsMagnet(handle) || handle == ID_L || handle == ID_PX) && timeout <= 0 && !wakeUp
    {
      if handle != ID_A && handle != ID_M && handle != ID_O && handle != ID_L && handle != ID_PX {
        return 0 - EINVAL;
      }
      if handle == ID_A {
        ret := accel.Batch(dryRun, period, if !dryRun && magRunTimes > 0 then 0 else timeout);
      } else if timeout > 0 || wakeUp {
        ret := 0 - EINVAL;
      } else {
        ret := 0;
      }
      if !dryRun {
        mBatchParameter[handle] := Parameter(period, timeout);
        wakes := wakes + 1;
      }
    }
  }
}
