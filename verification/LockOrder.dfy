/** The locking protocol of the mx5x audio HAL (mx5x/audio/audio_hw.c): one device mutex and one
    mutex per stream, the device mutex always first.

    A thread is the list of lock operations it still has to perform; a call of the HAL contributes
    the operations of whichever path it takes. */
module LockOrder {
  import opened Wrappers

  const DEVICE: nat := 0

  datatype Op = Acquire(l: nat) | Release(l: nat)

  // owner[l] is the thread that holds l; code[t] is what thread t still has to do.
  datatype State = State(owner: map<nat, nat>, code: seq<seq<Op>>)

  // A release needs no waiting; an acquire waits until the mutex is free, its owner included.
  predicate CanStep(s: State, t: nat) {
    && t < |s.code| && s.code[t] != []
    && match s.code[t][0]
       case Acquire(l) => l !in s.owner
       case Release(l) => l in s.owner && s.owner[l] == t
  }

  function Step(s: State, t: nat): State
    requires CanStep(s, t)
  {
    var rest := s.code[t := s.code[t][1..]];
    match s.code[t][0]
    case Acquire(l) => State(s.owner[l := t], rest)
    case Release(l) => State(s.owner - {l}, rest)
  }

  predicate Done(s: State) {
    forall t :: 0 <= t < |s.code| ==> s.code[t] == []
  }

  function Held(s: State, t: nat): set<nat> {
    set l | l in s.owner && s.owner[l] == t
  }

  // The rule of the source: the device mutex first and with nothing else held, a stream mutex only
  // under it, no mutex twice, and everything given back at the end.
  predicate Disciplined(held: set<nat>, code: seq<Op>)
    decreases |code|
  {
    if code == [] then held == {}
    else match code[0]
      case Acquire(l) =>
        && l !in held
        && (if l == DEVICE then held == {} else DEVICE in held)
        && Disciplined(held + {l}, code[1..])
      case Release(l) => l in held && Disciplined(held - {l}, code[1..])
  }

  predicate Inv(s: State) {
    && (forall l :: l in s.owner ==> s.owner[l] < |s.code|)
    && (forall t: nat :: t < |s.code| ==> Disciplined(Held(s, t), s.code[t]))
  }

  lemma StepKeepsInv(s: State, t: nat)
    requires Inv(s) && CanStep(s, t)
    ensures Inv(Step(s, t))
  {
    var s' := Step(s, t);
    var op := s.code[t][0];
    forall u: nat | u < |s'.code| ensures Disciplined(Held(s', u), s'.code[u]) {
      assert Disciplined(Held(s, u), s.code[u]);
      if u == t {
        assert Held(s', t) == if op.Acquire? then Held(s, t) + {op.l} else Held(s, t) - {op.l};
      } else {
        assert Held(s', u) == Held(s, u);
      }
    }
  }

  // Whoever holds a stream mutex without the device mutex can release it now.
  lemma StreamHolderReleases(s: State, u: nat, l: nat)
    requires Inv(s) && l in s.owner && s.owner[l] == u && DEVICE !in Held(s, u)
    ensures CanStep(s, u)
  {
    assert l in Held(s, u) && Disciplined(Held(s, u), s.code[u]);
    if s.code[u][0].Release? {
      assert s.code[u][0].l in Held(s, u);
    }
  }

  // In every state that keeps the rule, some unfinished thread can step.
  lemma NoDeadlock(s: State) returns (t: nat)
    requires Inv(s) && !Done(s)
    ensures CanStep(s, t)
  {
    if DEVICE in s.owner {
      t := s.owner[DEVICE];
      assert DEVICE in Held(s, t) && Disciplined(Held(s, t), s.code[t]);
      match s.code[t][0] {
        case Release(l) => assert l in Held(s, t);
        case Acquire(l) =>
          if l in s.owner {
            var u := s.owner[l];
            assert l !in Held(s, t) && l != DEVICE;
            assert DEVICE !in Held(s, u);
            StreamHolderReleases(s, u, l);
            t := u;
          }
      }
    } else {
      t :| 0 <= t < |s.code| && s.code[t] != [];
      assert Disciplined(Held(s, t), s.code[t]);
      match s.code[t][0] {
        case Release(l) => assert l in Held(s, t);
        case Acquire(l) => assert DEVICE !in Held(s, t);
      }
    }
  }

  // ---- whole runs ---------------------------------------------------------------------------

  predicate IsRun(s: State, schedule: seq<nat>)
    decreases |schedule|
  {
    schedule == [] || (CanStep(s, schedule[0]) && IsRun(Step(s, schedule[0]), schedule[1..]))
  }

  function Final(s: State, schedule: seq<nat>): State
    requires IsRun(s, schedule)
    decreases |schedule|
  {
    if schedule == [] then s else Final(Step(s, schedule[0]), schedule[1..])
  }

  function Work(code: seq<seq<Op>>): nat {
    if code == [] then 0 else |code[0]| + Work(code[1..])
  }

  lemma {:induction false} WorkDrops(code: seq<seq<Op>>, t: nat)
    requires t < |code| && code[t] != []
    ensures Work(code[t := code[t][1..]]) == Work(code) - 1
  {
    var code' := code[t := code[t][1..]];
    if t > 0 {
      assert code'[1..] == code[1..][t - 1 := code[t][1..]];
      WorkDrops(code[1..], t - 1);
    } else {
      assert code'[1..] == code[1..];
    }
  }

  lemma {:induction false} NoWorkIsDone(s: State)
    requires Work(s.code) == 0
    ensures Done(s)
    decreases |s.code|
  {
    if s.code == [] {
    } else {
      NoWorkIsDone(State(s.owner, s.code[1..]));
      assert forall t :: 0 <= t < |s.code| ==> s.code[t] == if t == 0 then s.code[0] else s.code[1..][t - 1];
    }
  }

  lemma DoneHoldsNothing(s: State)
    requires Inv(s) && Done(s)
    ensures s.owner == map[]
  {
    forall t: nat | t < |s.code|
      ensures Held(s, t) == {}
    {
      assert Disciplined(Held(s, t), s.code[t]) && s.code[t] == [];
    }
    assert forall l :: l in s.owner ==> l in Held(s, s.owner[l]);
    if s.owner != map[] {
      assert false;
    }
  }

  // Every run takes one unit of work off per step, so none is longer than the work there is, and
  // a run that took it all has finished every thread with every mutex free.
  lemma {:induction false} RunsFinish(s: State, schedule: seq<nat>)
    requires Inv(s) && IsRun(s, schedule)
    ensures Inv(Final(s, schedule))
    ensures |schedule| + Work(Final(s, schedule).code) == Work(s.code)
    ensures |schedule| == Work(s.code) ==> Done(Final(s, schedule)) && Final(s, schedule).owner == map[]
    decreases |schedule|
  {
    if schedule == [] {
      if Work(s.code) == 0 {
        NoWorkIsDone(s);
        DoneHoldsNothing(s);
      }
    } else {
      StepKeepsInv(s, schedule[0]);
      WorkDrops(s.code, schedule[0]);
      RunsFinish(Step(s, schedule[0]), schedule[1..]);
    }
  }

  // No run gets stuck: whatever has happened so far, the threads can all be driven to the end.
  lemma {:induction false} EveryRunCanFinish(s: State) returns (schedule: seq<nat>)
    requires Inv(s)
    ensures IsRun(s, schedule) && Done(Final(s, schedule))
    decreases Work(s.code)
  {
    if Done(s) {
      schedule := [];
    } else {
      var t := NoDeadlock(s);
      StepKeepsInv(s, t);
      WorkDrops(s.code, t);
      var rest := EveryRunCanFinish(Step(s, t));
      schedule := [t] + rest;
      assert schedule[1..] == rest;
    }
  }

  // ---- the calls of the HAL -----------------------------------------------------------------

  // stream is the mutex of the stream the call is made on; other the mutex of the active stream in
  // the opposite direction, if there is one.  The booleans pick the path through the call.
  datatype Call =
    | Write(stream: nat, standby: bool, other: Option<nat>)      // out_write and in_read
    | Standby(stream: nat)                                  // out_standby and in_standby
    | SetParameters(stream: nat, scoToggled: bool)          // out_set_parameters and in_set_parameters
    | GetLatency                                            // out_get_latency

  predicate Plausible(c: Call) {
    match c
    case Write(stream, _, other) => stream != DEVICE && other != Some(DEVICE) && other != Some(stream)
    case Standby(stream) => stream != DEVICE
    case SetParameters(stream, _) => stream != DEVICE
    case GetLatency => true
  }

  function Ops(c: Call): seq<Op> {
    match c
    case Write(stream, standby, other) =>
      [Acquire(DEVICE), Acquire(stream)]
      + (if standby && other.Some? then [Acquire(other.value), Release(other.value)] else [])
      + [Release(DEVICE), Release(stream)]
    case Standby(stream) => [Acquire(DEVICE), Acquire(stream), Release(stream), Release(DEVICE)]
    case SetParameters(stream, scoToggled) =>
      [Acquire(DEVICE)] + (if scoToggled then [Acquire(stream), Release(stream)] else []) + [Release(DEVICE)]
    case GetLatency => [Acquire(DEVICE), Release(DEVICE)]
  }

  function AllOps(calls: seq<Call>): seq<Op> {
    if calls == [] then [] else Ops(calls[0]) + AllOps(calls[1..])
  }

  // The mutexes held after the first k operations.
  function HeldAfter(code: seq<Op>, k: nat): set<nat>
    requires k <= |code|
  {
    if k == 0 then {}
    else match code[k - 1]
      case Acquire(l) => HeldAfter(code, k - 1) + {l}
      case Release(l) => HeldAfter(code, k - 1) - {l}
  }

  // A stream goes into standby with the device mutex and its own held, the one in the opposite
  // direction too, and the samples go to the PCM with the stream mutex alone.
  lemma HeldWhereNeeded(c: Call)
    requires Plausible(c)
    ensures match c
      case Write(s, standby, other) =>
        && |Ops(c)| >= 4 && HeldAfter(Ops(c), 2) == {0, s}
        && (standby && other.Some? ==> HeldAfter(Ops(c), 3) == {0, s, other.value})
        && HeldAfter(Ops(c), |Ops(c)| - 2) == {0, s} && HeldAfter(Ops(c), |Ops(c)| - 1) == {s}
      case Standby(s) => |Ops(c)| == 4 && HeldAfter(Ops(c), 2) == {0, s}
      case SetParameters(s, toggled) =>
        && |Ops(c)| == (if toggled then 4 else 2) && HeldAfter(Ops(c), 1) == {0}
        && (toggled ==> HeldAfter(Ops(c), 2) == {0, s})
      case GetLatency => |Ops(c)| == 2 && HeldAfter(Ops(c), 1) == {0}
    ensures HeldAfter(Ops(c), |Ops(c)|) == {}
  {
    var code := Ops(c);
    assert HeldAfter(code, 0) == {};
    assert HeldAfter(code, 1) == {DEVICE};
    if |code| >= 4 {
      assert HeldAfter(code, 2) == HeldAfter(code, 1) + {code[1].l};
      if |code| == 6 {
        assert HeldAfter(code, 3) == HeldAfter(code, 2) + {code[2].l};
        assert HeldAfter(code, 4) == HeldAfter(code, 3) - {code[3].l};
        assert HeldAfter(code, 5) == HeldAfter(code, 4) - {code[4].l};
      } else {
        assert HeldAfter(code, 3) == HeldAfter(code, 2) - {code[2].l};
      }
    }
  }

  lemma {:induction false} ThenDisciplined(held: set<nat>, a: seq<Op>, b: seq<Op>)
    requires Disciplined(held, a) && Disciplined({}, b)
    ensures Disciplined(held, a + b)
    decreases |a|
  {
    if a == [] {
      assert a + b == b;
    } else {
      assert (a + b)[1..] == a[1..] + b;
      match a[0] {
        case Acquire(l) => ThenDisciplined(held + {l}, a[1..], b);
        case Release(l) => ThenDisciplined(held - {l}, a[1..], b);
      }
    }
  }

  lemma TakeAndLeave(held: set<nat>, l: nat, rest: seq<Op>)
    requires DEVICE in held && l !in held && Disciplined(held, rest)
    ensures Disciplined(held, [Acquire(l), Release(l)] + rest)
  {
    var code := [Acquire(l), Release(l)] + rest;
    assert code[1..][1..] == rest && (held + {l}) - {l} == held;
    assert Disciplined(held + {l}, code[1..]);
  }

  // Each call of the source keeps the rule on every path.
  lemma CallsAreDisciplined(c: Call)
    requires Plausible(c)
    ensures Disciplined({}, Ops(c))
  {
    match c {
      case Write(s, standby, other) =>
        var tail := [Release(DEVICE), Release(s)];
        assert {DEVICE, s} - {DEVICE} == {s} && tail[1..] == [Release(s)];
        assert Disciplined({s}, tail[1..]) && Disciplined({DEVICE, s}, tail);
        var mid := if standby && other.Some? then [Acquire(other.value), Release(other.value)] + tail else tail;
        if standby && other.Some? {
          TakeAndLeave({DEVICE, s}, other.value, tail);
        }
        assert Ops(c)[1..] == [Acquire(s)] + mid && ([Acquire(s)] + mid)[1..] == mid;
        assert {} + {DEVICE} == {DEVICE} && {DEVICE} + {s} == {DEVICE, s};
        assert Disciplined({DEVICE} + {s}, mid) && s !in {DEVICE};
        assert Disciplined({DEVICE}, [Acquire(s)] + mid);
      case Standby(s) =>
        TakeAndLeave({DEVICE}, s, [Release(DEVICE)]);
        assert Ops(c)[1..] == [Acquire(s), Release(s)] + [Release(DEVICE)] && {} + {DEVICE} == {DEVICE};
      case SetParameters(s, toggled) =>
        TakeAndLeave({DEVICE}, s, [Release(DEVICE)]);
        assert Ops(c)[1..] == (if toggled then [Acquire(s), Release(s)] + [Release(DEVICE)] else [Release(DEVICE)]);
        assert {} + {DEVICE} == {DEVICE} && Disciplined({DEVICE}, [Release(DEVICE)]);
      case GetLatency =>
        assert Ops(c)[1..] == [Release(DEVICE)];
    }
  }

  lemma {:induction false} CallSequencesAreDisciplined(calls: seq<Call>)
    requires forall c :: c in calls ==> Plausible(c)
    ensures Disciplined({}, AllOps(calls))
  {
    if calls == [] {
    } else {
      CallsAreDisciplined(calls[0]);
      CallSequencesAreDisciplined(calls[1..]);
      ThenDisciplined({}, Ops(calls[0]), AllOps(calls[1..]));
    }
  }

  // Any number of threads making any calls on any streams never deadlock, in any interleaving.
  lemma HalNeverDeadlocks(s: State, threads: seq<seq<Call>>, schedule: seq<nat>)
    requires |s.code| == |threads| && s.owner == map[]
    requires forall t :: 0 <= t < |threads| ==> s.code[t] == AllOps(threads[t])
    requires forall t, c :: 0 <= t < |threads| && c in threads[t] ==> Plausible(c)
    requires IsRun(s, schedule)
    ensures !Done(Final(s, schedule)) ==> exists t: nat :: CanStep(Final(s, schedule), t)
    ensures |schedule| <= Work(s.code)
  {
    forall t: nat | t < |s.code| ensures Disciplined(Held(s, t), s.code[t]) {
      CallSequencesAreDisciplined(threads[t]);
      assert Held(s, t) == {};
    }
    RunsFinish(s, schedule);
    if !Done(Final(s, schedule)) {
      var t := NoDeadlock(Final(s, schedule));
    }
  }

  // Without the order the protocol would not be safe: a thread that took its stream mutex before
  // the device mutex can block one that keeps to the rule, for ever.
  lemma StreamFirstDeadlocks() returns (s: State, t: State)
    ensures s.owner == map[] && s.code == [Ops(Standby(1)), [Acquire(1), Acquire(DEVICE), Release(DEVICE), Release(1)]]
    ensures IsRun(s, [0, 1]) && t == Final(s, [0, 1])
    ensures !Done(t) && forall u: nat :: !CanStep(t, u)
  {
    s := State(map[], [Ops(Standby(1)), [Acquire(1), Acquire(DEVICE), Release(DEVICE), Release(1)]]);
    var s1 := Step(s, 0);
    t := Step(s1, 1);
    assert [0, 1][1..] == [1] && [1][1..] == [];
    assert IsRun(s1, [1]) && Final(s1, [1]) == t by {
      assert IsRun(t, []) && Final(t, []) == t;
    }
    assert t.code[0][0] == Acquire(1) && t.code[1][0] == Acquire(DEVICE);
  }
}
