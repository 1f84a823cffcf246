/** InputEventCircularReader (libsensors/InputEventReader.cpp): a ring of numEvents input events with
    a second half of the same size behind it, so that one read can run over the end; what ran over
    is then copied to the front. */
module EventRing {

  const EV_SYN := 0
  const EV_KEY := 1
  const EV_REL := 2
  const EV_ABS := 3
  const EINVAL := 22

  datatype InputEvent = InputEvent(kind: int, code: int, value: int, time: int)

  // What read answers: an error, or some whole events, possibly with a piece of one more.
  datatype Answer = Failed(errno: nat) | Got(events: seq<InputEvent>, partial: bool)

  // A read that stops in the middle of an event is refused as a whole.
  function Accepted(a: Answer): seq<InputEvent> {
    if a.Got? && !a.partial then a.events else []
  }

  // The unread events of a ring of n after fill and after next.
  function Filled(n: nat, unread: seq<InputEvent>, a: Answer): seq<InputEvent> {
    if |unread| >= n then unread else unread + Accepted(a)
  }

  datatype Op = Fill(a: Answer) | Next

  // accepted: everything read so far; consumed: how many of them next has taken.
  datatype History = History(unread: seq<InputEvent>, accepted: seq<InputEvent>, consumed: nat)

  function AfterOps(n: nat, ops: seq<Op>): History {
    if ops == [] then History([], [], 0)
    else
      var h := AfterOps(n, ops[..|ops| - 1]);
      match ops[|ops| - 1]
      case Fill(a) =>
        History(Filled(n, h.unread, a), if |h.unread| >= n then h.accepted else h.accepted + Accepted(a), h.consumed)
      case Next => if h.unread == [] then h else History(h.unread[1..], h.accepted, h.consumed + 1)
  }

  // read gives no more than it was asked for.
  predicate Fits(n: nat, ops: seq<Op>) {
    forall k :: 0 <= k < |ops| && ops[k].Fill? ==> |Filled(n, AfterOps(n, ops[..k]).unread, ops[k].a)| <= n
  }

  // After every run of fills and guarded nexts the ring holds exactly the events read and not yet
  // consumed, in order, and never more than it has room for.
  lemma {:induction false} HoldsTheUnread(n: nat, ops: seq<Op>)
    requires Fits(n, ops)
    ensures var h := AfterOps(n, ops);
      h.consumed <= |h.accepted| && h.unread == h.accepted[h.consumed..] && |h.unread| <= n
  {
    if ops == [] {
    } else {
      var before, last := ops[..|ops| - 1], ops[|ops| - 1];
      forall k | 0 <= k < |before|
        ensures before[k] == ops[k] && before[..k] == ops[..k]
      {
      }
      HoldsTheUnread(n, before);
      var h := AfterOps(n, before);
      if last.Fill? {
        assert Filled(n, AfterOps(n, ops[..|before|]).unread, ops[|before|].a) == AfterOps(n, ops).unread;
        MoreAtTheEnd(h.accepted, h.consumed, Accepted(last.a));
      } else if h.unread != [] {
        OneLessInFront(h.accepted, h.consumed);
      }
    }
  }

  lemma MoreAtTheEnd(s: seq<InputEvent>, from: nat, more: seq<InputEvent>)
    requires from <= |s|
    ensures (s + more)[from..] == s[from..] + more
  {
  }

  lemma OneLessInFront(s: seq<InputEvent>, from: nat)
    requires from < |s|
    ensures s[from..][1..] == s[from + 1..]
  {
  }

  // A fill adds the events of a whole read, if there was room for any, and nothing in any other case.
  lemma WhatAFillAdds(n: nat, ops: seq<Op>, a: Answer)
    ensures var h, h' := AfterOps(n, ops), AfterOps(n, ops + [Fill(a)]);
      var more := if a.Got? && !a.partial && |h.unread| < n then a.events else [];
      h' == History(h.unread + more, h.accepted + more, h.consumed)
  {
    assert (ops + [Fill(a)])[..|ops|] == ops;
  }

  class InputEventCircularReader {
    const n: nat
    const buffer: array<InputEvent>
    var head: nat
    var curr: nat
    var freeSpace: nat

    ghost var contents: seq<InputEvent>   // read and not yet consumed, oldest first

    // Where the k-th unread event sits.
    ghost function At(k: nat): int
      reads this
    {
      if curr + k < n then curr + k else curr + k - n
    }

    // With an empty ring, or when the newest event ends at the end, head may be n in place of 0.
    ghost predicate Valid()
      reads this, buffer
    {
      && n > 0 && buffer.Length == 2 * n
      && freeSpace <= n && curr < n && head <= n
      && |contents| == n - freeSpace
      && (head == At(|contents|) || (head == n && At(|contents|) == 0))
      && forall k :: 0 <= k < |contents| ==> buffer[At(k)] == contents[k]
    }

    constructor (numEvents: nat)
      requires numEvents > 0
      ensures Valid() && contents == [] && n == numEvents && fresh(buffer)
    {
      n := numEvents;
      buffer := new InputEvent[2 * numEvents](_ => InputEvent(0, 0, 0, 0));
      head, curr, freeSpace, contents := 0, 0, numEvents, [];
    }

    // read writes behind head, over the end of the first half if need be; an unread event that it
    // or the copy to the front overwrote would show in contents.
    method Fill(a: Answer) returns (result: int)
      requires Valid()
      requires a.Failed? ==> a.errno > 0
      requires a.Got? ==> |a.events| <= freeSpace
      modifies this, buffer
      ensures Valid()
      ensures contents == Filled(n, old(contents), a)
      ensures result ==
        if old(freeSpace) == 0 then 0
        else if a.Failed? then 0 - a.errno
        else if a.partial then 0 - EINVAL
        else |a.events|
      ensures contents == old(contents) + if result > 0 then a.events else []
    {
      result := 0;
      if freeSpace > 0 {
        if a.Failed? {
          return 0 - a.errno;
        }
        Store(a.events);
        if a.partial {
          return 0 - EINVAL;
        }
        result := |a.events|;
        if result > 0 {
          head := head + |a.events|;
          freeSpace := freeSpace - |a.events|;
          contents := contents + a.events;
          if head > n {
            assert forall k :: 0 <= k < |contents| ==> buffer[head - |contents| + k] == contents[k];
            WrapAround();
          }
        }
      }
    }

    // What read does to the memory: nothing of the unread events.
    method Store(events: seq<InputEvent>)
      requires Valid() && |events| <= freeSpace
      modifies buffer
      ensures Valid()
      ensures forall k :: 0 <= k < |events| ==> buffer[head + k] == events[k]
    {
      forall k | 0 <= k < |events| {
        buffer[head + k] := events[k];
      }
    }

    // The events run over the end, or (first clause) the ring was empty with head already at the end.
    method WrapAround()
      requires n > 0 && buffer.Length == 2 * n && freeSpace <= n && curr < n && n < head
      requires |contents| == n - freeSpace
      requires (curr == 0 && head == n + |contents|) || head == curr + |contents|
      requires forall k :: 0 <= k < |contents| ==> buffer[head - |contents| + k] == contents[k]
      modifies this`head, buffer
      ensures Valid()
    {
      var s := head - n;
      ghost var first := head - |contents|;
      forall k | 0 <= k < s {
        buffer[k] := buffer[n + k];
      }
      head := s;
      forall k | 0 <= k < |contents|
        ensures buffer[At(k)] == contents[k]
      {
        assert old(buffer[first + k]) == contents[k];
      }
    }

    method ReadEvent() returns (available: bool, event: InputEvent)
      requires Valid()
      ensures available <==> contents != []
      ensures available ==> event == contents[0]
    {
      event := buffer[curr];
      available := n - freeSpace != 0;
      if available {
        assert At(0) == curr;
      }
    }

    method Next()
      requires Valid() && contents != []
      modifies this
      ensures Valid() && contents == old(contents)[1..] && freeSpace == old(freeSpace) + 1
    {
      ghost var before := contents;
      contents := contents[1..];
      curr := curr + 1;
      freeSpace := freeSpace + 1;
      if curr >= n {
        curr := 0;
      }
      forall k | 0 <= k < |contents|
        ensures buffer[At(k)] == contents[k]
      {
        assert contents[k] == before[k + 1] && At(k) == old(At(k + 1));
      }
    }
  }
}
