/** CMessageQueue (mx5x/libcamera/messageQueue.cpp): a FIFO of data messages with two out-of-band
    flags.  A waiting thread sees quit before stop before data. */
module MessageQueue {
  import opened Sequences

  datatype Kind = Normal | Stop | Quit

  datatype Message = Message(what: Kind, arg0: int)

  const QUIT_MESSAGE := Message(Quit, 0)
  const STOP_MESSAGE := Message(Stop, 0)

  // What another thread can do to the queue while one thread waits.
  datatype Op = Post(m: Message) | PostQuit | PostStop | Clear

  datatype Queue = Queue(messages: seq<Message>, quit: bool, stop: bool)

  // How waitMessage ends; StillWaiting when the operations of the other threads run out first.
  datatype Outcome = Got(m: Message) | TimedOut | StillWaiting

  datatype Waits = Forever | AtMost(n: nat)

  function Do(q: Queue, op: Op): Queue {
    match op
    case Post(m) => q.(messages := q.messages + [m])
    case PostQuit => q.(quit := true)
    case PostStop => q.(stop := true)
    case Clear => q.(messages := [], stop := false)
  }

  function DoAll(q: Queue, ops: seq<Op>): Queue
  {
    if ops == [] then q else Do(DoAll(q, ops[..|ops| - 1]), ops[|ops| - 1])
  }

  // What a thread that holds the lock is given at once, if anything.
  function Offer(q: Queue): Outcome {
    if q.quit then Got(QUIT_MESSAGE)
    else if q.stop then Got(STOP_MESSAGE)
    else if q.messages != [] then Got(q.messages[0])
    else StillWaiting
  }

  function AfterOffer(q: Queue): Queue {
    if q.quit || q.stop || q.messages == [] then q else q.(messages := q.messages[1..])
  }

  // ---- deliveries over a whole history -------------------------------------------------------

  datatype Event = By(op: Op) | Take

  // posted: every data message posted so far; taken: the positions in posted of the data
  // messages delivered so far.
  datatype History = History(q: Queue, posted: seq<Message>, taken: seq<nat>)

  function Next(h: History, e: Event): History {
    match e
    case By(Post(m)) => History(Do(h.q, Post(m)), h.posted + [m], h.taken)
    case By(op) => h.(q := Do(h.q, op))
    case Take =>
      if h.q.quit || h.q.stop || h.q.messages == [] || |h.q.messages| > |h.posted| then h
      else History(AfterOffer(h.q), h.posted, h.taken + [|h.posted| - |h.q.messages|])
  }

  function After(events: seq<Event>): History {
    if events == [] then History(Queue([], false, false), [], [])
    else Next(After(events[..|events| - 1]), events[|events| - 1])
  }

  // The events of one thread that performs these operations.
  function EventsOf(ops: seq<Op>): seq<Event> {
    if ops == [] then [] else EventsOf(ops[..|ops| - 1]) + [By(ops[|ops| - 1])]
  }

  lemma {:induction false} EventsInTurn(ops: seq<Op>)
    ensures |EventsOf(ops)| == |ops| && forall i :: 0 <= i < |ops| ==> EventsOf(ops)[i] == By(ops[i])
  {
    if ops == [] {
    } else {
      EventsInTurn(ops[..|ops| - 1]);
    }
  }

  // others[k] is what the other threads do during the k-th sleep of a waiting thread; the events of
  // the first k sleeps, and the queue after them.
  function SleepEvents(others: seq<seq<Op>>, k: nat): seq<Event>
    requires k <= |others|
  {
    if k == 0 then [] else SleepEvents(others, k - 1) + EventsOf(others[k - 1])
  }

  function QueueAfter(q: Queue, others: seq<seq<Op>>, k: nat): Queue
    requires k <= |others|
  {
    if k == 0 then q else DoAll(QueueAfter(q, others, k - 1), others[k - 1])
  }

  lemma OneMoreEvent(events: seq<Event>, e: Event)
    ensures After(events + [e]) == Next(After(events), e)
  {
    assert (events + [e])[..|events|] == events;
  }

  lemma OneMoreOp(events: seq<Event>, ops: seq<Op>, k: nat)
    requires k < |ops|
    ensures events + EventsOf(ops[..k + 1]) == events + EventsOf(ops[..k]) + [By(ops[k])]
    ensures forall q :: DoAll(q, ops[..k + 1]) == Do(DoAll(q, ops[..k]), ops[k])
  {
    assert ops[..k + 1][..k] == ops[..k];
    Regroup(events, EventsOf(ops[..k]), [By(ops[k])]);
  }

  // The queue is the newest part of what was posted, and the delivered positions only grow.
  ghost predicate Fifo(h: History) {
    && |h.q.messages| <= |h.posted|
    && h.q.messages == h.posted[|h.posted| - |h.q.messages|..]
    && (forall i, j :: 0 <= i < j < |h.taken| ==> h.taken[i] < h.taken[j])
    && (forall p :: p in h.taken ==> p < |h.posted| - |h.q.messages|)
  }

  lemma NextKeepsFifo(h: History, e: Event)
    requires Fifo(h)
    ensures Fifo(Next(h, e))
  {
    match e {
      case By(op) =>
      case Take =>
        if !h.q.quit && !h.q.stop && h.q.messages != [] {
          var p := |h.posted| - |h.q.messages|;
          var h' := Next(h, e);
          assert h'.taken == h.taken + [p];
          assert forall i :: 0 <= i < |h.taken| ==> h.taken[i] in h.taken;
          assert h.posted[|h.posted| - |h.q.messages|..][1..] == h.posted[|h.posted| - |h.q.messages| + 1..];
        }
    }
  }

  // Data messages are delivered in the order they were posted, each at most once.
  lemma {:induction false} DeliveryIsFifo(events: seq<Event>)
    ensures Fifo(After(events))
  {
    if events == [] {
    } else {
      DeliveryIsFifo(events[..|events| - 1]);
      NextKeepsFifo(After(events[..|events| - 1]), events[|events| - 1]);
    }
  }

  // A thread that is offered a data message is offered the posted message at the next position.
  lemma OfferIsNextPosted(events: seq<Event>)
    ensures var h := After(events);
      Fifo(h) && (!h.q.quit && !h.q.stop && h.q.messages != [] ==>
        && Offer(h.q) == Got(h.posted[|h.posted| - |h.q.messages|])
        && After(events + [Take]).taken == h.taken + [|h.posted| - |h.q.messages|])
  {
    var h := After(events);
    DeliveryIsFifo(events);
    OneMoreEvent(events, Take);
    OldestMessage(h);
  }

  lemma OldestMessage(h: History)
    requires Fifo(h)
    ensures h.q.messages != [] ==> h.q.messages[0] == h.posted[|h.posted| - |h.q.messages|]
  {
  }

  // Without clearMessage nothing is skipped either.
  lemma {:induction false} NothingSkipped(events: seq<Event>)
    requires By(Clear) !in events
    ensures var h := After(events);
      && |h.taken| == |h.posted| - |h.q.messages|
      && forall i :: 0 <= i < |h.taken| ==> h.taken[i] == i
  {
    if events == [] {
    } else {
      assert forall e :: e in events[..|events| - 1] ==> e in events;
      NothingSkipped(events[..|events| - 1]);
      DeliveryIsFifo(events[..|events| - 1]);
    }
  }

  // The messages posted, in the order of the calls.
  function PostedBy(events: seq<Event>): seq<Message> {
    if events == [] then []
    else
      PostedBy(events[..|events| - 1]) +
      match events[|events| - 1] case By(Post(m)) => [m] case _ => []
  }

  lemma {:induction false} EveryPostCounts(events: seq<Event>)
    ensures After(events).posted == PostedBy(events)
  {
    if events == [] {
    } else {
      EveryPostCounts(events[..|events| - 1]);
    }
  }

  // Since h0 only messages posted after it were delivered.
  ghost predicate OnlyLater(h0: History, h: History) {
    && |h.q.messages| <= |h.posted| - |h0.posted| && |h0.taken| <= |h.taken|
    && h.taken[..|h0.taken|] == h0.taken
    && forall i :: |h0.taken| <= i < |h.taken| ==> |h0.posted| <= h.taken[i]
  }

  // Since h0 they were delivered in turn and without a gap.
  ghost predicate InTurn(h0: History, h: History) {
    && |h.taken| - |h0.taken| == |h.posted| - |h0.posted| - |h.q.messages| >= 0
    && forall i :: |h0.taken| <= i < |h.taken| ==> h.taken[i] == |h0.posted| + i - |h0.taken|
  }

  lemma NextIsLater(h0: History, h: History, e: Event)
    requires OnlyLater(h0, h)
    ensures OnlyLater(h0, Next(h, e))
  {
  }

  lemma NextInTurn(h0: History, h: History, e: Event)
    requires InTurn(h0, h) && Fifo(h) && e != By(Clear)
    ensures InTurn(h0, Next(h, e))
  {
  }

  lemma OneMoreAfter(before: seq<Event>, after: seq<Event>)
    ensures after == [] ==> After(before + after) == After(before)
    ensures after != [] ==>
      After(before + after) == Next(After(before + after[..|after| - 1]), after[|after| - 1])
  {
    if after == [] {
      assert before + after == before;
    } else {
      assert before + after == before + after[..|after| - 1] + [after[|after| - 1]];
      OneMoreEvent(before + after[..|after| - 1], after[|after| - 1]);
    }
  }

  // clearMessage empties the queue, takes back a stop request and keeps a quit request; nothing posted
  // before it is delivered after it.
  lemma {:induction false} ClearForgets(before: seq<Event>, after: seq<Event>)
    ensures var h, h0 := After(before), After(before + [By(Clear)]);
      h0 == History(Queue([], h.q.quit, false), h.posted, h.taken)
    ensures OnlyLater(After(before + [By(Clear)]), After(before + [By(Clear)] + after))
    decreases |after|
  {
    OneMoreEvent(before, By(Clear));
    var cleared := before + [By(Clear)];
    OneMoreAfter(cleared, after);
    if after == [] {
    } else {
      ClearForgets(before, after[..|after| - 1]);
      NextIsLater(After(cleared), After(cleared + after[..|after| - 1]), after[|after| - 1]);
    }
  }

  // Everything posted between two calls of clearMessage is delivered in turn.
  lemma {:induction false} InTurnAfterAClear(before: seq<Event>, after: seq<Event>)
    requires By(Clear) !in after
    ensures InTurn(After(before + [By(Clear)]), After(before + [By(Clear)] + after))
    decreases |after|
  {
    OneMoreEvent(before, By(Clear));
    var cleared := before + [By(Clear)];
    OneMoreAfter(cleared, after);
    if after == [] {
    } else {
      var less := after[..|after| - 1];
      assert (forall e :: e in less ==> e in after) && after[|after| - 1] in after;
      InTurnAfterAClear(before, less);
      DeliveryIsFifo(cleared + less);
      NextInTurn(After(cleared), After(cleared + less), after[|after| - 1]);
    }
  }

  // A quit request outlives everything, clearMessage included; a stop request lasts until the
  // next clearMessage.
  lemma {:induction false} QuitIsSticky(before: seq<Event>, after: seq<Event>)
    ensures After(before + [By(PostQuit)] + after).q.quit
    ensures Offer(After(before + [By(PostQuit)] + after).q) == Got(QUIT_MESSAGE)
    decreases |after|
  {
    var all := before + [By(PostQuit)] + after;
    if after == [] {
      assert all[..|all| - 1] == before;
    } else {
      var less := after[..|after| - 1];
      QuitIsSticky(before, less);
      assert all[..|all| - 1] == before + [By(PostQuit)] + less;
      assert all[|all| - 1] == after[|after| - 1];
    }
  }

  lemma {:induction false} StopLastsUntilCleared(before: seq<Event>, after: seq<Event>)
    requires By(Clear) !in after && By(PostQuit) !in before + after
    ensures After(before + [By(PostStop)] + after).q.stop
    ensures Offer(After(before + [By(PostStop)] + after).q) == Got(STOP_MESSAGE)
    ensures Offer(After(before + [By(PostStop)] + after + [By(Clear)]).q) == StillWaiting
    decreases |after|
  {
    var all := before + [By(PostStop)] + after;
    NoQuit(all);
    assert (all + [By(Clear)])[..|all|] == all;
    if after == [] {
      assert all[..|all| - 1] == before;
    } else {
      var less := after[..|after| - 1];
      assert forall e :: e in less ==> e in after;
      assert forall e :: e in before + less ==> e in before + after;
      StopLastsUntilCleared(before, less);
      assert all[..|all| - 1] == before + [By(PostStop)] + less;
      assert all[|all| - 1] == after[|after| - 1] && after[|after| - 1] in after;
    }
  }

  lemma {:induction false} NoQuit(events: seq<Event>)
    requires By(PostQuit) !in events
    ensures !After(events).q.quit
  {
    if events == [] {
    } else {
      assert forall e :: e in events[..|events| - 1] ==> e in events;
      NoQuit(events[..|events| - 1]);
    }
  }

  // ---- the fields and the code that updates them ---------------------------------------------------

  class CMessageQueue {
    var mMessages: seq<Message>
    var mQuit: bool
    var mStop: bool

    ghost var history: seq<Event>    // everything that has happened to the queue

    ghost function View(): Queue
      reads this
    {
      Queue(mMessages, mQuit, mStop)
    }

    ghost predicate Valid()
      reads this
    {
      View() == After(history).q
    }

    constructor ()
      ensures Valid() && history == []
    {
      mMessages, mQuit, mStop := [], false, false;
      history := [];
    }

    // The event e, and nothing else, has happened.
    twostate predicate Happened(e: Event)
      reads this
    {
      Valid() && history == old(history) + [e]
    }

    ghost method Log(e: Event)
      requires View() == Next(After(history), e).q
      modifies this`history
      ensures Happened(e)
    {
      OneMoreEvent(history, e);
      history := history + [e];
    }

    method ClearMessage()
      requires Valid()
      modifies this
      ensures Happened(By(Clear))
    {
      mMessages := [];
      mStop := false;
      Log(By(Clear));
    }

    method PostMessage(m: Message)
      requires Valid()
      modifies this
      ensures Happened(By(Post(m)))
    {
      mMessages := mMessages + [m];
      Log(By(Post(m)));
    }

    method PostQuitMessage()
      requires Valid()
      modifies this
      ensures Happened(By(PostQuit))
    {
      mQuit := true;
      Log(By(PostQuit));
    }

    method PostStopMessage()
      requires Valid()
      modifies this
      ensures Happened(By(PostStop))
    {
      mStop := true;
      Log(By(PostStop));
    }

    method Perform(op: Op)
      requires Valid()
      modifies this
      ensures Happened(By(op)) && View() == Do(old(View()), op)
    {
      OneMoreEvent(history, By(op));
      match op {
        case Post(m) => PostMessage(m);
        case PostQuit => PostQuitMessage();
        case PostStop => PostStopMessage();
        case Clear => ClearMessage();
      }
    }

    // The other threads run while the lock is released.
    method LetOthersRun(ops: seq<Op>)
      requires Valid()
      modifies this
      ensures Valid() && history == old(history) + EventsOf(ops) && View() == DoAll(old(View()), ops)
    {
      ghost var before, was := history, View();
      var i := 0;
      while i < |ops|
        invariant i <= |ops| && Valid()
        invariant history == before + EventsOf(ops[..i]) && View() == DoAll(was, ops[..i])
      {
        Perform(ops[i]);
        OneMoreOp(before, ops, i);
        i := i + 1;
      }
      assert ops[..i] == ops;
    }

    // What the loop of waitMessage does between two sleeps: quit before stop before the oldest message.
    method TakeOffer() returns (result: Outcome)
      requires Valid()
      modifies this
      ensures result == Offer(old(View())) && View() == AfterOffer(old(View()))
      ensures if result.Got? then Happened(Take) else Valid() && history == old(history)
    {
      DeliveryIsFifo(history);
      if mQuit {
        Log(Take);
        return Got(QUIT_MESSAGE);
      }
      if mStop {
        Log(Take);
        return Got(STOP_MESSAGE);
      }
      if mMessages != [] {
        result := Got(mMessages[0]);
        mMessages := mMessages[1..];
        Log(Take);
        return;
      }
      return StillWaiting;
    }

    // A thread in waitMessage since the queue was q and the history was: it has slept so often, and was
    // offered nothing before.
    ghost predicate Waiting(q: Queue, was: seq<Event>, others: seq<seq<Op>>, slept: nat)
      reads this
    {
      && Valid() && slept <= |others| && View() == QueueAfter(q, others, slept)
      && history == was + SleepEvents(others, slept)
      && forall k :: 0 <= k < slept ==> !Offer(QueueAfter(q, others, k)).Got?
    }

    method Sleep(others: seq<seq<Op>>, slept: nat, ghost q: Queue, ghost was: seq<Event>)
      requires Waiting(q, was, others, slept) && slept < |others| && !Offer(View()).Got?
      modifies this
      ensures Waiting(q, was, others, slept + 1)
    {
      Regroup(was, SleepEvents(others, slept), EventsOf(others[slept]));
      LetOthersRun(others[slept]);
    }

    // waitMessage ends at the first point, before any sleep or after one, at which it is offered
    // something, and takes that; it gives up at its deadline, and not before.
    method WaitMessage(others: seq<seq<Op>>, waits: Waits) returns (result: Outcome, slept: nat)
      requires Valid()
      modifies this
      ensures Valid() && slept <= |others| && (waits.AtMost? ==> slept <= waits.n)
      ensures forall k :: 0 <= k < slept ==> !Offer(QueueAfter(old(View()), others, k)).Got?
      ensures result.Got? <==> Offer(QueueAfter(old(View()), others, slept)).Got?
      ensures result.Got? ==> result == Offer(QueueAfter(old(View()), others, slept))
      ensures View() == AfterOffer(QueueAfter(old(View()), others, slept))
      ensures result.TimedOut? <==> !result.Got? && waits == AtMost(slept)
      ensures result.StillWaiting? ==> slept == |others|
      // To the history the call adds what the others did during the sleeps, and at most one delivery.
      ensures history == old(history) + SleepEvents(others, slept) + if result.Got? then [Take] else []
    {
      ghost var q, was := View(), history;
      slept := 0;
      assert history == was + SleepEvents(others, 0);
      while true
        invariant Waiting(q, was, others, slept) && (waits.AtMost? ==> slept <= waits.n)
        decreases |others| - slept
      {
        result := TakeOffer();
        if result.Got? {
          return;
        }
        if waits.AtMost? && waits.n <= slept {
          result := TimedOut;
          return;
        }
        if slept == |others| {
          result := StillWaiting;
          return;
        }
        Sleep(others, slept, q, was);
        slept := slept + 1;
      }
    }
  }
}
