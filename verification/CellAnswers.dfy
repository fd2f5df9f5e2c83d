/** Which step of a run answers a Call: the first of its event's sends, with exactly what that step sends. */
module CellAnswers {
  import opened Options
  import opened PoolModel
  import opened QueueModel
  import opened CellModel
  import opened CellSafety
  import opened CellReplies
  import CellTheorems

  /** What step `s` sends for event `o`, read off the step: its handler's write, its panic, or its refusal. */
  function SendOf(c: Cell, s: CellStep, o: EventId): (kind: Option<Kind>) {
    match s
    case Write(ev, payload) => if ev == o then Some(Written(payload)) else None
    case InPool(ps) => if ps == Recover(o) then Some(HandlerPanic) else None
    case SettleRefused(q) =>
      if q in c.queues && c.queues[q].consumer.Dispatching? && c.queues[q].consumer.item.ev == o
      then Some(DispatchError)
      else None
    case _ => None
  }

  /** The state before step `i` of a run. */
  ghost function StateAt(c: Cell, run: seq<CellStep>, i: nat): Cell
    requires CanRun(c, run) && i <= |run|
    decreases i
  {
    if i == 0 then c else StateAt(After(c, run[0]), run[1..], i - 1)
  }

  /** Step `i` sends `kind` for event `o`, and is the first that sends anything for it. */
  ghost predicate FirstSentAt(c: Cell, run: seq<CellStep>, i: nat, o: EventId, kind: Kind)
    requires CanRun(c, run)
  {
    && i < |run| && SendOf(StateAt(c, run, i), run[i], o) == Some(kind)
    && forall j: nat :: j < i ==> SendOf(StateAt(c, run, j), run[j], o) == None
  }

  /** The first thing a run sends for event `o`. */
  ghost function FirstSend(c: Cell, run: seq<CellStep>, o: EventId): Option<Kind>
    requires CanRun(c, run)
    decreases |run|
  {
    if run == [] then None
    else if SendOf(c, run[0], o).Some? then SendOf(c, run[0], o)
    else FirstSend(After(c, run[0]), run[1..], o)
  }

  lemma {:induction false} FirstSendIs(c: Cell, run: seq<CellStep>, i: nat, o: EventId, kind: Kind)
    requires CanRun(c, run) && FirstSentAt(c, run, i, o, kind)
    ensures FirstSend(c, run, o) == Some(kind)
    decreases i
  {
    hide CanStep, After, SendOf;
    if i > 0 {
      var next := After(c, run[0]);
      assert SendOf(StateAt(c, run, 0), run[0], o) == None;
      forall j: nat | j < i - 1 ensures SendOf(StateAt(next, run[1..], j), run[1..][j], o) == None {
        assert StateAt(c, run, j + 1) == StateAt(next, run[1..], j);
        assert SendOf(StateAt(c, run, j + 1), run[j + 1], o) == None;
      }
      FirstSendIs(next, run[1..], i - 1, o, kind);
    }
  }

  lemma {:induction false} FirstSendAt(c: Cell, run: seq<CellStep>, o: EventId) returns (i: nat)
    requires CanRun(c, run) && FirstSend(c, run, o).Some?
    ensures FirstSentAt(c, run, i, o, FirstSend(c, run, o).value)
    decreases |run|
  {
    hide CanStep, After, SendOf;
    if SendOf(c, run[0], o).Some? {
      i := 0;
    } else {
      var next := After(c, run[0]);
      var k := FirstSendAt(next, run[1..], o);
      i := k + 1;
      forall j: nat | j < i ensures SendOf(StateAt(c, run, j), run[j], o) == None {
        if j > 0 {
          assert StateAt(c, run, j) == StateAt(next, run[1..], j - 1);
          assert run[j] == run[1..][j - 1];
        }
      }
    }
  }

  // ---------------------------------------------------------------- one channel for each event

  ghost predicate OneChannel(c: Cell) {
    forall r <- c.chans.Keys, q <- c.chans.Keys :: c.chans[r].owner == c.chans[q].owner ==> r == q
  }

  /** A channel of the next state: one that was there, with its owner, or that of an event not submitted before. */
  lemma ChannelOrigin(c: Cell, s: CellStep, r: ChanId)
    requires CanStep(c, s) && r in NextChans(c, s)
    ensures r in c.chans ==> NextChans(c, s)[r].owner == c.chans[r].owner
    ensures r !in c.chans ==> NextChans(c, s)[r].owner !in c.origin && NextChans(c, s)[r].first == None
    ensures forall q <- NextChans(c, s).Keys :: r !in c.chans && q !in c.chans ==> q == r
  {}

  lemma KeepsOneChannel(c: Cell, s: CellStep)
    requires Core(c) && CanStep(c, s) && OneChannel(c)
    ensures OneChannel(After(c, s))
  {
    assert ChansKnown(c);
    hide Core, CanStep, NextChans, NextPool, NextQueues, NextOrigin;
    forall r <- NextChans(c, s).Keys, q <- NextChans(c, s).Keys | NextChans(c, s)[r].owner == NextChans(c, s)[q].owner
      ensures r == q
    {
      ChannelOrigin(c, s, r);
      ChannelOrigin(c, s, q);
    }
  }

  /** A send for event `o` goes into the channel that `o` owns, as it is. */
  lemma SendGoesHome(c: Cell, s: CellStep, o: EventId)
    requires Core(c) && CanStep(c, s) && SendOf(c, s, o).Some?
    ensures Sends(c, s).Some? && Sends(c, s).value.value == Value(o, SendOf(c, s, o).value)
    ensures c.chans[Sends(c, s).value.chan].owner == o
  {
    SendsRight(c, s);
    hide Core;
  }

  /** And every send is a send for the owner of its channel. */
  lemma SendHasOwner(c: Cell, s: CellStep)
    requires Core(c) && CanStep(c, s) && Sends(c, s).Some?
    ensures SendOf(c, s, c.chans[Sends(c, s).value.chan].owner).Some?
  {
    SendsRight(c, s);
    hide Core;
  }

  /** How a step changes the first value of an existing channel: by the first send for its owner. */
  lemma FirstMoves(c: Cell, s: CellStep, r: ChanId)
    requires Core(c) && ReplyInv(c) && OneChannel(c) && CanStep(c, s) && r in c.chans
    ensures r in NextChans(c, s) && NextChans(c, s)[r].owner == c.chans[r].owner
    ensures var o := c.chans[r].owner;
      NextChans(c, s)[r].first ==
        if c.chans[r].first.Some? then c.chans[r].first
        else if SendOf(c, s, o).Some? then Some(Value(o, SendOf(c, s, o).value)) else None
  {
    var o := c.chans[r].owner;
    assert GoodChan(c.chans[r]);
    OwnersFixed(c, s);
    if SendOf(c, s, o).Some? { SendGoesHome(c, s, o); }
    if Sends(c, s).Some? { SendHasOwner(c, s); }
    hide Core, ReplyInv, CanStep, Sends, SendOf;
  }

  // ---------------------------------------------------------------- over runs

  ghost predicate Good(c: Cell) { CellTheorems.Inv(c) && OneChannel(c) }

  lemma KeepsGood(c: Cell, s: CellStep)
    requires Good(c) && CanStep(c, s)
    ensures Good(After(c, s))
  {
    CellTheorems.StepInv(c, s);
    KeepsOneChannel(c, s);
    hide CanStep, After;
  }

  lemma {:induction false} RunGood(c: Cell, run: seq<CellStep>)
    requires Good(c) && CanRun(c, run)
    ensures Good(AfterRun(c, run))
    ensures forall r <- c.chans.Keys ::
      r in AfterRun(c, run).chans && AfterRun(c, run).chans[r].owner == c.chans[r].owner
    decreases |run|
  {
    if run != [] {
      KeepsGood(c, run[0]);
      OwnersFixed(c, run[0]);
      hide Good, CanStep, NextChans, NextPool, NextQueues, NextOrigin;
      RunGood(After(c, run[0]), run[1..]);
    }
  }

  /** What a channel has first received at the end of a run. */
  lemma {:induction false} FirstOverRun(c: Cell, run: seq<CellStep>, r: ChanId)
    requires Good(c) && CanRun(c, run) && r in AfterRun(c, run).chans
    ensures var o := AfterRun(c, run).chans[r].owner;
      AfterRun(c, run).chans[r].first ==
        if r in c.chans && c.chans[r].first.Some? then c.chans[r].first
        else if FirstSend(c, run, o).Some? then Some(Value(o, FirstSend(c, run, o).value)) else None
    decreases |run|
  {
    if run == [] {
    } else {
      var next, o := After(c, run[0]), AfterRun(c, run).chans[r].owner;
      KeepsGood(c, run[0]);
      RunGood(next, run[1..]);
      if r in c.chans {
        FirstMoves(c, run[0], r);
      } else {
        if SendOf(c, run[0], o).Some? { NoSendBefore(c, run, r); }
        if r in next.chans { ChannelOrigin(c, run[0], r); }
      }
      hide Good, CanStep, NextChans, NextPool, NextQueues, NextOrigin, SendOf;
      FirstOverRun(next, run[1..], r);
    }
  }

  /** Nothing is sent for an event before it has a channel. */
  lemma NoSendBefore(c: Cell, run: seq<CellStep>, r: ChanId)
    requires Good(c) && CanRun(c, run) && run != [] && r in AfterRun(c, run).chans && r !in c.chans
    ensures SendOf(c, run[0], AfterRun(c, run).chans[r].owner) == None
  {
    var o := AfterRun(c, run).chans[r].owner;
    RunGood(c, run);
    if SendOf(c, run[0], o).Some? { SendGoesHome(c, run[0], o); }
    hide CanStep, CellTheorems.Inv, SendOf;
  }

  /**
   * The answer of a Call, over every run and in terms of its steps: a channel's first value is `kind` exactly when some
   * step is the first that sends for its owner and sends `kind`; and what the caller takes is this value.
   */
  lemma AnswerIsFirstSend(max: nat, reserved: int, run: seq<CellStep>, c: Cell, r: ChanId, kind: Kind)
    requires CellTheorems.Reached(max, reserved, run, c) && r in c.chans
    ensures var o := c.chans[r].owner;
      && (c.chans[r].first == Some(Value(o, kind)) <==>
            exists i: nat :: FirstSentAt(NewCell(max, reserved), run, i, o, kind))
      && (c.chans[r].taken.Some? ==> c.chans[r].taken == c.chans[r].first)
  {
    var c0, o := NewCell(max, reserved), c.chans[r].owner;
    CellTheorems.InitInv(max, reserved);
    CellTheorems.ReachedInv(max, reserved, run, c);
    assert GoodChan(c.chans[r]);
    FirstOverRun(c0, run, r);
    hide Good, CanStep, CellTheorems.Inv, FirstSentAt;
    if FirstSend(c0, run, o).Some? { var i := FirstSendAt(c0, run, o); }
    forall i: nat | FirstSentAt(c0, run, i, o, kind) ensures FirstSend(c0, run, o) == Some(kind) {
      FirstSendIs(c0, run, i, o, kind);
    }
  }

  /**
   * What a Call is told. A value means that its handler wrote this value, first of all and before any panic; a panic
   * error means that its handler panicked and had written nothing before.
   */
  lemma CallIsToldTheTruth(max: nat, reserved: int, run: seq<CellStep>, c: Cell, r: ChanId) returns (i: nat)
    requires CellTheorems.Reached(max, reserved, run, c) && r in c.chans && c.chans[r].taken.Some?
    ensures i < |run| && c.chans[r].taken.value.author == c.chans[r].owner
    ensures var o := c.chans[r].owner;
      match c.chans[r].taken.value.kind
      case Written(v) => run[i] == Write(o, v) && QuietBefore(run, i, o)
      case HandlerPanic => run[i] == InPool(Recover(o)) && QuietBefore(run, i, o)
      case DispatchError => run[i].SettleRefused? && QuietBefore(run, i, o)
  {
    var c0, o := NewCell(max, reserved), c.chans[r].owner;
    var v := c.chans[r].taken.value;
    CellTheorems.CallTakesFirstOwnValue(max, reserved, run, c, r);
    AnswerIsFirstSend(max, reserved, run, c, r, v.kind);
    assert v == Value(o, v.kind);
    i :| FirstSentAt(c0, run, i, o, v.kind);
    hide CanStep, CellTheorems.Reached;
    forall j: nat | j < i ensures !(run[j].Write? && run[j].ev == o) && run[j] != InPool(Recover(o)) {
      assert SendOf(StateAt(c0, run, j), run[j], o) == None;
    }
  }

  /** The handler of event `o` has neither written nor panicked before step `i`. */
  ghost predicate QuietBefore(run: seq<CellStep>, i: nat, o: EventId)
    requires i <= |run|
  {
    forall j: nat :: j < i ==> !(run[j].Write? && run[j].ev == o) && run[j] != InPool(Recover(o))
  }
}
