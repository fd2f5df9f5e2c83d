/**
 * The subscriber manager as a transition system: notifications under the read lock, removals under the write lock,
 * and channels closed after the lock is given back.
 */
module Subscribers {
  import opened Options
  import opened Sequences
  import opened PoolModel
  import Listeners
  import Routing

  type Event = Listeners.Event
  type SubId = nat
  type CallId = nat

  datatype Sub = Sub(pattern: string, filter: iset<Event>, ch: Option<ChanId>)

  datatype Pending = Pending(ev: Event, left: set<SubId>)

  datatype Subs = Subs(
    entries: map<SubId, Sub>,
    nextId: SubId,
    active: map<CallId, Pending>,      // notify calls inside the read lock, and the entries they have still to visit
    closing: map<SubId, Sub>,          // removed entries whose channel unsubscribe or clear has still to close
    closes: seq<ChanId>,               // closes made, in order
    used: set<ChanId>,                 // every channel ever subscribed
    panics: nat                        // sends on, and second closes of, a closed channel; each is recovered
  )

  datatype Step =
    | Subscribe(sub: Sub)
    | BeginNotify(call: CallId, ev: Event)
    | Visit(call: CallId, id: SubId)
    | EndNotify(call: CallId)
    | Remove(id: SubId)
    | Clear
    | Close(id: SubId)

  const EMPTY := Subs(map[], 0, map[], map[], [], {}, 0)

  predicate Wants(s: Sub, ev: Event) { Routing.MatchPattern(s.pattern, ev.typ) && ev in s.filter }

  /** A notification visiting `sub` sends on a closed channel. */
  predicate SendsOnClosed(s: Subs, sub: Sub, ev: Event) { Wants(sub, ev) && sub.ch.Some? && sub.ch.value in s.closes }

  predicate Enabled(s: Subs, step: Step) {
    match step
    case Subscribe(_) => s.active == map[]
    case BeginNotify(c, _) => c !in s.active
    case Visit(c, id) => c in s.active && id in s.active[c].left && id in s.entries
    case EndNotify(c) => c in s.active && s.active[c].left == {}
    case Remove(_) => s.active == map[]
    case Clear => s.active == map[]
    case Close(id) => id in s.closing
  }

  function Next(s: Subs, step: Step): Subs
    requires Enabled(s, step)
  {
    match step
    case Subscribe(sub) =>
      s.(entries := s.entries[s.nextId := sub], nextId := s.nextId + 1,
         used := s.used + if sub.ch.Some? then {sub.ch.value} else {})
    case BeginNotify(c, ev) => s.(active := s.active[c := Pending(ev, s.entries.Keys)])
    case Visit(c, id) =>
      s.(active := s.active[c := Pending(s.active[c].ev, s.active[c].left - {id})],
         panics := s.panics + if SendsOnClosed(s, s.entries[id], s.active[c].ev) then 1 else 0)
    case EndNotify(c) => s.(active := s.active - {c})
    case Remove(id) =>
      if id in s.entries then s.(entries := s.entries - {id}, closing := s.closing[id := s.entries[id]]) else s
    case Clear => s.(entries := map[], closing := s.closing + s.entries)
    case Close(id) =>
      var left := s.(closing := s.closing - {id});
      match s.closing[id].ch
      case None => left
      case Some(ch) => left.(closes := s.closes + [ch], panics := s.panics + if ch in s.closes then 1 else 0)
  }

  ghost predicate Runs(s: Subs, run: seq<Step>)
    decreases |run|
  {
    run == [] || (Enabled(s, run[0]) && Runs(Next(s, run[0]), run[1..]))
  }

  ghost function EndOf(s: Subs, run: seq<Step>): Subs
    requires Runs(s, run)
    decreases |run|
  {
    if run == [] then s else EndOf(Next(s, run[0]), run[1..])
  }

  /** Each subscription of the run brings a channel of its own, one that was never subscribed before. */
  ghost predicate OwnChannels(s: Subs, run: seq<Step>)
    requires Runs(s, run)
    decreases |run|
  {
    run == [] || (BringsOwn(s, run[0]) && OwnChannels(Next(s, run[0]), run[1..]))
  }

  predicate BringsOwn(s: Subs, step: Step) {
    step.Subscribe? && step.sub.ch.Some? ==> step.sub.ch.value !in s.used
  }

  // ---------------------------------------------------------------- channels still to be closed

  /** The subscriptions whose channel has not been closed for them yet: live ones, and those being closed. */
  function Unclosed(s: Subs): map<SubId, Sub> { s.entries + s.closing }

  /** Two subscriptions of one channel, both still to be closed. */
  predicate Share(s: Subs, a: SubId, b: SubId) {
    a != b && a in Unclosed(s) && b in Unclosed(s) && Unclosed(s)[a].ch.Some? && Unclosed(s)[a].ch == Unclosed(s)[b].ch
  }

  /** A subscription of a channel that is closed already. */
  predicate Late(s: Subs, a: SubId) {
    a in Unclosed(s) && Unclosed(s)[a].ch.Some? && Unclosed(s)[a].ch.value in s.closes
  }

  /** Every channel still to be closed is open, and to be closed for one subscription only. */
  ghost predicate Apart(s: Subs) { (forall a, b :: !Share(s, a, b)) && forall a :: !Late(s, a) }

  ghost predicate Known(s: Subs) {
    && s.entries.Keys !! s.closing.Keys
    && (forall id <- Unclosed(s).Keys ::
      id < s.nextId && (Unclosed(s)[id].ch.Some? ==> Unclosed(s)[id].ch.value in s.used))
    && (forall ch <- s.closes :: ch in s.used)
    && (forall c <- s.active.Keys :: s.active[c].left <= s.entries.Keys)
  }

  /** A step adds no unclosed subscription but a new one, and closes no channel but that of an unclosed one. */
  lemma UnclosedStep(s: Subs, step: Step)
    requires Known(s) && Enabled(s, step)
    ensures var t := Next(s, step);
      && (forall a <- Unclosed(t).Keys ::
            (step.Subscribe? && a == s.nextId && Unclosed(t)[a] == step.sub)
              || (a in Unclosed(s) && Unclosed(t)[a] == Unclosed(s)[a]))
      && (forall ch <- t.closes :: ch in s.closes || (step.Close? && s.closing[step.id].ch == Some(ch)))
      && (step.Close? ==>
        step.id !in Unclosed(t) && step.id in Unclosed(s) && Unclosed(s)[step.id] == s.closing[step.id])
  {}

  lemma StepKeepsKnown(s: Subs, step: Step)
    requires Known(s) && Enabled(s, step)
    ensures Known(Next(s, step))
  {
    UnclosedStep(s, step);
  }

  lemma StepKeepsApart(s: Subs, step: Step)
    requires Known(s) && Enabled(s, step) && BringsOwn(s, step) && Apart(s)
    ensures Apart(Next(s, step)) && Next(s, step).panics == s.panics
  {
    var t := Next(s, step);
    UnclosedStep(s, step);
    forall a, b ensures !Share(t, a, b) { assert !Share(s, a, b); }
    forall a ensures !Late(t, a) {
      assert !Late(s, a);
      if step.Close? { assert !Share(s, step.id, a); }
    }
    if step.Visit? { assert !Late(s, step.id); }
    if step.Close? { assert !Late(s, step.id); }
  }

  /**
   * From a state in which every unclosed channel is open and to be closed once, no run with channels of its own panics.
   */
  lemma {:induction false} ApartIsSafe(s: Subs, run: seq<Step>)
    requires Known(s) && Apart(s) && Runs(s, run) && OwnChannels(s, run)
    ensures Known(EndOf(s, run)) && Apart(EndOf(s, run)) && EndOf(s, run).panics == s.panics
    decreases |run|
  {
    if run != [] {
      StepKeepsKnown(s, run[0]);
      StepKeepsApart(s, run[0]);
      ApartIsSafe(Next(s, run[0]), run[1..]);
    }
  }

  /**
   * Over every interleaving of subscribe, notify, unsubscribe and clear: if each subscription brings a channel of
   * its own that nobody else closes, no send meets a closed channel and each channel is closed at most once.
   */
  lemma SubscriberSafety(run: seq<Step>)
    requires Runs(EMPTY, run) && OwnChannels(EMPTY, run)
    ensures EndOf(EMPTY, run).panics == 0 && NoRepeats(EndOf(EMPTY, run).closes)
  {
    ApartIsSafe(EMPTY, run);
    SecondClosePanics(EMPTY, run);
  }

  lemma {:induction false} SecondClosePanics(s: Subs, run: seq<Step>)
    requires Runs(s, run) && (s.panics == 0 ==> NoRepeats(s.closes))
    ensures EndOf(s, run).panics == 0 ==> NoRepeats(EndOf(s, run).closes)
    decreases |run|
  {
    if run != [] {
      if run[0].Close? && s.closing[run[0].id].ch.Some? && s.panics == 0 && s.closing[run[0].id].ch.value !in s.closes {
        AppendFresh(s.closes, s.closing[run[0].id].ch.value);
      }
      SecondClosePanics(Next(s, run[0]), run[1..]);
    }
  }

  // ---------------------------------------------------------------- the exact condition

  /** Every run from `s` that brings its own channels is free of panics. */
  ghost predicate NeverPanics(s: Subs) {
    forall run | Runs(s, run) && OwnChannels(s, run) :: EndOf(s, run).panics == s.panics
  }

  /** A run that takes a subscription out, if it is live, and closes its channel. */
  lemma CloseFor(s: Subs, id: SubId) returns (run: seq<Step>)
    requires Known(s) && s.active == map[] && id in Unclosed(s)
    ensures Runs(s, run) && OwnChannels(s, run)
    ensures var t := EndOf(s, run);
      && t.active == map[] && Known(t) && t.panics >= s.panics && (Late(s, id) ==> t.panics > s.panics)
      && (forall other <- Unclosed(s).Keys ::
        other != id ==> other in Unclosed(t) && Unclosed(t)[other] == Unclosed(s)[other])
      && (forall ch :: ch in s.closes || Unclosed(s)[id].ch == Some(ch) ==> ch in t.closes)
  {
    hide Known, Runs, EndOf, OwnChannels;
    if id in s.closing {
      run := OneStep(s, Close(id));
      ClosesItsChannel(s, id);
    } else {
      var t := TakesOut(s, id);
      var first := OneStep(s, Remove(id));
      var second := OneStep(t, Close(id));
      Joined(s, first, second);
      run := first + second;
      ClosesItsChannel(t, id);
    }
  }

  lemma OneStep(s: Subs, step: Step) returns (run: seq<Step>)
    requires Enabled(s, step) && BringsOwn(s, step)
    ensures run == [step] && Runs(s, run) && OwnChannels(s, run) && EndOf(s, run) == Next(s, step)
  {
    run := [step];
    assert run[1..] == [];
  }

  lemma TakesOut(s: Subs, id: SubId) returns (t: Subs)
    requires Known(s) && s.active == map[] && id in s.entries
    ensures t == Next(s, Remove(id)) && Known(t) && Unclosed(t) == Unclosed(s) && id in t.closing && t.active == map[]
  {
    t := Next(s, Remove(id));
    StepKeepsKnown(s, Remove(id));
    assert Unclosed(t) == Unclosed(s);
  }

  lemma ClosesItsChannel(s: Subs, id: SubId)
    requires Known(s) && id in s.closing
    ensures var t := Next(s, Close(id));
      && Known(t) && t.active == s.active
      && t.panics >= s.panics && (Late(s, id) ==> t.panics > s.panics)
      && (forall other <- Unclosed(s).Keys ::
        other != id ==> other in Unclosed(t) && Unclosed(t)[other] == Unclosed(s)[other])
      && (forall ch :: ch in s.closes || Unclosed(s)[id].ch == Some(ch) ==> ch in t.closes)
  {
    StepKeepsKnown(s, Close(id));
  }

  lemma {:induction false} Joined(s: Subs, first: seq<Step>, second: seq<Step>)
    requires Runs(s, first) && OwnChannels(s, first)
    requires Runs(EndOf(s, first), second) && OwnChannels(EndOf(s, first), second)
    ensures Runs(s, first + second) && OwnChannels(s, first + second)
    ensures EndOf(s, first + second) == EndOf(EndOf(s, first), second)
    decreases |first|
  {
    if first == [] {
      assert first + second == second;
    } else {
      Joined(Next(s, first[0]), first[1..], second);
      assert (first + second)[1..] == first[1..] + second;
    }
  }

  /** Nothing but notifications has happened. */
  predicate OnlyNotified(s: Subs, t: Subs) {
    t.entries == s.entries && t.closing == s.closing && t.closes == s.closes && t.panics >= s.panics
  }

  /** A run that brings one notification to its end. */
  lemma {:induction false} FinishCall(s: Subs, call: CallId) returns (run: seq<Step>)
    requires Known(s) && call in s.active
    ensures Runs(s, run) && OwnChannels(s, run)
    ensures var t := EndOf(s, run); Known(t) && OnlyNotified(s, t) && t.active == s.active - {call}
    decreases |s.active[call].left|
  {
    if s.active[call].left == {} {
      StepKeepsKnown(s, EndNotify(call));
      run := OneStep(s, EndNotify(call));
    } else {
      var id :| id in s.active[call].left;
      var t := Next(s, Visit(call, id));
      StepKeepsKnown(s, Visit(call, id));
      assert id in s.entries;
      hide Known, Runs, EndOf, OwnChannels;
      var first := OneStep(s, Visit(call, id));
      var rest := FinishCall(t, call);
      Joined(s, first, rest);
      run := first + rest;
      assert t.active - {call} == s.active - {call};
    }
  }

  /** A run that brings every notification under way to its end. */
  lemma {:induction false} FinishCalls(s: Subs) returns (run: seq<Step>)
    requires Known(s)
    ensures Runs(s, run) && OwnChannels(s, run)
    ensures var t := EndOf(s, run); Known(t) && OnlyNotified(s, t) && t.active == map[]
    decreases |s.active|
  {
    if s.active == map[] {
      run := [];
    } else {
      var call :| call in s.active;
      assert (s.active - {call}).Keys == s.active.Keys - {call};
      hide Known, Runs, EndOf, OwnChannels;
      var first := FinishCall(s, call);
      var rest := FinishCalls(EndOf(s, first));
      Joined(s, first, rest);
      run := first + rest;
    }
  }

  /** From a state without notifications under way, whatever is not apart can be made to panic. */
  lemma QuietPanics(s: Subs) returns (run: seq<Step>)
    requires Known(s) && s.active == map[] && !Apart(s)
    ensures Runs(s, run) && OwnChannels(s, run) && EndOf(s, run).panics > s.panics
  {
    hide Known;
    if a :| Late(s, a) {
      run := CloseFor(s, a);
    } else {
      var a, b :| Share(s, a, b);
      var first := CloseFor(s, a);
      var t := EndOf(s, first);
      assert Late(t, b);
      var second := CloseFor(t, b);
      Joined(s, first, second);
      run := first + second;
    }
  }

  /**
   * Exactly when a state is safe, notifications under way or not: no later run that brings its own channels panics if
   * and only if every channel still to be closed is open and to be closed for one subscription only.
   */
  lemma SafeIffApart(s: Subs)
    requires Known(s)
    ensures NeverPanics(s) <==> Apart(s)
  {
    hide Known;
    if Apart(s) {
      forall run | Runs(s, run) && OwnChannels(s, run) ensures EndOf(s, run).panics == s.panics {
        ApartIsSafe(s, run);
      }
    } else {
      var first := FinishCalls(s);
      var t := EndOf(s, first);
      assert Unclosed(t) == Unclosed(s);
      StaysShared(s, t);
      var second := QuietPanics(t);
      Joined(s, first, second);
    }
  }

  lemma StaysShared(s: Subs, t: Subs)
    requires OnlyNotified(s, t) && !Apart(s)
    ensures !Apart(t)
  {
    if a, b :| Share(s, a, b) {
      assert Share(t, a, b);
    } else {
      var a :| Late(s, a);
      assert Late(t, a);
    }
  }

  /** Subscribing a channel that is already subscribed makes a state unsafe. */
  lemma SubscribingTwiceIsUnsafe(s: Subs, sub: Sub, id: SubId)
    requires Known(s) && s.active == map[] && sub.ch.Some? && id in s.entries && s.entries[id].ch == sub.ch
    ensures !NeverPanics(Next(s, Subscribe(sub)))
  {
    var t := Next(s, Subscribe(sub));
    StepKeepsKnown(s, Subscribe(sub));
    assert s.nextId !in Unclosed(s) && id in Unclosed(s);
    assert Share(t, id, s.nextId);
    SafeIffApart(t);
  }
}
