/**
 * The listener manager as its code keeps it: the loops of start, notify and stop, each shown to be a run of the model.
 */
module ListenerManagers {
  import opened Listeners
  import opened ListenerSafety
  import Routing

  class ListenerManager {
    var entries: seq<Entry>
    var started: bool
    var notes: seq<Note>
    var active: map<NoteId, nat>
    var stopper: Stopper
    var crash: Crash

    ghost function Model(): Manager
      reads this
    {
      Manager(entries, started, notes, active, stopper, crash)
    }

    ghost predicate Valid()
      reads this
    {
      Inv(Model()) && crash.NoCrash?
    }

    constructor ()
      ensures Valid() && Model() == EMPTY
    {
      entries, started, notes, active, stopper, crash := [], false, [], map[], Idle, NoCrash;
    }

    method Register(pattern: string, filter: iset<Event>, bufferSize: nat)
      requires Valid() && active == map[]
      modifies this
      ensures Valid() && Model() == Next(old(Model()), Listeners.Register(pattern, filter, bufferSize))
    {
      hide Inv;
      KeepsInv(Model(), Listeners.Register(pattern, filter, bufferSize));
      entries := entries + [Entry(pattern, filter, bufferSize, started, NoChannel, [], NotStarted, [], [])];
    }

    /** A new channel and a consumer goroutine for each listener. */
    method Start()
      requires Valid() && active == map[] && !started && stopper.Idle?
      modifies this
      ensures Valid() && started && Model() == Next(old(Model()), StartAll)
      ensures forall j :: 0 <= j < |entries| ==> entries[j].chan.Open? && entries[j].consumer.Receiving?
    {
      hide Inv;
      KeepsInv(Model(), StartAll);
      ghost var before := entries;
      for i := 0 to |entries|
        invariant |entries| == |before| && started == old(started) && crash == old(crash)
        invariant notes == old(notes) && active == old(active) && stopper == old(stopper)
        invariant forall j :: 0 <= j < |entries| ==> entries[j] == if j < i then Opened(before[j]) else before[j]
      {
        hide Inv;
        entries := entries[i := entries[i].(chan := Open, consumer := Receiving, buf := [], late := false)];
      }
      started := true;
      assert entries == Next(old(Model()), StartAll).entries;
    }

    /**
     * One call of notify, from taking the read lock to giving it back: every wanted listener is offered the event
     * once, in registration order, and no other entry changes.
     */
    method Notify(ev: Event) returns (ghost run: seq<Step>)
      requires Valid()
      modifies this
      ensures Runs(old(Model()), run) && Model() == EndOf(old(Model()), run) && Valid()
      ensures started == old(started) && |entries| == |old(entries)| && (!started ==> Model() == old(Model()))
      ensures started ==> forall j :: 0 <= j < |entries| ==> entries[j] == OfferTo(old(entries)[j], |old(notes)|, ev)
      ensures started ==> forall j :: 0 <= j < |entries| ==>
        var e, f := old(entries)[j], entries[j];
        if ev in e.filter
           && (e.pattern == "*" || e.pattern == ev.typ || exists p :: e.pattern == p + ".*" && p + "." <= ev.typ)
        then |f.offers| == |e.offers| + 1 && f.offers[|e.offers|].note == |old(notes)|
        else f == e
    {
      hide Inv, Runs, EndOf, Enabled, Next, OfferTo;
      ghost var m0 := Model();
      StartRun(m0);
      CanBegin(m0, ev);
      KeepsInv(m0, BeginNotify(ev));
      run := Then(m0, [], BeginNotify(ev));
      if !started {
        return;
      }
      var n := |notes|;
      var returned: set<NoteId> := set x | 0 <= x < |notes| && x !in active;
      assert returned == Ended(m0);
      notes := notes + [Note(ev, returned, |entries|)];
      active := active[n := 0];
      for i := 0 to |entries|
        invariant Runs(m0, run) && Model() == EndOf(m0, run) && Valid()
        invariant |entries| == |m0.entries| && started && m0.started && n < |notes| && notes[n].ev == ev && n in active
          && active[n] == i
        invariant forall j ::
          0 <= j < |entries| ==> entries[j] == if j < i then OfferTo(m0.entries[j], n, ev) else m0.entries[j]
      {
        hide Inv, Runs, EndOf, Enabled, Next, OfferTo;
        ghost var before := Model();
        CanOffer(before, n);
        KeepsInv(before, Offer(n));
        run := Then(m0, run, Offer(n));
        entries := entries[i := OfferTo(entries[i], n, ev)];
        active := active[n := i + 1];
      }
      forall j | 0 <= j < |entries| { OfferedIff(m0.entries[j], n, ev); }
      CanEnd(Model(), n);
      KeepsInv(Model(), EndNotify(n));
      run := Then(m0, run, EndNotify(n));
      active := active - {n};
    }

    /** The consumer goroutine of a closed channel, left to itself: it delivers what is buffered and leaves. */
    method Drain(i: nat)
      requires Valid() && i < |entries| && entries[i].chan.Closed?
      modifies this
      ensures Valid() && |entries| == |old(entries)| && entries[i].consumer.Exited? && entries[i].chan.Closed?
      ensures entries[i].delivered == Taken(entries[i].offers) && entries[i].offers == old(entries)[i].offers
      ensures forall j :: 0 <= j < |entries| && j != i ==> entries[j] == old(entries)[j]
      ensures started == old(started) && notes == old(notes) && active == old(active) && stopper == old(stopper)
    {
      hide Inv;
      while !entries[i].consumer.Exited?
        invariant Valid() && i < |entries| == |old(entries)| && entries[i].chan.Closed?
          && entries[i].offers == old(entries)[i].offers
        invariant forall j :: 0 <= j < |entries| && j != i ==> entries[j] == old(entries)[j]
        invariant started == old(started) && notes == old(notes) && active == old(active) && stopper == old(stopper)
        decreases |entries[i].buf|, Ahead(entries[i].consumer)
      {
        hide Inv;
        var e := entries[i];
        HasConsumer(Model(), i);
        if e.consumer.InOnEvent? {
          KeepsInv(Model(), Handled(i));
          entries := entries[i := e.(consumer := Receiving, delivered := e.delivered + [e.consumer.note])];
        } else if e.buf != [] {
          KeepsInv(Model(), Take(i));
          entries := entries[i := e.(consumer := InOnEvent(e.buf[0]), buf := e.buf[1..])];
        } else {
          KeepsInv(Model(), Leave(i));
          entries := entries[i := e.(consumer := Exited)];
        }
      }
      AllDelivered(Model(), i);
    }

    /**
     * Stop panics exactly when some listener was registered after start; otherwise it returns with every channel
     * closed, every consumer gone and everything buffered delivered.
     */
    method Stop() returns (panicked: bool)
      requires Valid() && active == map[] && started && stopper.Idle?
      modifies this
      ensures panicked <==> !NoneLate(old(Model()))
      ensures panicked ==> crash.CloseOfNil?
      ensures !panicked ==> Valid() && !started && stopper.Idle? && active == map[] && |entries| == |old(entries)|
      ensures !panicked ==> forall j :: 0 <= j < |entries| ==>
        entries[j].chan.Closed? && entries[j].consumer.Exited? && entries[j].offers == old(entries)[j].offers
        && entries[j].delivered == Taken(entries[j].offers)
    {
      hide Inv;
      KeepsInv(Model(), StopFlag);
      started, stopper := false, Closing(0, |entries|);
      panicked := CloseAll();
      if panicked {
        return;
      }
      KeepsInv(Model(), AllClosed);
      stopper := Joining(0, |entries|);
      JoinAll();
      KeepsInv(Model(), StopDone);
      stopper := Idle;
    }

    method CloseAll() returns (panicked: bool)
      requires Valid() && !started && stopper == Closing(0, |entries|)
      modifies this
      ensures panicked <==> !NoneLate(old(Model()))
      ensures panicked ==> crash.CloseOfNil?
      ensures !panicked ==>
        Valid() && !started && active == old(active) && notes == old(notes) && |entries| == |old(entries)|
      ensures !panicked ==> stopper == Closing(|entries|, |entries|)
      ensures !panicked ==> forall j ::
        0 <= j < |entries| ==> entries[j].chan.Closed? && entries[j].offers == old(entries)[j].offers
    {
      hide Inv;
      for i := 0 to |entries|
        invariant Valid() && !started && active == old(active) && notes == old(notes) && |entries| == |old(entries)|
        invariant stopper == Closing(i, |entries|)
        invariant forall j ::
          0 <= j < i ==> entries[j].chan.Closed? && entries[j].offers == old(entries)[j].offers && !old(entries)[j].late
        invariant forall j :: i <= j < |entries| ==> entries[j] == old(entries)[j]
      {
        hide Inv;
        ghost var before := Model();
        KeepsInv(before, CloseNext);
        StepPanicsIff(before, CloseNext);
        crash := CloseOf(entries[i].chan);
        if !crash.NoCrash? {
          return true;
        }
        entries := entries[i := entries[i].(chan := Closed)];
        stopper := Closing(i + 1, |entries|);
      }
      return false;
    }

    method JoinAll()
      requires Valid() && !started && stopper == Joining(0, |entries|)
      requires forall j :: 0 <= j < |entries| ==> entries[j].chan.Closed?
      modifies this
      ensures Valid() && !started && active == old(active) && notes == old(notes) && |entries| == |old(entries)|
      ensures stopper == Joining(|entries|, |entries|)
      ensures forall j :: 0 <= j < |entries| ==>
        entries[j].chan.Closed? && entries[j].consumer.Exited? && entries[j].offers == old(entries)[j].offers
        && entries[j].delivered == Taken(entries[j].offers)
    {
      hide Inv, Taken;
      for i := 0 to |entries|
        invariant Valid() && !started && active == old(active) && notes == old(notes) && |entries| == |old(entries)|
        invariant stopper == Joining(i, |entries|)
        invariant forall j ::
          0 <= j < |entries| ==> entries[j].chan.Closed? && entries[j].offers == old(entries)[j].offers
        invariant forall j ::
          0 <= j < i ==> entries[j].consumer.Exited? && entries[j].delivered == Taken(entries[j].offers)
      {
        hide Inv, Taken;
        Drain(i);
        KeepsInv(Model(), JoinNext);
        stopper := Joining(i + 1, |entries|);
      }
    }
  }

  /** Steps a consumer has left before it looks at its channel again or leaves. */
  function Ahead(c: Consumer): nat { if c.Exited? then 0 else if c.Receiving? then 1 else 2 }

  lemma HasConsumer(m: Manager, i: nat)
    requires Inv(m) && m.crash.NoCrash? && i < |m.entries| && m.entries[i].chan.Closed?
    ensures !m.entries[i].consumer.NotStarted?
  {
    assert EntryGood(m.entries[i]);
  }

  lemma AllDelivered(m: Manager, i: nat)
    requires Inv(m) && m.crash.NoCrash? && i < |m.entries| && m.entries[i].consumer.Exited?
    ensures m.entries[i].delivered == Taken(m.entries[i].offers)
  {
    assert EntryGood(m.entries[i]);
  }

  lemma StartRun(m: Manager)
    ensures Runs(m, []) && EndOf(m, []) == m
  {}

  lemma {:induction false} Then(m: Manager, run: seq<Step>, s: Step) returns (longer: seq<Step>)
    requires Runs(m, run) && Enabled(EndOf(m, run), s)
    ensures Runs(m, longer) && EndOf(m, longer) == Next(EndOf(m, run), s)
    decreases |run|
  {
    longer := run + [s];
    if run == [] {
      assert longer[1..] == [];
    } else {
      var rest := Then(Next(m, run[0]), run[1..], s);
      longer := [run[0]] + rest;
      assert longer[1..] == rest;
    }
  }

  /** Who is offered an event, by filter and pattern. */
  lemma OfferedIff(e: Entry, n: NoteId, ev: Event)
    ensures var f := OfferTo(e, n, ev);
      if ev in e.filter
         && (e.pattern == "*" || e.pattern == ev.typ || exists p :: e.pattern == p + ".*" && p + "." <= ev.typ)
      then |f.offers| == |e.offers| + 1 && f.offers[|e.offers|].note == n
      else f == e
  {
    Routing.PatternMeans(e.pattern, ev.typ);
    hide Routing.MatchPattern;
  }

  lemma CanBegin(m: Manager, ev: Event)
    requires m.crash.NoCrash?
    ensures Enabled(m, BeginNotify(ev))
    ensures Next(m, BeginNotify(ev)) ==
      if m.started then m.(notes := m.notes + [Note(ev, Ended(m), |m.entries|)], active := m.active[|m.notes| := 0])
      else m
  {}

  lemma CanOffer(m: Manager, n: NoteId)
    requires Inv(m) && m.crash.NoCrash? && n in m.active && n < |m.notes| && m.active[n] < |m.entries|
    ensures Enabled(m, Offer(n))
    ensures Next(m, Offer(n)) ==
      m.(entries := m.entries[m.active[n] := OfferTo(m.entries[m.active[n]], n, m.notes[n].ev)],
        active := m.active[n := m.active[n] + 1])
  {
    StepPanicsIff(m, Offer(n));
  }

  lemma CanEnd(m: Manager, n: NoteId)
    requires m.crash.NoCrash? && n in m.active && m.active[n] == |m.entries|
    ensures Enabled(m, EndNotify(n)) && Next(m, EndNotify(n)) == m.(active := m.active - {n})
  {}
}
