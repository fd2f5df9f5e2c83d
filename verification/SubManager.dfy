/** The subscriber manager as its code keeps it, each method shown to be a run of the model. */
module SubManagers {
  import PoolModel
  import Listeners
  import Routing
  import opened Subscribers

  class SubManager {
    var entries: map<SubId, Sub>
    var nextId: SubId
    var active: map<CallId, Pending>
    var closing: map<SubId, Sub>
    var closes: seq<PoolModel.ChanId>
    var used: set<PoolModel.ChanId>
    var panics: nat

    ghost function Model(): Subs
      reads this
    {
      Subs(entries, nextId, active, closing, closes, used, panics)
    }

    ghost predicate Valid()
      reads this
    {
      Known(Model())
    }

    constructor ()
      ensures Valid() && Model() == EMPTY
    {
      entries, nextId, active, closing := map[], 0, map[], map[];
      closes, used, panics := [], {}, 0;
    }

    method Subscribe(sub: Sub) returns (id: SubId)
      requires Valid() && active == map[]
      modifies this
      ensures Valid() && Model() == Next(old(Model()), Subscribers.Subscribe(sub))
      ensures id !in old(entries) && id in entries && entries[id] == sub
    {
      StepKeepsKnown(Model(), Subscribers.Subscribe(sub));
      id := nextId;
      entries := entries[id := sub];
      nextId := nextId + 1;
      if sub.ch.Some? {
        used := used + {sub.ch.value};
      }
    }

    /** close(entry.ch), unless it is nil; a second close panics and is recovered. */
    method CloseChannel(id: SubId)
      requires Valid() && id in closing
      modifies this
      ensures Valid() && Model() == Next(old(Model()), Close(id))
      ensures entries == old(entries) && active == old(active) && closing == old(closing) - {id}
    {
      StepKeepsKnown(Model(), Close(id));
      var entry := closing[id];
      closing := closing - {id};
      if entry.ch.Some? {
        if entry.ch.value in closes {
          panics := panics + 1;
        }
        closes := closes + [entry.ch.value];
      }
    }

    /** The entry is gone at once; its channel is closed after the lock is given back. */
    method Unsubscribe(id: SubId) returns (ghost run: seq<Step>)
      requires Valid() && active == map[]
      modifies this
      ensures Valid() && entries == old(entries) - {id}
      ensures run == if id in old(entries) then [Remove(id), Close(id)] else [Remove(id)]
      ensures Runs(old(Model()), run) && OwnChannels(old(Model()), run)
      ensures Model() == EndOf(old(Model()), run)
    {
      hide Known;
      ghost var s := Model();
      StepKeepsKnown(s, Remove(id));
      StartsAt(s);
      run := Extended(s, [], Remove(id));
      if id !in entries {
        assert entries == entries - {id};
        return;
      }
      var entry := entries[id];
      entries := entries - {id};
      closing := closing[id := entry];
      run := Extended(s, run, Close(id));
      CloseChannel(id);
    }

    /**
     * One call of notify: it visits every entry, in any order, and the event reaches exactly the subscribers that
     * want it and whose channel is open and has room.
     */
    method Notify(call: CallId, ev: Listeners.Event, full: set<PoolModel.ChanId>)
      returns (reached: set<SubId>, ghost run: seq<Step>)
      requires Valid() && call !in active
      modifies this
      ensures Valid() && entries == old(entries) && closes == old(closes) && active == old(active)
      ensures Runs(old(Model()), run) && OwnChannels(old(Model()), run)
      ensures Model() == EndOf(old(Model()), run)
      ensures forall id :: id in reached <==> id in entries && Wants(entries[id], ev) && Reachable(entries[id], full)
      ensures forall id <- entries.Keys ::
        var sub := entries[id];
        id in reached <==>
          && ev in sub.filter && sub.ch.Some? && sub.ch.value !in closes && sub.ch.value !in full
          && (sub.pattern == "*" || sub.pattern == ev.typ || exists p :: sub.pattern == p + ".*" && p + "." <= ev.typ)
    {
      hide Known, Wants, Runs, OwnChannels, EndOf;
      ghost var s := Model();
      StepKeepsKnown(s, BeginNotify(call, ev));
      StartsAt(s);
      run := Extended(s, [], BeginNotify(call, ev));
      active := active[call := Pending(ev, entries.Keys)];
      ghost var visits;
      reached, visits := VisitAll(call, full);
      Joined(s, run, visits);
      StepKeepsKnown(Model(), EndNotify(call));
      run := Extended(s, run + visits, EndNotify(call));
      TakeBack(s.active, call, active[call]);
      forall id <- entries.Keys { WantsIff(entries[id], ev); }
      active := active - {call};
    }

    /** The loop over the entries. */
    method VisitAll(call: CallId, full: set<PoolModel.ChanId>) returns (reached: set<SubId>, ghost run: seq<Step>)
      requires Valid() && call in active && active[call].left == entries.Keys
      modifies this
      ensures Valid() && entries == old(entries) && closes == old(closes)
      ensures active == old(active)[call := Pending(old(active)[call].ev, {})]
      ensures Runs(old(Model()), run) && OwnChannels(old(Model()), run)
      ensures Model() == EndOf(old(Model()), run)
      ensures forall id :: id in reached <==>
        id in entries && Wants(entries[id], old(active)[call].ev) && Reachable(entries[id], full)
    {
      hide Known, Wants, Runs, OwnChannels, EndOf;
      ghost var s := Model();
      var ev := active[call].ev;
      StartsAt(s);
      run, reached := [], {};
      while active[call].left != {}
        invariant Valid() && entries == old(entries) && closes == old(closes) && call in active && active[call].ev == ev
        invariant Runs(s, run) && OwnChannels(s, run) && Model() == EndOf(s, run)
        invariant active[call].left <= entries.Keys && active == s.active[call := active[call]]
        invariant forall id :: id in reached <==>
          id in entries && id !in active[call].left && Wants(entries[id], ev) && Reachable(entries[id], full)
        decreases |active[call].left|
      {
        hide Known, Wants, Runs, OwnChannels, EndOf, Next;
        var id :| id in active[call].left;
        run := Extended(s, run, Visit(call, id));
        var sent := VisitEntry(call, id, full);
        if sent {
          reached := reached + {id};
        }
      }
    }

    /** notify's work on one entry: the send goes through, or nothing happens, or a panic is recovered. */
    method VisitEntry(call: CallId, id: SubId, full: set<PoolModel.ChanId>) returns (sent: bool)
      requires Valid() && call in active && id in active[call].left && id in entries
      modifies this
      ensures Valid() && Model() == Next(old(Model()), Visit(call, id))
      ensures sent <==> Wants(entries[id], active[call].ev) && Reachable(entries[id], full)
      ensures entries == old(entries) && closes == old(closes)
      ensures active == old(active)[call := Pending(old(active)[call].ev, old(active)[call].left - {id})]
    {
      hide Known;
      StepKeepsKnown(Model(), Visit(call, id));
      var ev := active[call].ev;
      sent := false;
      if Wants(entries[id], ev) && entries[id].ch.Some? {
        var ch := entries[id].ch.value;
        if ch in closes {
          panics := panics + 1;
        } else if ch !in full {
          sent := true;
        }
      }
      active := active[call := Pending(ev, active[call].left - {id})];
    }

    predicate Reachable(sub: Sub, full: set<PoolModel.ChanId>)
      reads this
    {
      sub.ch.Some? && sub.ch.value !in closes && sub.ch.value !in full
    }

    /** Every entry is gone at once; their channels are closed after the lock is given back, in any order. */
    method Clear() returns (ghost run: seq<Step>)
      requires Valid() && active == map[]
      modifies this
      ensures Valid() && entries == map[] && closing == old(closing)
      ensures Runs(old(Model()), run) && OwnChannels(old(Model()), run)
      ensures Model() == EndOf(old(Model()), run)
    {
      hide Known, Runs, OwnChannels, EndOf;
      ghost var s := Model();
      StepKeepsKnown(s, Subscribers.Clear);
      Disjoint(s);
      StartsAt(s);
      run := Extended(s, [], Subscribers.Clear);
      var left := entries.Keys;
      closing := closing + entries;
      entries := map[];
      while left != {}
        invariant Valid() && entries == map[] && active == map[]
        invariant left <= closing.Keys && left !! s.closing.Keys && closing.Keys == s.closing.Keys + left
        invariant forall id <- s.closing.Keys :: closing[id] == s.closing[id]
        invariant Runs(s, run) && OwnChannels(s, run) && Model() == EndOf(s, run)
      {
        hide Known, Runs, OwnChannels, EndOf, Next;
        var id :| id in left;
        run := Extended(s, run, Close(id));
        CloseChannel(id);
        left := left - {id};
      }
      assert closing.Keys == s.closing.Keys;
    }
  }

  /** Which events a subscriber wants, by filter and pattern. */
  lemma WantsIff(sub: Sub, ev: Listeners.Event)
    ensures Wants(sub, ev) <==>
              && ev in sub.filter
              && (sub.pattern == "*" || sub.pattern == ev.typ
                  || exists p :: sub.pattern == p + ".*" && p + "." <= ev.typ)
  {
    Routing.PatternMeans(sub.pattern, ev.typ);
    hide Routing.MatchPattern;
  }

  lemma TakeBack(active: map<CallId, Pending>, call: CallId, p: Pending)
    requires call !in active
    ensures active[call := p] - {call} == active
  {}

  lemma Disjoint(s: Subs)
    requires Known(s)
    ensures s.entries.Keys !! s.closing.Keys
  {}

  lemma StartsAt(s: Subs)
    ensures Runs(s, []) && OwnChannels(s, []) && EndOf(s, []) == s
  {}

  lemma Extended(s: Subs, run: seq<Step>, step: Step) returns (longer: seq<Step>)
    requires Runs(s, run) && OwnChannels(s, run)
    requires Enabled(EndOf(s, run), step) && BringsOwn(EndOf(s, run), step)
    ensures longer == run + [step] && Runs(s, longer) && OwnChannels(s, longer)
    ensures EndOf(s, longer) == Next(EndOf(s, run), step)
  {
    hide Runs, OwnChannels, EndOf, Next, Enabled, BringsOwn;
    var one := OneStep(EndOf(s, run), step);
    Joined(s, run, one);
    longer := run + one;
  }
}
