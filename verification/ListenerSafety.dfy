/** What listeners can rely on, over every run of the listener manager. */
module ListenerSafety {
  import opened Listeners

  /** The state that a run of a new manager leads to. */
  ghost predicate After(run: seq<Step>, m: Manager) { Runs(EMPTY, run) && m == EndOf(EMPTY, run) }

  lemma Reached(run: seq<Step>, m: Manager)
    requires After(run, m)
    ensures Inv(m)
  {
    RunKeepsInv(EMPTY, run);
  }

  // ---------------------------------------------------------------- delivery

  /** Where in `offers` the notifications that were taken stand. */
  lemma {:induction false} TakenAt(offers: seq<Offered>) returns (at: seq<nat>)
    ensures |at| == |Taken(offers)|
    ensures forall k :: 0 <= k < |at| ==> at[k] < |offers| && offers[at[k]] == Offered(Taken(offers)[k], true)
    ensures forall k, l :: 0 <= k < l < |at| ==> at[k] < at[l]
    decreases |offers|
  {
    if offers == [] {
      at := [];
    } else {
      var n := |offers| - 1;
      at := TakenAt(offers[..n]);
      if offers[n].taken { at := at + [n]; }
    }
  }

  /**
   * What a listener has been given, is being given and will be given from its buffer is a subsequence of the
   * notifications offered to it: all wanted, none twice, and none before one that had returned when it began.
   */
  lemma DeliveredInOrder(run: seq<Step>, m: Manager, j: nat)
    requires After(run, m) && m.crash.NoCrash? && j < |m.entries|
    ensures var e := m.entries[j];
      var got := e.delivered + InHand(e) + e.buf;
      && got == Taken(e.offers)
      && (forall k :: 0 <= k < |got| ==> got[k] < |m.notes| && Wants(e, m.notes[got[k]].ev))
      && (forall k, l :: 0 <= k < l < |got| ==> got[k] != got[l] && got[l] !in m.notes[got[k]].before)
  {
    Reached(run, m);
    var e := m.entries[j];
    assert EntryGood(e) && OffersGood(m, j);
    var at := TakenAt(e.offers);
    hide Wants, Taken, ChannelGood, NotesGood;
    var got := Taken(e.offers);
    forall k | 0 <= k < |got| ensures got[k] < |m.notes| && Wants(e, m.notes[got[k]].ev) {
      assert e.offers[at[k]].note == got[k];
    }
    forall k, l | 0 <= k < l < |got| ensures got[k] != got[l] && got[l] !in m.notes[got[k]].before {
      assert at[k] < at[l] && e.offers[at[k]].note == got[k] && e.offers[at[l]].note == got[l];
    }
  }

  /**
   * No wanted event goes missing silently: once notify has returned, the event is with the listener or was dropped
   * by it, and not both.
   */
  lemma NothingMissed(run: seq<Step>, m: Manager, j: nat, n: NoteId) returns (k: nat)
    requires After(run, m) && m.crash.NoCrash? && j < |m.entries|
    requires n < |m.notes| && n !in m.active && j < m.notes[n].width && Wants(m.entries[j], m.notes[n].ev)
    ensures var e := m.entries[j];
      && k < |e.offers| && e.offers[k].note == n
      && (e.offers[k].taken <==> n in e.delivered + InHand(e) + e.buf)
  {
    Reached(run, m);
    var e := m.entries[j];
    assert OffersGood(m, j) && EntryGood(e);
    assert WasOffered(e, n);
    k :| 0 <= k < |e.offers| && e.offers[k].note == n;
    var at := TakenAt(e.offers);
    hide Wants, Taken, ChannelGood, NotesGood;
    TakenIsListed(e.offers, k);
    if n in Taken(e.offers) {
      var i :| 0 <= i < |at| && Taken(e.offers)[i] == n;
      assert e.offers[at[i]].note == n && e.offers[at[i]].taken;
      assert at[i] == k;
    }
  }

  lemma {:induction false} TakenIsListed(offers: seq<Offered>, k: nat)
    requires k < |offers|
    ensures offers[k].taken ==> offers[k].note in Taken(offers)
    decreases |offers|
  {
    if k < |offers| - 1 { TakenIsListed(offers[..|offers| - 1], k); }
  }

  /** A listener that has a channel drops an event exactly when its buffer is full, or unbuffered without a taker. */
  lemma DropsOnlyWhenFull(run: seq<Step>, m: Manager, n: NoteId)
    requires After(run, m) && Enabled(m, Offer(n)) && Wants(m.entries[m.active[n]], m.notes[n].ev)
      && !m.entries[m.active[n]].late
    ensures var e := m.entries[m.active[n]];
      var f := Next(m, Offer(n)).entries[m.active[n]];
      && |f.offers| == |e.offers| + 1 && f.offers[|e.offers|].note == n
      && (!f.offers[|e.offers|].taken <==>
            |e.buf| >= e.bufferSize && !(e.bufferSize == 0 && e.buf == [] && e.consumer.Receiving?))
  {
    Reached(run, m);
    assert ChannelGood(m, m.active[n]);
  }

  // ---------------------------------------------------------------- panics

  /**
   * Over every run, a send never meets a closed channel and no channel is closed twice; a step panics exactly when
   * stop comes to an entry that was registered while the manager was started, which never got a channel.
   */
  lemma PanicsIff(run: seq<Step>, m: Manager, s: Step)
    requires After(run, m) && Enabled(m, s)
    ensures !Next(m, s).crash.SendOnClosed? && !Next(m, s).crash.CloseOfClosed?
    ensures Next(m, s).crash.CloseOfNil? <==> s.CloseNext? && m.entries[m.stopper.i].late
  {
    Reached(run, m);
    StepPanicsIff(m, s);
  }

  lemma StepPanicsIff(m: Manager, s: Step)
    requires Inv(m) && Enabled(m, s)
    ensures !Next(m, s).crash.SendOnClosed? && !Next(m, s).crash.CloseOfClosed?
    ensures Next(m, s).crash.CloseOfNil? <==> s.CloseNext? && m.entries[m.stopper.i].late
  {
    if s.Offer? { assert ChannelGood(m, m.active[s.note]); }
    if s.CloseNext? { assert ChannelGood(m, m.stopper.i); }
  }

  /** A manager that panics: a listener registered after start, and then stop. */
  lemma LateRegistrationPanics(pattern: string, filter: iset<Event>, bufferSize: nat)
    ensures var run := [StartAll, Register(pattern, filter, bufferSize), StopFlag, CloseNext];
      Runs(EMPTY, run) && EndOf(EMPTY, run).crash.CloseOfNil?
  {
    var late := Entry(pattern, filter, bufferSize, true, NoChannel, [], NotStarted, [], []);
    var m1 := Next(EMPTY, StartAll);
    assert m1 == EMPTY.(started := true);
    var m2 := Next(m1, Register(pattern, filter, bufferSize));
    assert m2.entries == [late];
    var m3 := Next(m2, StopFlag);
    var m4 := Next(m3, CloseNext);
    assert Runs(m4, []) && EndOf(m4, []) == m4;
    assert [CloseNext][1..] == [];
    assert Runs(m3, [CloseNext]) && EndOf(m3, [CloseNext]) == m4;
    assert [StopFlag, CloseNext][1..] == [CloseNext];
    assert Runs(m2, [StopFlag, CloseNext]) && EndOf(m2, [StopFlag, CloseNext]) == m4;
    var three := [Register(pattern, filter, bufferSize), StopFlag, CloseNext];
    assert three[1..] == [StopFlag, CloseNext];
    assert Runs(m1, three) && EndOf(m1, three) == m4;
    var run := [StartAll, Register(pattern, filter, bufferSize), StopFlag, CloseNext];
    assert run[1..] == three;
  }

  /** Listeners are only registered before start, as the documentation asks. */
  ghost predicate OnTime(m: Manager, run: seq<Step>)
    requires Runs(m, run)
    decreases |run|
  {
    run == [] || ((run[0].Register? ==> !m.started) && OnTime(Next(m, run[0]), run[1..]))
  }

  ghost predicate NoneLate(m: Manager) { forall j :: 0 <= j < |m.entries| ==> !m.entries[j].late }

  /** Then nothing ever panics. */
  lemma OnTimeIsSafe(run: seq<Step>, m: Manager)
    requires After(run, m) && OnTime(EMPTY, run)
    ensures m.crash.NoCrash?
  {
    OnTimeFrom(EMPTY, run);
  }

  lemma {:induction false} OnTimeFrom(m: Manager, run: seq<Step>)
    requires Inv(m) && NoneLate(m) && m.crash.NoCrash? && Runs(m, run) && OnTime(m, run)
    ensures EndOf(m, run).crash.NoCrash? && NoneLate(EndOf(m, run))
    decreases |run|
  {
    if run != [] {
      KeepsInv(m, run[0]);
      StepPanicsIff(m, run[0]);
      StaysOnTime(m, run[0]);
      OnTimeFrom(Next(m, run[0]), run[1..]);
    }
  }

  lemma StaysOnTime(m: Manager, s: Step)
    requires Enabled(m, s) && NoneLate(m) && (s.Register? ==> !m.started)
    ensures NoneLate(Next(m, s))
  {
    hide Wants, HasRoom;
  }

  /** And otherwise stop cannot come through: a late entry in front of it is never passed. */
  lemma LateEntryEndsStop(run: seq<Step>, m: Manager, later: seq<Step>, k: nat)
    requires After(run, m) && Runs(m, later) && m.stopper.Closing? && m.stopper.i <= k < m.stopper.n && k < |m.entries|
    requires m.entries[k].late
    ensures EndOf(m, later).stopper.Closing?
    ensures EndOf(m, later).stopper.i <= k || EndOf(m, later).crash.CloseOfNil?
  {
    Reached(run, m);
    NeverPassed(m, later, k);
  }

  lemma {:induction false} NeverPassed(m: Manager, run: seq<Step>, k: nat)
    requires Inv(m) && Runs(m, run) && m.stopper.Closing? && m.stopper.i <= k < m.stopper.n && m.entries[k].late
    ensures EndOf(m, run).stopper.Closing?
    ensures EndOf(m, run).stopper.i <= k || EndOf(m, run).crash.CloseOfNil?
    decreases |run|
  {
    if run != [] {
      KeepsInv(m, run[0]);
      StepPanicsIff(m, run[0]);
      if run[0].CloseNext? && m.stopper.i == k {
        assert !Runs(Next(m, run[0]), run[1..]) || run[1..] == [];
      } else {
        LateStays(m, run[0], k);
        NeverPassed(Next(m, run[0]), run[1..], k);
      }
    }
  }

  lemma LateStays(m: Manager, s: Step, k: nat)
    requires Inv(m) && Enabled(m, s) && m.stopper.Closing? && m.stopper.i <= k < m.stopper.n && m.entries[k].late
    requires !(s.CloseNext? && m.stopper.i == k)
    ensures var t := Next(m, s);
      t.stopper.Closing? && t.stopper.i <= k < t.stopper.n <= |t.entries| && t.entries[k].late
  {
    hide Wants, HasRoom, EntryGood, ChannelGood, OffersGood;
  }

  // ---------------------------------------------------------------- shutdown

  /** When stop calls a listener's Shutdown, everything its buffer ever took has been delivered. */
  lemma DeliveredBeforeShutdown(run: seq<Step>, m: Manager)
    requires After(run, m) && Enabled(m, JoinNext)
    ensures m.entries[m.stopper.i].delivered == Taken(m.entries[m.stopper.i].offers)
  {
    Reached(run, m);
    assert EntryGood(m.entries[m.stopper.i]);
  }

  /** And until the next start it is given nothing more. */
  lemma {:induction false} SilentAfterShutdown(m: Manager, run: seq<Step>, j: nat)
    requires Runs(m, run) && j < |m.entries| && m.entries[j].consumer.Exited?
    requires forall k :: 0 <= k < |run| ==> !run[k].StartAll?
    ensures j < |EndOf(m, run).entries| && EndOf(m, run).entries[j].delivered == m.entries[j].delivered
    decreases |run|
  {
    if run != [] {
      ExitedStays(m, run[0], j);
      assert forall k :: 0 <= k < |run[1..]| ==> run[1..][k] == run[k + 1];
      SilentAfterShutdown(Next(m, run[0]), run[1..], j);
    }
  }

  lemma ExitedStays(m: Manager, s: Step, j: nat)
    requires Enabled(m, s) && !s.StartAll? && j < |m.entries| && m.entries[j].consumer.Exited?
    ensures j < |Next(m, s).entries| && Next(m, s).entries[j].consumer.Exited?
    ensures Next(m, s).entries[j].delivered == m.entries[j].delivered
  {
    hide Wants, HasRoom;
  }

  /** While stop waits for a listener, stop or that listener's consumer can move. */
  lemma StopNeverStuck(run: seq<Step>, m: Manager) returns (s: Step)
    requires After(run, m) && m.crash.NoCrash? && !m.stopper.Idle?
    ensures Enabled(m, s)
    ensures s in {CloseNext, AllClosed, JoinNext, StopDone}
      || (m.stopper.Joining? && s in {Take(m.stopper.i), Handled(m.stopper.i), Leave(m.stopper.i)})
  {
    Reached(run, m);
    var i := m.stopper.i;
    if i >= m.stopper.n {
      s := if m.stopper.Closing? then AllClosed else StopDone;
    } else if m.stopper.Closing? {
      s := CloseNext;
    } else {
      assert EntryGood(m.entries[i]) && ChannelGood(m, i);
      var e := m.entries[i];
      s := if e.consumer.Exited? then JoinNext
           else if e.consumer.InOnEvent? then Handled(i)
           else if e.buf != [] then Take(i) else Leave(i);
    }
  }
}
