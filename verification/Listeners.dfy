/**
 * The listener manager as a transition system: notifications that hold the read lock, one consumer per listener,
 * and a stop that closes the channels outside the lock. Each step is one critical section or channel operation.
 */
module Listeners {
  import opened Routing

  datatype Event = Event(id: nat, typ: string)

  type NoteId = nat

  /** One call of notify that found the manager started: its event, and the calls that had returned before it began. */
  datatype Note = Note(ev: Event, before: set<NoteId>, width: nat)

  datatype Chan = NoChannel | Open | Closed

  datatype Consumer = NotStarted | Receiving | InOnEvent(note: NoteId) | Exited

  /** A notification that came to a listener that wants it: taken into the buffer or dropped. */
  datatype Offered = Offered(note: NoteId, taken: bool)

  datatype Entry = Entry(
    pattern: string,
    filter: iset<Event>,        // the events the filter lets through; all of them without one
    bufferSize: nat,
    late: bool,                 // registered while the manager was started
    chan: Chan,
    buf: seq<NoteId>,
    consumer: Consumer,
    offers: seq<Offered>,
    delivered: seq<NoteId>      // finished OnEvent calls
  )

  /** Stop is idle, closing the channel of entry i of n, or waiting for the consumer of entry i of n. */
  datatype Stopper = Idle | Closing(i: nat, n: nat) | Joining(i: nat, n: nat)

  datatype Crash = NoCrash | SendOnClosed | CloseOfClosed | CloseOfNil

  datatype Manager = Manager(
    entries: seq<Entry>,
    started: bool,
    notes: seq<Note>,
    active: map<NoteId, nat>,   // notify calls inside the read lock, and the entry each comes to next
    stopper: Stopper,
    crash: Crash
  )

  datatype Step =
    | Register(pattern: string, filter: iset<Event>, bufferSize: nat)
    | StartAll
    | BeginNotify(ev: Event)
    | Offer(note: NoteId)
    | EndNotify(note: NoteId)
    | Take(i: nat)
    | Handled(i: nat)
    | Leave(i: nat)
    | StopFlag
    | CloseNext
    | AllClosed
    | JoinNext
    | StopDone

  const EMPTY := Manager([], false, [], map[], Idle, NoCrash)

  predicate Wants(e: Entry, ev: Event) { MatchPattern(e.pattern, ev.typ) && ev in e.filter }

  /** A non-blocking send goes through: buffer space, or a consumer at the receive of an unbuffered channel. */
  predicate HasRoom(e: Entry) {
    e.chan.Open? && (|e.buf| < e.bufferSize || (e.bufferSize == 0 && e.buf == [] && e.consumer.Receiving?))
  }

  function OfferTo(e: Entry, note: NoteId, ev: Event): Entry {
    if !Wants(e, ev) then e
    else if HasRoom(e) then e.(buf := e.buf + [note], offers := e.offers + [Offered(note, true)])
    else e.(offers := e.offers + [Offered(note, false)])
  }

  function Opened(e: Entry): Entry { e.(chan := Open, consumer := Receiving, buf := [], late := false) }

  function CloseOf(c: Chan): Crash {
    match c
    case NoChannel => CloseOfNil
    case Closed => CloseOfClosed
    case Open => NoCrash
  }

  predicate Enabled(m: Manager, s: Step) {
    && m.crash.NoCrash?
    && match s
       case Register(_, _, _) => m.active == map[]
       case StartAll => m.active == map[] && !m.started && m.stopper.Idle?
       case BeginNotify(_) => true
       case Offer(n) => n in m.active && n < |m.notes| && m.active[n] < |m.entries|
       case EndNotify(n) => n in m.active && m.active[n] >= |m.entries|
       case Take(i) => i < |m.entries| && m.entries[i].consumer.Receiving? && m.entries[i].buf != []
       case Handled(i) => i < |m.entries| && m.entries[i].consumer.InOnEvent?
       case Leave(i) =>
         i < |m.entries| && m.entries[i].consumer.Receiving? && m.entries[i].chan.Closed? && m.entries[i].buf == []
       case StopFlag => m.active == map[] && m.started && m.stopper.Idle?
       case CloseNext => m.stopper.Closing? && m.stopper.i < m.stopper.n && m.stopper.i < |m.entries|
       case AllClosed => m.stopper.Closing? && m.stopper.i >= m.stopper.n
       case JoinNext => m.stopper.Joining? && m.stopper.i < m.stopper.n && m.stopper.i < |m.entries|
                        && m.entries[m.stopper.i].consumer.Exited?
       case StopDone => m.stopper.Joining? && m.stopper.i >= m.stopper.n
  }

  function Ended(m: Manager): set<NoteId> { set n | 0 <= n < |m.notes| && n !in m.active }

  function Next(m: Manager, s: Step): Manager
    requires Enabled(m, s)
  {
    match s
    case Register(p, f, size) =>
      m.(entries := m.entries + [Entry(p, f, size, m.started, NoChannel, [], NotStarted, [], [])])
    case StartAll =>
      m.(entries := seq(|m.entries|, i requires 0 <= i < |m.entries| => Opened(m.entries[i])), started := true)
    case BeginNotify(ev) =>
      if m.started then m.(notes := m.notes + [Note(ev, Ended(m), |m.entries|)], active := m.active[|m.notes| := 0])
      else m
    case Offer(n) =>
      var i := m.active[n];
      m.(entries := m.entries[i := OfferTo(m.entries[i], n, m.notes[n].ev)],
         active := m.active[n := i + 1],
         crash := if Wants(m.entries[i], m.notes[n].ev) && m.entries[i].chan.Closed? then SendOnClosed else NoCrash)
    case EndNotify(n) => m.(active := m.active - {n})
    case Take(i) =>
      var e := m.entries[i];
      m.(entries := m.entries[i := e.(consumer := InOnEvent(e.buf[0]), buf := e.buf[1..])])
    case Handled(i) =>
      var e := m.entries[i];
      m.(entries := m.entries[i := e.(consumer := Receiving, delivered := e.delivered + [e.consumer.note])])
    case Leave(i) => m.(entries := m.entries[i := m.entries[i].(consumer := Exited)])
    case StopFlag => m.(started := false, stopper := Closing(0, |m.entries|))
    case CloseNext =>
      var i := m.stopper.i;
      m.(entries := m.entries[i := m.entries[i].(chan := Closed)], stopper := Closing(i + 1, m.stopper.n),
         crash := CloseOf(m.entries[i].chan))
    case AllClosed => m.(stopper := Joining(0, m.stopper.n))
    case JoinNext => m.(stopper := Joining(m.stopper.i + 1, m.stopper.n))
    case StopDone => m.(stopper := Idle)
  }

  ghost predicate Runs(m: Manager, run: seq<Step>)
    decreases |run|
  {
    run == [] || (Enabled(m, run[0]) && Runs(Next(m, run[0]), run[1..]))
  }

  ghost function EndOf(m: Manager, run: seq<Step>): Manager
    requires Runs(m, run)
    decreases |run|
  {
    if run == [] then m else EndOf(Next(m, run[0]), run[1..])
  }

  // ---------------------------------------------------------------- one entry

  /** The notifications of `offers` that were taken, in order. */
  function Taken(offers: seq<Offered>): seq<NoteId> {
    if offers == [] then []
    else Taken(offers[..|offers| - 1]) + (if offers[|offers| - 1].taken then [offers[|offers| - 1].note] else [])
  }

  function InHand(e: Entry): seq<NoteId> { if e.consumer.InOnEvent? then [e.consumer.note] else [] }

  /** Whatever was taken has been delivered, is being delivered, or waits, in its order. */
  ghost predicate EntryGood(e: Entry) {
    && Taken(e.offers) == e.delivered + InHand(e) + e.buf
    && (e.chan.NoChannel? <==> e.consumer.NotStarted?)
    && (e.chan.NoChannel? ==> e.buf == [])
    && (e.consumer.Exited? ==> e.chan.Closed? && e.buf == [])
  }

  /** The channel of entry `j`, by how far stop has come. */
  ghost predicate ChannelGood(m: Manager, j: nat)
    requires j < |m.entries|
  {
    var e := m.entries[j];
    match m.stopper
    case Idle =>
      if m.started then e.chan == (if e.late then NoChannel else Open) else e.chan.NoChannel? || e.consumer.Exited?
    case Closing(i, n) =>
      if j < i then e.chan.Closed?
      else if j < n then e.chan == (if e.late then NoChannel else Open)
      else e.chan.NoChannel?
    case Joining(i, n) => if j < n then e.chan.Closed? && (j < i ==> e.consumer.Exited?) else e.chan.NoChannel?
  }

  /** Only wanted notifications are offered. */
  ghost predicate Logged(e: Entry, notes: seq<Note>) {
    forall k :: 0 <= k < |e.offers| ==> e.offers[k].note < |notes| && Wants(e, notes[e.offers[k].note].ev)
  }

  /** A notification still to come to the entry has not been offered to it. */
  ghost predicate NotYet(e: Entry, active: map<NoteId, nat>, j: nat) {
    forall k :: 0 <= k < |e.offers| && e.offers[k].note in active ==> j < active[e.offers[k].note]
  }

  /** No notification is offered twice, nor after one that began when it had already returned. */
  ghost predicate InTurn(e: Entry, notes: seq<Note>) {
    forall k, l :: 0 <= k < l < |e.offers| && e.offers[k].note < |notes| ==>
      e.offers[k].note != e.offers[l].note && e.offers[l].note !in notes[e.offers[k].note].before
  }

  /** A wanted notification that has passed by the entry has been offered to it. */
  ghost predicate Complete(e: Entry, notes: seq<Note>, active: map<NoteId, nat>, j: nat) {
    forall n: NoteId ::
      n < |notes| && j < notes[n].width && Wants(e, notes[n].ev) && (n in active ==> j < active[n]) ==> WasOffered(e, n)
  }

  /** The offers made to entry `j`. */
  ghost predicate OffersGood(m: Manager, j: nat)
    requires j < |m.entries|
  {
    var e := m.entries[j];
    Logged(e, m.notes) && NotYet(e, m.active, j) && InTurn(e, m.notes) && Complete(e, m.notes, m.active, j)
  }

  ghost predicate WasOffered(e: Entry, n: NoteId) { exists k :: 0 <= k < |e.offers| && e.offers[k].note == n }

  /** These notifications began before number `n` and have returned. */
  ghost predicate Returned(before: set<NoteId>, n: NoteId, active: map<NoteId, nat>) {
    forall b <- before :: b < n && b !in active
  }

  ghost predicate NotesGood(m: Manager) {
    && (forall n <- m.active.Keys :: n < |m.notes| && m.active[n] <= m.notes[n].width == |m.entries|)
    && (forall n: NoteId :: n < |m.notes| ==> m.notes[n].width <= |m.entries|)
    && (forall n: NoteId :: n < |m.notes| ==> Returned(m.notes[n].before, n, m.active))
    && (m.active != map[] ==> m.started)
    && (m.stopper.Idle? || (!m.started && m.stopper.n <= |m.entries|))
    && (m.stopper.Closing? ==> m.stopper.i <= m.stopper.n)
  }

  ghost predicate Inv(m: Manager) {
    && NotesGood(m)
    && (m.crash.NoCrash? ==> forall j :: 0 <= j < |m.entries| ==> EntryGood(m.entries[j]) && ChannelGood(m, j))
    && (forall j :: 0 <= j < |m.entries| ==> OffersGood(m, j))
  }

  // ---------------------------------------------------------------- preservation

  lemma TakenAppend(offers: seq<Offered>, o: Offered)
    ensures Taken(offers + [o]) == Taken(offers) + (if o.taken then [o.note] else [])
  {
    assert (offers + [o])[..|offers + [o]| - 1] == offers;
  }

  lemma OneMoreBuffered(a: seq<NoteId>, b: seq<NoteId>, c: seq<NoteId>, n: NoteId)
    ensures a + b + (c + [n]) == a + b + c + [n]
  {}

  lemma OfferKeepsEntry(e: Entry, n: NoteId, ev: Event)
    requires EntryGood(e)
    ensures EntryGood(OfferTo(e, n, ev))
  {
    hide Wants, Taken;
    TakenAppend(e.offers, Offered(n, true));
    TakenAppend(e.offers, Offered(n, false));
    OneMoreBuffered(e.delivered, InHand(e), e.buf, n);
  }

  lemma EntryMovesGood(e: Entry)
    requires EntryGood(e)
    ensures e.consumer.Receiving? && e.buf != [] ==> EntryGood(e.(consumer := InOnEvent(e.buf[0]), buf := e.buf[1..]))
    ensures e.consumer.InOnEvent? ==> EntryGood(e.(consumer := Receiving, delivered := e.delivered + [e.consumer.note]))
  {
    if e.buf != [] { assert e.buf == [e.buf[0]] + e.buf[1..]; }
  }

  lemma OpenedGood(e: Entry)
    requires EntryGood(e) && (e.chan.NoChannel? || e.consumer.Exited?)
    ensures EntryGood(Opened(e))
  {}

  lemma KeepsEntries(m: Manager, s: Step)
    requires Inv(m) && Enabled(m, s) && Next(m, s).crash.NoCrash?
    ensures forall j :: 0 <= j < |Next(m, s).entries| ==> EntryGood(Next(m, s).entries[j])
  {
    hide NotesGood, OffersGood, EntryGood, Wants, HasRoom;
    var t := Next(m, s);
    forall j | 0 <= j < |t.entries| ensures EntryGood(t.entries[j]) {
      if j < |m.entries| {
        assert EntryGood(m.entries[j]) && ChannelGood(m, j);
        EntryMovesGood(m.entries[j]);
        if s.Offer? { OfferKeepsEntry(m.entries[j], s.note, m.notes[s.note].ev); }
        if s.StartAll? { OpenedGood(m.entries[j]); }
        LeaveGood(m.entries[j]);
      } else {
        NewGood(t.entries[j]);
      }
    }
  }

  lemma NewGood(e: Entry)
    ensures e.chan.NoChannel? && e.consumer.NotStarted? && e.buf == [] && e.offers == [] && e.delivered == [] ==>
      EntryGood(e)
  {}

  lemma LeaveGood(e: Entry)
    requires EntryGood(e)
    ensures e.chan.Closed? && e.buf == [] && e.consumer.Receiving? ==> EntryGood(e.(consumer := Exited))
    ensures e.chan.Open? ==> EntryGood(e.(chan := Closed))
  {}

  lemma OfferKeepsChannel(e: Entry, n: NoteId, ev: Event)
    ensures OfferTo(e, n, ev).chan == e.chan && OfferTo(e, n, ev).late == e.late
      && OfferTo(e, n, ev).consumer == e.consumer
    ensures OfferTo(e, n, ev).pattern == e.pattern && OfferTo(e, n, ev).filter == e.filter
  {}

  lemma AfterOffer(m: Manager, n: NoteId, j: nat)
    requires Enabled(m, Offer(n)) && j < |m.entries|
    ensures n in m.active && n < |m.notes|
    ensures var t := Next(m, Offer(n));
      && t.notes == m.notes && t.active == m.active[n := m.active[n] + 1] && |t.entries| == |m.entries|
      && t.started == m.started && t.stopper == m.stopper
      && t.entries[j] == if j == m.active[n] then OfferTo(m.entries[j], n, m.notes[n].ev) else m.entries[j]
  {
    hide OfferTo, Wants;
  }

  /** Steps that leave stop and an entry's channel alone. */
  lemma SameChannel(m: Manager, t: Manager, j: nat)
    requires j < |m.entries| && j < |t.entries| && ChannelGood(m, j) && t.stopper == m.stopper && t.started == m.started
    requires t.entries[j].chan == m.entries[j].chan && t.entries[j].late == m.entries[j].late
    requires t.entries[j].consumer.Exited? == m.entries[j].consumer.Exited?
    ensures ChannelGood(t, j)
  {}

  lemma OfferKeepsChannels(m: Manager, n: NoteId, j: nat)
    requires Enabled(m, Offer(n)) && j < |m.entries| && ChannelGood(m, j)
    ensures ChannelGood(Next(m, Offer(n)), j)
  {
    AfterOffer(m, n, j);
    OfferKeepsChannel(m.entries[j], n, m.notes[n].ev);
    hide OfferTo, ChannelGood, Next;
    SameChannel(m, Next(m, Offer(n)), j);
  }

  /** Any other step, for an entry that was there. */
  lemma StepKeepsChannel(m: Manager, s: Step, j: nat)
    requires NotesGood(m) && Enabled(m, s) && !s.Offer? && Next(m, s).crash.NoCrash?
    requires j < |m.entries| && EntryGood(m.entries[j]) && ChannelGood(m, j)
    ensures ChannelGood(Next(m, s), j)
  {}

  lemma KeepsChannels(m: Manager, s: Step)
    requires Inv(m) && Enabled(m, s) && Next(m, s).crash.NoCrash?
    ensures forall j :: 0 <= j < |Next(m, s).entries| ==> ChannelGood(Next(m, s), j)
  {
    var t := Next(m, s);
    forall j | 0 <= j < |t.entries| ensures ChannelGood(t, j) {
      if j < |m.entries| {
        assert EntryGood(m.entries[j]) && ChannelGood(m, j);
        hide EntryGood, ChannelGood, OffersGood, NotesGood, Next, Enabled;
        if s.Offer? { OfferKeepsChannels(m, s.note, j); } else { StepKeepsChannel(m, s, j); }
      } else {
        hide OffersGood, EntryGood, OfferTo, Wants;
      }
    }
  }

  lemma KeepsNotes(m: Manager, s: Step)
    requires Inv(m) && Enabled(m, s)
    ensures NotesGood(Next(m, s))
  {
    hide OffersGood, EntryGood, ChannelGood, OfferTo, Wants, CloseOf;
    if s.BeginNotify? && m.started { assert Returned(Ended(m), |m.notes|, m.active[|m.notes| := 0]); }
  }

  /** One more offer to an entry, by the notification that comes to it. */
  lemma OneMoreOffer(e: Entry, f: Entry, notes: seq<Note>, active: map<NoteId, nat>, j: nat, n: NoteId, taken: bool)
    requires f.offers == e.offers + [Offered(n, taken)] && f.pattern == e.pattern && f.filter == e.filter
    requires n < |notes| && n in active && active[n] == j && Wants(e, notes[n].ev)
    requires Logged(e, notes) && NotYet(e, active, j) && InTurn(e, notes) && Complete(e, notes, active, j)
    requires forall x: NoteId :: x < |notes| ==> Returned(notes[x].before, x, active)
    ensures Logged(f, notes) && NotYet(f, active[n := j + 1], j) && InTurn(f, notes)
    ensures Complete(f, notes, active[n := j + 1], j)
  {
    hide MatchPattern;
    assert forall k :: 0 <= k < |e.offers| ==> f.offers[k] == e.offers[k];
    assert f.offers[|e.offers|].note == n;
    StillOffered(e, f);
    assert WasOffered(f, n);
  }

  lemma StillOffered(e: Entry, f: Entry)
    requires e.offers <= f.offers
    ensures forall x: NoteId :: WasOffered(e, x) ==> WasOffered(f, x)
  {
    forall x: NoteId | WasOffered(e, x) ensures WasOffered(f, x) {
      var k :| 0 <= k < |e.offers| && e.offers[k].note == x;
      assert f.offers[k].note == x;
    }
  }

  /** A notification passes by an entry that does not want it, or that it does not come to. */
  lemma PassesBy(e: Entry, notes: seq<Note>, active: map<NoteId, nat>, j: nat, n: NoteId)
    requires n < |notes| && n in active && (active[n] == j ==> !Wants(e, notes[n].ev))
    requires Logged(e, notes) && NotYet(e, active, j) && Complete(e, notes, active, j)
    ensures NotYet(e, active[n := active[n] + 1], j) && Complete(e, notes, active[n := active[n] + 1], j)
  {
    hide MatchPattern;
  }

  lemma OfferMeans(e: Entry, n: NoteId, ev: Event)
    ensures var f := OfferTo(e, n, ev);
      if !Wants(e, ev) then f == e
      else f.offers == e.offers + [Offered(n, HasRoom(e))] && f.pattern == e.pattern && f.filter == e.filter
  {}

  /** The notification that comes to an entry passes on, in terms of the entry alone. */
  lemma OfferToEntry(e: Entry, f: Entry, notes: seq<Note>, active: map<NoteId, nat>, j: nat, n: NoteId)
    requires n < |notes| && n in active && f == (if j == active[n] then OfferTo(e, n, notes[n].ev) else e)
    requires Logged(e, notes) && NotYet(e, active, j) && InTurn(e, notes) && Complete(e, notes, active, j)
    requires forall x: NoteId :: x < |notes| ==> Returned(notes[x].before, x, active)
    ensures Logged(f, notes) && NotYet(f, active[n := active[n] + 1], j) && InTurn(f, notes)
    ensures Complete(f, notes, active[n := active[n] + 1], j)
  {
    OfferMeans(e, n, notes[n].ev);
    hide HasRoom, Wants, Logged, NotYet, InTurn, Complete, OfferTo, Returned;
    if active[n] == j && Wants(e, notes[n].ev) {
      OneMoreOffer(e, f, notes, active, j, n, HasRoom(e));
    } else {
      PassesBy(e, notes, active, j, n);
    }
  }

  lemma OfferKeepsOffers(m: Manager, n: NoteId, j: nat)
    requires NotesGood(m) && Enabled(m, Offer(n)) && j < |m.entries| && OffersGood(m, j)
    ensures OffersGood(Next(m, Offer(n)), j)
  {
    AfterOffer(m, n, j);
    hide Wants, Logged, NotYet, InTurn, Complete, Next, OfferTo, Enabled, Returned;
    OfferToEntry(m.entries[j], Next(m, Offer(n)).entries[j], m.notes, m.active, j, n);
  }

  lemma KeepsOffers(m: Manager, s: Step)
    requires Inv(m) && Enabled(m, s)
    ensures forall j :: 0 <= j < |Next(m, s).entries| ==> OffersGood(Next(m, s), j)
  {
    hide EntryGood, ChannelGood, MatchPattern, Logged, NotYet, InTurn, Complete;
    var t := Next(m, s);
    forall j | 0 <= j < |t.entries| ensures OffersGood(t, j) {
      if s.Offer? {
        assert OffersGood(m, j);
        OfferKeepsOffers(m, s.note, j);
      } else if j < |m.entries| {
        SameOffers(m, s, j);
      } else {
        NothingOffered(t, j);
      }
    }
  }

  lemma NothingOffered(m: Manager, j: nat)
    requires j < |m.entries| && m.entries[j].offers == [] && forall n: NoteId :: n < |m.notes| ==> m.notes[n].width <= j
    ensures OffersGood(m, j)
  {
    hide Wants;
  }

  /** A new notification comes after all that have returned. */
  lemma OneMoreNote(e: Entry, notes: seq<Note>, active: map<NoteId, nat>, j: nat, note: Note)
    requires Logged(e, notes) && NotYet(e, active, j) && InTurn(e, notes) && Complete(e, notes, active, j)
    requires forall x <- active.Keys :: x < |notes|
    ensures Logged(e, notes + [note]) && NotYet(e, active[|notes| := 0], j) && InTurn(e, notes + [note])
    ensures Complete(e, notes + [note], active[|notes| := 0], j)
  {
    hide Wants, WasOffered;
  }

  /** A notification returns once it has passed by every entry. */
  lemma OneNoteLess(e: Entry, notes: seq<Note>, active: map<NoteId, nat>, j: nat, n: NoteId)
    requires NotYet(e, active, j) && Complete(e, notes, active, j) && n in active && j < active[n]
    ensures NotYet(e, active - {n}, j) && Complete(e, notes, active - {n}, j)
  {
    hide Wants, WasOffered;
  }

  /** The log of an entry is all that these facts look at. */
  lemma SameLog(e: Entry, f: Entry, notes: seq<Note>, active: map<NoteId, nat>, j: nat)
    requires f.offers == e.offers && f.pattern == e.pattern && f.filter == e.filter
    requires Logged(e, notes) && NotYet(e, active, j) && InTurn(e, notes) && Complete(e, notes, active, j)
    ensures Logged(f, notes) && NotYet(f, active, j) && InTurn(f, notes) && Complete(f, notes, active, j)
  {
    StillOffered(e, f);
    hide MatchPattern, WasOffered;
  }

  lemma SameOffers(m: Manager, s: Step, j: nat)
    requires Inv(m) && Enabled(m, s) && !s.Offer? && j < |m.entries|
    ensures OffersGood(Next(m, s), j)
  {
    assert OffersGood(m, j);
    hide EntryGood, ChannelGood, HasRoom, OfferTo, CloseOf, Wants, Logged, NotYet, InTurn, Complete;
    var e := m.entries[j];
    if s.BeginNotify? {
      OneMoreNote(e, m.notes, m.active, j, Note(s.ev, Ended(m), |m.entries|));
    } else if s.EndNotify? {
      OneNoteLess(e, m.notes, m.active, j, s.note);
    } else {
      SameLog(e, Next(m, s).entries[j], m.notes, m.active, j);
    }
  }

  lemma KeepsInv(m: Manager, s: Step)
    requires Inv(m) && Enabled(m, s)
    ensures Inv(Next(m, s))
  {
    KeepsNotes(m, s);
    KeepsOffers(m, s);
    if Next(m, s).crash.NoCrash? {
      KeepsEntries(m, s);
      KeepsChannels(m, s);
    }
  }

  lemma {:induction false} RunKeepsInv(m: Manager, run: seq<Step>)
    requires Inv(m) && Runs(m, run)
    ensures Inv(EndOf(m, run))
    decreases |run|
  {
    if run != [] {
      KeepsInv(m, run[0]);
      RunKeepsInv(Next(m, run[0]), run[1..]);
    }
  }
}
