/**
 * One client connection of the smart-socket proxy, on the broker's objects and two connections: which services go
 * upstream only with the device's lease, and how the lease is taken and given back.
 */
module Proxy {
  import opened Basics
  import opened Records
  import opened Selection
  import opened Wire
  import opened Requests
  import opened BrokerModel
  import opened BrokerInvariant
  import opened LocalAcquire
  import opened ClientTerms
  import opened Blocking
  import B = Broker

  // ---- what happens, in order ----

  /** A critical section of the broker, a message written upstream, or the start of raw copying. */
  datatype Step = Section(turn: Turn) | Wrote(msg: Bytes) | Copied

  function Turns(story: seq<Step>): seq<Turn> {
    if story == [] then [] else
      var last := story[|story| - 1];
      Turns(story[..|story| - 1]) + if last.Section? then [last.turn] else []
  }

  /** What the real server sees: everything but the critical sections. */
  function Outputs(story: seq<Step>): seq<Step> {
    Filter((s: Step) => !s.Section?, story)
  }

  /** The bytes written upstream before the raw copying. */
  function Sent(story: seq<Step>): Bytes {
    if story == [] then [] else
      var last := story[|story| - 1];
      Sent(story[..|story| - 1]) + if last.Wrote? then Encode(last.msg) else []
  }

  function Sections(turns: seq<Turn>): seq<Step> {
    seq(|turns|, i requires 0 <= i < |turns| => Section(turns[i]))
  }

  lemma OneMore(story: seq<Step>, s: Step)
    ensures Turns(story + [s]) == if s.Section? then Turns(story) + [s.turn] else Turns(story)
    ensures Outputs(story + [s]) == if s.Section? then Outputs(story) else Outputs(story) + [s]
    ensures Sent(story + [s]) == if s.Wrote? then Sent(story) + Encode(s.msg) else Sent(story)
  {
    assert (story + [s])[..|story|] == story;
    hide Encode;
  }

  lemma SectionsLast(turns: seq<Turn>)
    requires turns != []
    ensures Sections(turns) == Sections(turns[..|turns| - 1]) + [Section(turns[|turns| - 1])]
  {
  }

  lemma {:induction false} SectionsMore(story: seq<Step>, turns: seq<Turn>)
    ensures Turns(story + Sections(turns)) == Turns(story) + turns
    ensures Outputs(story + Sections(turns)) == Outputs(story)
    ensures Sent(story + Sections(turns)) == Sent(story)
  {
    hide Turns, Outputs, Sent;
    if turns == [] {
      assert story + Sections(turns) == story && Turns(story) + turns == Turns(story);
    } else {
      hide Sections;
      var front := turns[..|turns| - 1];
      var last := Section(turns[|turns| - 1]);
      SectionsMore(story, front);
      SectionsLast(turns);
      assert story + (Sections(front) + [last]) == story + Sections(front) + [last];
      OneMore(story + Sections(front), last);
      assert turns == front + [last.turn];
    }
  }

  /**
   * The world of one service request: the broker, the connection to the real server, and in between the record of what
   * happened.  Every operation on either makes its own entry, so the order of the entries is the order of the
   * operations.
   */
  class Line {
    const broker: B.Broker
    const up: Conn

    ghost const start: State
    ghost const base: Bytes
    const req: AcquireReq
    ghost var story: seq<Step>

    constructor (broker: B.Broker, up: Conn, req: AcquireReq)
      requires broker.Valid() && Inv(broker.Abs())
      ensures this.broker == broker && this.up == up && this.req == req
      ensures start == broker.Abs() && base == up.output && story == []
      ensures Valid() && Now() == Asking
    {
      this.broker, this.up, this.req := broker, up, req;
      start, base, story := broker.Abs(), up.output, [];
      new;
      StoryStarts(start, req);
    }

    /** Where the connection stands as a client of the broker. */
    ghost function Now(): Client
      reads this
    {
      ClientAfter(start, Turns(story))
    }

    ghost predicate Valid()
      reads this, broker, broker.lm.Values, broker.wm.Values, up
    {
      && broker.Valid() && Inv(broker.Abs())
      && Story(start, Turns(story), req, broker.Abs(), Now())
      && up.output == base + Sent(story)
    }

    /** The mutex is free for the others. */
    method Meanwhile(others: seq<Event>)
      requires Valid()
      modifies this`story, broker, broker.lm.Values, broker.wm.Values
      ensures Valid() && Now() == old(Now())
      ensures fresh(broker.wm.Values - old(broker.wm.Values)) && fresh(broker.lm.Values - old(broker.lm.Values))
      ensures OnlyOthers(old(story), story)
    {
      hide *;
      Standing();
      ghost var evs := Others(broker, others);
      TheirTurns(start, Turns(story), req, old(broker.Abs()), Now(), evs);
      OthersMine(evs);
      Record(OthersTurns(evs), Now());
    }

    /** AcquireLocalBlocking, on the record. */
    method Acquire(clocks: nat -> Time, idle: nat, waits: seq<Wait>, last: Time) returns (lease: Option<Id>)
      requires Valid() && Now() == Asking
      modifies this`story, broker, broker.lm.Values, broker.wm.Values
      ensures Valid() && (if lease.Some? then Now() == Got(lease.value) else Now().GaveUp?)
      ensures Acquired(start, Turns(old(story)), Turns(story), req, clocks, 0, idle, waits, last, lease)
      ensures fresh(broker.wm.Values - old(broker.wm.Values)) && fresh(broker.lm.Values - old(broker.lm.Values))
      ensures OnlySections(old(story), story)
    {
      hide *;
      Standing();
      ghost var wid, turns;
      lease, wid, turns := AcquireLocalBlocking(broker, req, clocks, idle, waits, last, start, Turns(story));
      ghost var more := turns[|Turns(story)|..];
      assert turns == Turns(story) + more;
      Record(more, if lease.Some? then Got(lease.value) else GaveUp(wid));
    }

    /** TouchLease on the connection's own lease. */
    method Touch(id: Id, now: Time)
      requires Valid() && Now() == Got(id)
      modifies this`story, broker.lm.Values
      ensures Valid() && Now() == Got(id)
      ensures OnlySections(old(story), story)
      ensures Turns(story) == Turns(old(story)) + [Turn(Beat(id, now), true)]
    {
      hide *;
      Standing();
      UpkeepTurn(broker.Abs(), id, req, now);
      NextIs(broker.Abs(), Beat(id, now));
      MyTurn(start, Turns(story), req, broker.Abs(), Now(), Beat(id, now));
      broker.Beat(id, now, false);
      Record([Turn(Beat(id, now), true)], Got(id));
    }

    /** EndLeaseCommand on the connection's own lease. */
    method End(id: Id, now: Time)
      requires Valid() && Now() == Got(id)
      modifies this`story, broker.lm.Values
      ensures Valid() && Now() == Done(id)
      ensures OnlySections(old(story), story)
      ensures Turns(story) == Turns(old(story)) + [Turn(CommandEnded(id, now), true)]
    {
      hide *;
      Standing();
      UpkeepTurn(broker.Abs(), id, req, now);
      NextIs(broker.Abs(), CommandEnded(id, now));
      MyTurn(start, Turns(story), req, broker.Abs(), Now(), CommandEnded(id, now));
      broker.Beat(id, now, true);
      Record([Turn(CommandEnded(id, now), true)], Done(id));
    }

    /** Enter critical sections that have just taken place. */
    ghost method Record(turns: seq<Turn>, client: Client)
      requires broker.Valid() && Inv(broker.Abs()) && up.output == base + Sent(story)
      requires Story(start, Turns(story) + turns, req, broker.Abs(), client)
      modifies this`story
      ensures Valid() && Now() == client && story == old(story) + Sections(turns)
      ensures Turns(story) == Turns(old(story)) + turns
      ensures OnlySections(old(story), story) && (NoneMine(turns) ==> OnlyOthers(old(story), story))
    {
      hide Inv, Story, ClientAfter, Turns, Sent, Outputs, Sections, NoneMine;
      SectionsMore(story, turns);
      StoryClient(start, Turns(story) + turns, req, broker.Abs(), client);
      story := story + Sections(turns);
    }

    lemma Standing()
      requires Valid()
      ensures broker.Valid() && Inv(broker.Abs()) && up.output == base + Sent(story)
      ensures Story(start, Turns(story), req, broker.Abs(), Now())
    {
    }

    /** The service's message, written upstream. */
    method Forward(msg: Bytes) returns (ok: bool)
      requires Valid()
      modifies this`story, up`output
      ensures Valid() && Now() == old(Now()) && ok == up.writable
      ensures story == if ok then old(story) + [Wrote(msg)] else old(story)
      ensures Turns(story) == Turns(old(story))
    {
      hide *;
      Standing();
      NothingMore(Wrote(msg));
      ghost var sent := Sent(story);
      ok := up.WriteMsg(msg);
      if ok {
        assert base + sent + Encode(msg) == base + (sent + Encode(msg));
        Note(Wrote(msg));
      }
    }

    /** An entry that is no critical section leaves the client where it is. */
    lemma NothingMore(s: Step)
      requires !s.Section?
      ensures Turns(story + [s]) == Turns(story)
      ensures Sent(story + [s]) == if s.Wrote? then Sent(story) + Encode(s.msg) else Sent(story)
    {
      OneMore(story, s);
      hide Turns, Sent, Encode;
    }

    /** Enter what has just gone upstream. */
    ghost method Note(s: Step)
      requires !s.Section? && broker.Valid() && Inv(broker.Abs())
      requires Story(start, Turns(story), req, broker.Abs(), Now()) && up.output == base + Sent(story + [s])
      modifies this`story
      ensures Valid() && Now() == old(Now()) && story == old(story) + [s]
    {
      hide Inv, Story, ClientAfter, Turns, Sent, Encode;
      NothingMore(s);
      story := story + [s];
    }

    /** Raw copying begins. */
    ghost method StartCopy()
      requires Valid()
      modifies this`story
      ensures Valid() && Now() == old(Now()) && story == old(story) + [Copied]
      ensures Turns(story) == Turns(old(story))
    {
      hide *;
      Standing();
      NothingMore(Copied);
      Note(Copied);
    }
  }

  // ---- the connection's own critical sections, in order ----

  function Own(turns: seq<Turn>): seq<Event> {
    if turns == [] then [] else
      var last := turns[|turns| - 1];
      Own(turns[..|turns| - 1]) + if last.mine then [last.ev] else []
  }

  lemma {:induction false} OwnMore(turns: seq<Turn>, more: seq<Turn>)
    ensures Own(turns + more) == Own(turns) + Own(more)
  {
    if more == [] {
      assert turns + more == turns;
    } else {
      var front := more[..|more| - 1];
      assert (turns + more)[..|turns + more| - 1] == turns + front;
      OwnMore(turns, front);
    }
  }

  lemma OwnTurn(turns: seq<Turn>, ev: Event)
    ensures Own(turns + [Turn(ev, true)]) == Own(turns) + [ev]
  {
    assert (turns + [Turn(ev, true)])[..|turns|] == turns;
  }

  lemma {:induction false} OwnNone(turns: seq<Turn>)
    requires NoneMine(turns)
    ensures Own(turns) == []
  {
    if turns != [] {
      OwnNone(turns[..|turns| - 1]);
    }
  }

  lemma OwnKept(story: seq<Step>, story': seq<Step>)
    requires OnlyOthers(story, story')
    ensures Own(Turns(story')) == Own(Turns(story))
  {
    hide Own, Turns, NoneMine;
    var turns :| story' == story + Sections(turns) && NoneMine(turns);
    SectionsMore(story, turns);
    OwnMore(Turns(story), turns);
    OwnNone(turns);
  }

  /** Between the two records only critical sections took place. */
  ghost predicate OnlySections(story: seq<Step>, story': seq<Step>) {
    exists turns :: story' == story + Sections(turns)
  }

  /** ... and only somebody else's. */
  ghost predicate OnlyOthers(story: seq<Step>, story': seq<Step>) {
    exists turns :: story' == story + Sections(turns) && NoneMine(turns)
  }

  ghost predicate NoneMine(turns: seq<Turn>) {
    forall i :: 0 <= i < |turns| ==> !turns[i].mine
  }

  lemma OthersMine(evs: seq<Event>)
    ensures NoneMine(OthersTurns(evs))
  {
  }

  lemma StoryClient(st: State, turns: seq<Turn>, req: AcquireReq, now: State, client: Client)
    requires Story(st, turns, req, now, client)
    ensures client == ClientAfter(st, turns)
  {
  }

  lemma UpkeepTurn(st: State, id: Id, req: AcquireReq, now: Time)
    ensures MayTake(st, Got(id), req, Beat(id, now)) && Advance(st, Got(id), Beat(id, now)) == Got(id)
    ensures MayTake(st, Got(id), req, CommandEnded(id, now)) && Advance(st, Got(id), CommandEnded(id, now)) == Done(id)
  {
  }

  // ---- one service request ----

  /**
   * What the connection meets: whether the real server answers, what it sends, whether the second write to it still
   * works; the only online device if there is just one; the configured exemptions; whom the client belongs to; and the
   * words for a missing server and a busy device.
   */
  datatype World = World(dials: bool, server: Bytes, writes: bool, stillWrites: bool, sole: Serial, exempt: seq<string>,
                         session: Session, holder: string, observer: bool, unavailable: Bytes, busy: Bytes)

  /** One period of raw copying between two heartbeats. */
  datatype Period = Period(others: seq<Event>, beat: Time)

  /**
   * What time and the others bring: before the acquire, while it blocks, from the grant to the service's write, while
   * bytes are copied, and from then to the end.
   */
  datatype Schedule = Schedule(before: seq<Event>, clocks: nat -> Time, idle: nat, waits: seq<Wait>, last: Time,
                               granted: seq<Event>, copying: seq<Period>, ending: seq<Event>, end: Time)

  /** The service is let through without a lease. */
  predicate Ungated(serial: Serial, svc: Bytes, w: World) {
    serial == "" || Exempt(Text(svc), w.exempt) || w.observer
  }

  function RequestOf(serial: Serial, w: World): AcquireReq {
    AcquireReq(serial, w.session, w.holder, 0, 0, false, true)
  }

  /** One heartbeat at the end of each period. */
  function Beats(lease: Id, periods: seq<Period>): seq<Event> {
    seq(|periods|, i requires 0 <= i < |periods| => Beat(lease, periods[i].beat))
  }

  lemma BeatsMore(lease: Id, periods: seq<Period>, i: nat)
    requires i < |periods|
    ensures Beats(lease, periods[..i + 1]) == Beats(lease, periods[..i]) + [Beat(lease, periods[i].beat)]
  {
  }

  lemma AllBeats(lease: Id, periods: seq<Period>)
    ensures Beats(lease, periods[..0]) == [] && periods[..|periods|] == periods
  {
  }

  /** splice, with its heartbeats when there is a lease. */
  method Splice(line: Line, lease: Option<Id>, periods: seq<Period>)
    requires line.Valid() && (lease.Some? ==> line.Now() == Got(lease.value))
    modifies line`story, line.broker, line.broker.lm.Values, line.broker.wm.Values
    ensures line.Valid() && line.Now() == old(line.Now())
    ensures fresh(line.broker.wm.Values - old(line.broker.wm.Values))
    ensures fresh(line.broker.lm.Values - old(line.broker.lm.Values))
    ensures OnlySections(old(line.story) + [Copied], line.story)
    ensures lease.None? ==> OnlyOthers(old(line.story) + [Copied], line.story)
    ensures Own(Turns(line.story))
         == Own(Turns(old(line.story))) + if lease.Some? then Beats(lease.value, periods) else []
  {
    hide *;
    line.StartCopy();
    ghost var copying, own := line.story, Own(Turns(line.story));
    NothingYet(copying);
    if lease.Some? {
      AllBeats(lease.value, periods);
    }
    for i := 0 to |periods|
      invariant line.Valid() && line.Now() == old(line.Now())
      invariant fresh(line.broker.wm.Values - old(line.broker.wm.Values))
      invariant fresh(line.broker.lm.Values - old(line.broker.lm.Values))
      invariant OnlySections(copying, line.story)
      invariant lease.None? ==> OnlyOthers(copying, line.story)
      invariant Own(Turns(line.story)) == own + if lease.Some? then Beats(lease.value, periods[..i]) else []
    {
      ghost var before := line.story;
      line.Meanwhile(periods[i].others);
      SectionsOn(copying, before, line.story);
      OwnKept(before, line.story);
      if lease.Some? {
        before := line.story;
        line.Touch(lease.value, periods[i].beat);
        SectionsOn(copying, before, line.story);
        OwnTurn(Turns(before), Beat(lease.value, periods[i].beat));
        BeatsMore(lease.value, periods, i);
      }
    }
  }

  lemma NothingYet(story: seq<Step>)
    ensures OnlySections(story, story) && OnlyOthers(story, story)
  {
    assert story == story + Sections([]) && NoneMine([]);
  }

  lemma SectionsOn(story: seq<Step>, story1: seq<Step>, story2: seq<Step>)
    ensures OnlyOthers(story1, story2) ==> OnlySections(story1, story2)
    ensures OnlySections(story, story1) && OnlySections(story1, story2) ==> OnlySections(story, story2)
    ensures OnlyOthers(story, story1) && OnlyOthers(story1, story2) ==> OnlyOthers(story, story2)
  {
    if OnlySections(story, story1) && OnlySections(story1, story2) {
      var a :| story1 == story + Sections(a);
      var b :| story2 == story1 + Sections(b);
      assert story2 == story + Sections(a + b);
    }
    if OnlyOthers(story, story1) && OnlyOthers(story1, story2) {
      var a :| story1 == story + Sections(a) && NoneMine(a);
      var b :| story2 == story1 + Sections(b) && NoneMine(b);
      assert story2 == story + Sections(a + b) && NoneMine(a + b);
    }
  }

  /** Nothing goes upstream, message or raw bytes, except while the connection has its lease. */
  ghost predicate Gate(st: State, story: seq<Step>) {
    forall i :: 0 <= i < |story| && !story[i].Section? ==> ClientAfter(st, Turns(story[..i])).Got?
  }

  lemma GateSections(st: State, story: seq<Step>, story': seq<Step>)
    requires OnlySections(story, story')
    ensures Gate(st, story) ==> Gate(st, story')
    ensures Outputs(story') == Outputs(story)
    ensures OnlyOthers(story, story') && NoneMine(Turns(story)) ==> NoneMine(Turns(story'))
  {
    var turns :| story' == story + Sections(turns);
    SectionsMore(story, turns);
    hide ClientAfter, Turns, Outputs, NoneMine;
    assert forall i :: 0 <= i <= |story| ==> story'[..i] == story[..i];
    if OnlyOthers(story, story') && NoneMine(Turns(story)) {
      OthersOnly(story, story');
    }
  }

  lemma OthersOnly(story: seq<Step>, story': seq<Step>)
    requires OnlyOthers(story, story') && NoneMine(Turns(story))
    ensures NoneMine(Turns(story'))
  {
    var turns :| story' == story + Sections(turns) && NoneMine(turns);
    SectionsMore(story, turns);
    hide Turns;
  }

  lemma GateOutput(st: State, story: seq<Step>, s: Step)
    requires !s.Section?
    ensures Gate(st, story) && ClientAfter(st, Turns(story)).Got? ==> Gate(st, story + [s])
    ensures Outputs(story + [s]) == Outputs(story) + [s] && Turns(story + [s]) == Turns(story)
  {
    OneMore(story, s);
    hide ClientAfter, Turns, Outputs;
    assert forall i :: 0 <= i <= |story| ==> (story + [s])[..i] == story[..i];
  }

  /**
   * The record of a service request: with a lease needed, a client of the broker that ends done or gave up, with
   * nothing going upstream outside its lease, and nothing at all if it gave up; without, no critical section of its
   * own.
   */
  ghost predicate ServiceTale(st: State, story: seq<Step>, serial: Serial, svc: Bytes, w: World) {
    var client := ClientAfter(st, Turns(story));
    var served := if w.stillWrites then [Wrote(svc), Copied] else [];
    && ClientRun(st, Turns(story), RequestOf(serial, w))
    && if Ungated(serial, svc, w) then NoneMine(Turns(story)) && Outputs(story) == served
       else (client.Done? || client.GaveUp?) && Gate(st, story) && Outputs(story) == if client.Done? then served else []
  }

  /** The service goes upstream, and raw copying starts; the lease is the connection's own, if it needs one. */
  method ForwardAndCopy(line: Line, svc: Bytes, lease: Option<Id>, periods: seq<Period>)
    requires line.Valid() && (lease.Some? ==> line.Now() == Got(lease.value))
    modifies line`story, line.up`output, line.broker, line.broker.lm.Values, line.broker.wm.Values
    ensures line.Valid() && line.Now() == old(line.Now())
    ensures fresh(line.broker.wm.Values - old(line.broker.wm.Values))
    ensures fresh(line.broker.lm.Values - old(line.broker.lm.Values))
    ensures Outputs(line.story) == Outputs(old(line.story)) + if line.up.writable then [Wrote(svc), Copied] else []
    ensures lease.Some? && Gate(line.start, old(line.story)) ==> Gate(line.start, line.story)
    ensures lease.None? && NoneMine(Turns(old(line.story))) ==> NoneMine(Turns(line.story))
    ensures Own(Turns(line.story)) == Own(Turns(old(line.story)))
              + if lease.Some? && line.up.writable then Beats(lease.value, periods) else []
  {
    hide *;
    ghost var st, story := line.start, line.story;
    NowIs(line);
    var ok := line.Forward(svc);
    if ok {
      GateOutput(st, story, Wrote(svc));
      GateOutput(st, story + [Wrote(svc)], Copied);
      Splice(line, lease, periods);
      GateSections(st, story + [Wrote(svc)] + [Copied], line.story);
      assert Outputs(story) + [Wrote(svc)] + [Copied] == Outputs(story) + [Wrote(svc), Copied];
    }
  }

  lemma NowIs(line: Line)
    ensures line.Now() == ClientAfter(line.start, Turns(line.story))
    ensures line.Valid() ==> ClientRun(line.start, Turns(line.story), line.req)
  {
    hide ClientRun, ClientAfter, Turns;
  }

  lemma EmptyTale(st: State)
    ensures Gate(st, []) && Outputs([]) == [] && Turns([]) == [] && NoneMine([])
  {
  }

  lemma UngatedIs(serial: Serial, svc: Bytes, w: World)
    ensures Ungated(serial, svc, w) <==> serial == "" || Exempt(Text(svc), w.exempt) || w.observer
  {
  }

  lemma RefusedIs(line: Line, serial: Serial, svc: Bytes, w: World)
    ensures Refused(line, serial, svc, w) <==> !Ungated(serial, svc, w) && line.Now().GaveUp?
  {
  }

  lemma TaleIs(st: State, story: seq<Step>, serial: Serial, svc: Bytes, w: World)
    requires ClientRun(st, Turns(story), RequestOf(serial, w))
    ensures var client := ClientAfter(st, Turns(story));
            var served := if w.stillWrites then [Wrote(svc), Copied] else [];
            && (Ungated(serial, svc, w) && NoneMine(Turns(story)) && Outputs(story) == served ==>
                  ServiceTale(st, story, serial, svc, w))
            && (!Ungated(serial, svc, w) && Gate(st, story) && client.Done? && Outputs(story) == served ==>
                  ServiceTale(st, story, serial, svc, w))
            && (!Ungated(serial, svc, w) && Gate(st, story) && client.GaveUp? && Outputs(story) == [] ==>
                  ServiceTale(st, story, serial, svc, w))
  {
    hide ClientRun, ClientAfter, Turns, Outputs, Gate, Ungated, NoneMine;
  }

  /** Between two operations of the connection the mutex is free. */
  method Interlude(line: Line, others: seq<Event>)
    requires line.Valid()
    modifies line`story, line.broker, line.broker.lm.Values, line.broker.wm.Values
    ensures line.Valid() && line.Now() == old(line.Now())
    ensures fresh(line.broker.wm.Values - old(line.broker.wm.Values))
    ensures fresh(line.broker.lm.Values - old(line.broker.lm.Values))
    ensures Outputs(line.story) == Outputs(old(line.story))
    ensures Gate(line.start, old(line.story)) ==> Gate(line.start, line.story)
    ensures NoneMine(Turns(old(line.story))) ==> NoneMine(Turns(line.story))
    ensures Own(Turns(line.story)) == Own(Turns(old(line.story)))
  {
    hide *;
    ghost var before := line.story;
    line.Meanwhile(others);
    SectionsOn(before, before, line.story);
    GateSections(line.start, before, line.story);
    OwnKept(before, line.story);
  }

  /** What a connection does with its lease: a beat in each period of copying, if it comes to that, and one end. */
  function Upkeep(lease: Id, copies: bool, schedule: Schedule): seq<Event> {
    (if copies then Beats(lease, schedule.copying) else []) + [CommandEnded(lease, schedule.end)]
  }

  lemma UpkeepIs(own: seq<Event>, lease: Id, copies: bool, schedule: Schedule)
    ensures own + (if copies then Beats(lease, schedule.copying) else []) + [CommandEnded(lease, schedule.end)]
         == own + Upkeep(lease, copies, schedule)
  {
    hide Beats;
  }

  /** From `turns` to turns' the connection acquires as the schedule says, and then uses and ends the lease, if any. */
  ghost predicate Follows(st: State, turns: seq<Turn>, turns': seq<Turn>, req: AcquireReq, copies: bool,
                          schedule: Schedule)
  {
    exists asked, lease ::
      && Acquired(st, turns, asked, req, schedule.clocks, 0, schedule.idle, schedule.waits, schedule.last, lease)
      && Own(turns') == Own(asked) + match lease case None => [] case Some(id) => Upkeep(id, copies, schedule)
  }

  lemma FollowsHere(st: State, turns: seq<Turn>, turns': seq<Turn>, req: AcquireReq, copies: bool, schedule: Schedule,
                    asked: seq<Turn>, lease: Option<Id>)
    requires Acquired(st, turns, asked, req, schedule.clocks, 0, schedule.idle, schedule.waits, schedule.last, lease)
    requires Own(turns') == Own(asked) + match lease case None => [] case Some(id) => Upkeep(id, copies, schedule)
    ensures Follows(st, turns, turns', req, copies, schedule)
  {
    hide Acquired, Own, Upkeep;
  }

  /** From the grant to the end. */
  method UseLease(line: Line, svc: Bytes, lease: Id, schedule: Schedule)
    requires line.Valid() && line.Now() == Got(lease)
    modifies line`story, line.up`output, line.broker, line.broker.lm.Values, line.broker.wm.Values
    ensures line.Valid() && line.Now() == Done(lease)
    ensures fresh(line.broker.wm.Values - old(line.broker.wm.Values))
    ensures fresh(line.broker.lm.Values - old(line.broker.lm.Values))
    ensures Outputs(line.story) == Outputs(old(line.story)) + if line.up.writable then [Wrote(svc), Copied] else []
    ensures Gate(line.start, old(line.story)) ==> Gate(line.start, line.story)
    ensures Own(Turns(line.story)) == Own(Turns(old(line.story))) + Upkeep(lease, line.up.writable, schedule)
  {
    hide *;
    UpkeepIs(Own(Turns(line.story)), lease, line.up.writable, schedule);
    Interlude(line, schedule.granted);
    ForwardAndCopy(line, svc, Some(lease), schedule.copying);
    Interlude(line, schedule.ending);
    ghost var before := line.story;
    line.End(lease, schedule.end);
    GateSections(line.start, before, line.story);
    OwnTurn(Turns(before), CommandEnded(lease, schedule.end));
  }

  /** A service that needs the lease: acquired, used for the command, and ended on every path. */
  method ServeWithLease(line: Line, serial: Serial, svc: Bytes, w: World, schedule: Schedule) returns (granted: bool)
    requires line.Valid() && line.Now() == Asking && line.req == RequestOf(serial, w)
        && line.up.writable == w.stillWrites
    requires Gate(line.start, line.story) && Outputs(line.story) == [] && !Ungated(serial, svc, w)
    modifies line`story, line.up`output, line.broker, line.broker.lm.Values, line.broker.wm.Values
    ensures line.Valid() && ServiceTale(line.start, line.story, serial, svc, w)
    ensures if granted then line.Now().Done? else line.Now().GaveUp?
    ensures Follows(line.start, Turns(old(line.story)), Turns(line.story), line.req, w.stillWrites, schedule)
    ensures fresh(line.broker.wm.Values - old(line.broker.wm.Values))
    ensures fresh(line.broker.lm.Values - old(line.broker.lm.Values))
  {
    hide *;
    ghost var before := line.story;
    var lease := line.Acquire(schedule.clocks, schedule.idle, schedule.waits, schedule.last);
    GateSections(line.start, before, line.story);
    ghost var asked := Turns(line.story);
    if lease.Some? {
      UseLease(line, svc, lease.value, schedule);
    }
    granted := lease.Some?;
    FollowsHere(line.start, Turns(before), Turns(line.story), line.req, w.stillWrites, schedule, asked, lease);
    NowIs(line);
    TaleIs(line.start, line.story, serial, svc, w);
  }

  /** The client was to have the lease and did not get it. */
  ghost predicate Refused(line: Line, serial: Serial, svc: Bytes, w: World)
    reads line
  {
    !Ungated(serial, svc, w) && line.Now().GaveUp?
  }

  /** The gate itself: whether the service needs the lease decides how it is served. */
  method ServeOn(line: Line, serial: Serial, svc: Bytes, w: World, schedule: Schedule) returns (refused: bool)
    requires line.Valid() && line.Now() == Asking && line.req == RequestOf(serial, w)
    requires line.up.writable == w.stillWrites
    requires Gate(line.start, line.story) && Outputs(line.story) == [] && NoneMine(Turns(line.story))
    modifies line`story, line.up`output, line.broker, line.broker.lm.Values, line.broker.wm.Values
    ensures line.Valid() && ServiceTale(line.start, line.story, serial, svc, w)
    ensures refused <==> Refused(line, serial, svc, w)
    ensures !Ungated(serial, svc, w) ==>
              Follows(line.start, Turns(old(line.story)), Turns(line.story), line.req, w.stillWrites, schedule)
    ensures fresh(line.broker.wm.Values - old(line.broker.wm.Values))
    ensures fresh(line.broker.lm.Values - old(line.broker.lm.Values))
  {
    hide *;
    UngatedIs(serial, svc, w);
    if serial == "" || Exempt(Text(svc), w.exempt) || w.observer {
      ForwardAndCopy(line, svc, None, schedule.copying);
      NowIs(line);
      TaleIs(line.start, line.story, serial, svc, w);
      refused := false;
    } else {
      var granted := ServeWithLease(line, serial, svc, w, schedule);
      refused := !granted;
    }
    RefusedIs(line, serial, svc, w);
  }

  /** After turns of others, the connection follows the schedule. */
  ghost predicate Served(st: State, story: seq<Step>, req: AcquireReq, w: World, schedule: Schedule) {
    exists turns :: NoneMine(turns) && Follows(st, turns, Turns(story), req, w.stillWrites, schedule)
  }

  lemma ServedHere(st: State, turns: seq<Turn>, story: seq<Step>, req: AcquireReq, w: World, schedule: Schedule)
    requires NoneMine(turns) && Follows(st, turns, Turns(story), req, w.stillWrites, schedule)
    ensures Served(st, story, req, w, schedule)
  {
  }

  /** A new record for the service, from the critical sections before it to the end. */
  method Serve(broker: B.Broker, up: Conn, serial: Serial, svc: Bytes, w: World, schedule: Schedule)
    returns (line: Line, refused: bool)
    requires broker.Valid() && Inv(broker.Abs()) && up.writable == w.stillWrites
    modifies broker, broker.lm.Values, broker.wm.Values, up`output
    ensures broker.Valid() && Inv(broker.Abs())
    ensures fresh(line) && line.broker == broker && line.up == up && line.Valid()
    ensures line.start == old(broker.Abs()) && line.base == old(up.output)
    ensures ServiceTale(line.start, line.story, serial, svc, w) && (refused <==> Refused(line, serial, svc, w))
    ensures NeedsLease(serial, svc, w) ==> Served(line.start, line.story, RequestOf(serial, w), w, schedule)
    ensures fresh(broker.wm.Values - old(broker.wm.Values)) && fresh(broker.lm.Values - old(broker.lm.Values))
  {
    hide *;
    EmptyTale(broker.Abs());
    NeedsLeaseExactly(serial, svc, w);
    line := new Line(broker, up, RequestOf(serial, w));
    Interlude(line, schedule.before);
    ghost var before := Turns(line.story);
    refused := ServeOn(line, serial, svc, w, schedule);
    if NeedsLease(serial, svc, w) {
      ServedHere(line.start, before, line.story, RequestOf(serial, w), w, schedule);
    }
    line.Standing();
  }

  /** proxyConn on the request for a device service, which ends the conversation. */
  method ServeDevice(broker: B.Broker, c: Conn, up: Conn, serial: Serial, svc: Bytes, w: World, schedule: Schedule)
    returns (line: Line)
    requires broker.Valid() && Inv(broker.Abs()) && up != c && up.writable == w.stillWrites
    modifies broker, broker.lm.Values, broker.wm.Values, c`output, up`output
    ensures c.output == old(c.output) + if Refused(line, serial, svc, w) && c.writable then Failure(w.busy) else []
    ensures broker.Valid() && Inv(broker.Abs())
    ensures fresh(line) && line.broker == broker && line.up == up && line.Valid()
    ensures line.start == old(broker.Abs()) && line.base == old(up.output)
    ensures ServiceTale(line.start, line.story, serial, svc, w)
    ensures NeedsLease(serial, svc, w) ==> Served(line.start, line.story, RequestOf(serial, w), w, schedule)
    ensures fresh(broker.wm.Values - old(broker.wm.Values)) && fresh(broker.lm.Values - old(broker.lm.Values))
  {
    hide *;
    var refused;
    line, refused := Serve(broker, up, serial, svc, w, schedule);
    if refused {
      c.WriteFail(w.busy);
    }
  }

  // ---- gate and balance ----

  /** What came before in a record came before in the client's run, and a lease once got stays the client's. */
  lemma {:induction false} EarlierTurns(st: State, story: seq<Step>, i: nat, req: AcquireReq)
    requires i <= |story| && ClientRun(st, Turns(story), req)
    ensures ClientRun(st, Turns(story[..i]), req)
    ensures ClientAfter(st, Turns(story[..i])).Got? ==>
              var client := ClientAfter(st, Turns(story));
              (client.Got? || client.Done?) && client.lease == ClientAfter(st, Turns(story[..i])).lease
  {
    if i < |story| {
      var front := story[..|story| - 1];
      var last := story[|story| - 1];
      assert story == front + [last] && story[..i] == front[..i];
      OneMore(front, last);
      LastTurn(st, front, last, req);
      EarlierTurns(st, front, i, req);
    } else {
      assert story[..i] == story;
    }
  }

  lemma LastTurn(st: State, front: seq<Step>, last: Step, req: AcquireReq)
    requires ClientRun(st, Turns(front + [last]), req)
    ensures ClientRun(st, Turns(front), req)
    ensures var client, after := ClientAfter(st, Turns(front)), ClientAfter(st, Turns(front + [last]));
            && (client.Got? ==> (after.Got? || after.Done?) && after.lease == client.lease)
            && (client.Done? ==> after == client)
  {
    OneMore(front, last);
    if last.Section? {
      var turns := Turns(front) + [last.turn];
      assert turns[..|turns| - 1] == Turns(front);
    }
    hide Run, Turns, Acquire;
  }

  /**
   * The device service is one that needs the device's lease: the device is known, the client does not only observe, and
   * the service is not a shell or exec command that the configuration lists.
   */
  ghost predicate NeedsLease(serial: Serial, svc: Bytes, w: World) {
    && serial != "" && !w.observer
    && (forall family, options, cmd :: ShellForm(Text(svc), family, options, cmd) ==> !CommandListed(cmd, w.exempt))
  }

  lemma NeedsLeaseExactly(serial: Serial, svc: Bytes, w: World)
    ensures NeedsLease(serial, svc, w) <==> !Ungated(serial, svc, w)
  {
    ExemptExactly(Text(svc), w.exempt);
    hide ShellForm, CommandListed, Exempt;
  }

  /** What the real server gets of a service that is let through. */
  function Forwarded(svc: Bytes, w: World): seq<Step> {
    if w.stillWrites then [Wrote(svc), Copied] else []
  }

  /**
   * At this point of the record the connection has the lease: given to it before, for this device, session and holder,
   * with its command counted, and not yet ended.
   */
  ghost predicate HasLease(st: State, story: seq<Step>, i: nat, lease: Id, serial: Serial, w: World)
    requires i <= |story|
  {
    && MyEnds(Turns(story[..i])) == 0
    && (exists j :: GivenAt(st, Turns(story[..i]), j, lease, serial, w.session, w.holder))
    && Counted(st, Turns(story[..i]), lease)
  }

  /**
   * The gate: whatever the others do, everything a service that needs the lease sends upstream is sent after a critical
   * section of the broker gave that connection the lease of its device for its session, and before the connection
   * ended it; and the lease is still live then, unless somebody else's critical section has ended it.
   */
  lemma ServiceIsGated(st: State, story: seq<Step>, serial: Serial, svc: Bytes, w: World, i: nat)
    requires Inv(st) && ServiceTale(st, story, serial, svc, w) && NeedsLease(serial, svc, w)
    requires i < |story| && !story[i].Section?
    ensures var client := ClientAfter(st, Turns(story));
            && client.Done? && HasLease(st, story, i, client.lease, serial, w)
            && LiveOrEnded(st, Turns(story[..i]), client.lease)
  {
    hide Inv, ClientRun, ClientAfter, Turns, Outputs, Ungated, NeedsLease, MyEnds, GrantedAt, GivenAt, Run, LiveOrEnded,
        Counted;
    var req := AcquireReq(serial, w.session, w.holder, 0, 0, false, true);
    NeedsLeaseExactly(serial, svc, w);
    EarlierTurns(st, story, i, req);
    var turns := Turns(story[..i]);
    var lease := ClientAfter(st, turns).lease;
    EndsOnce(st, turns, req);
    LeaseLasts(st, turns, req, lease);
    CommandCounted(st, turns, req, lease);
    var j := GrantFound(st, turns, req);
    GrantIsGiven(st, turns, j, lease, serial, w.session, w.holder);
  }

  /**
   * The balance: a served connection has sent its service, and reports exactly one end, on the lease it was given,
   * which is one of its device and session; a refused one reports none and has sent nothing upstream.  Either way, it
   * asked for nothing but its device, for its session, and none of the waiters that it was ever queued as is left in
   * registry or queues.
   */
  lemma ServiceIsBalanced(st: State, story: seq<Step>, serial: Serial, svc: Bytes, w: World)
    requires Inv(st) && ServiceTale(st, story, serial, svc, w) && NeedsLease(serial, svc, w)
    ensures var turns := Turns(story);
            var client := ClientAfter(st, turns);
            var now := Run(st, Events(turns));
            var req := AcquireReq(serial, w.session, w.holder, 0, 0, false, true);
            && (client.Done? || client.GaveUp?)
            && (client.Done? ==>
                  && MyEnds(turns) == 1 && OwnLeaseOnly(turns, client.lease) && Outputs(story) == Forwarded(svc, w)
                  && client.lease in now.lm && now.lm[client.lease].serial == serial
                  && now.lm[client.lease].session == w.session
                  && Counted(st, turns, client.lease)
                  && exists j :: GivenAt(st, turns, j, client.lease, serial, w.session, w.holder))
            && (client.GaveUp? ==>
                  && MyEnds(turns) == 0 && NoUpkeep(turns) && Outputs(story) == []
                  && HasLeft(now, client.wid))
            && AsksOnly(turns, req)
            && (forall j, wid :: QueuedAt(st, turns, j, wid, req) ==> HasLeft(now, wid))
  {
    hide Inv, ClientRun, ClientAfter, Turns, Outputs, Ungated, NeedsLease, MyEnds, GrantedAt, GivenAt, QueuedAt,
        HasLeft, Run, OwnLeaseOnly, NoUpkeep, Gate, AsksOnly, Counted;
    var req := AcquireReq(serial, w.session, w.holder, 0, 0, false, true);
    NeedsLeaseExactly(serial, svc, w);
    EndsOnce(st, Turns(story), req);
    ClientStaysWell(st, Turns(story), req);
    ClientAsks(st, Turns(story), req);
    forall j: nat, wid | QueuedAt(st, Turns(story), j, wid, req)
      ensures HasLeft(Run(st, Events(Turns(story))), wid)
    {
      OneWaiterAtATime(st, Turns(story), req, j, wid);
    }
    if ClientAfter(st, Turns(story)).Done? {
      var lease := ClientAfter(st, Turns(story)).lease;
      var j := GrantFound(st, Turns(story), req);
      GrantIsGiven(st, Turns(story), j, lease, serial, w.session, w.holder);
      CommandCounted(st, Turns(story), req, lease);
    }
  }

  /** Any other service is sent at once, and its connection makes no critical section of its own. */
  lemma ServiceIsFree(st: State, story: seq<Step>, serial: Serial, svc: Bytes, w: World)
    requires ServiceTale(st, story, serial, svc, w) && !NeedsLease(serial, svc, w)
    ensures NoneMine(Turns(story)) && Outputs(story) == Forwarded(svc, w)
  {
    hide ClientRun, ClientAfter, Turns, Outputs, Ungated, NeedsLease, NoneMine, Gate;
    NeedsLeaseExactly(serial, svc, w);
  }

  // ---- the whole conversation ----

  function Resolved(t: Transport, w: World): Serial {
    if t.serial == "" then w.sole else t.serial
  }

  /**
   * proxyConn on a host request: relayed, and for a transport its answer; `serial` is None when the conversation is
   * over.
   */
  method HostRequest(c: Conn, up: Conn, req: Bytes, w: World) returns (serial: Option<Serial>)
    requires up != c && up.writable == w.writes && up.input == w.server
    modifies up, c`output
    ensures up.output == old(up.output) + if w.writes then Encode(req) else []
    ensures serial == if w.writes && ParseTransport(Text(req)).Some? && c.writable
                           && Accepted(w.server, ParseTransport(Text(req)).value.tport)
                      then Some(Resolved(ParseTransport(Text(req)).value, w)) else None
    ensures serial.Some? ==> up.writable == w.stillWrites
    ensures c.output == old(c.output) +
                        if w.writes && ParseTransport(Text(req)).Some? && c.writable
                        then Answer(w.server, ParseTransport(Text(req)).value.tport) else []
  {
    hide Encode, ParseTransport, Accepted, AnswerLength, CutShort;
    AnswerIs(w.server);
    serial := None;
    var ok := up.WriteMsg(req);
    if !ok {
      return None;
    }
    match ParseTransport(Text(req)) {
      case None =>
        return None;
      case Some(t) =>
        var accepted := RelayTransportStatus(up, c, t.tport);
        if !accepted {
          return;
        }
        var s := t.serial;
        if s == "" {
          s := w.sole;
        }
        serial := Some(s);
        up.writable := w.stillWrites;
    }
  }

  /**
   * The device service of a conversation, if it comes to one: what the second message asks for, and of which device.
   */
  function ServiceOf(s: Bytes, answers: bool, w: World): Option<(Serial, Bytes)> {
    match Parse(s)
    case Malformed => None
    case Message(req, rest) =>
      match ParseTransport(Text(req))
      case None => None
      case Some(t) =>
        if w.dials && w.writes && answers && Accepted(w.server, t.tport) && Parse(rest).Message?
        then Some((Resolved(t, w), Parse(rest).msg)) else None
  }

  /** What goes upstream before any device service. */
  function HostBytes(s: Bytes, w: World): Bytes {
    match Parse(s)
    case Malformed => []
    case Message(req, _) => if w.dials && w.writes then Encode(req) else []
  }

  /**
   * What the client is sent before any raw copying or device service: the answer to its transport, or that there is no
   * server.  The answer to any other host request is copied raw.
   */
  function Answers(s: Bytes, answers: bool, w: World): Bytes {
    match Parse(s)
    case Malformed => []
    case Message(req, _) =>
      if !answers then []
      else if !w.dials then Failure(w.unavailable)
      else match ParseTransport(Text(req))
           case None => []
           case Some(t) => if w.writes then Answer(w.server, t.tport) else []
  }

  /** proxyConn on the first message: the real server is dialled and the host request relayed. */
  method FirstRequest(c: Conn, req: Bytes, w: World, ghost all: Bytes) returns (up: Conn?, serial: Option<Serial>)
    requires Parse(all) == Message(req, c.input)
    modifies c`output
    ensures up != null ==> fresh(up)
    ensures (if up == null then [] else up.output) == HostBytes(all, w)
    ensures c.output == old(c.output) + Answers(all, c.writable, w)
    ensures serial == None ==> ServiceOf(all, c.writable, w) == None
    ensures serial.Some? ==>
              && up != null && up.writable == w.stillWrites && c.writable
              && ServiceOf(all, c.writable, w)
                 == match Parse(c.input) case Malformed => None case Message(svc, _) => Some((serial.value, svc))
  {
    hide *;
    NoService(all, c.writable, w);
    up, serial := null, None;
    if !w.dials {
      c.WriteFail(w.unavailable);
      return;
    }
    up := new Conn(w.server, w.writes);
    serial := HostRequest(c, up, req, w);
  }

  /**
   * proxyConn, but for what is copied raw.  Without a device service the broker is not touched and only the host
   * request goes upstream; with one, what happens from then on is the record of that service request.
   */
  method ProxyConn(broker: B.Broker, c: Conn, w: World, schedule: Schedule) returns (up: Conn?, line: Line?)
    requires broker.Valid() && Inv(broker.Abs())
    modifies c, broker, broker.lm.Values, broker.wm.Values
    ensures broker.Valid() && Inv(broker.Abs())
    ensures var refused := match ServiceOf(old(c.input), old(c.writable), w)
                           case None => false
                           case Some(svc) => line != null && Refused(line, svc.0, svc.1, w);
            c.output == old(c.output) + Answers(old(c.input), old(c.writable), w)
                        + if refused then Failure(w.busy) else []
    ensures match ServiceOf(old(c.input), old(c.writable), w)
            case None =>
              && line == null && broker.Abs() == old(broker.Abs())
              && (if up == null then [] else up.output) == HostBytes(old(c.input), w)
            case Some(svc) =>
              && line != null && up != null && line.broker == broker && line.up == up && line.Valid()
              && line.start == old(broker.Abs()) && line.base == HostBytes(old(c.input), w)
              && ServiceTale(line.start, line.story, svc.0, svc.1, w)
              && (NeedsLease(svc.0, svc.1, w) ==>
                    Served(line.start, line.story, RequestOf(svc.0, w), w, schedule))
  {
    hide *;
    up, line := null, null;
    var transported, serial := false, "";
    ghost var all, answers, sent := c.input, c.writable, c.output;
    NoService(all, answers, w);
    while true
      invariant broker.Valid() && Inv(broker.Abs()) && broker.Abs() == old(broker.Abs())
      invariant broker.lm == old(broker.lm) && broker.wm == old(broker.wm)
      invariant c.writable == answers && line == null
      invariant !transported ==> up == null && c.input == all && c.output == sent
      invariant transported ==>
                  && up != null && fresh(up) && up.writable == w.stillWrites && up.output == HostBytes(all, w)
                  && answers && c.output == sent + Answers(all, answers, w)
                  && ServiceOf(all, answers, w)
                     == match Parse(c.input) case Malformed => None case Message(svc, _) => Some((serial, svc))
      decreases !transported
    {
      var msg := c.ReadMsg();
      if msg == None {
        return;
      }
      if transported {
        line := ServeDevice(broker, c, up, serial, msg.value, w, schedule);
        return;
      }
      var resolved;
      up, resolved := FirstRequest(c, msg.value, w, all);
      if resolved == None {
        return;
      }
      transported, serial := true, resolved.value;
    }
  }

  lemma AnswerIs(s: Bytes)
    ensures forall tport :: AnswerLength(s, tport) <= |s| && Answer(s, tport) == s[..AnswerLength(s, tport)]
  {
    hide HexValue;
  }

  lemma NoService(s: Bytes, answers: bool, w: World)
    ensures Parse(s).Malformed? ==>
              ServiceOf(s, answers, w) == None && HostBytes(s, w) == [] && Answers(s, answers, w) == []
    ensures Parse(s).Message? && answers ==>
              var t := ParseTransport(Text(Parse(s).msg));
              Answers(s, answers, w)
              == if !w.dials then Failure(w.unavailable)
                 else if t.Some? && w.writes then Answer(w.server, t.value.tport) else []
    ensures Parse(s).Message? && !answers ==> Answers(s, answers, w) == []
    ensures Parse(s).Message? ==>
              var t := ParseTransport(Text(Parse(s).msg));
              && HostBytes(s, w) == (if w.dials && w.writes then Encode(Parse(s).msg) else [])
              && ServiceOf(s, answers, w) ==
                 if w.dials && w.writes && t.Some? && answers && Accepted(w.server, t.value.tport) then
                   match Parse(Parse(s).rest)
                   case Malformed => None
                   case Message(svc, _) => Some((Resolved(t.value, w), svc))
                 else None
  {
    hide Parse, ParseTransport, Accepted, Encode, Answer, Failure;
  }

  // ---- what a conversation comes to ----

  /** The server's answer begins with OKAY, and with a transport id after it where there is one. */
  ghost predicate SaysOkay(s: Bytes, tport: bool) {
    |s| >= (if tport then 12 else 4) && Text(s[..4]) == "OKAY"
  }

  lemma OkayAccepts(s: Bytes, tport: bool)
    ensures Accepted(s, tport) <==> SaysOkay(s, tport)
  {
    if |s| >= 4 {
      var t := Text(s[..4]);
      assert |t| == 4 && forall i :: 0 <= i < 4 ==> t[i] == s[i] as char;
      assert t == "OKAY" <==> t[0] == 'O' && t[1] == 'K' && t[2] == 'A' && t[3] == 'Y';
      assert s[..4] == OKAY <==> s[0] == 79 && s[1] == 75 && s[2] == 65 && s[3] == 89;
    }
  }

  /**
   * A client that asks for a transport to `serial`, by either form, and then for a service, gets that service on that
   * device, or on the only one online if it named none; provided that the server can be reached and accepts.
   */
  lemma AskedDevice(req: Bytes, svc: Bytes, rest: Bytes, serial: Serial, tport: bool, answers: bool, w: World)
    requires |req| <= 0xFFFF && |svc| <= 0xFFFF
    requires Text(req) == (if tport then "host:tport:serial:" else "host:transport:") + serial
    ensures var s := Encode(req) + (Encode(svc) + rest);
            && ServiceOf(s, answers, w)
               == (if w.dials && w.writes && answers && SaysOkay(w.server, tport)
                   then Some((if serial == "" then w.sole else serial, svc)) else None)
            && HostBytes(s, w) == (if w.dials && w.writes then Encode(req) else [])
            && Answers(s, answers, w)
               == if !answers then [] else if !w.dials then Failure(w.unavailable)
                  else if w.writes then Answer(w.server, tport) else []
  {
    hide Parse, ParseTransport, Accepted, Encode, Failure, Answer, SaysOkay;
    RoundTrip(req, Encode(svc) + rest);
    RoundTrip(svc, rest);
    TransportOfSerial(serial);
    OkayAccepts(w.server, tport);
  }

  /** One that names no device is served on the only one online; one that asks for no transport is only relayed. */
  lemma AskedAny(req: Bytes, svc: Bytes, rest: Bytes, answers: bool, w: World)
    requires |req| <= 0xFFFF && |svc| <= 0xFFFF
    requires !("host:transport:" <= Text(req)) && !("host:tport:serial:" <= Text(req))
    ensures var s := Encode(req) + (Encode(svc) + rest);
            var any := Text(req) in {"host:transport-any", "host:transport-usb", "host:transport-local",
                                     "host:tport:any", "host:tport:usb", "host:tport:local"};
            && ServiceOf(s, answers, w)
               == (if any && w.dials && w.writes && answers && SaysOkay(w.server, "host:tport:" <= Text(req))
                   then Some((w.sole, svc)) else None)
            && HostBytes(s, w) == (if w.dials && w.writes then Encode(req) else [])
  {
    hide Parse, ParseTransport, Accepted, Encode, SaysOkay;
    RoundTrip(req, Encode(svc) + rest);
    RoundTrip(svc, rest);
    TransportExactly(Text(req));
    if ParseTransport(Text(req)).Some? {
      OkayAccepts(w.server, ParseTransport(Text(req)).value.tport);
    }
  }
}
