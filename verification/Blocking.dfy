/**
 * The in-process blocking acquire on the broker's objects.  It holds the mutex only inside its critical sections;
 * between them everybody else may run.
 */
module Blocking {
  import opened Basics
  import opened Records
  import opened Selection
  import opened BrokerModel
  import opened BrokerInvariant
  import opened LocalAcquire
  import B = Broker

  // ---- everybody else ----

  ghost predicate OneLife(evs: seq<Event>) {
    forall i :: 0 <= i < |evs| ==> !evs[i].Restarted?
  }

  lemma RunOne(st: State, ev: Event)
    ensures Run(st, [ev]) == Next(st, ev)
    ensures !ev.Restarted? ==> OneLife([ev])
  {
    assert [ev][..0] == [];
  }

  lemma RunNone(st: State)
    ensures Run(st, []) == st && OneLife([])
  {
  }

  lemma {:induction false} RunOn(st: State, evs: seq<Event>, more: seq<Event>)
    ensures Run(st, evs + more) == Run(Run(st, evs), more)
    ensures OneLife(evs) && OneLife(more) ==> OneLife(evs + more)
  {
    if more == [] {
      assert evs + more == evs;
    } else {
      assert (evs + more)[..|evs + more| - 1] == evs + more[..|more| - 1];
      RunOn(st, evs, more[..|more| - 1]);
      hide Next;
    }
  }

  /**
   * One critical section of somebody else.  The steps a client or a cleanup pass takes on an object only it refers to
   * are not played here; callers rely on the contract alone, which allows any run of critical sections.
   */
  method Other(b: B.Broker, ev: Event) returns (ghost done: seq<Event>)
    requires b.Valid() && Inv(b.Abs())
    modifies b, b.lm.Values, b.wm.Values
    ensures b.Valid() && Inv(b.Abs())
    ensures OneLife(done) && b.Abs() == Run(old(b.Abs()), done)
    ensures B.Extends(old(b.wm), b.wm) && fresh(b.wm.Values - old(b.wm.Values)) && fresh(b.lm.Values - old(b.lm.Values))
  {
    hide *;
    B.ExtendsSame(b.wm);
    RunNone(b.Abs());
    RunOne(b.Abs(), ev);
    NextIs(b.Abs(), ev);
    done := [];
    match ev
    case Acquiring(req, now, idle) =>
      done := [ev];
      var l, wt := b.Acquire(req, now, idle);
    case AcquiringAny(req, devs, _, now, idle) =>
      ghost var st := b.Abs();
      var l, first := b.AcquireAny(req, devs, now, idle);
      done := [AcquiringAny(req, devs, first, now, idle)];
      RunOne(st, done[0]);
      NextIs(st, done[0]);
      B.ExtendsSame(b.wm);
    case Polled(wid, now) =>
      done := [ev];
      var wt, l := b.Poll(wid, now);
    case Beat(id, now) =>
      done := [ev];
      b.Beat(id, now, false);
    case CommandEnded(id, now) =>
      done := [ev];
      b.Beat(id, now, true);
    case Releasing(req, now) =>
      done := [ev];
      var released := b.Release(req, now);
    case BaselineStored(id, pkgs) =>
      done := [ev];
      b.StoreBaseline(id, pkgs);
    case Visiting(s, now, t) =>
      if s in b.leases {
        done := [ev];
        b.Visit(s, now, t);
      }
    case Collecting(now) =>
      done := [ev];
      b.Collect(now);
    case Reloaded(config) =>
      done := [ev];
      b.Reload(config);
    case _ =>
  }

  /** The events as the functions the broker's methods are proved against. */
  lemma NextIs(st: State, ev: Event)
    ensures match ev
            case Acquiring(req, now, idle) => Next(st, ev) == Acquire(st, req, now, idle).0
            case AcquiringAny(req, devs, first, now, idle) =>
              Next(st, ev) == AcquireAny(st, req, devs, first, now, idle)
            case Polled(wid, now) => Next(st, ev) == Poll(st, wid, now)
            case Woken(wid) => Next(st, ev) == Wake(st, wid)
            case KeptFresh(wid, now) => Next(st, ev) == SetPoll(st, wid, now)
            case Dropped(wid, now) => Next(st, ev) == Drop(st, wid, now)
            case Beat(id, now) => Next(st, ev) == Heartbeat(st, id, now)
            case CommandEnded(id, now) => Next(st, ev) == EndCommand(st, id, now)
            case Releasing(req, now) => Next(st, ev) == Release(st, req, now)
            case BaselineStored(id, pkgs) => Next(st, ev) == StoreBaseline(st, id, pkgs)
            case Visiting(s, now, t) => Next(st, ev) == Visit(st, s, now, t)
            case Collecting(now) => Next(st, ev) == Collect(st, now)
            case Reloaded(config) => Next(st, ev) == st.(config := config)
            case _ => true
  {
  }

  lemma ExtendsOn(wm: map<Id, B.Waiter>, wm1: map<Id, B.Waiter>, wm2: map<Id, B.Waiter>)
    requires B.Extends(wm, wm1) && B.Extends(wm1, wm2)
    ensures B.Extends(wm, wm2)
  {
  }

  lemma StillKnown(wm: map<Id, B.Waiter>, wm': map<Id, B.Waiter>, wt: B.Waiter)
    requires B.Extends(wm, wm') && B.Known(wm, wt)
    ensures B.Known(wm', wt)
  {
  }

  /**
   * The mutex is free.  The script is one thing that can happen; what a caller knows afterwards is only that some run
   * of other critical sections took place, and that no object has gone.
   */
  method Others(b: B.Broker, script: seq<Event>) returns (ghost evs: seq<Event>)
    requires b.Valid() && Inv(b.Abs())
    modifies b, b.lm.Values, b.wm.Values
    ensures b.Valid() && Inv(b.Abs())
    ensures OneLife(evs) && b.Abs() == Run(old(b.Abs()), evs)
    ensures B.Extends(old(b.wm), b.wm) && fresh(b.wm.Values - old(b.wm.Values)) && fresh(b.lm.Values - old(b.lm.Values))
  {
    hide *;
    evs := [];
    RunNone(b.Abs());
    B.ExtendsSame(b.wm);
    for i := 0 to |script|
      invariant b.Valid() && Inv(b.Abs())
      invariant OneLife(evs) && b.Abs() == Run(old(b.Abs()), evs)
      invariant B.Extends(old(b.wm), b.wm)
      invariant fresh(b.wm.Values - old(b.wm.Values)) && fresh(b.lm.Values - old(b.lm.Values))
    {
      ghost var wm := b.wm;
      ghost var done := Other(b, script[i]);
      ExtendsOn(old(b.wm), wm, b.wm);
      RunOn(old(b.Abs()), evs, done);
      evs := evs + done;
    }
  }

  // ---- the client's own turns ----

  function OthersTurns(evs: seq<Event>): seq<Turn> {
    seq(|evs|, i requires 0 <= i < |evs| => Turn(evs[i], false))
  }

  /** The client's story so far, and the broker as it is. */
  ghost predicate Story(st: State, turns: seq<Turn>, req: AcquireReq, now: State, client: Client) {
    ClientRun(st, turns, req) && now == Run(st, Events(turns)) && client == ClientAfter(st, turns)
  }

  lemma StoryStarts(st: State, req: AcquireReq)
    ensures Story(st, [], req, st, Asking)
  {
  }

  lemma MyTurn(st: State, turns: seq<Turn>, req: AcquireReq, now: State, client: Client, ev: Event)
    requires Story(st, turns, req, now, client) && MayTake(now, client, req, ev) && !ev.Restarted?
    ensures Story(st, turns + [Turn(ev, true)], req, Next(now, ev), Advance(now, client, ev))
  {
    var more := turns + [Turn(ev, true)];
    assert more[..|turns|] == turns;
    assert Events(more) == Events(turns) + [ev];
    assert (Events(turns) + [ev])[..|turns|] == Events(turns);
    hide MayTake, Next, Advance;
  }

  lemma {:induction false} TheirTurns(st: State, turns: seq<Turn>, req: AcquireReq, now: State, client: Client,
      evs: seq<Event>)
    requires Story(st, turns, req, now, client) && OneLife(evs)
    ensures Story(st, turns + OthersTurns(evs), req, Run(now, evs), client)
  {
    hide MayTake, Next, Advance;
    if evs == [] {
      assert turns + OthersTurns(evs) == turns;
    } else {
      var front := evs[..|evs| - 1];
      var ev := evs[|evs| - 1];
      TheirTurns(st, turns, req, now, client, front);
      var before := turns + OthersTurns(front);
      var more := turns + OthersTurns(evs);
      assert more == before + [Turn(ev, false)];
      assert more[..|before|] == before;
      assert Events(more) == Events(before) + [ev];
      assert (Events(before) + [ev])[..|before|] == Events(before);
    }
  }

  // ---- waitLocal and AcquireLocalBlocking ----

  /** What the select finds ready, after whatever the others did while it blocked. */
  datatype Choice = Woke | Ticked(now: Time) | Expired(now: Time) | Aborted(now: Time)

  datatype Wait = Wait(others: seq<Event>, choice: Choice)

  /** How a wait ended: with a lease, with the waiter dropped, or with the waiter dropped by a hand-off. */
  datatype Outcome = Lease(id: Id) | Left | Again

  function ClientOf(o: Outcome, wid: Id): Client {
    match o
    case Lease(id) => Got(id)
    case Left => GaveUp(wid)
    case Again => Asking
  }

  /** The turns of others that came after `turns`. */
  ghost predicate OthersSince(turns: seq<Turn>, turns': seq<Turn>) {
    exists evs :: turns' == turns + OthersTurns(evs)
  }

  ghost predicate ChannelClosed(st: State, turns: seq<Turn>, wid: Id) {
    var now := Run(st, Events(turns)); wid in now.wm && now.wm[wid].closed
  }

  ghost function LeaseThen(st: State, turns: seq<Turn>, wid: Id): Option<Id> {
    var now := Run(st, Events(turns)); if wid in now.wm then now.wm[wid].lease else None
  }

  /**
   * From `turns` to turns' the client waits as the waits say: each tick keeps its waiter fresh; it wakes up as soon as
   * it finds its channel closed, with the lease its waiter has then, if any; and it drops its waiter when its time is
   * up or it is aborted, or at `last` when the waits run out.
   */
  ghost predicate Waited(st: State, turns: seq<Turn>, turns': seq<Turn>, wid: Id, waits: seq<Wait>, last: Time,
                        left: seq<Wait>, outcome: Outcome)
    decreases |waits|
  {
    if waits == [] then
      turns' == turns + [Turn(Dropped(wid, last), true)] && left == [] && outcome == Left
    else
      exists mid :: OthersSince(turns, mid) && WaitedOn(st, mid, turns', wid, waits, last, left, outcome)
  }

  /** The same once the others have had their turns. */
  ghost predicate WaitedOn(st: State, mid: seq<Turn>, turns': seq<Turn>, wid: Id, waits: seq<Wait>, last: Time,
                          left: seq<Wait>, outcome: Outcome)
    requires waits != []
    decreases |waits|, 0
  {
    match waits[0].choice
    case Woke =>
      if ChannelClosed(st, mid, wid) then
        && turns' == mid + [Turn(Woken(wid), true)] && left == waits[1..]
        && outcome == (match LeaseThen(st, mid, wid) case Some(id) => Lease(id) case None => Again)
      else Waited(st, mid, turns', wid, waits[1..], last, left, outcome)
    case Ticked(now) =>
      Waited(st, mid + [Turn(KeptFresh(wid, now), true)], turns', wid, waits[1..], last, left, outcome)
    case Expired(now) =>
      turns' == mid + [Turn(Dropped(wid, now), true)] && left == waits[1..] && outcome == Left
    case Aborted(now) =>
      turns' == mid + [Turn(Dropped(wid, now), true)] && left == waits[1..] && outcome == Left
  }

  /**
   * From `turns` to turns' the client acquires, waits if it was queued, and, when a hand-off dropped its waiter,
   * acquires again; the lease is the one it was granted, at once or while waiting, or None if it gave up.
   */
  ghost predicate Acquired(st: State, turns: seq<Turn>, turns': seq<Turn>, req: AcquireReq, clocks: nat -> Time, n: nat,
                           idle: nat, waits: seq<Wait>, last: Time, lease: Option<Id>)
    decreases |waits|
  {
    var asked := turns + [Turn(Acquiring(req, clocks(n), idle), true)];
    match Acquire(Run(st, Events(turns)), req, clocks(n), idle).1
    case Granted(id) => turns' == asked && lease == Some(id)
    case Queued(wid) =>
      exists waited, left, outcome ::
        && Waited(st, asked, waited, wid, waits, last, left, outcome)
        && match outcome
           case Lease(id) => turns' == waited && lease == Some(id)
           case Left => turns' == waited && lease == None
           case Again =>
             |left| < |waits| && Acquired(st, waited, turns', req, clocks, n + 1, idle, left, last, lease)
  }

  lemma WaitedFor(st: State, turns: seq<Turn>, mid: seq<Turn>, wid: Id, waits: seq<Wait>, last: Time)
    requires waits != [] && OthersSince(turns, mid)
    ensures forall turns', left, outcome :: WaitedOn(st, mid, turns', wid, waits, last, left, outcome) ==>
              Waited(st, turns, turns', wid, waits, last, left, outcome)
  {
    hide WaitedOn, OthersSince;
  }

  /** What one wait comes to, by what the select found ready. */
  lemma WaitedBy(st: State, mid: seq<Turn>, wid: Id, waits: seq<Wait>, last: Time)
    requires waits != []
    ensures waits[0].choice.Ticked? ==>
              var kept := mid + [Turn(KeptFresh(wid, waits[0].choice.now), true)];
              forall turns', left, outcome :: Waited(st, kept, turns', wid, waits[1..], last, left, outcome) ==>
                WaitedOn(st, mid, turns', wid, waits, last, left, outcome)
    ensures waits[0].choice.Expired? || waits[0].choice.Aborted? ==>
              WaitedOn(st, mid, mid + [Turn(Dropped(wid, waits[0].choice.now), true)], wid, waits, last, waits[1..],
                       Left)
    ensures waits[0].choice.Woke? && ChannelClosed(st, mid, wid) ==>
              WaitedOn(st, mid, mid + [Turn(Woken(wid), true)], wid, waits, last, waits[1..],
                       match LeaseThen(st, mid, wid) case Some(id) => Lease(id) case None => Again)
    ensures waits[0].choice.Woke? && !ChannelClosed(st, mid, wid) ==>
              forall turns', left, outcome :: Waited(st, mid, turns', wid, waits[1..], last, left, outcome) ==>
                WaitedOn(st, mid, turns', wid, waits, last, left, outcome)
  {
    hide Waited, ChannelClosed, LeaseThen;
  }

  lemma WaitedOut(st: State, turns: seq<Turn>, wid: Id, waits: seq<Wait>, last: Time)
    requires waits == []
    ensures Waited(st, turns, turns + [Turn(Dropped(wid, last), true)], wid, waits, last, [], Left)
  {
  }

  /** The waiter object is the waiter of the story. */
  lemma WaiterThen(b: B.Broker, wt: B.Waiter, st: State, turns: seq<Turn>, req: AcquireReq)
    requires b.Valid() && B.Known(b.wm, wt) && Story(st, turns, req, b.Abs(), Waiting(wt.id))
    ensures ChannelClosed(st, turns, wt.id) <==> wt.closed
    ensures LeaseThen(st, turns, wt.id) == if wt.lease != null then Some(wt.lease.id) else None
  {
    b.Resolve(wt);
    hide ClientRun, ClientAfter, Run;
  }

  lemma WokenTurn(b: B.Broker, wt: B.Waiter)
    requires b.Valid() && B.Known(b.wm, wt) && wt.closed
    ensures forall req :: MayTake(b.Abs(), Waiting(wt.id), req, Woken(wt.id))
    ensures Advance(b.Abs(), Waiting(wt.id), Woken(wt.id)) == if wt.lease != null then Got(wt.lease.id) else Asking
  {
    b.Resolve(wt);
  }

  lemma WaiterTurn(st: State, wid: Id, req: AcquireReq, now: Time)
    ensures MayTake(st, Waiting(wid), req, KeptFresh(wid, now))
        && Advance(st, Waiting(wid), KeptFresh(wid, now)) == Waiting(wid)
    ensures MayTake(st, Waiting(wid), req, Dropped(wid, now))
        && Advance(st, Waiting(wid), Dropped(wid, now)) == GaveUp(wid)
  {
  }

  /** waitLocal; when the choices run out, the client has gone away at `last`. */
  method WaitLocal(b: B.Broker, wt: B.Waiter, waits: seq<Wait>, last: Time,
                   ghost st: State, ghost turns: seq<Turn>, ghost req: AcquireReq)
    returns (outcome: Outcome, left: seq<Wait>, ghost turns': seq<Turn>)
    requires b.Valid() && Inv(b.Abs()) && B.Known(b.wm, wt)
    requires Story(st, turns, req, b.Abs(), Waiting(wt.id))
    modifies b, b.lm.Values, b.wm.Values
    ensures b.Valid() && Inv(b.Abs())
    ensures B.Extends(old(b.wm), b.wm) && fresh(b.wm.Values - old(b.wm.Values)) && fresh(b.lm.Values - old(b.lm.Values))
    ensures Story(st, turns', req, b.Abs(), ClientOf(outcome, wt.id)) && turns <= turns'
    ensures Waited(st, turns, turns', wt.id, waits, last, left, outcome)
    ensures outcome.Again? ==> |left| < |waits|
  {
    hide *;
    left, turns' := waits, turns;
    B.ExtendsSame(b.wm);
    while left != []
      invariant b.Valid() && Inv(b.Abs()) && B.Known(b.wm, wt)
      invariant B.Extends(old(b.wm), b.wm)
      invariant fresh(b.wm.Values - old(b.wm.Values)) && fresh(b.lm.Values - old(b.lm.Values))
      invariant Story(st, turns', req, b.Abs(), Waiting(wt.id)) && turns <= turns'
      invariant |left| <= |waits|
      invariant forall t, l, o :: Waited(st, turns', t, wt.id, left, last, l, o) ==>
                  Waited(st, turns, t, wt.id, waits, last, l, o)
      decreases |left|
    {
      var wait := left[0];
      ghost var before, rest := turns', left;
      left := left[1..];
      turns' := Blocked(b, wt, wait.others, st, turns', req, old(b.wm));
      WaitedFor(st, before, turns', wt.id, rest, last);
      WaitedBy(st, turns', wt.id, rest, last);
      WaiterThen(b, wt, st, turns', req);
      match wait.choice {
        case Woke =>
          if wt.closed {
            outcome, turns' := WakeUp(b, wt, st, turns', req);
            return;
          }
        case Ticked(now) =>
          InValues(b.wm, wt);
          turns' := Tick(b, wt, now, st, turns', req);
        case Expired(now) =>
          turns' := GiveUp(b, wt, now, st, turns', req);
          return Left, left, turns';
        case Aborted(now) =>
          turns' := GiveUp(b, wt, now, st, turns', req);
          return Left, left, turns';
      }
    }
    WaitedOut(st, turns', wt.id, left, last);
    turns' := GiveUp(b, wt, last, st, turns', req);
    outcome := Left;
  }

  lemma InValues(wm: map<Id, B.Waiter>, wt: B.Waiter)
    requires B.Known(wm, wt)
    ensures wt in wm.Values
  {
  }

  /** The select blocks with the mutex free. */
  method Blocked(b: B.Broker, wt: B.Waiter, others: seq<Event>, ghost st: State, ghost turns: seq<Turn>,
                 ghost req: AcquireReq, ghost wm: map<Id, B.Waiter>)
    returns (ghost turns': seq<Turn>)
    requires b.Valid() && Inv(b.Abs()) && B.Known(b.wm, wt) && B.Extends(wm, b.wm)
    requires Story(st, turns, req, b.Abs(), Waiting(wt.id))
    modifies b, b.lm.Values, b.wm.Values
    ensures b.Valid() && Inv(b.Abs()) && B.Known(b.wm, wt) && B.Extends(wm, b.wm)
    ensures fresh(b.wm.Values - old(b.wm.Values)) && fresh(b.lm.Values - old(b.lm.Values))
    ensures Story(st, turns', req, b.Abs(), Waiting(wt.id)) && turns <= turns' && OthersSince(turns, turns')
  {
    hide *;
    ghost var evs := Others(b, others);
    SinceIs(turns, evs);
    ExtendsOn(wm, old(b.wm), b.wm);
    StillKnown(old(b.wm), b.wm, wt);
    TheirTurns(st, turns, req, old(b.Abs()), Waiting(wt.id), evs);
    turns' := turns + OthersTurns(evs);
  }

  lemma SinceIs(turns: seq<Turn>, evs: seq<Event>)
    ensures OthersSince(turns, turns + OthersTurns(evs))
  {
  }

  method WakeUp(b: B.Broker, wt: B.Waiter, ghost st: State, ghost turns: seq<Turn>, ghost req: AcquireReq)
    returns (outcome: Outcome, ghost turns': seq<Turn>)
    requires b.Valid() && Inv(b.Abs()) && B.Known(b.wm, wt) && wt.closed
    requires Story(st, turns, req, b.Abs(), Waiting(wt.id))
    modifies b, b.lm.Values
    ensures b.Valid() && Inv(b.Abs()) && b.wm == old(b.wm) && b.lm == old(b.lm)
    ensures Story(st, turns', req, b.Abs(), ClientOf(outcome, wt.id)) && turns <= turns'
    ensures turns' == turns + [Turn(Woken(wt.id), true)]
    ensures outcome == if old(wt.lease) != null then Lease(old(wt.lease).id) else Again
  {
    hide *;
    ClientOfIs(wt.id);
    WokenTurn(b, wt);
    NextIs(b.Abs(), Woken(wt.id));
    MyTurn(st, turns, req, b.Abs(), Waiting(wt.id), Woken(wt.id));
    turns' := turns + [Turn(Woken(wt.id), true)];
    var l := b.Wake(wt);
    outcome := if l != null then Lease(l.id) else Again;
  }

  lemma ClientOfIs(wid: Id)
    ensures forall id :: ClientOf(Lease(id), wid) == Got(id)
    ensures ClientOf(Left, wid) == GaveUp(wid) && ClientOf(Again, wid) == Asking
  {
  }

  method Tick(b: B.Broker, wt: B.Waiter, now: Time, ghost st: State, ghost turns: seq<Turn>, ghost req: AcquireReq)
    returns (ghost turns': seq<Turn>)
    requires b.Valid() && Inv(b.Abs()) && B.Known(b.wm, wt)
    requires Story(st, turns, req, b.Abs(), Waiting(wt.id))
    modifies wt`lastPoll
    ensures b.Valid() && Inv(b.Abs())
    ensures Story(st, turns', req, b.Abs(), Waiting(wt.id)) && turns' == turns + [Turn(KeptFresh(wt.id, now), true)]
  {
    hide *;
    WaiterTurn(b.Abs(), wt.id, req, now);
    NextIs(b.Abs(), KeptFresh(wt.id, now));
    MyTurn(st, turns, req, b.Abs(), Waiting(wt.id), KeptFresh(wt.id, now));
    turns' := turns + [Turn(KeptFresh(wt.id, now), true)];
    b.KeepFresh(wt, now);
  }

  method GiveUp(b: B.Broker, wt: B.Waiter, now: Time, ghost st: State, ghost turns: seq<Turn>, ghost req: AcquireReq)
    returns (ghost turns': seq<Turn>)
    requires b.Valid() && Inv(b.Abs()) && B.Known(b.wm, wt)
    requires Story(st, turns, req, b.Abs(), Waiting(wt.id))
    modifies b, b.wm.Values
    ensures b.Valid() && Inv(b.Abs()) && b.wm == old(b.wm) && fresh(b.lm.Values - old(b.lm.Values))
    ensures Story(st, turns', req, b.Abs(), ClientOf(Left, wt.id))
    ensures turns' == turns + [Turn(Dropped(wt.id, now), true)]
  {
    hide *;
    ClientOfIs(wt.id);
    WaiterTurn(b.Abs(), wt.id, req, now);
    NextIs(b.Abs(), Dropped(wt.id, now));
    MyTurn(st, turns, req, b.Abs(), Waiting(wt.id), Dropped(wt.id, now));
    turns' := turns + [Turn(Dropped(wt.id, now), true)];
    b.DropWaiter(wt, now);
  }

  lemma AskingTurn(st: State, req: AcquireReq, now: Time, idle: nat)
    ensures MayTake(st, Asking, req, Acquiring(req, now, idle))
    ensures Advance(st, Asking, Acquiring(req, now, idle))
         == match Acquire(st, req, now, idle).1 case Granted(id) => Got(id) case Queued(wid) => Waiting(wid)
  {
    hide Acquire;
  }

  lemma StoryState(st: State, turns: seq<Turn>, req: AcquireReq, now: State)
    requires Story(st, turns, req, now, Asking)
    ensures now == Run(st, Events(turns))
  {
  }

  lemma AcquiredAtOnce(st: State, turns: seq<Turn>, req: AcquireReq, clocks: nat -> Time, n: nat, idle: nat,
                       waits: seq<Wait>, last: Time, id: Id)
    requires Acquire(Run(st, Events(turns)), req, clocks(n), idle).1 == Granted(id)
    ensures Acquired(st, turns, turns + [Turn(Acquiring(req, clocks(n), idle), true)], req, clocks, n, idle, waits,
                     last, Some(id))
  {
    hide Acquire, Run;
  }

  lemma AcquiredWaiting(st: State, turns: seq<Turn>, req: AcquireReq, clocks: nat -> Time, n: nat, idle: nat,
                        waits: seq<Wait>, last: Time, wid: Id, waited: seq<Turn>, left: seq<Wait>, outcome: Outcome)
    requires Acquire(Run(st, Events(turns)), req, clocks(n), idle).1 == Queued(wid)
    requires Waited(st, turns + [Turn(Acquiring(req, clocks(n), idle), true)], waited, wid, waits, last, left, outcome)
    ensures outcome.Lease? ==> Acquired(st, turns, waited, req, clocks, n, idle, waits, last, Some(outcome.id))
    ensures outcome.Left? ==> Acquired(st, turns, waited, req, clocks, n, idle, waits, last, None)
    ensures outcome.Again? && |left| < |waits| ==>
              forall turns', lease :: Acquired(st, waited, turns', req, clocks, n + 1, idle, left, last, lease) ==>
                Acquired(st, turns, turns', req, clocks, n, idle, waits, last, lease)
  {
    hide Acquire, Run, Waited;
  }

  /** AcquireLocalBlocking's critical section. */
  method Ask(b: B.Broker, req: AcquireReq, now: Time, idle: nat, ghost st: State, ghost turns: seq<Turn>)
    returns (l: B.Lease?, wt: B.Waiter?, ghost turns': seq<Turn>)
    requires b.Valid() && Inv(b.Abs()) && Story(st, turns, req, b.Abs(), Asking)
    modifies b, b.lm.Values
    ensures b.Valid() && Inv(b.Abs()) && (l == null) != (wt == null)
    ensures B.Extends(old(b.wm), b.wm) && fresh(b.wm.Values - old(b.wm.Values)) && fresh(b.lm.Values - old(b.lm.Values))
    ensures wt != null ==> B.Known(b.wm, wt)
    ensures Story(st, turns', req, b.Abs(), if l != null then Got(l.id) else Waiting(wt.id)) && turns <= turns'
    ensures turns' == turns + [Turn(Acquiring(req, now, idle), true)]
    ensures Acquire(Run(st, Events(turns)), req, now, idle).1 == if l != null then Granted(l.id) else Queued(wt.id)
  {
    hide *;
    StoryState(st, turns, req, b.Abs());
    AskingTurn(b.Abs(), req, now, idle);
    NextIs(b.Abs(), Acquiring(req, now, idle));
    MyTurn(st, turns, req, b.Abs(), Asking, Acquiring(req, now, idle));
    turns' := turns + [Turn(Acquiring(req, now, idle), true)];
    l, wt := b.Acquire(req, now, idle);
  }

  /**
   * AcquireLocalBlocking: the lease's ID, or None when the client gave up.  Every acquire reads the clock first;
   * `clocks` are those readings.  However often it is woken without a lease and asks again, the critical sections it
   * takes are those of LocalAcquire's client, in that order, among whatever the others do.
   */
  method AcquireLocalBlocking(b: B.Broker, req: AcquireReq, clocks: nat -> Time, idle: nat, waits: seq<Wait>,
                              last: Time, ghost st: State, ghost turns: seq<Turn>)
    returns (lease: Option<Id>, ghost wid: Id, ghost turns': seq<Turn>)
    requires b.Valid() && Inv(b.Abs()) && Story(st, turns, req, b.Abs(), Asking)
    modifies b, b.lm.Values, b.wm.Values
    ensures b.Valid() && Inv(b.Abs())
    ensures fresh(b.wm.Values - old(b.wm.Values)) && fresh(b.lm.Values - old(b.lm.Values))
    ensures Story(st, turns', req, b.Abs(), if lease.Some? then Got(lease.value) else GaveUp(wid)) && turns <= turns'
    ensures Acquired(st, turns, turns', req, clocks, 0, idle, waits, last, lease)
  {
    hide *;
    turns' := turns;
    var left, asked := waits, 0;
    wid := Id(0, 0);
    while true
      invariant b.Valid() && Inv(b.Abs())
      invariant fresh(b.wm.Values - old(b.wm.Values)) && fresh(b.lm.Values - old(b.lm.Values))
      invariant Story(st, turns', req, b.Abs(), Asking) && turns <= turns'
      invariant forall t, r :: Acquired(st, turns', t, req, clocks, asked, idle, left, last, r) ==>
                  Acquired(st, turns, t, req, clocks, 0, idle, waits, last, r)
      decreases |left|
    {
      var l, wt;
      ghost var before, rest := turns', left;
      l, wt, turns' := Ask(b, req, clocks(asked), idle, st, turns');
      if l != null {
        AcquiredAtOnce(st, before, req, clocks, asked, idle, left, last, l.id);
        return Some(l.id), wid, turns';
      }
      wid := wt.id;
      ClientOfIs(wid);
      var outcome;
      outcome, left, turns' := WaitLocal(b, wt, left, last, st, turns', req);
      AcquiredWaiting(st, before, req, clocks, asked, idle, rest, last, wid, turns', left, outcome);
      match outcome {
        case Lease(id) => return Some(id), wid, turns';
        case Left => return None, wid, turns';
        case Again => asked := asked + 1;   // dropped without a lease
      }
    }
  }
}
