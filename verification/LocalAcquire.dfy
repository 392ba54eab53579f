/**
 * One client of the broker, the proxy's blocking acquire and its use of the lease, among everybody else's critical
 * sections.  A client that gets a lease was given one for its device and session and ends its command once; a client
 * that gives up leaves nothing behind.
 */
module LocalAcquire {
  import opened Basics
  import opened Records
  import opened Selection
  import opened BrokerModel
  import opened BrokerInvariant
  import opened DeviceMachine
  import opened Handoffs
  import opened Wakeups
  import opened Commands
  import opened LeaseObjects
  import opened Recovery

  /** Where the client is: about to acquire, waiting, with a lease for its command, or finished, served or not. */
  datatype Client = Asking | Waiting(wid: Id) | Got(lease: Id) | Done(lease: Id) | GaveUp(wid: Id)

  /** A critical section, by this client or by anybody else. */
  datatype Turn = Turn(ev: Event, mine: bool)

  /**
   * The client's next critical section is one its code can take: acquire; wake up, keep fresh or drop its own waiter;
   * beat or end its own lease.
   */
  predicate MayTake(st: State, client: Client, req: AcquireReq, ev: Event) {
    match client
    case Asking => ev.Acquiring? && ev.req == req
    case Waiting(wid) =>
      || (ev.Woken? && ev.wid == wid && wid in st.wm && st.wm[wid].closed)
      || (ev.KeptFresh? && ev.wid == wid)
      || (ev.Dropped? && ev.wid == wid)
    case Got(id) => (ev.Beat? || ev.CommandEnded?) && ev.lease == id
    case Done(_) => false
    case GaveUp(_) => false
  }

  /** Where the client is after its own critical section. */
  function Advance(st: State, client: Client, ev: Event): Client {
    match ev
    case Acquiring(req, now, idle) => (
      match Acquire(st, req, now, idle).1
      case Granted(id) => Got(id)
      case Queued(wid) => Waiting(wid)
    )
    case Woken(wid) =>
      if wid in st.wm && st.wm[wid].lease.Some? then Got(st.wm[wid].lease.value) else Asking
    case Dropped(wid, _) => GaveUp(wid)
    case CommandEnded(id, _) => Done(id)
    case _ => client
  }

  /** The run is one of this client among others, within one daemon's life. */
  ghost predicate ClientRun(st: State, turns: seq<Turn>, req: AcquireReq) {
    turns != [] ==>
      var front := turns[..|turns| - 1];
      var turn := turns[|turns| - 1];
      && ClientRun(st, front, req)
      && !turn.ev.Restarted?
      && (turn.mine ==> MayTake(Run(st, Events(front)), ClientAfter(st, front), req, turn.ev))
  }

  function Events(turns: seq<Turn>): seq<Event> {
    seq(|turns|, i requires 0 <= i < |turns| => turns[i].ev)
  }

  ghost function ClientAfter(st: State, turns: seq<Turn>): Client {
    if turns == [] then Asking else
      var front := turns[..|turns| - 1];
      var turn := turns[|turns| - 1];
      if turn.mine then Advance(Run(st, Events(front)), ClientAfter(st, front), turn.ev) else ClientAfter(st, front)
  }

  /** The lease is one of the request's device and session. */
  ghost predicate LeaseFor(st: State, id: Id, req: AcquireReq) {
    id in st.lm && st.lm[id].serial == req.serial && st.lm[id].session == req.session
  }

  /** What holds of the client between critical sections. */
  ghost predicate ClientWell(st: State, client: Client, req: AcquireReq) {
    match client
    case Asking => true
    case Waiting(wid) => wid in st.wm && st.wm[wid].serial == req.serial && st.wm[wid].session == req.session
    case Got(id) => LeaseFor(st, id, req)
    case Done(id) => LeaseFor(st, id, req)
    case GaveUp(wid) => HasLeft(st, wid)
  }

  /** A waiter that has been made and is in no table any more. */
  ghost predicate HasLeft(st: State, wid: Id) {
    Issued(st, wid) && wid !in st.registry && forall s :: wid !in Queue(st, s)
  }

  lemma AcquireWell(st: State, req: AcquireReq, now: Time, idle: nat)
    requires Inv(st)
    ensures ClientWell(Acquire(st, req, now, idle).0, Advance(st, Asking, Acquiring(req, now, idle)), req)
  {
    hide Inv, Queue;
    FreshIsUnused(st);
    LeaseNames(st, req.serial);
  }

  lemma WakeWell(st: State, wid: Id, req: AcquireReq)
    requires Inv(st) && ClientWell(st, Waiting(wid), req) && st.wm[wid].closed
    ensures ClientWell(Wake(st, wid), Advance(st, Waiting(wid), Woken(wid)), req)
  {
  }

  lemma DropWell(st: State, wid: Id, now: Time, req: AcquireReq)
    requires Inv(st) && ClientWell(st, Waiting(wid), req)
    ensures ClientWell(Drop(st, wid, now), GaveUp(wid), req)
  {
    DropLeavesNothing(st, wid, now);
    WaiterIssued(st, wid);
    IssuedStays(st, Dropped(wid, now), wid);
    hide Inv, Drop, Issued;
    DropIsNext(st, wid, now);
  }

  lemma DropIsNext(st: State, wid: Id, now: Time)
    ensures Next(st, Dropped(wid, now)) == Drop(st, wid, now)
  {
  }

  lemma WaiterIssued(st: State, wid: Id)
    requires Inv(st) && wid in st.wm
    ensures Issued(st, wid)
  {
  }

  // ---- other clients' critical sections ----

  /** Only a newly numbered waiter enters the registry. */
  lemma RegistryGains(st: State, ev: Event, wid: Id)
    requires wid in Next(st, ev).registry
    ensures wid in st.registry || wid == FreshId(st)
  {
    hide Acquire, AcquireAny, Poll, Wake, SetPoll, Drop, Release, FinishCleanup, Visit, Collect, Restart, StoreBaseline,
         Heartbeat, EndCommand;
    match ev
    case Dropped(other, now) => DropRegistry(st, other, now);
    case Releasing(req, now) => ReleaseRegistry(st, req, now);
    case CleanupFinished(id, now) => FinishRegistry(st, id, now);
    case Visiting(s, now, t) => VisitRegistry(st, s, now, t);
    case Restarted(pid, now) => RestartRegistry(st, pid, now);
    case _ => QuietRegistry(st, ev);
  }

  lemma QuietRegistry(st: State, ev: Event)
    requires ev.Acquiring? || ev.AcquiringAny? || ev.Polled? || ev.Woken? || ev.KeptFresh? || ev.Beat?
      || ev.CommandEnded? || ev.BaselineStored? || ev.Collecting? || ev.Reloaded?
    ensures Next(st, ev).registry <= st.registry + {FreshId(st)}
  {
    hide FirstFree, StickyDevice, Queue, Renewed, Stuck, NewLease;
  }

  lemma ReleaseRegistry(st: State, req: ReleaseReq, now: Time)
    ensures Release(st, req, now).registry <= st.registry
  {
    hide Expire, ReleaseTarget;
    if MayRelease(st, req) {
      ExpireRegistry(st, ReleaseTarget(st, req).value, now);
    }
  }

  lemma FinishRegistry(st: State, id: Id, now: Time)
    ensures FinishCleanup(st, id, now).registry <= st.registry
  {
    hide GrantNext;
    if id in st.jobs && id in st.lm {
      var s := st.lm[id].serial;
      GrantNextRegistry(st.(cleaning := st.cleaning - {s}, jobs := st.jobs - {id}), s, now);
    }
  }

  lemma VisitRegistry(st: State, s: Serial, now: Time, t: Time)
    ensures Visit(st, s, now, t).registry <= st.registry
  {
    hide Expire, Unclaimed, Overdue, Disowned;
    if Leased(st, s) {
      ExpireRegistry(st, s, t);
      ExpireRegistry(SetLease(st, st.leases[s], Disowned(LeaseOn(st, s), now)), s, t);
    }
  }

  lemma DropRegistry(st: State, wid: Id, now: Time)
    ensures Drop(st, wid, now).registry <= st.registry
  {
  }

  lemma RestartRegistry(st: State, pid: nat, now: Time)
    ensures Restart(st, pid, now).registry <= st.registry
  {
  }

  lemma ExpireRegistry(st: State, s: Serial, now: Time)
    requires Leased(st, s)
    ensures Expire(st, s, now).registry <= st.registry
  {
  }

  lemma OthersKeepWell(st: State, ev: Event, client: Client, req: AcquireReq)
    requires Inv(st) && ClientWell(st, client, req) && !ev.Restarted?
    ensures ClientWell(Next(st, ev), client, req)
  {
    hide Inv, Next, Issued, Live;
    match client
    case Asking =>
    case Waiting(wid) => NoLostWakeup(st, ev);
    case Got(id) => ObjectStays(st, ev, id);
    case Done(id) => ObjectStays(st, ev, id);
    case GaveUp(wid) => LeftStays(st, ev, wid);
  }

  /** A waiter that has left never comes back. */
  lemma LeftStays(st: State, ev: Event, wid: Id)
    requires Inv(st) && HasLeft(st, wid)
    ensures HasLeft(Next(st, ev), wid)
  {
    hide Inv, Next, Issued;
    IssuedStays(st, ev, wid);
    FreshIsUnused(st);
    if wid in Next(st, ev).registry { RegistryGains(st, ev, wid); }
    forall s
      ensures wid !in Queue(Next(st, ev), s)
    {
      if wid in Queue(Next(st, ev), s) { QueueGains(st, ev, s, wid); }
    }
  }

  lemma WaitingKnown(st: State, client: Client, req: AcquireReq)
    requires ClientWell(st, client, req)
    ensures client.Waiting? ==> client.wid in st.wm
  {
  }

  lemma NextWakes(st: State, ev: Event)
    ensures ev.Acquiring? ==> Next(st, ev) == Acquire(st, ev.req, ev.now, ev.idle).0
    ensures ev.Woken? ==> Next(st, ev) == Wake(st, ev.wid)
    ensures ev.Dropped? ==> Next(st, ev) == Drop(st, ev.wid, ev.now)
  {
    hide Acquire, Wake, Drop;
  }

  lemma OwnKeepsWell(st: State, ev: Event, client: Client, req: AcquireReq)
    requires Inv(st) && ClientWell(st, client, req) && MayTake(st, client, req, ev)
    ensures ClientWell(Next(st, ev), Advance(st, client, ev), req)
  {
    hide Inv, Next, Acquire, Wake, Drop;
    WaitingKnown(st, client, req);
    NextWakes(st, ev);
    match ev
    case Acquiring(r, now, idle) => AcquireWell(st, req, now, idle);
    case Woken(wid) => WakeWell(st, wid, req);
    case Dropped(wid, now) => DropWell(st, wid, now, req);
    case _ => OthersKeepWell(st, ev, client, req);
  }

  /**
   * Whatever the others do meanwhile: a client that got a lease got one of its own device and session; one that has
   * given up has no waiter in the registry or in any queue, for good.
   */
  lemma {:induction false} ClientStaysWell(st: State, turns: seq<Turn>, req: AcquireReq)
    requires Inv(st) && ClientRun(st, turns, req)
    ensures Inv(Run(st, Events(turns))) && ClientWell(Run(st, Events(turns)), ClientAfter(st, turns), req)
  {
    RunKeeps(st, Events(turns));
    if turns != [] {
      var front := turns[..|turns| - 1];
      var turn := turns[|turns| - 1];
      assert Events(turns)[..|Events(turns)| - 1] == Events(front);
      RunKeeps(st, Events(front));
      ClientStaysWell(st, front, req);
      hide Inv, Next, ClientWell, MayTake, Advance;
      if turn.mine {
        OwnKeepsWell(Run(st, Events(front)), turn.ev, ClientAfter(st, front), req);
      } else {
        OthersKeepWell(Run(st, Events(front)), turn.ev, ClientAfter(st, front), req);
      }
    }
  }

  // ---- one grant, one end ----

  /** How many ends the client has reported so far. */
  function MyEnds(turns: seq<Turn>): nat {
    if turns == [] then 0 else
      var turn := turns[|turns| - 1];
      MyEnds(turns[..|turns| - 1]) + if turn.mine && turn.ev.CommandEnded? then 1 else 0
  }

  /** The client names no other lease than the one it has. */
  ghost predicate OwnLeaseOnly(turns: seq<Turn>, lease: Id) {
    forall i :: 0 <= i < |turns| && turns[i].mine && (turns[i].ev.CommandEnded? || turns[i].ev.Beat?)
        ==> turns[i].ev.lease == lease
  }

  ghost predicate NoUpkeep(turns: seq<Turn>) {
    forall i :: 0 <= i < |turns| && turns[i].mine ==> !turns[i].ev.CommandEnded? && !turns[i].ev.Beat?
  }

  /**
   * A client reports exactly one end when it is done, none before, and none if it gave up; and it beats and ends no
   * lease but its own.
   */
  lemma {:induction false} EndsOnce(st: State, turns: seq<Turn>, req: AcquireReq)
    requires ClientRun(st, turns, req)
    ensures var client := ClientAfter(st, turns);
            && MyEnds(turns) == (if client.Done? then 1 else 0)
            && if client.Got? || client.Done? then OwnLeaseOnly(turns, client.lease) else NoUpkeep(turns)
  {
    if turns != [] {
      var front := turns[..|turns| - 1];
      EndsOnce(st, front, req);
      assert forall i :: 0 <= i < |front| ==> turns[i] == front[i];
      hide Run, Acquire;
    }
  }

  /** This critical section gives the client the lease: at once, or by finding its woken waiter with it. */
  ghost predicate Grants(st: State, ev: Event, lease: Id, req: AcquireReq) {
    || (ev.Acquiring? && ev.req == req && Acquire(st, req, ev.now, ev.idle).1 == Granted(lease))
    || (ev.Woken? && ev.wid in st.wm && st.wm[ev.wid].closed && st.wm[ev.wid].lease == Some(lease)
        && st.wm[ev.wid].serial == req.serial && st.wm[ev.wid].session == req.session)
  }

  /** The client's turn j grants it the lease; before it had none. */
  ghost predicate GrantedAt(st: State, turns: seq<Turn>, j: nat, lease: Id, req: AcquireReq) {
    && j < |turns| && turns[j].mine
    && (ClientAfter(st, turns[..j]).Asking? || ClientAfter(st, turns[..j]).Waiting?)
    && Grants(Run(st, Events(turns[..j])), turns[j].ev, lease, req)
  }

  lemma AdvanceGrants(st: State, client: Client, ev: Event, req: AcquireReq)
    requires ClientWell(st, client, req) && MayTake(st, client, req, ev)
    requires !client.Got? && Advance(st, client, ev).Got?
    ensures (client.Asking? || client.Waiting?) && Grants(st, ev, Advance(st, client, ev).lease, req)
  {
    hide Acquire;
  }

  /** A client with a lease was granted it, by a critical section of its own, for its request. */
  lemma {:induction false} GrantFound(st: State, turns: seq<Turn>, req: AcquireReq) returns (j: nat)
    requires Inv(st) && ClientRun(st, turns, req)
    requires ClientAfter(st, turns).Got? || ClientAfter(st, turns).Done?
    ensures GrantedAt(st, turns, j, ClientAfter(st, turns).lease, req)
  {
    hide Inv, Run, Acquire, ClientWell, Grants;
    var front := turns[..|turns| - 1];
    var turn := turns[|turns| - 1];
    var client := ClientAfter(st, front);
    ClientStaysWell(st, front, req);
    if turn.mine && !client.Got? {
      j := |front|;
      AdvanceGrants(Run(st, Events(front)), client, turn.ev, req);
    } else {
      j := GrantFound(st, front, req);
      assert front[..j] == turns[..j] && front[j] == turns[j];
    }
  }

  // ---- every waiter the client ever had ----

  /** The client's turn j queued it as the waiter wid. */
  ghost predicate QueuedAt(st: State, turns: seq<Turn>, j: nat, wid: Id, req: AcquireReq) {
    && j < |turns| && turns[j].mine && turns[j].ev.Acquiring?
    && Acquire(Run(st, Events(turns[..j])), req, turns[j].ev.now, turns[j].ev.idle).1 == Queued(wid)
  }

  lemma WakeLeaves(st: State, wid: Id)
    requires Inv(st) && wid in st.wm && st.wm[wid].closed
    ensures HasLeft(Wake(st, wid), wid)
  {
    WaiterIssued(st, wid);
    forall s
      ensures wid !in Queue(Wake(st, wid), s)
    {
      assert wid in Queue(st, s) ==> QueueWell(st.queues[s], st.registry, st.wm, s);
    }
  }

  lemma OwnTurnLeaves(st: State, ev: Event, wid: Id, req: AcquireReq)
    requires Inv(st) && ClientWell(st, Waiting(wid), req) && MayTake(st, Waiting(wid), req, ev)
    ensures Advance(st, Waiting(wid), ev) == Waiting(wid) || HasLeft(Next(st, ev), wid)
  {
    hide Inv, Next, Wake, Drop, HasLeft, Acquire;
    NextWakes(st, ev);
    match ev
    case Woken(_) => WakeLeaves(st, wid);
    case Dropped(_, now) => DropWell(st, wid, now, req);
    case _ =>
  }

  /** A waiter the client was ever queued as is the one it waits with now, or has left the tables for good. */
  lemma {:induction false} OneWaiterAtATime(st: State, turns: seq<Turn>, req: AcquireReq, j: nat, wid: Id)
    requires Inv(st) && ClientRun(st, turns, req) && QueuedAt(st, turns, j, wid, req)
    ensures ClientAfter(st, turns) == Waiting(wid) || HasLeft(Run(st, Events(turns)), wid)
  {
    hide Inv, Next, ClientWell, MayTake, Advance, HasLeft, Acquire;
    var front := turns[..|turns| - 1];
    var turn := turns[|turns| - 1];
    var before := Run(st, Events(front));
    assert Events(turns)[..|Events(turns)| - 1] == Events(front);
    RunKeeps(st, Events(front));
    if j == |front| {
      AskedOnly(before, ClientAfter(st, front), turn.ev, req);
      assert turns[..j] == front;
    } else {
      assert front[..j] == turns[..j] && front[j] == turns[j];
      OneWaiterAtATime(st, front, req, j, wid);
      if ClientAfter(st, front) == Waiting(wid) {
        ClientStaysWell(st, front, req);
        if turn.mine {
          OwnTurnLeaves(before, turn.ev, wid, req);
        }
      } else {
        LeftStays(before, turn.ev, wid);
      }
    }
  }

  lemma AskedOnly(st: State, client: Client, ev: Event, req: AcquireReq)
    requires MayTake(st, client, req, ev) && ev.Acquiring?
    ensures forall wid :: Acquire(st, req, ev.now, ev.idle).1 == Queued(wid) ==> Advance(st, client, ev) == Waiting(wid)
  {
    hide Acquire;
  }

  // ---- until somebody ends it ----

  /** This critical section ends the lease id: a release, a waiter that gives it back, or a tick that finds it over. */
  ghost predicate EndsLease(st: State, ev: Event, id: Id) {
    && Live(st, id)
    && var s := st.lm[id].serial;
       OpAt(st, ev, s).Revoke? || (ev.Visiting? && ev.serial == s && EndsNow(st, s, ev.now))
  }

  lemma StepEnds(d: Device, op: Op, env: Env)
    requires d.Held? && !op.Reboot? && env.nextId != d.id
    ensures var d' := Step(d, op, env);
            d'.Held? && d'.id == d.id <==>
              && !op.Revoke?
              && !(op.Inspect? && (Unclaimed(d.lease, op.now) || Overdue(Disowned(d.lease, op.now), op.now)))
  {
  }

  lemma RevokeOrInspect(st: State, ev: Event, s: Serial)
    requires !ev.Restarted?
    ensures !OpAt(st, ev, s).Reboot?
    ensures if ev.Visiting? && ev.serial == s then OpAt(st, ev, s) == Inspect(ev.now, ev.t)
            else !OpAt(st, ev, s).Inspect?
    ensures OpAt(st, ev, s).Revoke? ==> ev.Dropped? || ev.Releasing?
  {
    hide StickyDevice, FirstFree, ReleaseTarget, MayRelease;
  }

  /** A live lease is gone after a critical section exactly when that section ended it. */
  lemma LiveUntilEnded(st: State, ev: Event, id: Id)
    requires Inv(st) && Live(st, id) && !ev.Restarted?
    ensures Live(Next(st, ev), id) <==> !EndsLease(st, ev, id)
  {
    hide Inv, Next, Step, View, OpAt, EnvAt, Readable, Unclaimed, Overdue, Disowned;
    var s := st.lm[id].serial;
    Owns(st, id);
    Refines(st, ev, s);
    RevokeOrInspect(st, ev, s);
    StepEnds(View(st, s), OpAt(st, ev, s), EnvAt(st, s));
    HeldIsLive(Next(st, ev), s);
    EndsIs(st, ev, id);
    if Live(Next(st, ev), id) {
      SerialStays(st, ev, id);
      Owns(Next(st, ev), id);
    }
  }

  lemma EndsIs(st: State, ev: Event, id: Id)
    requires Inv(st) && Live(st, id)
    ensures var s := st.lm[id].serial;
            EndsLease(st, ev, id) <==>
              || OpAt(st, ev, s).Revoke?
              || (ev.Visiting? && ev.serial == s
                  && (Unclaimed(st.lm[id], ev.now) || Overdue(Disowned(st.lm[id], ev.now), ev.now)))
  {
    hide OpAt, Unclaimed, Overdue, Disowned;
    LeaseNames(st, st.lm[id].serial);
    hide Inv;
  }

  /** Somebody else's turn k ended the lease. */
  ghost predicate EndedAt(st: State, turns: seq<Turn>, k: nat, id: Id) {
    k < |turns| && !turns[k].mine && EndsLease(Run(st, Events(turns[..k])), turns[k].ev, id)
  }

  /** The lease is there, or somebody else's turn ended it. */
  ghost predicate LiveOrEnded(st: State, turns: seq<Turn>, id: Id) {
    Live(Run(st, Events(turns)), id) || exists k :: EndedAt(st, turns, k, id)
  }

  lemma LiveOrEndedOn(st: State, front: seq<Turn>, turn: Turn, id: Id)
    requires Inv(st) && LiveOrEnded(st, front, id) && !turn.ev.Restarted?
    requires turn.mine ==> !EndsLease(Run(st, Events(front)), turn.ev, id)
    ensures LiveOrEnded(st, front + [turn], id)
  {
    hide Inv, Run, Live, EndsLease;
    var turns := front + [turn];
    OneTurn(st, front, turn);
    RunKeeps(st, Events(front));
    if k: nat :| EndedAt(st, front, k, id) {
      assert turns[..k] == front[..k] && turns[k] == front[k];
      assert EndedAt(st, turns, k, id);
    } else {
      LiveUntilEnded(Run(st, Events(front)), turn.ev, id);
      if !Live(Run(st, Events(turns)), id) {
        assert turns[..|front|] == front;
        assert EndedAt(st, turns, |front|, id);
      }
    }
  }

  lemma OneTurn(st: State, front: seq<Turn>, turn: Turn)
    ensures Run(st, Events(front + [turn])) == Next(Run(st, Events(front)), turn.ev)
    ensures (front + [turn])[..|front|] == front
  {
    hide Next;
    var evs := Events(front + [turn]);
    assert evs[..|evs| - 1] == Events(front);
  }

  /** The lease the client has, or its waiter was handed. */
  function LeaseOf(st: State, client: Client): Option<Id> {
    match client
    case Asking => None
    case Waiting(wid) => if wid in st.wm then st.wm[wid].lease else None
    case Got(id) => Some(id)
    case Done(id) => Some(id)
    case GaveUp(_) => None
  }

  /** A waiter's lease is the one it had, or one made live by this very critical section. */
  lemma WaiterLease(st: State, ev: Event, wid: Id, id: Id)
    requires Inv(st) && !ev.Restarted? && wid in st.wm
    ensures var st' := Next(st, ev);
            wid in st'.wm && st'.wm[wid].lease == Some(id) ==> st.wm[wid].lease == Some(id) || Live(st', id)
  {
    hide Inv, Next, Live;
    var st' := Next(st, ev);
    NextKeeps(st, ev);
    NoLostWakeup(st, ev);
    FreshIsUnused(st);
    if wid in st'.wm && st'.wm[wid].lease == Some(id) {
      WaitersLease(st', wid);
      if st.wm[wid].lease.None? {
        NewIsLive(st, ev, id);
      }
    }
  }

  /** A client's own turn ends no lease, unless it gives up; what lease it has then, it had before or has just got. */
  lemma OwnTurnLease(st: State, ev: Event, client: Client, req: AcquireReq, id: Id)
    requires Inv(st) && ClientWell(st, client, req) && MayTake(st, client, req, ev)
    requires LeaseOf(Next(st, ev), Advance(st, client, ev)) == Some(id)
    ensures !EndsLease(st, ev, id)
    ensures LeaseOf(st, client) == Some(id) || Live(Next(st, ev), id)
  {
    hide Inv, Next, Wake, Drop, Acquire, OpAt, EndsNow;
    NextWakes(st, ev);
    if Live(st, id) {
      RevokeOrInspect(st, ev, st.lm[id].serial);
    }
    match ev
    case Acquiring(_, now, idle) => AskedLease(st, req, now, idle, id);
    case KeptFresh(wid, _) => if wid in st.wm { WaiterLease(st, ev, wid, id); }
    case _ =>
  }

  lemma AskedLease(st: State, req: AcquireReq, now: Time, idle: nat, id: Id)
    requires Inv(st)
    requires LeaseOf(Acquire(st, req, now, idle).0, Advance(st, Asking, Acquiring(req, now, idle))) == Some(id)
    ensures Live(Acquire(st, req, now, idle).0, id)
  {
    FreshIsUnused(st);
    LeaseNames(st, req.serial);
    hide Inv, ExplicitTTL, Queue;
  }

  /**
   * A lease that the client has, or that its waiter was handed, is live, unless somebody else's critical section has
   * ended it since.
   */
  lemma {:induction false} LeaseLasts(st: State, turns: seq<Turn>, req: AcquireReq, id: Id)
    requires Inv(st) && ClientRun(st, turns, req)
    requires LeaseOf(Run(st, Events(turns)), ClientAfter(st, turns)) == Some(id)
    ensures LiveOrEnded(st, turns, id)
  {
    hide Inv, Next, ClientWell, MayTake, Advance, Live, EndsLease, LiveOrEnded, LeaseOf;
    if turns == [] {
      NoLeaseYet(st);
    } else {
      var front := turns[..|turns| - 1];
      var turn := turns[|turns| - 1];
      var before := Run(st, Events(front));
      var client := ClientAfter(st, front);
      assert turns == front + [turn];
      OneTurn(st, front, turn);
      RunKeeps(st, Events(front));
      ClientStaysWell(st, front, req);
      if turn.mine {
        OwnTurnLease(before, turn.ev, client, req, id);
      } else {
        OthersLease(before, turn.ev, client, req, id);
      }
      if LeaseOf(before, client) == Some(id) {
        LeaseLasts(st, front, req, id);
        LiveOrEndedOn(st, front, turn, id);
      } else {
        NowLive(st, turns, id);
      }
    }
  }

  lemma OthersLease(st: State, ev: Event, client: Client, req: AcquireReq, id: Id)
    requires Inv(st) && ClientWell(st, client, req) && !ev.Restarted?
    requires LeaseOf(Next(st, ev), client) == Some(id)
    ensures LeaseOf(st, client) == Some(id) || Live(Next(st, ev), id)
  {
    hide Inv, Next, Live;
    if client.Waiting? {
      WaiterLease(st, ev, client.wid, id);
    }
  }

  lemma NoLeaseYet(st: State)
    ensures LeaseOf(st, Asking).None? && ClientAfter(st, []) == Asking
  {
  }

  lemma NowLive(st: State, turns: seq<Turn>, id: Id)
    requires Live(Run(st, Events(turns)), id)
    ensures LiveOrEnded(st, turns, id)
  {
  }

  // ---- at the moment of the answer ----

  /**
   * A lease given straight away is live at that moment, for the device and session asked for, and counts the command.
   */
  lemma GrantedNow(st: State, req: AcquireReq, now: Time, idle: nat, id: Id)
    requires Inv(st) && Acquire(st, req, now, idle).1 == Granted(id)
    ensures var st' := Acquire(st, req, now, idle).0;
            && OwnerIs(st', req.serial, id) && st'.lm[id].session == req.session && st'.lm[id].claimed
            && (req.command ==> st'.lm[id].running > 0)
  {
    hide Inv, Issued, Queue;
    LiveIssued(st, FreshId(st));
    LeaseNames(st, req.serial);
  }

  /** A lease abandoned in the moment it was handed over is taken back with the waiter. */
  lemma GivingUpReleases(st: State, wid: Id, now: Time, id: Id)
    requires Inv(st) && wid in st.wm && st.wm[wid].lease == Some(id)
    ensures !Live(Drop(st, wid, now), id)
  {
    var st' := Drop(st, wid, now);
    var s := st.wm[wid].serial;
    DropIsNext(st, wid, now);
    WaitersLease(st, wid);
    LiveIssued(st, id);
    hide Inv, Next, Drop, Issued;
    if !Live(st, id) {
      DeadStaysDead(st, Dropped(wid, now), id);
    } else if Live(st', id) {
      SerialStays(st, Dropped(wid, now), id);
      RevokedStep(st, wid, now, s, id);
    }
  }

  lemma WaitersLease(st: State, wid: Id)
    requires Inv(st) && wid in st.wm && st.wm[wid].lease.Some?
    ensures st.wm[wid].lease.value in st.lm && st.lm[st.wm[wid].lease.value].serial == st.wm[wid].serial
  {
  }

  lemma RevokedStep(st: State, wid: Id, now: Time, s: Serial, id: Id)
    requires Inv(st) && wid in st.wm && st.wm[wid].lease == Some(id) && st.wm[wid].serial == s
    requires Live(st, id) && st.lm[id].serial == s
    ensures !OwnerIs(Next(st, Dropped(wid, now)), s, id)
  {
    hide Inv, Next, View, EnvAt, Readable, Handoff;
    Refines(st, Dropped(wid, now), s);
    Owns(st, id);
    OwnerGone(Next(st, Dropped(wid, now)), s, id);
    assert OpAt(st, Dropped(wid, now), s) == Revoke(now);
    HandoffHolder(QueueOf(View(st, s)), EnvAt(st, s), now);
  }

  lemma HandoffHolder(q: seq<Entry>, env: Env, now: Time)
    ensures Handoff(q, env, now).Held? ==> Handoff(q, env, now).id == env.nextId
    ensures !Handoff(q, env, now).Cleaning?
  {
  }

  lemma OwnerGone(st: State, s: Serial, id: Id)
    requires Inv(st)
    ensures OwnerIs(st, s, id) ==> Readable(st, s) && View(st, s).Held? && View(st, s).id == id
  {
  }
}
