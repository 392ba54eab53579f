/**
 * The waiters' registry, by which a polling client finds its waiter: who is in it, for how long, and what the waiter
 * remembers of the request meanwhile.
 */
module Registry {
  import opened Basics
  import opened Records
  import opened Selection
  import opened BrokerModel
  import opened BrokerInvariant
  import opened DeviceMachine
  import opened Handoffs
  import opened Commands
  import opened LeaseObjects
  import opened Terms

  /** What a waiter remembers of its request. */
  ghost predicate SameRequest(w: WaiterRec, w': WaiterRec) {
    && w'.serial == w.serial && w'.session == w.session && w'.holder == w.holder && w'.command == w.command
    && w'.idleTTL == w.idleTTL && w'.enqueued == w.enqueued
  }

  /**
   * From st to st' no waiter forgets its request or its lease, only those in `polled` may have polled, and of those
   * with a lease only the ones in `gone` may have left the registry.
   */
  ghost predicate Undisturbed(st: State, st': State, gone: set<Id>, polled: set<Id>) {
    && (forall id :: id in st.wm ==>
          && id in st'.wm && SameRequest(st.wm[id], st'.wm[id])
          && (id !in polled ==> st'.wm[id].lastPoll == st.wm[id].lastPoll)
          && (st.wm[id].lease.Some? ==> st'.wm[id].lease == st.wm[id].lease))
    && (forall id :: id in st.registry && id in st.wm && st.wm[id].lease.Some? && id !in gone ==> id in st'.registry)
  }

  lemma SameIsUndisturbed(st: State, st': State)
    requires st'.wm == st.wm && st'.registry == st.registry
    ensures Undisturbed(st, st', {}, {})
  {
  }

  lemma UndisturbedTwice(st: State, st1: State, st2: State)
    requires Undisturbed(st, st1, {}, {}) && Undisturbed(st1, st2, {}, {})
    ensures Undisturbed(st, st2, {}, {})
  {
  }

  /** The states before and after may differ in the tables that waiters do not see. */
  lemma UndisturbedFrame(st: State, st1: State, st2: State, st': State, gone: set<Id>)
    requires Undisturbed(st1, st2, {}, {})
    requires st1.wm == st.wm && st.registry - gone <= st1.registry && st'.wm == st2.wm && st'.registry == st2.registry
    ensures Undisturbed(st, st', gone, {})
  {
  }

  // ---- hand-offs ----

  lemma DropUndisturbed(st: State, s: Serial, now: Time)
    requires forall id :: id in Queue(st, s) ==> id in st.wm && st.wm[id].lease.None?
    ensures Undisturbed(st, DropStale(st, s, now), {}, {})
    ensures var st1 := DropStale(st, s, now);
            forall id :: id in Queue(st1, s) ==> id in st1.wm && st1.wm[id].lease.None?
  {
  }

  lemma ServeUndisturbed(st: State, s: Serial, now: Time)
    requires Queue(st, s) != [] && Queue(st, s)[0] in st.wm
    requires forall id :: id in Queue(st, s) ==> id in st.wm && st.wm[id].lease.None?
    ensures Undisturbed(st, ServeHead(st, s, now), {}, {})
  {
  }

  lemma GrantNextUndisturbed(st: State, s: Serial, now: Time)
    requires Core(st)
    ensures Undisturbed(st, GrantNext(st, s, now), {}, {})
  {
    QueueUnleased(st, s);
    hide *;
    GrantNextSplit(st, s, now);
    DropUndisturbed(st, s, now);
    var st1 := DropStale(st, s, now);
    if Queue(st1, s) != [] {
      ServeUndisturbed(st1, s, now);
      UndisturbedTwice(st, st1, ServeHead(st1, s, now));
    }
  }

  lemma QueueUnleased(st: State, s: Serial)
    requires Core(st)
    ensures forall id :: id in Queue(st, s) ==> id in st.wm && st.wm[id].lease.None?
  {
    Readables(st, s);
  }

  lemma ExpireUndisturbed(st: State, s: Serial, now: Time)
    requires Core(st) && WorkingBut(st, {}) && Leased(st, s)
    ensures Undisturbed(st, Expire(st, s, now), {}, {})
  {
    hide Core, WorkingBut, GrantNext, Undisturbed;
    ExpireSplit(st, s, now);
    var st1 := st.(leases := st.leases - {s});
    if CleansUp(st, s) {
      SameIsUndisturbed(st, Expire(st, s, now));
    } else {
      GrantNextUndisturbed(st1, s, now);
      UndisturbedFrame(st, st1, GrantNext(st1, s, now), Expire(st, s, now), {});
    }
  }

  // ---- the critical sections ----

  /** The waiters with a lease that have not polled for more than 90 seconds. */
  ghost function Overstayed(st: State, now: Time): set<Id> {
    set id | id in st.registry && id in st.wm && st.wm[id].lease.Some? && now - st.wm[id].lastPoll > 90 * SECOND
  }

  ghost function Leavers(st: State, ev: Event): set<Id> {
    match ev
    case Polled(wid, _) => {wid}
    case Woken(wid) => {wid}
    case Dropped(wid, _) => {wid}
    case Collecting(now) => Overstayed(st, now)
    case _ => {}
  }

  ghost function Pollers(ev: Event): set<Id> {
    match ev
    case Polled(wid, _) => {wid}
    case KeptFresh(wid, _) => {wid}
    case _ => {}
  }

  /** A tick's second part takes exactly the overstayed waiters out of the registry, and does nothing else. */
  lemma CollectedExactly(st: State, now: Time)
    ensures Next(st, Collecting(now)) == st.(registry := st.registry - Overstayed(st, now))
  {
    assert Next(st, Collecting(now)).registry == st.registry - Overstayed(st, now);
  }

  /** A poll by a registered waiter is remembered; one by anybody else changes nothing. */
  lemma PollRemembered(st: State, wid: Id, now: Time)
    requires Inv(st)
    ensures var st' := Next(st, Polled(wid, now));
            if wid in st.registry then
              wid in st.wm && wid in st'.wm && st'.wm == st.wm[wid := st.wm[wid].(lastPoll := now)]
            else st' == st
    ensures var st' := Next(st, KeptFresh(wid, now));
            wid in st.wm ==> st' == st.(wm := st.wm[wid := st.wm[wid].(lastPoll := now)])
  {
    hide Live;
  }

  lemma DropWaiters(st: State, wid: Id, now: Time)
    requires Inv(st)
    ensures Undisturbed(st, Drop(st, wid, now), {wid}, {})
  {
    hide Inv, Core, WorkingBut, Expire, Filter, Queue, Undisturbed;
    MoreMayLeave(st, st, {wid}, {});
    if wid in st.wm {
      var s := st.wm[wid].serial;
      var st1 := st.(registry := st.registry - {wid},
                     queues := SetQueue(st.queues, s, Filter(x => x != wid, Queue(st, s))));
      LeaveKeeps(st, wid);
      InvParts(st1);
      SameIsUndisturbed(st1, st1);
      UndisturbedFrame(st, st1, st1, st1, {wid});
      if Leased(st, s) && st.wm[wid].lease == Some(st.leases[s]) {
        ExpireUndisturbed(st1, s, now);
        UndisturbedFrame(st, st1, Expire(st1, s, now), Drop(st, wid, now), {wid});
      }
    }
  }

  lemma MoreMayLeave(st: State, st': State, gone: set<Id>, polled: set<Id>)
    requires st'.wm == st.wm && st'.registry == st.registry
    ensures Undisturbed(st, st', gone, polled)
  {
  }

  lemma VisitWaiters(st: State, s: Serial, now: Time, t: Time)
    requires Inv(st)
    ensures Undisturbed(st, Visit(st, s, now, t), {}, {})
  {
    hide Inv, Core, WorkingBut, Expire, Undisturbed, Unclaimed, Overdue, Disowned;
    SameIsUndisturbed(st, st);
    if Leased(st, s) {
      var st1 := SetLease(st, st.leases[s], Disowned(LeaseOn(st, s), now));
      SameIsUndisturbed(st, st1);
      VisitBefore(st, s, now);
      ExpireUndisturbed(st, s, t);
      ExpireUndisturbed(st1, s, t);
      UndisturbedFrame(st, st1, Expire(st1, s, t), Expire(st1, s, t), {});
    }
  }

  lemma VisitBefore(st: State, s: Serial, now: Time)
    requires Inv(st) && Leased(st, s)
    ensures var st1 := SetLease(st, st.leases[s], Disowned(LeaseOn(st, s), now));
            Core(st) && WorkingBut(st, {}) && Core(st1) && WorkingBut(st1, {}) && Leased(st1, s)
  {
    InvParts(st);
    SetLeaseKeeps(st, st.leases[s], Disowned(LeaseOn(st, s), now));
    InvParts(SetLease(st, st.leases[s], Disowned(LeaseOn(st, s), now)));
    hide Inv, Core, WorkingBut;
  }

  lemma ReleaseWaiters(st: State, req: ReleaseReq, now: Time)
    requires Inv(st)
    ensures Undisturbed(st, Release(st, req, now), {}, {})
  {
    InvParts(st);
    hide Inv, Core, WorkingBut, Expire, Undisturbed, ReleaseTarget;
    SameIsUndisturbed(st, st);
    if MayRelease(st, req) {
      ExpireUndisturbed(st, ReleaseTarget(st, req).value, now);
    }
  }

  lemma FinishWaiters(st: State, id: Id, now: Time)
    requires Inv(st)
    ensures Undisturbed(st, FinishCleanup(st, id, now), {}, {})
  {
    hide GrantNext, Undisturbed;
    SameIsUndisturbed(st, st);
    if id in st.jobs && id in st.lm {
      var s := st.lm[id].serial;
      var st1 := st.(cleaning := st.cleaning - {s}, jobs := st.jobs - {id});
      FinishBefore(st, id);
      GrantNextUndisturbed(st1, s, now);
      UndisturbedFrame(st, st1, GrantNext(st1, s, now), FinishCleanup(st, id, now), {});
    }
  }

  lemma FinishBefore(st: State, id: Id)
    requires Inv(st) && id in st.jobs && id in st.lm
    ensures Core(st.(cleaning := st.cleaning - {st.lm[id].serial}, jobs := st.jobs - {id}))
  {
  }

  lemma AcquireWaiters(st: State, req: AcquireReq, now: Time, idle: nat)
    requires Inv(st)
    ensures Undisturbed(st, Acquire(st, req, now, idle).0, {}, {})
  {
    FreshIsUnused(st);
    hide Inv, Issued, Queue, NewLease, Renewed, Undisturbed, Enqueue, Grant;
    if req.serial !in st.cleaning && Leased(st, req.serial) && LeaseOn(st, req.serial).session == req.session {
      SameIsUndisturbed(st, Acquire(st, req, now, idle).0);
    }
    EnqueueWaiters(st, req, now, idle);
    GrantWaiters(st, req, now, idle);
  }

  lemma EnqueueWaiters(st: State, req: AcquireReq, now: Time, idle: nat)
    requires FreshId(st) !in st.wm
    ensures Undisturbed(st, Enqueue(st, req, now, idle), {}, {})
  {
  }

  lemma GrantWaiters(st: State, req: AcquireReq, now: Time, idle: nat)
    ensures Undisturbed(st, Grant(st, req, now, idle), {}, {})
  {
    hide NewLease;
  }

  lemma QuietWaiters(st: State, ev: Event)
    requires ev.AcquiringAny? || ev.Beat? || ev.CommandEnded? || ev.BaselineStored? || ev.Reloaded?
    ensures Undisturbed(st, Next(st, ev), {}, {})
  {
    hide *;
    SameWaiters(st, ev);
    SameIsUndisturbed(st, Next(st, ev));
  }

  lemma SameWaiters(st: State, ev: Event)
    requires ev.AcquiringAny? || ev.Beat? || ev.CommandEnded? || ev.BaselineStored? || ev.Reloaded?
    ensures Next(st, ev).wm == st.wm && Next(st, ev).registry == st.registry
  {
    hide FirstFree, StickyDevice, Live, NewLease, Stuck, Beaten, Ended;
  }

  lemma OwnWaiters(st: State, ev: Event)
    requires Inv(st) && (ev.Polled? || ev.Woken? || ev.KeptFresh? || ev.Collecting?)
    ensures Undisturbed(st, Next(st, ev), Leavers(st, ev), Pollers(ev))
  {
    hide *;
    LeaversOf(st, ev);
    match ev
    case Polled(wid, now) =>
      PollTables(st, wid, now);
      PolledOnly(st, Next(st, ev), wid);
    case Woken(wid) => WakeTables(st, wid);
    case KeptFresh(wid, now) => FreshTables(st, wid, now);
    case Collecting(now) =>
      CollectedExactly(st, now);
      FewerRegistered(st, Overstayed(st, now));
  }

  lemma LeaversOf(st: State, ev: Event)
    ensures ev.Polled? || ev.Woken? ==> Leavers(st, ev) == {ev.wid}
    ensures ev.KeptFresh? ==> Leavers(st, ev) == {}
    ensures ev.Collecting? ==> Leavers(st, ev) == Overstayed(st, ev.now) && Pollers(ev) == {}
    ensures ev.Polled? || ev.KeptFresh? ==> Pollers(ev) == {ev.wid}
    ensures ev.Woken? ==> Pollers(ev) == {}
  {
  }

  /** Only wid's last poll may have changed, and only wid may have left the registry. */
  ghost predicate OnlyPolled(st: State, st': State, wid: Id) {
    && st'.wm.Keys == st.wm.Keys && st.registry - {wid} <= st'.registry
    && (forall id :: id in st.wm && id != wid ==> st'.wm[id] == st.wm[id])
    && (wid in st.wm ==> st'.wm[wid] == st.wm[wid].(lastPoll := st'.wm[wid].lastPoll))
  }

  lemma PollTables(st: State, wid: Id, now: Time)
    requires Inv(st)
    ensures OnlyPolled(st, Next(st, Polled(wid, now)), wid)
  {
    hide Inv, Next;
    PollRemembered(st, wid, now);
    PollLeaves(st, wid, now);
  }

  lemma PollLeaves(st: State, wid: Id, now: Time)
    ensures st.registry - {wid} <= Next(st, Polled(wid, now)).registry
  {
    hide SetLease;
  }

  lemma PolledOnly(st: State, st': State, wid: Id)
    requires OnlyPolled(st, st', wid)
    ensures Undisturbed(st, st', {wid}, {wid})
  {
  }

  lemma WakeTables(st: State, wid: Id)
    ensures Undisturbed(st, Next(st, Woken(wid)), {wid}, {})
  {
    hide Live;
  }

  lemma FreshTables(st: State, wid: Id, now: Time)
    ensures Undisturbed(st, Next(st, KeptFresh(wid, now)), {}, {wid})
  {
    var st' := Next(st, KeptFresh(wid, now));
    assert OnlyPolled(st, st', wid) && st'.registry == st.registry;
    hide Next, OnlyPolled;
    FreshOnly(st, st', wid);
  }

  lemma FreshOnly(st: State, st': State, wid: Id)
    requires OnlyPolled(st, st', wid) && st'.registry == st.registry
    ensures Undisturbed(st, st', {}, {wid})
  {
  }

  lemma FewerRegistered(st: State, gone: set<Id>)
    ensures Undisturbed(st, st.(registry := st.registry - gone), gone, {})
  {
  }

  /**
   * In one daemon's life no critical section makes a waiter forget its request or lose its lease; it polls by its own
   * polls only; and with a lease it leaves the registry only by its own poll, wake-up or drop, or in a tick more than
   * 90 seconds after it last polled.
   */
  lemma WaiterStep(st: State, ev: Event)
    requires Inv(st) && !ev.Restarted?
    ensures Undisturbed(st, Next(st, ev), Leavers(st, ev), Pollers(ev))
  {
    hide *;
    EventNames(st, ev);
    match ev
    case Acquiring(req, now, idle) => AcquireWaiters(st, req, now, idle);
    case Dropped(wid, now) => DropWaiters(st, wid, now);
    case Releasing(req, now) => ReleaseWaiters(st, req, now);
    case CleanupFinished(id, now) => FinishWaiters(st, id, now);
    case Visiting(s, now, t) => VisitWaiters(st, s, now, t);
    case Polled(_, _) => OwnWaiters(st, ev);
    case Woken(_) => OwnWaiters(st, ev);
    case KeptFresh(_, _) => OwnWaiters(st, ev);
    case Collecting(_) => OwnWaiters(st, ev);
    case _ => QuietWaiters(st, ev);
  }

  lemma EventNames(st: State, ev: Event)
    ensures ev.Acquiring? ==> Next(st, ev) == Acquire(st, ev.req, ev.now, ev.idle).0
    ensures ev.Dropped? ==> Next(st, ev) == Drop(st, ev.wid, ev.now) && Leavers(st, ev) == {ev.wid}
    ensures ev.Releasing? ==> Next(st, ev) == Release(st, ev.releaseReq, ev.now)
    ensures ev.CleanupFinished? ==> Next(st, ev) == FinishCleanup(st, ev.lease, ev.now)
    ensures ev.Visiting? ==> Next(st, ev) == Visit(st, ev.serial, ev.now, ev.t)
    ensures !ev.Polled? && !ev.Woken? && !ev.Dropped? && !ev.Collecting? ==> Leavers(st, ev) == {}
    ensures !ev.Polled? && !ev.KeptFresh? ==> Pollers(ev) == {}
  {
    hide Acquire, Drop, Release, FinishCleanup, Visit;
  }

  // ---- over a run ----

  /**
   * The waiter does not poll, wake up or give up; each tick comes within 90 seconds of its last poll; no daemon dies.
   */
  ghost predicate KeepsPolling(st: State, evs: seq<Event>, wid: Id) {
    evs != [] ==>
      var front := evs[..|evs| - 1];
      var before := Run(st, front);
      var ev := evs[|evs| - 1];
      && KeepsPolling(st, front, wid)
      && !ev.Restarted? && !((ev.Polled? || ev.Woken? || ev.Dropped?) && ev.wid == wid)
      && (ev.Collecting? && wid in before.wm ==> ev.now - before.wm[wid].lastPoll <= 90 * SECOND)
  }

  /**
   * Over any run of one daemon, a registered waiter with a lease stays registered until it polls, wakes up or gives up
   * itself, if each tick comes within 90 seconds of its last poll; and then its next poll finds and claims that lease.
   */
  lemma {:induction false} GrantIsKept(st: State, evs: seq<Event>, wid: Id, id: Id, now: Time)
    requires Inv(st) && wid in st.registry && wid in st.wm && st.wm[wid].lease == Some(id)
    requires KeepsPolling(st, evs, wid)
    ensures var st' := Run(st, evs);
            && Inv(st') && wid in st'.registry && wid in st'.wm && st'.wm[wid].lease == Some(id)
            && SameRequest(st.wm[wid], st'.wm[wid])
            && var st'' := Next(st', Polled(wid, now));
               id in st''.lm && st''.lm[id].claimed && wid !in st''.registry
  {
    GrantStays(st, evs, wid, id);
    hide *;
    ClaimTerms(Run(st, evs), Polled(wid, now), id);
  }

  lemma {:induction false} GrantStays(st: State, evs: seq<Event>, wid: Id, id: Id)
    requires Inv(st) && wid in st.registry && wid in st.wm && st.wm[wid].lease == Some(id)
    requires KeepsPolling(st, evs, wid)
    ensures var st' := Run(st, evs);
            && Inv(st') && wid in st'.registry && wid in st'.wm && st'.wm[wid].lease == Some(id)
            && SameRequest(st.wm[wid], st'.wm[wid])
  {
    hide Inv, Next;
    RunKeeps(st, evs);
    if evs != [] {
      var front := evs[..|evs| - 1];
      GrantStays(st, front, wid, id);
      WaiterStep(Run(st, front), evs[|evs| - 1]);
    }
  }
}
