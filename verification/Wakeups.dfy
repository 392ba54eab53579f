/**
 * What happens to waiters: a hand-off serves exactly one session and keeps the order of the rest, and nobody leaves
 * a queue without being told or having given up.
 */
module Wakeups {
  import opened Basics
  import opened Records
  import opened Selection
  import opened BrokerModel
  import opened BrokerInvariant
  import opened DeviceMachine
  import opened Handoffs

  /** Stopped polling too long ago. */
  predicate StaleAt(w: WaiterRec, now: Time) {
    now - w.lastPoll > 90 * SECOND
  }

  /** q[i] is the first waiter of q still polling. */
  ghost predicate FirstPolling(wm: map<Id, WaiterRec>, q: seq<Id>, now: Time, i: nat) {
    && i < |q|
    && (forall id :: id in q ==> id in wm)
    && !StaleAt(wm[q[i]], now)
    && (forall j :: 0 <= j < i ==> StaleAt(wm[q[j]], now))
  }

  predicate RestOf(wm: map<Id, WaiterRec>, now: Time, session: Session, id: Id) {
    id in wm && !StaleAt(wm[id], now) && wm[id].session != session
  }

  /** What becomes of a waiter of the queue: sent away, given the lease, or left waiting. */
  ghost predicate Outcome(st: State, st': State, now: Time, session: Session, lease: Id, id: Id) {
    && id in st.wm && id in st'.wm
    && (id in st'.registry <==> !StaleAt(st.wm[id], now))
    && st'.wm[id] == if StaleAt(st.wm[id], now) then st.wm[id].(closed := true)
                     else if st.wm[id].session == session then st.wm[id].(closed := true, lease := Some(lease))
                     else st.wm[id]
  }

  lemma SentAway(st: State, s: Serial, now: Time, i: nat)
    requires forall id :: id in Queue(st, s) ==> Waits(st.registry, st.wm, s, id)
    requires FirstPolling(st.wm, Queue(st, s), now, i)
    ensures var q := Queue(st, s);
            var st1 := DropStale(st, s, now);
            && Queue(st1, s) == Filter(Polling(st.wm, now), q)
            && Queue(st1, s) != [] && Queue(st1, s)[0] == q[i]
            && st1.wm.Keys == st.wm.Keys
            && (forall id :: id in q ==>
                  && (id in st1.registry <==> !StaleAt(st.wm[id], now))
                  && (id in Queue(st1, s) <==> !StaleAt(st.wm[id], now))
                  && st1.wm[id] == if StaleAt(st.wm[id], now) then st.wm[id].(closed := true) else st.wm[id])
            && FreshId(st1) == FreshId(st) && st1.config == st.config
  {
    var q := Queue(st, s);
    assert forall j :: 0 <= j < |q| ==> Waits(st.registry, st.wm, s, q[j]);
    FilterHead(Polling(st.wm, now), q, i);
    hide Filter;
  }

  /**
   * A hand-off of a vacant device gives one new lease, to the session of the first waiter still polling, and to all
   * of that session's polling waiters; it wakes the ones that stopped polling empty-handed; the others keep waiting, in
   * their order.
   */
  lemma HandoffServesOneSession(st: State, s: Serial, now: Time, i: nat)
    requires Core(st) && WorkingBut(st, {s}) && Vacant(st, s)
    requires FirstPolling(st.wm, Queue(st, s), now, i)
    ensures var st' := GrantNext(st, s, now);
            var q := Queue(st, s);
            var head := st.wm[q[i]];
            && Leased(st', s) && !Issued(st, st'.leases[s])
            && LeaseOn(st', s).session == head.session && LeaseOn(st', s).holder == head.holder
            && LeaseOn(st', s).serial == s && LeaseOn(st', s).pid == 0 && !LeaseOn(st', s).explicit
            && LeaseOn(st', s).acquiredAt == now && !LeaseOn(st', s).claimed
            && LeaseOn(st', s).lastActive == now && LeaseOn(st', s).lastBeat == now && LeaseOn(st', s).baseline == []
            && LeaseOn(st', s).idleTTL == (if head.idleTTL > 0 then head.idleTTL else st.config.idleTTL)
            && Queue(st', s) == Filter(id => RestOf(st.wm, now, head.session, id), q)
            && (forall id :: id in q ==> Outcome(st, st', now, head.session, st'.leases[s], id))
  {
    hide Core, WorkingBut, GrantNext, DropStale, ServeHead, Filter, Waits, FirstPolling, StaleAt, RestOf, Outcome,
        Leased, Queue;
    var q := Queue(st, s);
    var st1 := DropStale(st, s, now);
    var st' := GrantNext(st, s, now);
    QueueWaits(st, s);
    FirstIsWaiting(st, s, now, i);
    SentAway(st, s, now, i);
    GrantNextSplit(st, s, now);
    Served(st1, s, now);
    RestIs(st.wm, st1.wm, q, now, st.wm[q[i]].session);
    forall id | id in q
      ensures Outcome(st, st', now, st.wm[q[i]].session, FreshId(st), id)
    {
      OutcomeIs(st, st1, st', s, now, i, id);
    }
  }

  lemma FirstIsWaiting(st: State, s: Serial, now: Time, i: nat)
    requires FirstPolling(st.wm, Queue(st, s), now, i)
    ensures var q := Queue(st, s); i < |q| && q[i] in st.wm && !StaleAt(st.wm[q[i]], now) && q[i] in q
  {
  }

  lemma QueueWaits(st: State, s: Serial)
    requires Core(st)
    ensures forall id :: id in Queue(st, s) ==> Waits(st.registry, st.wm, s, id)
    ensures forall id :: id in Queue(st, s) ==> id in st.wm && st.wm[id].lease.None?
    ensures !Issued(st, FreshId(st))
  {
  }

  /** Who keeps waiting, filtered in two steps or in one. */
  lemma RestIs(wm: map<Id, WaiterRec>, wm1: map<Id, WaiterRec>, q: seq<Id>, now: Time, session: Session)
    requires forall id :: id in q ==> id in wm && wm[id].lease.None? && id in wm1 && wm1[id].session == wm[id].session
    ensures Filter(NotOfSession(wm1, session), Filter(Polling(wm, now), q))
        == Filter(id => RestOf(wm, now, session, id), q)
  {
  }

  lemma OutcomeIs(st: State, st1: State, st': State, s: Serial, now: Time, i: nat, id: Id)
    requires var q := Queue(st, s);
             && id in q && id in st.wm && i < |q| && q[i] in st.wm
             && id in st1.wm && st1.wm[id]
                 == (if StaleAt(st.wm[id], now) then st.wm[id].(closed := true) else st.wm[id])
             && (id in st1.registry <==> !StaleAt(st.wm[id], now))
             && (id in Queue(st1, s) <==> !StaleAt(st.wm[id], now))
             && st'.registry == st1.registry && st'.wm.Keys == st1.wm.Keys
             && st'.wm[id] == if id in Queue(st1, s) && st1.wm[id].session == st.wm[q[i]].session
                              then st1.wm[id].(closed := true, lease := Some(FreshId(st))) else st1.wm[id]
    ensures Outcome(st, st', now, st.wm[Queue(st, s)[i]].session, FreshId(st), id)
  {
  }

  lemma Served(st: State, s: Serial, now: Time)
    requires Queue(st, s) != [] && Queue(st, s)[0] in st.wm
    ensures var st' := ServeHead(st, s, now);
            var q := Queue(st, s);
            var head := st.wm[q[0]];
            && Leased(st', s) && st'.leases[s] == FreshId(st)
            && LeaseOn(st', s).session == head.session && LeaseOn(st', s).holder == head.holder
            && LeaseOn(st', s).serial == s && LeaseOn(st', s).pid == 0 && !LeaseOn(st', s).explicit
            && LeaseOn(st', s).acquiredAt == now && !LeaseOn(st', s).claimed
            && LeaseOn(st', s).lastActive == now && LeaseOn(st', s).lastBeat == now && LeaseOn(st', s).baseline == []
            && LeaseOn(st', s).idleTTL == (if head.idleTTL > 0 then head.idleTTL else st.config.idleTTL)
            && Queue(st', s) == Filter(NotOfSession(st.wm, head.session), q)
            && st'.registry == st.registry && st'.wm.Keys == st.wm.Keys
            && (forall id :: id in st.wm ==>
                  st'.wm[id] == if id in q && st.wm[id].session == head.session
                                then st.wm[id].(closed := true, lease := Some(FreshId(st))) else st.wm[id])
  {
  }

  /** With nobody polling, the device is free and every waiter has been woken. */
  lemma HandoffToNobody(st: State, s: Serial, now: Time)
    requires Core(st) && WorkingBut(st, {s}) && Vacant(st, s)
    requires forall id :: id in Queue(st, s) && id in st.wm ==> StaleAt(st.wm[id], now)
    ensures var st' := GrantNext(st, s, now);
            && s !in st'.leases && s !in st'.queues
            && (forall id :: id in Queue(st, s) ==> id in st'.wm && st'.wm[id].closed && id !in st'.registry)
  {
  }

  // ---- over the critical sections ----

  /**
   * From st to st', closed channels stay closed and handed-over leases stay handed over, only a new lease is handed
   * over, and leaving a queue comes with a closed channel.
   */
  ghost predicate NobodyStranded(st: State, st': State, leaver: set<Id>) {
    forall id :: id in st.wm ==>
      && id in st'.wm
      && st'.wm[id].serial == st.wm[id].serial && st'.wm[id].session == st.wm[id].session
      && (st.wm[id].closed ==> st'.wm[id].closed)
      && (st.wm[id].lease.Some? ==> st'.wm[id].lease == st.wm[id].lease)
      && (st.wm[id].lease.None? && st'.wm[id].lease.Some? ==> st'.wm[id].lease.value == FreshId(st))
      && (id in Queue(st, st.wm[id].serial) && id !in leaver ==>
            id in Queue(st', st.wm[id].serial) || st'.wm[id].closed)
  }

  /** The states before and after may differ in the tables that waiters do not see. */
  lemma StrandedFrame(st: State, st1: State, st2: State, st': State, leaver: set<Id>)
    requires NobodyStranded(st1, st2, {})
    requires st1.wm == st.wm && FreshId(st1) == FreshId(st) && st'.wm == st2.wm && st'.queues == st2.queues
    requires forall s, id :: id in Queue(st, s) && id !in leaver ==> id in Queue(st1, s)
    ensures NobodyStranded(st, st', leaver)
  {
  }

  lemma GrantNextStrandsNobody(st: State, s: Serial, now: Time)
    requires Core(st)
    ensures NobodyStranded(st, GrantNext(st, s, now), {})
  {
    assert s in st.queues ==> QueueWell(st.queues[s], st.registry, st.wm, s);
    assert forall id :: id in Queue(st, s) ==> Waits(st.registry, st.wm, s, id);
    hide Core, GrantNext, DropStale, ServeHead, Filter, NobodyStranded;
    GrantNextSplit(st, s, now);
    DropStrandsNobody(st, s, now);
    var st1 := DropStale(st, s, now);
    if Queue(st1, s) != [] {
      ServeStrandsNobody(st1, s, now);
      StrandedTwice(st, st1, ServeHead(st1, s, now));
    }
  }

  lemma StrandedTwice(st: State, st1: State, st2: State)
    requires NobodyStranded(st, st1, {}) && NobodyStranded(st1, st2, {})
    requires FreshId(st1) == FreshId(st)
    ensures NobodyStranded(st, st2, {})
  {
  }

  lemma DropStrandsNobody(st: State, s: Serial, now: Time)
    requires forall id :: id in Queue(st, s) ==> Waits(st.registry, st.wm, s, id)
    ensures var st' := DropStale(st, s, now);
            && NobodyStranded(st, st', {})
            && (forall id :: id in Queue(st', s) ==> Waits(st'.registry, st'.wm, s, id))
            && FreshId(st') == FreshId(st)
  {
  }

  lemma ServeStrandsNobody(st: State, s: Serial, now: Time)
    requires forall id :: id in Queue(st, s) ==> Waits(st.registry, st.wm, s, id)
    requires Queue(st, s) != [] && Queue(st, s)[0] in st.wm
    ensures NobodyStranded(st, ServeHead(st, s, now), {})
  {
  }

  lemma ExpireStrandsNobody(st: State, s: Serial, now: Time)
    requires Core(st) && WorkingBut(st, {}) && Leased(st, s)
    ensures NobodyStranded(st, Expire(st, s, now), {})
  {
    hide Core, WorkingBut, GrantNext, NobodyStranded, Queue, FreshId;
    ExpireSplit(st, s, now);
    var st1 := st.(leases := st.leases - {s});
    if CleansUp(st, s) {
      QuietStrandsNobody(st, Expire(st, s, now));
    } else {
      GrantNextStrandsNobody(st1, s, now);
      TakenBackSame(st, s);
      StrandedFrame(st, st1, GrantNext(st1, s, now), Expire(st, s, now), {});
    }
  }

  lemma TakenBackSame(st: State, s: Serial)
    ensures var st1 := st.(leases := st.leases - {s});
            FreshId(st1) == FreshId(st) && forall x :: Queue(st1, x) == Queue(st, x)
  {
  }

  lemma LeaseStrandsNobody(st: State, id: Id, l: LeaseRec)
    ensures NobodyStranded(st, SetLease(st, id, l), {})
  {
  }

  lemma EnqueueStrandsNobody(st: State, req: AcquireReq, now: Time, idle: nat)
    requires FreshId(st) !in st.wm
    ensures NobodyStranded(st, Enqueue(st, req, now, idle), {})
  {
  }

  lemma QuietStrandsNobody(st: State, st': State)
    requires st'.queues == st.queues && SamePolls(st.wm, st'.wm)
    ensures NobodyStranded(st, st', {})
  {
  }

  lemma StillWaiting(st: State, ev: Event)
    requires Inv(st)
    requires ev.Acquiring? || ev.AcquiringAny? || ev.Polled? || ev.Woken? || ev.KeptFresh? || ev.Beat?
      || ev.CommandEnded? || ev.BaselineStored? || ev.Collecting? || ev.Reloaded?
    ensures NobodyStranded(st, Next(st, ev), {})
  {
    hide *;
    match ev
    case Acquiring(req, now, idle) => AcquireStrandsNobody(st, req, now, idle);
    case AcquiringAny(req, devs, first, now, idle) => AnyIsQuiet(st, req, devs, first, now, idle);
    case Polled(wid, now) => PollIsQuiet(st, wid, now);
    case Woken(wid) => WakeIsQuiet(st, wid);
    case KeptFresh(wid, now) => KeepFreshIsQuiet(st, wid, now);
    case _ => UpkeepStrandsNobody(st, ev);
  }

  lemma UpkeepStrandsNobody(st: State, ev: Event)
    requires ev.Beat? || ev.CommandEnded? || ev.BaselineStored? || ev.Collecting? || ev.Reloaded?
    ensures NobodyStranded(st, Next(st, ev), {})
  {
    hide NobodyStranded;
    QuietStrandsNobody(st, Next(st, ev));
  }

  lemma AcquireStrandsNobody(st: State, req: AcquireReq, now: Time, idle: nat)
    requires Inv(st)
    ensures NobodyStranded(st, Next(st, Acquiring(req, now, idle)), {})
  {
    assert !Issued(st, FreshId(st));
    assert FreshId(st) !in st.wm;
    hide Inv, NobodyStranded, Enqueue, Grant;
    EnqueueStrandsNobody(st, req, now, idle);
    GrantIsQuiet(st, req, now, idle);
    if Leased(st, req.serial) {
      LeaseStrandsNobody(st, st.leases[req.serial], Renewed(st.config, LeaseOn(st, req.serial), req, now, idle));
    }
  }

  lemma GrantIsQuiet(st: State, req: AcquireReq, now: Time, idle: nat)
    ensures NobodyStranded(st, Grant(st, req, now, idle), {})
  {
  }

  lemma AnyIsQuiet(st: State, req: AcquireAnyReq, devs: seq<DeviceLine>, first: Serial, now: Time, idle: nat)
    ensures NobodyStranded(st, Next(st, AcquiringAny(req, devs, first, now, idle)), {})
  {
    QuietStrandsNobody(st, AcquireAny(st, req, devs, first, now, idle));
  }

  lemma KeepFreshIsQuiet(st: State, wid: Id, now: Time)
    ensures NobodyStranded(st, Next(st, KeptFresh(wid, now)), {})
  {
    hide NobodyStranded, SetPoll;
    PollTables(st, wid, now);
    QuietStrandsNobody(st, SetPoll(st, wid, now));
  }

  lemma PollIsQuiet(st: State, wid: Id, now: Time)
    ensures NobodyStranded(st, Next(st, Polled(wid, now)), {})
  {
    hide NobodyStranded, SetPoll;
    PollTables(st, wid, now);
    QuietStrandsNobody(st, Poll(st, wid, now));
  }

  lemma PollTables(st: State, wid: Id, now: Time)
    ensures var st1 := SetPoll(st, wid, now);
            && st1.queues == st.queues && SamePolls(st.wm, st1.wm)
  {
    hide SamePolls;
    OnePoll(st.wm, wid, now);
  }

  lemma OnePoll(wm: map<Id, WaiterRec>, wid: Id, now: Time)
    ensures SamePolls(wm, wm) && (wid in wm ==> SamePolls(wm, wm[wid := wm[wid].(lastPoll := now)]))
  {
  }

  /** Waiters that differ at most in when they polled. */
  ghost predicate SamePolls(wm: map<Id, WaiterRec>, wm1: map<Id, WaiterRec>) {
    && wm1.Keys == wm.Keys
    && (forall id :: id in wm ==>
          && wm1[id].serial == wm[id].serial && wm1[id].session == wm[id].session
          && wm1[id].closed == wm[id].closed && wm1[id].lease == wm[id].lease)
  }

  lemma WakeIsQuiet(st: State, wid: Id)
    ensures NobodyStranded(st, Next(st, Woken(wid)), {})
  {
  }

  lemma CleanupStrandsNobody(st: State, id: Id, now: Time)
    requires Inv(st)
    ensures NobodyStranded(st, FinishCleanup(st, id, now), {})
  {
    if id in st.jobs && id in st.lm {
      var s := st.lm[id].serial;
      var st1 := st.(cleaning := st.cleaning - {s}, jobs := st.jobs - {id});
      hide Inv, Core, WorkingBut, GrantNext, FinishCleanup, NobodyStranded;
      StopCleaningKeeps(st, id);
      FinishSplit(st, id, s, now);
      GrantNextStrandsNobody(st1, s, now);
      StrandedFrame(st, st1, GrantNext(st1, s, now), FinishCleanup(st, id, now), {});
    }
  }

  lemma VisitStrandsNobody(st: State, s: Serial, now: Time, t: Time)
    requires Inv(st)
    ensures NobodyStranded(st, Visit(st, s, now, t), {})
  {
    hide Inv, Core, WorkingBut, Expire, Visit, Unclaimed, Overdue, Disowned, NobodyStranded;
    VisitSplit(st, s, now, t);
    QuietStrandsNobody(st, st);
    if Leased(st, s) {
      var st1 := SetLease(st, st.leases[s], Disowned(LeaseOn(st, s), now));
      QuietStrandsNobody(st, st1);
      if Unclaimed(LeaseOn(st, s), now) {
        InvParts(st);
        ExpireStrandsNobody(st, s, t);
      } else if Overdue(Disowned(LeaseOn(st, s), now), now) {
        InvParts(st1);
        ExpireStrandsNobody(st1, s, t);
        StrandedFrame(st, st1, Expire(st1, s, t), Visit(st, s, now, t), {});
      }
    }
  }

  /**
   * No lost wakeup: in any critical section of a daemon's life, a waiter leaves its queue only with its channel closed,
   * or because its own client gave up; a closed channel is never opened again, and a lease once handed to a waiter is
   * never exchanged for another.
   */
  lemma NoLostWakeup(st: State, ev: Event)
    requires Inv(st) && !ev.Restarted?
    ensures NobodyStranded(st, Next(st, ev), if ev.Dropped? then {ev.wid} else {})
  {
    InvParts(st);
    hide Inv, Core, WorkingBut, Expire, GrantNext, NobodyStranded;
    match ev
    case Dropped(wid, now) => DropStrandsOnlyLeaver(st, wid, now);
    case Releasing(req, now) => if MayRelease(st, req) { ExpireStrandsNobody(st, ReleaseTarget(st, req).value, now); }
    case CleanupFinished(id, now) => CleanupStrandsNobody(st, id, now);
    case Visiting(s, now, t) => VisitStrandsNobody(st, s, now, t);
    case _ => StillWaiting(st, ev);
  }

  lemma DropStrandsOnlyLeaver(st: State, wid: Id, now: Time)
    requires Inv(st)
    ensures NobodyStranded(st, Drop(st, wid, now), {wid})
  {
    hide Inv, Core, WorkingBut, Expire, NobodyStranded;
    QuietStrandsNobody(st, st);
    StrandedFrame(st, st, st, st, {wid});
    if wid in st.wm {
      var s := st.wm[wid].serial;
      var st1 := st.(registry := st.registry - {wid},
                     queues := SetQueue(st.queues, s, Filter(x => x != wid, Queue(st, s))));
      LeaveKeeps(st, wid);
      InvParts(st1);
      assert forall x, id :: id in Queue(st, x) && id !in {wid} ==> id in Queue(st1, x);
      hide Filter;
      QuietStrandsNobody(st1, st1);
      StrandedFrame(st, st1, st1, st1, {wid});
      if Leased(st, s) && st.wm[wid].lease == Some(st.leases[s]) {
        ExpireStrandsNobody(st1, s, now);
        StrandedFrame(st, st1, Expire(st1, s, now), Drop(st, wid, now), {wid});
      }
    }
  }

  lemma QueuedAreRegistered(st: State, s: Serial)
    requires Inv(st)
    ensures forall id :: id in Queue(st, s) ==> id in st.registry
  {
  }

  lemma GrantNextRegistry(st: State, s: Serial, now: Time)
    ensures GrantNext(st, s, now).registry <= st.registry
  {
  }

  /** A client that gives up is in no queue and in no registry afterwards. */
  lemma DropLeavesNothing(st: State, wid: Id, now: Time)
    requires Inv(st) && wid in st.wm
    ensures var st' := Drop(st, wid, now);
            wid !in st'.registry && forall s :: wid !in Queue(st', s)
  {
    hide Inv, Drop, Queue;
    var st' := Drop(st, wid, now);
    DropKeeps(st, wid, now);
    DropUnregisters(st, wid, now);
    forall x
      ensures wid !in Queue(st', x)
    {
      QueuedAreRegistered(st', x);
    }
  }

  lemma DropUnregisters(st: State, wid: Id, now: Time)
    requires wid in st.wm
    ensures wid !in Drop(st, wid, now).registry
  {
  }

  // ---- leaving the queue with the device ----

  /** The clock reading a critical section's hand-over makes, if it makes one. */
  function HandoverClock(ev: Event, otherwise: Time): Time {
    match ev
    case Dropped(_, now) => now
    case Releasing(_, now) => now
    case CleanupFinished(_, now) => now
    case Visiting(_, _, t) => t
    case _ => otherwise
  }

  lemma GrantNextRegistered(st: State, s: Serial, now: Time, wid: Id)
    requires wid in st.registry && wid in st.wm && !StaleAt(st.wm[wid], now)
    ensures wid in GrantNext(st, s, now).registry
  {
  }

  lemma ExpireRegistered(st: State, s: Serial, now: Time, wid: Id)
    requires Leased(st, s) && wid in st.registry && wid in st.wm && !StaleAt(st.wm[wid], now)
    ensures wid in Expire(st, s, now).registry
  {
  }

  lemma StaysRegistered(st: State, ev: Event, wid: Id)
    requires wid in st.wm && Waits(st.registry, st.wm, st.wm[wid].serial, wid)
    requires !ev.Restarted? && !(ev.Dropped? && ev.wid == wid)
    requires !StaleAt(st.wm[wid], HandoverClock(ev, st.wm[wid].lastPoll))
    ensures wid in Next(st, ev).registry
  {
    hide GrantNext, Expire, Filter, ReleaseTarget, FirstFree;
    match ev
    case Dropped(other, now) =>
      if other in st.wm {
        var s := st.wm[other].serial;
        var st1 := st.(registry := st.registry - {other},
                       queues := SetQueue(st.queues, s, Filter(x => x != other, Queue(st, s))));
        if Leased(st, s) && st.wm[other].lease == Some(st.leases[s]) {
          ExpireRegistered(st1, s, now, wid);
        }
      }
    case Releasing(req, now) => if MayRelease(st, req) { ExpireRegistered(st, ReleaseTarget(st, req).value, now, wid); }
    case CleanupFinished(id, now) =>
      if id in st.jobs && id in st.lm {
        var s := st.lm[id].serial;
        GrantNextRegistered(st.(cleaning := st.cleaning - {s}, jobs := st.jobs - {id}), s, now, wid);
      }
    case Visiting(s, now, t) =>
      if Leased(st, s) {
        ExpireRegistered(st, s, t, wid);
        ExpireRegistered(SetLease(st, st.leases[s], Disowned(LeaseOn(st, s), now)), s, t, wid);
      }
    case _ =>
  }

  /** A waiter that is still polling and does not give up leaves its queue only with a lease. */
  lemma LeavesWithLease(st: State, ev: Event, s: Serial, wid: Id)
    requires Inv(st) && wid in Queue(st, s) && wid in st.wm
    requires !ev.Restarted? && !(ev.Dropped? && ev.wid == wid)
    requires !StaleAt(st.wm[wid], HandoverClock(ev, st.wm[wid].lastPoll))
    ensures var st' := Next(st, ev);
            && wid in st'.wm && st'.wm[wid].serial == s
            && (wid in Queue(st', s) || st'.wm[wid].lease.Some?)
  {
    ReadableNow(st, s);
    NoLostWakeup(st, ev);
    StaysRegistered(st, ev, wid);
    NextKeeps(st, ev);
    Registered(Next(st, ev), wid);
    hide Inv, Next, Waits;
  }

  lemma Registered(st: State, wid: Id)
    requires Inv(st) && wid in st.registry
    ensures wid in st.wm && (wid in Queue(st, st.wm[wid].serial) || st.wm[wid].lease.Some?)
  {
  }
}
