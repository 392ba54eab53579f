/**
 * The terms of a lease, from the request to the record: what a critical section that makes, renews, claims or restores
 * a lease writes into it, field by field, and how long such a lease then lasts.
 */
module Terms {
  import opened Basics
  import opened Records
  import opened BrokerModel
  import opened BrokerInvariant
  import opened DeviceMachine
  import opened Handoffs
  import opened Commands
  import opened LeaseObjects
  import opened Reclaim
  import opened LocalAcquire
  import opened Selection
  import OneDevice
  import CleanupPasses

  // ---- acquiring ----

  /** A free device is leased at once, to the session and on the terms of the request. */
  lemma GrantedTerms(st: State, req: AcquireReq, now: Time, idle: nat)
    requires Inv(st) && req.serial !in st.leases && req.serial !in st.cleaning
    ensures var st' := Next(st, Acquiring(req, now, idle));
            var ttl := if req.ttlSec > 0 then req.ttlSec * 1_000_000_000 else st.config.explicitTTL;
            && Leased(st', req.serial) && !Issued(st, st'.leases[req.serial])
            && LeaseOn(st', req.serial)
               == LeaseRec(req.serial, req.session, req.holder, req.pid, now, now, now, if req.command then 1 else 0,
                           idle, req.explicit, if req.explicit then now + ttl else 0, true, [])
            && st'.leases == st.leases[req.serial := st'.leases[req.serial]]
            && st'.wm == st.wm && st'.queues == st.queues && st'.registry == st.registry
            && st'.cleaning == st.cleaning && st'.jobs == st.jobs
  {
    FreshIsUnused(st);
    hide Inv, Issued;
  }

  /** The session that holds the device keeps it, on the terms of the request, with one more command if it is one. */
  lemma RenewedTerms(st: State, req: AcquireReq, now: Time, idle: nat)
    requires Inv(st) && Leased(st, req.serial) && LeaseOn(st, req.serial).session == req.session
    ensures var st' := Next(st, Acquiring(req, now, idle));
            var ttl := if req.ttlSec > 0 then req.ttlSec * 1_000_000_000 else st.config.explicitTTL;
            var l := LeaseOn(st, req.serial);
            st' == st.(lm := st.lm[st.leases[req.serial] :=
              LeaseRec(l.serial, l.session, l.holder, l.pid, l.acquiredAt, now, now,
                       if req.command then l.running + 1 else l.running, idle, l.explicit || req.explicit,
                       if req.explicit then now + ttl else l.expiresAt, true, l.baseline)])
  {
    LeaseNames(st, req.serial);
    hide Inv;
  }

  /** Anyone else joins the end of the device's queue, as a waiter that remembers the request. */
  lemma QueuedTerms(st: State, req: AcquireReq, now: Time, idle: nat)
    requires Inv(st)
    requires req.serial in st.cleaning || (Leased(st, req.serial) && LeaseOn(st, req.serial).session != req.session)
    ensures var st' := Next(st, Acquiring(req, now, idle));
            exists wid :: wid !in st.wm && !Issued(st, wid)
              && st'.wm == st.wm[wid := WaiterRec(req.serial, req.session, req.holder, req.command, idle, now, now,
                                                  false, None)]
              && st'.queues == st.queues[req.serial := Queue(st, req.serial) + [wid]]
              && st'.registry == st.registry + {wid}
              && st'.leases == st.leases && st'.lm == st.lm && st'.cleaning == st.cleaning && st'.jobs == st.jobs
              && st'.disk == st.disk
  {
    FreshIsUnused(st);
    LeaseNames(st, req.serial);
    hide Inv, Issued, Queue;
  }

  // ---- from the queue ----

  /** The clock reading of a hand-off in this critical section. */
  function HandTime(ev: Event): Time {
    match ev
    case Dropped(_, now) => now
    case Releasing(_, now) => now
    case CleanupFinished(_, now) => now
    case Visiting(_, _, t) => t
    case _ => 0
  }

  predicate CanHandOver(ev: Event) {
    ev.Dropped? || ev.Releasing? || ev.CleanupFinished? || ev.Visiting?
  }

  /** q[i] has polled within the last 90 seconds, and none before it has. */
  ghost predicate FirstWithin(q: seq<Entry>, t: Time, i: nat) {
    && i < |q| && t - q[i].w.lastPoll <= 90 * SECOND
    && forall j :: 0 <= j < i ==> t - q[j].w.lastPoll > 90 * SECOND
  }

  /** The terms of a lease from the queue: those of the waiter, unclaimed, and never explicit. */
  ghost predicate FromQueue(l: LeaseRec, s: Serial, w: WaiterRec, config: Config, t: Time) {
    && l.serial == s && l.session == w.session && l.holder == w.holder && l.pid == 0
    && l.acquiredAt == t && l.lastActive == t && l.lastBeat == t
    && l.idleTTL == (if w.idleTTL > 0 then w.idleTTL else config.idleTTL)
    && !l.explicit && !l.claimed && l.baseline == []
  }

  lemma {:induction false} FirstOfFilter(q: seq<Entry>, t: Time) returns (i: nat)
    requires Filter(StillPolling(t), q) != []
    ensures FirstWithin(q, t, i) && Filter(StillPolling(t), q)[0] == q[i]
  {
    var front := q[..|q| - 1];
    if Filter(StillPolling(t), front) != [] {
      i := FirstOfFilter(front, t);
    } else {
      i := |q| - 1;
      forall j | 0 <= j < i
        ensures t - q[j].w.lastPoll > 90 * SECOND
      {
        assert q[j] == front[j] && q[j] in front;
        assert q[j] !in Filter(StillPolling(t), front);
      }
    }
  }

  lemma HandoffTerms(q: seq<Entry>, env: Env, t: Time) returns (i: nat)
    requires Handoff(q, env, t).Held?
    ensures FirstWithin(q, t, i)
    ensures FromQueue(Handoff(q, env, t).lease, env.serial, q[i].w, env.config, t)
  {
    i := FirstOfFilter(q, t);
    hide Filter;
  }

  lemma NewByHandoff(d: Device, op: Op, env: Env, t: Time) returns (i: nat)
    requires Step(d, op, env).Held? && Step(d, op, env).id == env.nextId && (d.Held? ==> d.id != env.nextId)
    requires !op.Arrive?
    requires (op.Revoke? || op.Cleaned? ==> op.now == t) && (op.Inspect? ==> op.t == t)
    ensures FirstWithin(QueueOf(d), t, i)
    ensures FromQueue(Step(d, op, env).lease, env.serial, QueueOf(d)[i].w, env.config, t)
    ensures op.Revoke? || op.Cleaned? || op.Inspect?
  {
    hide Filter, FirstWithin, FromQueue, Handoff;
    i := HandoffTerms(QueueOf(d), env, t);
  }

  lemma HandTimes(st: State, ev: Event, s: Serial)
    requires !ev.Acquiring? && !ev.AcquiringAny?
    ensures var op := OpAt(st, ev, s);
            && !op.Arrive?
            && (op.Revoke? || op.Cleaned? ==> op.now == HandTime(ev) && CanHandOver(ev))
            && (op.Inspect? ==> op.t == HandTime(ev) && CanHandOver(ev))
  {
    hide StickyDevice, FirstFree, ReleaseTarget, MayRelease;
  }

  /**
   * Any lease that a critical section other than an acquire makes goes to the first waiter of the device's queue that
   * has polled within 90 seconds, on that waiter's terms: not claimed yet, not explicit, and with its idle limit.
   */
  lemma QueueGrantTerms(st: State, ev: Event, s: Serial) returns (i: nat)
    requires Inv(st) && !ev.Acquiring? && !ev.AcquiringAny?
    requires Leased(Next(st, ev), s) && !Issued(st, Next(st, ev).leases[s])
    ensures CanHandOver(ev)
    ensures var q, t := Queue(st, s), HandTime(ev);
            && i < |q| && q[i] in st.wm && t - st.wm[q[i]].lastPoll <= 90 * SECOND
            && (forall j :: 0 <= j < i ==> q[j] in st.wm && t - st.wm[q[j]].lastPoll > 90 * SECOND)
            && FromQueue(LeaseOn(Next(st, ev), s), s, st.wm[q[i]], st.config, t)
  {
    hide Inv, Next, OpAt, View, Issued, Step, FromQueue, Readable;
    var st' := Next(st, ev);
    Refines(st, ev, s);
    ViewOfLeased(st', s);
    HolderIssued(st, s);
    HandTimes(st, ev, s);
    NewHeld(View(st, s), OpAt(st, ev, s), EnvAt(st, s));
    FreshIsUnused(st);
    i := NewByHandoff(View(st, s), OpAt(st, ev, s), EnvAt(st, s), HandTime(ev));
    QueueOfView(st, s);
  }

  lemma NewHeld(d: Device, op: Op, env: Env)
    ensures var d' := Step(d, op, env); d'.Held? ==> (d.Held? && d'.id == d.id) || d'.id == env.nextId
  {
  }

  lemma QueueOfView(st: State, s: Serial)
    requires Readable(st, s)
    ensures var q := QueueOf(View(st, s));
            q != [] ==>
              && |q| == |Queue(st, s)|
              && forall j :: 0 <= j < |q| ==> Queue(st, s)[j] in st.wm && q[j].w == st.wm[Queue(st, s)[j]]
  {
  }

  // ---- a lease from its first moment ----

  /** What acquire-any gives a session that held nothing. */
  lemma AnyTerms(st: State, req: AcquireAnyReq, devs: seq<DeviceLine>, first: Serial, now: Time, idle: nat, s: Serial)
    requires Inv(st)
    requires var st' := Next(st, AcquiringAny(req, devs, first, now, idle));
             Leased(st', s) && !Issued(st, st'.leases[s])
    ensures var ttl := if req.ttlSec > 0 then req.ttlSec * 1_000_000_000 else st.config.explicitTTL;
            LeaseOn(Next(st, AcquiringAny(req, devs, first, now, idle)), s)
            == LeaseRec(s, req.session, req.holder, req.pid, now, now, now, 0, idle, true, now + ttl, true, [])
  {
    hide Inv, Issued, FirstFree, StickyDevice, AcquireAny;
    AnyIsNext(st, req, devs, first, now, idle);
    TableIssued(st, s);
    OneDevice.StickyIsHeld(st, req.session, first);
    match StickyDevice(st, req.session, first)
    case Some(x) => OneDevice.AnySticks(st, req, devs, first, now, idle, x);
    case None => OneDevice.AnyPicks(st, req, devs, first, now, idle);
  }

  lemma AnyIsNext(st: State, req: AcquireAnyReq, devs: seq<DeviceLine>, first: Serial, now: Time, idle: nat)
    ensures Next(st, AcquiringAny(req, devs, first, now, idle)) == AcquireAny(st, req, devs, first, now, idle)
  {
    hide AcquireAny;
  }

  lemma TableIssued(st: State, s: Serial)
    requires Inv(st)
    ensures s in st.leases ==> Issued(st, st.leases[s])
  {
  }

  /** A lease made for an acquire of either kind. */
  lemma NewTerms(st: State, ev: Event, s: Serial)
    requires Inv(st) && (ev.Acquiring? || ev.AcquiringAny?)
    requires var st' := Next(st, ev); Leased(st', s) && !Issued(st, st'.leases[s])
    ensures var l, asked := LeaseOn(Next(st, ev), s), AskedExpiry(st.config, ev);
            && l.claimed && l.lastActive == ev.now && l.lastBeat == ev.now && l.idleTTL == ev.idle
            && (l.explicit <==> asked.Some?) && (asked.Some? ==> l.expiresAt == asked.value)
  {
    hide Inv, Issued;
    if ev.AcquiringAny? {
      AnyTerms(st, ev.anyReq, ev.devs, ev.first, ev.now, ev.idle, s);
      hide Next;
    } else {
      AcquiredHere(st, ev.req, ev.now, ev.idle, s);
      GrantedTerms(st, ev.req, ev.now, ev.idle);
      hide Next;
    }
  }

  lemma AcquiredHere(st: State, req: AcquireReq, now: Time, idle: nat, s: Serial)
    requires Inv(st)
    requires var st' := Next(st, Acquiring(req, now, idle)); Leased(st', s) && !Issued(st, st'.leases[s])
    ensures s == req.serial && s !in st.leases && s !in st.cleaning
  {
    hide Inv, Issued, Queue, Next;
    OneDevice.NoBarging(st, Acquiring(req, now, idle), s);
    AcquireLeases(st, req, now, idle);
  }

  lemma AcquireLeases(st: State, req: AcquireReq, now: Time, idle: nat)
    ensures var leases := Next(st, Acquiring(req, now, idle)).leases;
            forall x :: x in leases && x != req.serial ==> x in st.leases
  {
    hide Queue, ExplicitTTL;
  }

  /**
   * A lease that an acquire of either kind has just made survives every tick up to the expiry asked for, or, if none
   * was, up to the acquire plus the idle limit, in any run in which nobody releases it and the holder stays silent.
   */
  lemma FirstLifeHolds(st: State, ev: Event, evs: seq<Event>, s: Serial, now: Time)
    requires Inv(st) && (ev.Acquiring? || ev.AcquiringAny?)
    requires var st1 := Next(st, ev);
             && Leased(st1, s) && !Issued(st, st1.leases[s])
             && Silent(st1, evs, s, st1.leases[s]) && Unrevoked(st1, evs, s, st1.leases[s]) && TicksBy(evs, s, now)
    requires var asked := AskedExpiry(st.config, ev);
             now <= if asked.Some? then asked.value else ev.now + ev.idle
    ensures OwnerIs(Run(Next(st, ev), evs), s, Next(st, ev).leases[s])
  {
    hide Inv, Next, Run, Silent, Unrevoked, TicksBy, Issued, AskedExpiry;
    NewTerms(st, ev, s);
    var st1 := Next(st, ev);
    NextKeeps(st, ev);
    OwnerLeased(st1, s, st1.leases[s]);
    SilentIsSpared(st1, evs, s, st1.leases[s], now);
  }

  /**
   * A lease from the queue survives every tick up to its grant plus the waiter's idle limit, in any run in which nobody
   * releases it, its holder shows no other sign of life, and no tick finds it unclaimed after its first 20 seconds.
   */
  lemma QueueGrantHolds(st: State, ev: Event, evs: seq<Event>, s: Serial, now: Time)
    requires Inv(st) && !ev.Acquiring? && !ev.AcquiringAny?
    requires var st1 := Next(st, ev);
             && Leased(st1, s) && !Issued(st, st1.leases[s])
             && Silent(st1, evs, s, st1.leases[s]) && Unrevoked(st1, evs, s, st1.leases[s]) && TicksBy(evs, s, now)
             && PickedUp(st1, evs, s, st1.leases[s])
             && now <= HandTime(ev) + LeaseOn(st1, s).idleTTL
    ensures OwnerIs(Run(Next(st, ev), evs), s, Next(st, ev).leases[s])
  {
    hide Inv, Next, Run, Silent, Unrevoked, TicksBy, Issued, PickedUp;
    var st1 := Next(st, ev);
    var i := QueueGrantTerms(st, ev, s);
    NextKeeps(st, ev);
    OwnerLeased(st1, s, st1.leases[s]);
    UnclaimedIsSpared(st1, evs, s, st1.leases[s], now);
  }

  // ---- claiming, beating, ending ----

  /**
   * A waiter with a lease that polls, or wakes up, claims the lease, if it is still there, and changes nothing else of
   * it; and leaves the registry.
   */
  lemma ClaimTerms(st: State, ev: Event, id: Id)
    requires Inv(st) && (ev.Polled? || ev.Woken?) && ev.wid in st.wm && st.wm[ev.wid].lease == Some(id)
    requires ev.Polled? ==> ev.wid in st.registry
    ensures var st' := Next(st, ev);
            && id in st.lm && st'.lm == st.lm[id := st.lm[id].(claimed := true)]
            && st'.registry == st.registry - {ev.wid}
            && st'.leases == st.leases && st'.queues == st.queues && st'.cleaning == st.cleaning
            && st'.jobs == st.jobs && st'.disk == st.disk && st'.config == st.config
  {
    LeaseOfWaiter(st, ev.wid);
    hide Inv;
  }

  lemma LeaseOfWaiter(st: State, wid: Id)
    requires Inv(st) && wid in st.wm && st.wm[wid].lease.Some?
    ensures st.wm[wid].lease.value in st.lm && st.wm[wid].closed
  {
  }

  /** A heartbeat refreshes a live lease, and the end of a command also counts it, never below none. */
  lemma UpkeepTerms(st: State, id: Id, now: Time)
    requires Inv(st) && Live(st, id)
    ensures var l := st.lm[id];
            && Next(st, Beat(id, now))
               == st.(lm := st.lm[id := l.(lastBeat := now, lastActive := now, claimed := true)])
            && Next(st, CommandEnded(id, now))
               == st.(lm := st.lm[id := l.(lastBeat := now, lastActive := now, claimed := true,
                                           running := if l.running == 0 then 0 else l.running - 1)])
  {
    hide Inv;
  }

  // ---- restored ----

  /** A new daemon restores each lease of the snapshot as it was saved, claimed, beaten now and without commands. */
  lemma RestoredTerms(st: State, pid: nat, now: Time, s: Serial)
    requires Inv(st) && pid !in st.pids && s in st.leases
    ensures var st' := Next(st, Restarted(pid, now));
            && st.leases[s] in st.disk
            && Leased(st', s) && st'.leases[s] == st.leases[s]
            && var l, saved := LeaseOn(st', s), st.disk[st.leases[s]];
               l == LeaseRec(saved.serial, saved.session, saved.holder, saved.pid, saved.acquiredAt, saved.lastActive,
                             now, 0, saved.idleTTL, saved.explicit, saved.expiresAt, true, saved.baseline)
  {
    LeaseNames(st, s);
    RebootTable(st, pid, now, s);
    hide Inv, Restart;
  }

  /**
   * And such a lease survives every tick of the new daemon up to the saved expiry, or up to the saved last activity
   * plus the idle limit, in any run in which nobody releases it and its holder stays silent.
   */
  lemma RestoredHolds(st: State, pid: nat, t: Time, evs: seq<Event>, s: Serial, now: Time)
    requires Inv(st) && pid !in st.pids && s in st.leases && st.leases[s] in st.disk
    requires var st1, id := Next(st, Restarted(pid, t)), st.leases[s];
             Silent(st1, evs, s, id) && Unrevoked(st1, evs, s, id) && TicksBy(evs, s, now)
    requires var saved := st.disk[st.leases[s]];
             now <= if saved.explicit then saved.expiresAt else saved.lastActive + saved.idleTTL
    ensures OwnerIs(Run(Next(st, Restarted(pid, t)), evs), s, st.leases[s])
  {
    hide Inv, Next, Run, Silent, Unrevoked, TicksBy;
    var st1 := Next(st, Restarted(pid, t));
    RestoredTerms(st, pid, t, s);
    NextKeeps(st, Restarted(pid, t));
    OwnerLeased(st1, s, st.leases[s]);
    SilentIsSpared(st1, evs, s, st.leases[s], now);
  }

  // ---- who ends a lease, and what then ----

  /** A release ends exactly the lease it names by ID; or by device, if it comes from its session or is forced. */
  lemma ReleaseEnds(st: State, req: ReleaseReq, now: Time, id: Id)
    requires Inv(st) && Live(st, id)
    ensures var l := st.lm[id];
            Live(Next(st, Releasing(req, now)), id) <==>
              match req.lease
              case Some(named) => named != id
              case None => req.serial == "" || req.serial != l.serial || !(req.force || req.session == l.session)
  {
    hide Inv, Next, OpAt, EndsLease;
    LiveUntilEnded(st, Releasing(req, now), id);
    EndsIs(st, Releasing(req, now), id);
    ReleaseRevokes(st, req, now, id);
  }

  lemma ReleaseRevokes(st: State, req: ReleaseReq, now: Time, id: Id)
    requires Inv(st) && Live(st, id)
    ensures var l := st.lm[id];
            OpAt(st, Releasing(req, now), l.serial).Revoke? <==>
              match req.lease
              case Some(named) => named == id
              case None => req.serial != "" && req.serial == l.serial && (req.force || req.session == l.session)
  {
    LeaseNames(st, st.lm[id].serial);
    if req.lease.Some? && Live(st, req.lease.value) {
      LeaseNames(st, st.lm[req.lease.value].serial);
    }
    hide Inv;
  }

  /** A waiter that gives up ends exactly the lease it was handed. */
  lemma GiveUpEnds(st: State, wid: Id, now: Time, id: Id)
    requires Inv(st) && Live(st, id)
    ensures Live(Next(st, Dropped(wid, now)), id) <==> !(wid in st.wm && st.wm[wid].lease == Some(id))
  {
    hide Inv, Next, OpAt, EndsLease;
    LiveUntilEnded(st, Dropped(wid, now), id);
    EndsIs(st, Dropped(wid, now), id);
    GiveUpRevokes(st, wid, now, id);
  }

  lemma GiveUpRevokes(st: State, wid: Id, now: Time, id: Id)
    requires Inv(st) && Live(st, id)
    ensures OpAt(st, Dropped(wid, now), st.lm[id].serial).Revoke? <==> wid in st.wm && st.wm[wid].lease == Some(id)
  {
    LeaseNames(st, st.lm[id].serial);
    if wid in st.wm && st.wm[wid].lease == Some(id) {
      WaitersLease(st, wid);
    }
    hide Inv;
  }

  /**
   * A tick ends exactly the leases that nobody claimed within 20 seconds; the explicit ones past their expiry; and the
   * others that have been idle for longer than their limit: in both cases only if they count no command, but a command
   * of an explicit lease whose holder has not beaten for 60 seconds does not help it.
   */
  lemma TickEnds(st: State, s: Serial, now: Time, t: Time, id: Id)
    requires Inv(st) && Live(st, id)
    ensures var l := st.lm[id];
            !Live(Next(st, Visiting(s, now, t)), id) <==>
              && s == l.serial
              && (|| (!l.claimed && now - l.acquiredAt > 20 * SECOND)
                  || (l.explicit && now > l.expiresAt && (l.running == 0 || now - l.lastBeat > 60 * SECOND))
                  || (!l.explicit && l.running == 0 && now - l.lastActive > l.idleTTL))
  {
    hide Inv, Next, OpAt, EndsLease;
    LiveUntilEnded(st, Visiting(s, now, t), id);
    EndsIs(st, Visiting(s, now, t), id);
    RevokeOrInspect(st, Visiting(s, now, t), st.lm[id].serial);
  }

  /** A tick that keeps a lease changes it only if its holder's commands have gone 60 seconds without a beat. */
  lemma TickKeepsTerms(st: State, s: Serial, now: Time, t: Time, id: Id)
    requires Inv(st) && Live(st, id) && Live(Next(st, Visiting(s, now, t)), id)
    ensures var l, l' := st.lm[id], Next(st, Visiting(s, now, t)).lm[id];
            l' == if s == l.serial && l.running > 0 && now - l.lastBeat > 60 * SECOND
                  then l.(running := 0, lastActive := now) else l
  {
    hide Inv, Next, View, Readable, OpAt, EnvAt, Step;
    var ev := Visiting(s, now, t);
    var x := st.lm[id].serial;
    NextKeeps(st, ev);
    Owns(st, id);
    SerialStays(st, ev, id);
    Owns(Next(st, ev), id);
    Refines(st, ev, x);
    TickStep(st, s, now, t, x);
  }

  lemma TickStep(st: State, s: Serial, now: Time, t: Time, x: Serial)
    requires Readable(st, x) && View(st, x).Held? && EnvAt(st, x).nextId != View(st, x).id
    ensures var d, l := View(st, x), View(st, x).lease;
            var d' := Step(d, OpAt(st, Visiting(s, now, t), x), EnvAt(st, x));
            d'.Held? && d'.id == d.id ==>
              d'.lease == if s == x && l.running > 0 && now - l.lastBeat > 60 * SECOND
                          then l.(running := 0, lastActive := now) else l
  {
    hide View, Readable, Handoff;
    HandoffIsNew(View(st, x), EnvAt(st, x), t);
  }

  lemma HandoffIsNew(d: Device, env: Env, t: Time)
    ensures var d' := Handoff(QueueOf(d), env, t); !d'.Cleaning? && (d'.Held? ==> d'.id == env.nextId)
  {
  }

  /** Somebody in the queue of s has polled within 90 seconds of t. */
  ghost predicate SomebodyPolls(st: State, s: Serial, t: Time) {
    exists i :: 0 <= i < |Queue(st, s)| && Queue(st, s)[i] in st.wm
      && t - st.wm[Queue(st, s)[i]].lastPoll <= 90 * SECOND
  }

  /**
   * When a lease ends, its device is cleaned up first exactly when cleanup is on and a baseline was recorded for it,
   * and the queue then waits as it is; otherwise it is leased again exactly when somebody waiting for it still polls.
   */
  lemma EndedIsCleaned(st: State, ev: Event, id: Id)
    requires Inv(st) && Live(st, id) && !ev.Restarted? && !Live(Next(st, ev), id)
    ensures var st', l := Next(st, ev), st.lm[id];
            && (l.serial in st'.cleaning <==> st.config.cleanup && l.baseline != [])
            && (l.serial in st'.cleaning ==>
                  && st'.cleaning[l.serial] == id && id in st'.jobs && l.serial !in st'.leases
                  && Queue(st', l.serial) == Queue(st, l.serial))
            && (l.serial !in st'.cleaning ==>
                  (l.serial in st'.leases <==> SomebodyPolls(st, l.serial, HandTime(ev))))
  {
    hide Inv, Next, View, Readable, OpAt, EnvAt, Step, EndsLease, Issued, HandTime, SomebodyPolls;
    var s := st.lm[id].serial;
    var st' := Next(st, ev);
    LiveUntilEnded(st, ev, id);
    EndsIs(st, ev, id);
    Owns(st, id);
    Refines(st, ev, s);
    RevokeOrInspect(st, ev, s);
    EndStep(View(st, s), OpAt(st, ev, s), EnvAt(st, s));
    EndTimes(st, ev, s);
    CleaningView(st', s);
    LeasedView(st', s);
    HeldQueue(st, s);
    PollsInView(st, s, HandTime(ev));
    EnvOf(st, s);
    if View(st', s).Cleaning? {
      SameEntries(st, st', s);
    }
  }

  lemma EndStep(d: Device, op: Op, env: Env)
    requires d.Held? && env.nextId != d.id
    requires op.Revoke? || (op.Inspect? && (Unclaimed(d.lease, op.now) || Overdue(Disowned(d.lease, op.now), op.now)))
    ensures var d' := Step(d, op, env);
            && (d'.Cleaning? <==> env.config.cleanup && d.lease.baseline != [])
            && (d'.Cleaning? ==> d' == Cleaning(d.id, d.queue))
            && (!d'.Cleaning? ==> (d'.Held? <==> EntryPolls(d.queue, if op.Revoke? then op.now else op.t)))
  {
    hide Handoff, Unclaimed, Overdue, EntryPolls;
    HandoffIsNew(d, env, if op.Revoke? then op.now else op.t);
    HandoffHeld(d.queue, env, if op.Revoke? then op.now else op.t);
  }

  ghost predicate EntryPolls(q: seq<Entry>, t: Time) {
    exists i :: 0 <= i < |q| && t - q[i].w.lastPoll <= 90 * SECOND
  }

  lemma HandoffHeld(q: seq<Entry>, env: Env, t: Time)
    ensures Handoff(q, env, t).Held? <==> EntryPolls(q, t)
  {
    if Filter(StillPolling(t), q) != [] {
      var i := FirstOfFilter(q, t);
    } else {
      assert forall e :: e in q ==> e !in Filter(StillPolling(t), q);
      assert forall i :: 0 <= i < |q| ==> q[i] in q;
    }
    hide Filter;
  }

  lemma EndTimes(st: State, ev: Event, s: Serial)
    ensures var op := OpAt(st, ev, s);
            && (op.Revoke? || op.Cleaned? ==> op.now == HandTime(ev))
            && (op.Inspect? ==> op.t == HandTime(ev))
  {
    hide StickyDevice, FirstFree, ReleaseTarget, MayRelease;
  }

  lemma LeasedView(st: State, s: Serial)
    requires Inv(st) && Readable(st, s)
    ensures View(st, s).Held? <==> s in st.leases
  {
    LeaseNames(st, s);
  }

  lemma PollsInView(st: State, s: Serial, t: Time)
    requires Readable(st, s)
    ensures !View(st, s).Free? ==> (EntryPolls(QueueOf(View(st, s)), t) <==> SomebodyPolls(st, s, t))
  {
    if !View(st, s).Free? {
      var q := QueueOf(View(st, s));
      assert |q| == |Queue(st, s)|;
      assert forall i :: 0 <= i < |q| ==> q[i] == Entry(Queue(st, s)[i], st.wm[Queue(st, s)[i]]);
    }
  }

  /** The end of a pass frees its device, which is leased again exactly when somebody waiting for it still polls. */
  lemma PassHandsOn(st: State, id: Id, now: Time)
    requires Inv(st) && id in st.jobs && id in st.lm
    ensures var st', s := Next(st, CleanupFinished(id, now)), st.lm[id].serial;
            && s !in st'.cleaning && id !in st'.jobs
            && (s in st'.leases <==> SomebodyPolls(st, s, now))
  {
    hide Inv, Next, View, Readable, EnvAt, Step, SomebodyPolls;
    var s := st.lm[id].serial;
    var ev := CleanupFinished(id, now);
    var st' := Next(st, ev);
    PassSeen(st, id);
    Refines(st, ev, s);
    CleaningView(st, s);
    CleaningView(st', s);
    LeasedView(st', s);
    PollsInView(st, s, now);
    CleanedStep(View(st, s), EnvAt(st, s), now);
    CleanupPasses.FinishedJobs(st, ev);
  }

  lemma PassSeen(st: State, id: Id)
    requires Inv(st) && id in st.jobs && id in st.lm
    ensures st.lm[id].serial in st.cleaning
  {
  }

  lemma CleanedStep(d: Device, env: Env, now: Time)
    requires d.Cleaning?
    ensures var d' := Step(d, Cleaned(now), env);
            !d'.Cleaning? && (d'.Held? <==> EntryPolls(d.queue, now))
  {
    HandoffHeld(d.queue, env, now);
    HandoffIsNew(d, env, now);
    hide Handoff;
  }

  lemma EnvOf(st: State, s: Serial)
    ensures EnvAt(st, s).config == st.config
  {
  }

  lemma CleaningView(st: State, s: Serial)
    requires Inv(st) && Readable(st, s)
    ensures View(st, s).Cleaning? <==> s in st.cleaning
    ensures s in st.cleaning ==>
              View(st, s).job == st.cleaning[s] && st.cleaning[s] in st.jobs && s !in st.leases
    ensures View(st, s).Cleaning? ==> View(st, s).queue == Entries(st.wm, Queue(st, s))
  {
    LeaseNames(st, s);
  }

  lemma HeldQueue(st: State, s: Serial)
    requires Readable(st, s)
    ensures View(st, s).Held? ==> View(st, s).queue == Entries(st.wm, Queue(st, s))
  {
  }

  lemma SameEntries(st: State, st': State, s: Serial)
    requires Readable(st, s) && Readable(st', s)
    requires Entries(st.wm, Queue(st, s)) == Entries(st'.wm, Queue(st', s))
    ensures Queue(st', s) == Queue(st, s)
  {
    var e, e' := Entries(st.wm, Queue(st, s)), Entries(st'.wm, Queue(st', s));
    assert |e| == |Queue(st, s)| && |e'| == |Queue(st', s)|;
    forall i | 0 <= i < |e|
      ensures Queue(st, s)[i] == Queue(st', s)[i]
    {
      assert e[i] == e'[i];
    }
  }
}
