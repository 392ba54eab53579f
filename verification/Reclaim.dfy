/**
 * Real time: how long a lease outlives a silent holder when the reaper's ticks are at most delta apart, and how long
 * a waiter sits behind sessions that have died.  Only clock readings are constrained; any other critical sections
 * may come in between.
 */
module Reclaim {
  import opened Basics
  import opened Records
  import opened BrokerModel
  import opened BrokerInvariant
  import opened DeviceMachine
  import opened Handoffs
  import opened Wakeups
  import opened Commands
  import opened Selection
  import Recovery

  // ---- the reaper's clock ----

  /** The last reading of a tick that looked at s, or `start` when there was none. */
  function LastTick(start: Time, evs: seq<Event>, s: Serial): Time {
    if evs == [] then start else
      var ev := evs[|evs| - 1];
      if ev.Visiting? && ev.serial == s then ev.now else LastTick(start, evs[..|evs| - 1], s)
  }

  /** No tick comes later than delta after the one before it. */
  predicate Paced(start: Time, evs: seq<Event>, s: Serial, delta: nat) {
    evs != [] ==>
      var front := evs[..|evs| - 1];
      var ev := evs[|evs| - 1];
      Paced(start, front, s, delta)
        && (ev.Visiting? && ev.serial == s ==> ev.now <= LastTick(start, front, s) + delta)
  }

  // ---- a silent holder ----

  /** The operation is no sign of life of the holder of l. */
  predicate QuietOp(l: LeaseRec, op: Op) {
    && !(op.Arrive? && op.req.session == l.session)
    && !op.Stick? && !op.BeatLease? && !op.EndOne?
  }

  /** In no critical section of the run does the lease id on s get renewed, touched or ended by its holder. */
  ghost predicate Silent(st: State, evs: seq<Event>, s: Serial, id: Id) {
    evs != [] ==>
      var before := Run(st, evs[..|evs| - 1]);
      Silent(st, evs[..|evs| - 1], s, id)
        && (OwnerIs(before, s, id) ==> QuietOp(LeaseOn(before, s), OpAt(before, evs[|evs| - 1], s)))
  }

  /** What a step that is no sign of life leaves of a lease: its terms, and what a tick made of its count. */
  ghost predicate Aged(l: LeaseRec, l': LeaseRec, op: Op) {
    && l'.acquiredAt == l.acquiredAt && l'.lastBeat == l.lastBeat
    && l'.idleTTL == l.idleTTL && l'.explicit == l.explicit && l'.expiresAt == l.expiresAt
    && (l.claimed ==> l'.claimed)
    && l'.running == (if op.Inspect? then Disowned(l, op.now) else l).running
    && l'.lastActive == (if op.Inspect? then Disowned(l, op.now) else l).lastActive
    && (op.Inspect? ==> !Unclaimed(l, op.now) && !Overdue(Disowned(l, op.now), op.now))
  }

  lemma QuietStep(d: Device, op: Op, env: Env)
    requires d.Held? && d.id != env.nextId && QuietOp(d.lease, op) && !op.Reboot?
    requires Step(d, op, env).Held? && Step(d, op, env).id == d.id
    ensures Aged(d.lease, Step(d, op, env).lease, op)
  {
  }

  predicate IsTick(ev: Event, s: Serial) {
    ev.Visiting? && ev.serial == s
  }

  lemma TickOp(st: State, ev: Event, s: Serial)
    ensures IsTick(ev, s) ==> OpAt(st, ev, s) == Inspect(ev.now, ev.t)
    ensures OpAt(st, ev, s).Inspect? ==> IsTick(ev, s)
  {
  }

  /** The same at the level of the broker. */
  lemma QuietEvent(st: State, ev: Event, s: Serial, id: Id)
    requires Inv(st) && OwnerIs(st, s, id) && OwnerIs(Next(st, ev), s, id)
    requires QuietOp(LeaseOn(st, s), OpAt(st, ev, s)) && !OpAt(st, ev, s).Reboot?
    ensures Aged(LeaseOn(st, s), LeaseOn(Next(st, ev), s), OpAt(st, ev, s))
  {
    hide Inv, Next, Step, View, OpAt, EnvAt, Readable, QuietOp, Aged;
    Refines(st, ev, s);
    OwnerSeen(st, s, id);
    OwnerSeen(Next(st, ev), s, id);
    QuietStep(View(st, s), OpAt(st, ev, s), EnvAt(st, s));
  }

  lemma OwnerSeen(st: State, s: Serial, id: Id)
    requires Inv(st) && OwnerIs(st, s, id)
    ensures Readable(st, s) && View(st, s).Held? && View(st, s).id == id && View(st, s).lease == LeaseOn(st, s)
    ensures EnvAt(st, s).nextId != id && Issued(st, id)
  {
  }

  /** An owner after a run that knew the lease before it was the owner all along. */
  lemma OwnedBefore(st: State, ev: Event, s: Serial, id: Id)
    requires Inv(st) && Issued(st, id) && OwnerIs(Next(st, ev), s, id)
    ensures OwnerIs(st, s, id)
  {
    hide Inv, Next, Issued;
    NextKeeps(st, ev);
    Recovery.NewHolderIsNew(st, ev, s);
    OwnerLeased(Next(st, ev), s, id);
    LeaseNames(st, s);
  }

  lemma OwnerLeased(st: State, s: Serial, id: Id)
    ensures OwnerIs(st, s, id) <==> Leased(st, s) && st.leases[s] == id
  {
  }

  function Max(a: int, b: int): int {
    if a >= b then a else b
  }

  /** The latest tick that can still find the lease l of a holder that fell silent at t0. */
  function LastSeen(l: LeaseRec, t0: Time, delta: nat): Time {
    if l.explicit then Max(t0 + 60 * SECOND, l.expiresAt) else t0 + 60 * SECOND + delta + l.idleTTL
  }

  /** The latest tick that can find a lease without commands, as one restored from the snapshot always is. */
  function IdleUntil(l: LeaseRec): Time {
    if l.explicit then l.expiresAt else l.lastActive + l.idleTTL
  }

  /** Where the lease stands when the last tick, at n, has passed it over: it will not be seen after `bound`. */
  ghost predicate Bounded(l: LeaseRec, t0: Time, delta: nat, bound: Time, n: Time) {
    && n <= bound && t0 + 60 * SECOND <= bound
    && if l.running > 0 then
         l.lastBeat <= t0 && l.lastActive <= t0 && n <= t0 + 60 * SECOND && LastSeen(l, t0, delta) <= bound
       else IdleUntil(l) <= bound
  }

  lemma BoundedAtFirst(l: LeaseRec, t0: Time, delta: nat, bound: Time)
    requires l.lastBeat <= t0 && l.lastActive <= t0 && LastSeen(l, t0, delta) <= bound
    ensures Bounded(l, t0, delta, bound, t0)
  {
  }

  lemma BoundedStep(l: LeaseRec, l': LeaseRec, op: Op, t0: Time, delta: nat, bound: Time, n: Time, n': Time)
    requires Bounded(l, t0, delta, bound, n) && Aged(l, l', op)
    requires if op.Inspect? then n' == op.now && n' <= n + delta else n' == n
    ensures Bounded(l', t0, delta, bound, n')
  {
  }

  /** Whatever record of the lease a save or a restart takes over keeps to the bound. */
  lemma BoundedRecords(l: LeaseRec, t0: Time, delta: nat, bound: Time, n: Time, saved: LeaseRec, now: Time)
    ensures Bounded(l, t0, delta, bound, n) ==> IdleUntil(l) <= bound
    ensures n <= bound && t0 + 60 * SECOND <= bound && IdleUntil(saved) <= bound ==>
              Bounded(Restored(saved, now), t0, delta, bound, n)
    ensures Bounded(l, t0, delta, bound, n) ==> n <= bound && t0 + 60 * SECOND <= bound
  {
  }

  // ---- what the snapshot says of the lease ----

  ghost function SavedOf(st: State, s: Serial, id: Id): LeaseRec
    requires Inv(st) && OwnerIs(st, s, id)
  {
    OwnerSaved(st, s, id);
    st.disk[id]
  }

  lemma OwnerSaved(st: State, s: Serial, id: Id)
    requires Inv(st) && OwnerIs(st, s, id)
    ensures id in st.disk
  {
    OwnerIsLive(st, s, id);
  }

  /** A critical section leaves the snapshot alone or makes it the table as it then is. */
  ghost predicate SavedOrNot(st: State, st': State) {
    st'.disk == st.disk || st'.disk == Save(st').disk
  }

  lemma SaveSaves(st: State)
    ensures Save(Save(st)).disk == Save(st).disk
  {
  }

  lemma ExpireSaves(st: State, s: Serial, now: Time)
    requires Leased(st, s)
    ensures Save(Expire(st, s, now)).disk == Expire(st, s, now).disk
  {
    hide GrantNext, Save;
    var st1 := st.(leases := st.leases - {s});
    SaveSaves(GrantNext(st1, s, now));
    SaveSaves(st1.(cleaning := st1.cleaning[s := st.leases[s]], jobs := st1.jobs + {st.leases[s]}));
  }

  lemma DropSaves(st: State, wid: Id, now: Time)
    ensures SavedOrNot(st, Drop(st, wid, now))
  {
    hide Expire, Filter, Queue, Save;
    if wid in st.wm {
      var s := st.wm[wid].serial;
      var st1 := st.(registry := st.registry - {wid},
                     queues := SetQueue(st.queues, s, Filter(x => x != wid, Queue(st, s))));
      if Leased(st, s) && st.wm[wid].lease == Some(st.leases[s]) {
        ExpireSaves(st1, s, now);
      }
    }
  }

  lemma VisitSaves(st: State, s: Serial, now: Time, t: Time)
    ensures SavedOrNot(st, Visit(st, s, now, t))
  {
    hide Expire, Save, Unclaimed, Overdue, Disowned;
    if Leased(st, s) {
      ExpireSaves(st, s, t);
      ExpireSaves(SetLease(st, st.leases[s], Disowned(LeaseOn(st, s), now)), s, t);
    }
  }

  lemma FinishSaves(st: State, id: Id, now: Time)
    ensures SavedOrNot(st, FinishCleanup(st, id, now))
  {
    hide GrantNext, Save;
    if id in st.jobs && id in st.lm {
      var s := st.lm[id].serial;
      SaveSaves(GrantNext(st.(cleaning := st.cleaning - {s}, jobs := st.jobs - {id}), s, now));
    }
  }

  lemma ReleaseSaves(st: State, req: ReleaseReq, now: Time)
    ensures SavedOrNot(st, Release(st, req, now))
  {
    hide Expire, Save, ReleaseTarget;
    if MayRelease(st, req) {
      ExpireSaves(st, ReleaseTarget(st, req).value, now);
    }
  }

  lemma AcquireSaves(st: State, req: AcquireReq, now: Time, idle: nat)
    ensures SavedOrNot(st, Acquire(st, req, now, idle).0)
  {
    hide Save, Queue, NewLease, Renewed;
    SaveSaves(st.(counter := st.counter + 1, lm := st.lm[FreshId(st) := NewLease(st.config, req, now, idle)],
                  leases := st.leases[req.serial := FreshId(st)]));
  }

  lemma AnySaves(st: State, req: AcquireAnyReq, devs: seq<DeviceLine>, first: Serial, now: Time, idle: nat)
    ensures SavedOrNot(st, AcquireAny(st, req, devs, first, now, idle))
  {
    hide Save, FirstFree, StickyDevice, NewLease, Stuck;
    match FirstFree(devs, st.leases.Keys, st.cleaning.Keys, st.config.denySerials, req.usb, req.emulator)
    case None =>
    case Some(s) =>
      SaveSaves(st.(counter := st.counter + 1,
          lm := st.lm[FreshId(st) := NewLease(st.config, AnyReq(req, s), now, idle)],
                    leases := st.leases[s := FreshId(st)]));
  }

  lemma StoreSaves(st: State, id: Id, pkgs: seq<string>)
    ensures SavedOrNot(st, StoreBaseline(st, id, pkgs))
  {
    hide Save;
    if Live(st, id) {
      SaveSaves(SetLease(st, id, st.lm[id].(baseline := pkgs)));
    }
  }

  lemma RestartUnsaved(st: State, pid: nat, now: Time)
    ensures Restart(st, pid, now).disk == st.disk
  {
  }

  lemma QuietUnsaved(st: State, ev: Event)
    requires ev.Polled? || ev.Woken? || ev.KeptFresh? || ev.Beat? || ev.CommandEnded? || ev.Collecting? || ev.Reloaded?
    ensures Next(st, ev).disk == st.disk
  {
    hide Acquire, AcquireAny, Drop, Release, FinishCleanup, Visit, Restart, StoreBaseline, Queue, Live, Beaten, Ended;
  }

  lemma SaveStep(st: State, ev: Event)
    ensures SavedOrNot(st, Next(st, ev))
  {
    hide Acquire, AcquireAny, Poll, Wake, SetPoll, Drop, Release, FinishCleanup, Visit, Collect, Restart, StoreBaseline,
         Save, Heartbeat, EndCommand;
    match ev
    case Acquiring(req, now, idle) => AcquireSaves(st, req, now, idle);
    case AcquiringAny(req, devs, first, now, idle) => AnySaves(st, req, devs, first, now, idle);
    case Dropped(wid, now) => DropSaves(st, wid, now);
    case Releasing(req, now) => ReleaseSaves(st, req, now);
    case CleanupFinished(id, now) => FinishSaves(st, id, now);
    case Visiting(s, now, t) => VisitSaves(st, s, now, t);
    case BaselineStored(id, pkgs) => StoreSaves(st, id, pkgs);
    case Restarted(pid, now) => RestartUnsaved(st, pid, now);
    case _ => QuietUnsaved(st, ev);
  }

  /** The record the snapshot has of a lease is the one it had, or the lease as it now is. */
  lemma RecordStep(st: State, ev: Event, s: Serial, id: Id)
    requires Inv(st) && OwnerIs(st, s, id) && Inv(Next(st, ev)) && OwnerIs(Next(st, ev), s, id)
    ensures var saved := SavedOf(Next(st, ev), s, id);
            saved == SavedOf(st, s, id) || saved == LeaseOn(Next(st, ev), s)
  {
    hide Inv, Next;
    SaveStep(st, ev);
    OwnerSaved(st, s, id);
    OwnerSaved(Next(st, ev), s, id);
  }

  /** A restart makes the lease what the snapshot says. */
  lemma RestartStep(st: State, ev: Event, s: Serial, id: Id)
    requires Inv(st) && OwnerIs(st, s, id) && OwnerIs(Next(st, ev), s, id) && ev.Restarted? && ev.pid !in st.pids
    ensures LeaseOn(Next(st, ev), s) == Restored(SavedOf(st, s, id), ev.now)
  {
    RebootTable(st, ev.pid, ev.now, s);
    hide Inv, Restart, Restored;
  }

  lemma RebootOp(st: State, ev: Event, s: Serial)
    ensures OpAt(st, ev, s).Reboot? <==> ev.Restarted? && ev.pid !in st.pids
  {
    hide StickyDevice, FirstFree, ReleaseTarget, MayRelease;
  }

  predicate Restarts(evs: seq<Event>) {
    exists i :: 0 <= i < |evs| && evs[i].Restarted?
  }

  /** One critical section, of the holder's daemon or a new one. */
  lemma BoundedEvent(st: State, ev: Event, s: Serial, id: Id, t0: Time, delta: nat, bound: Time, n: Time, n': Time)
    requires Inv(st) && OwnerIs(st, s, id) && Inv(Next(st, ev)) && OwnerIs(Next(st, ev), s, id)
    requires QuietOp(LeaseOn(st, s), OpAt(st, ev, s)) && Bounded(LeaseOn(st, s), t0, delta, bound, n)
    requires if IsTick(ev, s) then n' == ev.now && n' <= n + delta else n' == n
    requires ev.Restarted? ==> IdleUntil(SavedOf(st, s, id)) <= bound
    ensures Bounded(LeaseOn(Next(st, ev), s), t0, delta, bound, n')
    ensures IdleUntil(SavedOf(st, s, id)) <= bound ==> IdleUntil(SavedOf(Next(st, ev), s, id)) <= bound
  {
    hide Inv, Next, OpAt, Bounded, Aged, QuietOp, IdleUntil, Restored;
    var l, l' := LeaseOn(st, s), LeaseOn(Next(st, ev), s);
    TickOp(st, ev, s);
    RebootOp(st, ev, s);
    RecordStep(st, ev, s, id);
    BoundedRecords(l, t0, delta, bound, n, SavedOf(st, s, id), if ev.Restarted? then ev.now else 0);
    if OpAt(st, ev, s).Reboot? {
      RestartStep(st, ev, s, id);
    } else {
      QuietEvent(st, ev, s, id);
      BoundedStep(l, l', OpAt(st, ev, s), t0, delta, bound, n, n');
    }
    BoundedRecords(l', t0, delta, bound, n', SavedOf(st, s, id), 0);
  }

  lemma {:induction false} SilentBounded(st: State, evs: seq<Event>, s: Serial, id: Id, t0: Time, delta: nat,
      bound: Time)
    requires Inv(st) && OwnerIs(st, s, id)
    requires LeaseOn(st, s).lastBeat <= t0 && LeaseOn(st, s).lastActive <= t0
        && LastSeen(LeaseOn(st, s), t0, delta) <= bound
    requires Restarts(evs) ==> IdleUntil(SavedOf(st, s, id)) <= bound
    requires Silent(st, evs, s, id) && Paced(t0, evs, s, delta)
    ensures var st' := Run(st, evs);
            Inv(st') && (OwnerIs(st', s, id) ==>
              && Bounded(LeaseOn(st', s), t0, delta, bound, LastTick(t0, evs, s))
              && (IdleUntil(SavedOf(st, s, id)) <= bound ==> IdleUntil(SavedOf(st', s, id)) <= bound))
  {
    hide *;
    RunKeeps(st, evs);
    OwnerLeased(st, s, id);
    OwnerLeased(Run(st, evs), s, id);
    if evs == [] {
      NoEventsYet(st, evs, s, t0);
      BoundedAtFirst(LeaseOn(st, s), t0, delta, bound);
    } else if OwnerIs(Run(st, evs), s, id) {
      var front := evs[..|evs| - 1];
      var ev := evs[|evs| - 1];
      var before := Run(st, front);
      OwnerLeased(before, s, id);
      SilentMore(st, evs, s, id, t0, delta);
      RunKeeps(st, front);
      IssuedAfter(st, front, s, id);
      OwnedBefore(before, ev, s, id);
      SilentBounded(st, front, s, id, t0, delta, bound);
      BoundedEvent(before, ev, s, id, t0, delta, bound, LastTick(t0, front, s), LastTick(t0, evs, s));
    }
  }

  lemma NoEventsYet(st: State, evs: seq<Event>, s: Serial, t0: Time)
    requires evs == []
    ensures Run(st, evs) == st && LastTick(t0, evs, s) == t0
  {
  }

  lemma SilentMore(st: State, evs: seq<Event>, s: Serial, id: Id, t0: Time, delta: nat)
    requires evs != [] && Silent(st, evs, s, id) && Paced(t0, evs, s, delta)
    ensures var front := evs[..|evs| - 1];
            var ev := evs[|evs| - 1];
            var before := Run(st, front);
            && Run(st, evs) == Next(before, ev) && Silent(st, front, s, id) && Paced(t0, front, s, delta)
            && (OwnerIs(before, s, id) ==> Leased(before, s) && QuietOp(LeaseOn(before, s), OpAt(before, ev, s)))
            && (if IsTick(ev, s) then
                  LastTick(t0, evs, s) == ev.now && ev.now <= LastTick(t0, front, s) + delta
                else LastTick(t0, evs, s) == LastTick(t0, front, s))
            && (Restarts(front) || ev.Restarted? ==> Restarts(evs))
  {
    hide Next, OpAt, QuietOp;
    assert forall i :: 0 <= i < |evs| - 1 ==> evs[..|evs| - 1][i] == evs[i];
  }

  lemma IssuedAfter(st: State, evs: seq<Event>, s: Serial, id: Id)
    requires Inv(st) && OwnerIs(st, s, id)
    ensures Issued(Run(st, evs), id)
  {
    OwnerSeen(st, s, id);
    LeftForGood(st, evs, s, id);
  }

  /**
   * Real-time reclaim: with ticks at most delta apart up to the moment `now`, a lease whose holder fell silent at t0 is
   * gone by t0 + 60s + its idle limit + 2 delta, an explicit one by the later of t0 + 60s and its expiry, plus delta;
   * whatever number of commands it was running.  If the daemon restarts meanwhile, by the later of that and what the
   * snapshot's record allows a lease without commands, plus delta.
   */
  lemma SilentIsReclaimed(st: State, evs: seq<Event>, s: Serial, id: Id, t0: Time, delta: nat, now: Time)
    requires Inv(st) && OwnerIs(st, s, id)
    requires LeaseOn(st, s).lastBeat <= t0 && LeaseOn(st, s).lastActive <= t0
    requires Silent(st, evs, s, id) && Paced(t0, evs, s, delta) && now <= LastTick(t0, evs, s) + delta
    requires var l := LeaseOn(st, s);
             now > if l.explicit then Max(t0 + 60 * SECOND, l.expiresAt) + delta
                   else t0 + 60 * SECOND + l.idleTTL + 2 * delta
    requires var saved := SavedOf(st, s, id);
             Restarts(evs) ==>
               now > (if saved.explicit then saved.expiresAt else saved.lastActive + saved.idleTTL) + delta
    ensures !Live(Run(st, evs), id)
  {
    var seen := LastSeen(LeaseOn(st, s), t0, delta);
    var bound := if Restarts(evs) then Max(seen, IdleUntil(SavedOf(st, s, id))) else seen;
    SeenByBound(st, evs, s, id, t0, delta, bound);
    NotElsewhere(st, evs, s, id);
    hide Inv, Run, Silent, Paced;
  }

  lemma SeenByBound(st: State, evs: seq<Event>, s: Serial, id: Id, t0: Time, delta: nat, bound: Time)
    requires Inv(st) && OwnerIs(st, s, id)
    requires LeaseOn(st, s).lastBeat <= t0 && LeaseOn(st, s).lastActive <= t0
        && LastSeen(LeaseOn(st, s), t0, delta) <= bound
    requires Restarts(evs) ==> IdleUntil(SavedOf(st, s, id)) <= bound
    requires Silent(st, evs, s, id) && Paced(t0, evs, s, delta)
    ensures OwnerIs(Run(st, evs), s, id) ==> LastTick(t0, evs, s) <= bound
  {
    SilentBounded(st, evs, s, id, t0, delta, bound);
    hide Inv, Run, Silent, Paced, LastSeen, IdleUntil;
  }

  /** A lease never moves to another device. */
  lemma {:induction false} NotElsewhere(st: State, evs: seq<Event>, s: Serial, id: Id)
    requires Inv(st) && OwnerIs(st, s, id)
    ensures Live(Run(st, evs), id) ==> OwnerIs(Run(st, evs), s, id)
  {
    hide Next, Live, OwnerIs, Issued;
    RunKeeps(st, evs);
    if evs == [] {
      OwnerIsLive(st, s, id);
    } else if Live(Run(st, evs), id) {
      var front := evs[..|evs| - 1];
      RunKeeps(st, front);
      NotElsewhere(st, front, s, id);
      IssuedAfter(st, front, s, id);
      if !Live(Run(st, front), id) {
        Recovery.DeadStaysDead(Run(st, front), evs[|evs| - 1], id);
      }
      LiveStays(Run(st, front), evs[|evs| - 1], s, id);
    }
  }

  lemma OwnerIsLive(st: State, s: Serial, id: Id)
    requires Inv(st)
    ensures OwnerIs(st, s, id) ==> Live(st, id)
  {
  }

  lemma LiveStays(st: State, ev: Event, s: Serial, id: Id)
    requires Inv(st) && OwnerIs(st, s, id) && Live(Next(st, ev), id)
    ensures OwnerIs(Next(st, ev), s, id)
  {
    NextKeeps(st, ev);
    OwnerLive(st, s, id);
    SerialStays(st, ev, id);
    OwnerLive(Next(st, ev), s, id);
    hide Inv, Next;
  }

  // ---- not too early either ----

  /** A lease that is claimed in time is safe from ticks up to this moment, if nothing else happens to it. */
  function SafeUntil(l: LeaseRec): Time {
    if l.explicit then if l.running > 0 then Max(l.expiresAt, l.lastBeat + 60 * SECOND) else l.expiresAt
    else if l.running > 0 then l.lastBeat + 60 * SECOND + l.idleTTL
    else l.lastActive + l.idleTTL
  }

  /** A tick no later than that keeps the lease, and the moment does not come closer. */
  lemma SafeStep(d: Device, op: Op, env: Env, now: Time)
    requires d.Held? && QuietOp(d.lease, op) && !op.Revoke? && !op.Reboot?
    requires op.Inspect? ==> d.lease.claimed || op.now - d.lease.acquiredAt <= 20 * SECOND
    requires now <= SafeUntil(d.lease) && (op.Inspect? ==> op.now <= now)
    ensures var d' := Step(d, op, env);
            && d'.Held? && d'.id == d.id && now <= SafeUntil(d'.lease)
            && (d.lease.claimed ==> d'.lease.claimed) && d'.lease.acquiredAt == d.lease.acquiredAt
  {
    hide Filter;
  }

  /** Nobody releases the device, no waiter holding its lease gives up, and no daemon dies, while id holds s. */
  ghost predicate Unrevoked(st: State, evs: seq<Event>, s: Serial, id: Id) {
    evs != [] ==>
      var before := Run(st, evs[..|evs| - 1]);
      Unrevoked(st, evs[..|evs| - 1], s, id)
        && (OwnerIs(before, s, id) ==> var op := OpAt(before, evs[|evs| - 1], s); !op.Revoke? && !op.Reboot?)
  }

  predicate TicksBy(evs: seq<Event>, s: Serial, now: Time) {
    forall i :: 0 <= i < |evs| && IsTick(evs[i], s) ==> evs[i].now <= now
  }

  lemma SafeEvent(st: State, ev: Event, s: Serial, id: Id, now: Time)
    requires Inv(st) && OwnerIs(st, s, id)
    requires var l := LeaseOn(st, s);
             now <= SafeUntil(l) && QuietOp(l, OpAt(st, ev, s))
             && !OpAt(st, ev, s).Revoke? && !OpAt(st, ev, s).Reboot?
             && (IsTick(ev, s) ==> l.claimed || ev.now - l.acquiredAt <= 20 * SECOND)
    requires IsTick(ev, s) ==> ev.now <= now
    ensures var st' := Next(st, ev);
            && OwnerIs(st', s, id) && now <= SafeUntil(LeaseOn(st', s))
            && (LeaseOn(st, s).claimed ==> LeaseOn(st', s).claimed)
            && LeaseOn(st', s).acquiredAt == LeaseOn(st, s).acquiredAt
  {
    hide Inv, Next, Step, View, OpAt, EnvAt, Readable, QuietOp, SafeUntil, IsTick;
    Refines(st, ev, s);
    OwnerSeen(st, s, id);
    TickOp(st, ev, s);
    SafeStep(View(st, s), OpAt(st, ev, s), EnvAt(st, s), now);
    HeldOwner(Next(st, ev), s);
  }

  lemma HeldOwner(st: State, s: Serial)
    requires Inv(st) && Readable(st, s)
    ensures View(st, s).Held? ==> OwnerIs(st, s, View(st, s).id) && View(st, s).lease == LeaseOn(st, s)
  {
  }

  /**
   * The partner of SilentIsReclaimed: a claimed lease whose holder is silent is still there after any ticks up to its
   * last activity plus its idle limit; up to its last beat plus 60s plus the idle limit while it counts a running
   * command; an explicit one up to its expiry, or the later of that and its last beat plus 60s.
   */
  lemma {:induction false} SilentIsSpared(st: State, evs: seq<Event>, s: Serial, id: Id, now: Time)
    requires Inv(st) && OwnerIs(st, s, id) && LeaseOn(st, s).claimed && now <= SafeUntil(LeaseOn(st, s))
    requires Silent(st, evs, s, id) && Unrevoked(st, evs, s, id) && TicksBy(evs, s, now)
    ensures var st' := Run(st, evs);
            OwnerIs(st', s, id) && LeaseOn(st', s).claimed && now <= SafeUntil(LeaseOn(st', s))
  {
    if evs != [] {
      var front := evs[..|evs| - 1];
      assert forall i :: 0 <= i < |front| ==> front[i] == evs[i];
      RunKeeps(st, front);
      SilentIsSpared(st, front, s, id, now);
      hide Inv, Next, OpAt, SafeUntil, QuietOp, IsTick;
      SafeEvent(Run(st, front), evs[|evs| - 1], s, id, now);
    }
  }

  /** No tick finds the lease id unclaimed later than 20 seconds after it was granted. */
  ghost predicate PickedUp(st: State, evs: seq<Event>, s: Serial, id: Id) {
    evs != [] ==>
      var before := Run(st, evs[..|evs| - 1]);
      var ev := evs[|evs| - 1];
      PickedUp(st, evs[..|evs| - 1], s, id)
        && (IsTick(ev, s) && OwnerIs(before, s, id) && !LeaseOn(before, s).claimed ==>
              ev.now - LeaseOn(before, s).acquiredAt <= 20 * SECOND)
  }

  /** The same for a lease granted from the queue, which nobody has claimed yet, if it is claimed in time. */
  lemma {:induction false} UnclaimedIsSpared(st: State, evs: seq<Event>, s: Serial, id: Id, now: Time)
    requires Inv(st) && OwnerIs(st, s, id) && now <= SafeUntil(LeaseOn(st, s))
    requires Silent(st, evs, s, id) && Unrevoked(st, evs, s, id) && TicksBy(evs, s, now) && PickedUp(st, evs, s, id)
    ensures var st' := Run(st, evs);
            && OwnerIs(st', s, id) && now <= SafeUntil(LeaseOn(st', s))
            && LeaseOn(st', s).acquiredAt == LeaseOn(st, s).acquiredAt
  {
    if evs != [] {
      var front := evs[..|evs| - 1];
      assert forall i :: 0 <= i < |front| ==> front[i] == evs[i];
      RunKeeps(st, front);
      UnclaimedIsSpared(st, front, s, id, now);
      hide Inv, Next, OpAt, SafeUntil, QuietOp, IsTick;
      SafeEvent(Run(st, front), evs[|evs| - 1], s, id, now);
    }
  }

  /** The critical section is a sign of life of the lease id on s. */
  ghost predicate ShowsLife(st: State, ev: Event, s: Serial, id: Id)
    requires OwnerIs(st, s, id)
  {
    || ((ev.Beat? || ev.CommandEnded?) && ev.lease == id)
    || (ev.Acquiring? && ev.req.serial == s && ev.req.session == LeaseOn(st, s).session)
    || (ev.AcquiringAny? && StickyDevice(st, ev.anyReq.session, ev.first) == Some(s))
  }

  /** What the sign of life asks for: an expiry, when it is an explicit acquire of either kind. */
  function AskedExpiry(config: Config, ev: Event): Option<Time> {
    match ev
    case Acquiring(req, now, _) => if req.explicit then Some(now + AskedFor(config, req.ttlSec)) else None
    case AcquiringAny(req, _, _, now, _) => Some(now + AskedFor(config, req.ttlSec))
    case _ => None
  }

  /** So many seconds, in nanoseconds, or the configured time when none are named. */
  function AskedFor(config: Config, seconds: int): int {
    if seconds > 0 then seconds * 1_000_000_000 else config.explicitTTL
  }

  /** The lease after a sign of life: claimed, active and beaten now, with the expiry asked for or the one it had. */
  ghost predicate Refreshed(l: LeaseRec, l': LeaseRec, now: Time, asked: Option<Time>, idle: nat) {
    && l'.claimed && l'.lastActive == now && l'.lastBeat == now && l'.idleTTL == idle
    && (match asked
        case Some(expiry) => l'.explicit && l'.expiresAt == expiry
        case None => l'.explicit == l.explicit && l'.expiresAt == l.expiresAt)
  }

  lemma LifeStep(d: Device, op: Op, env: Env)
    requires d.Held?
    requires op.BeatLease? || op.EndOne? || op.Stick? || (op.Arrive? && op.req.session == d.lease.session)
    ensures var d' := Step(d, op, env);
            && d'.Held? && d'.id == d.id
            && Refreshed(d.lease, d'.lease, op.now,
                        if op.Arrive? && op.req.explicit then Some(op.now + AskedFor(env.config, op.req.ttlSec))
                        else if op.Stick? then Some(op.now + AskedFor(env.config, op.anyReq.ttlSec)) else None,
                        if op.Arrive? then op.idle else d.lease.idleTTL)
  {
  }

  lemma LifeOp(st: State, ev: Event, s: Serial, id: Id)
    requires OwnerIs(st, s, id) && ShowsLife(st, ev, s, id)
    ensures var op := OpAt(st, ev, s);
            && (op.BeatLease? || op.EndOne? || op.Stick? || (op.Arrive? && op.req.session == LeaseOn(st, s).session))
            && op.now == ev.now
            && (op.Arrive? <==> ev.Acquiring?) && (op.Stick? <==> ev.AcquiringAny?)
            && (op.Arrive? ==> op.req == ev.req && op.idle == ev.idle) && (op.Stick? ==> op.anyReq == ev.anyReq)
  {
    hide StickyDevice, FirstFree, ReleaseTarget, MayRelease;
  }

  /** Every sign of life, whatever the lease was before, claims it and starts its time anew. */
  lemma SignOfLife(st: State, ev: Event, s: Serial, id: Id)
    requires Inv(st) && OwnerIs(st, s, id) && ShowsLife(st, ev, s, id)
    ensures var st' := Next(st, ev);
            && Inv(st') && OwnerIs(st', s, id)
            && Refreshed(LeaseOn(st, s), LeaseOn(st', s), ev.now, AskedExpiry(st.config, ev),
                        if ev.Acquiring? then ev.idle else LeaseOn(st, s).idleTTL)
  {
    hide Inv, Next, Step, View, OpAt, Readable, Refreshed, ShowsLife;
    Refines(st, ev, s);
    OwnerSeen(st, s, id);
    LifeOp(st, ev, s, id);
    LifeStep(View(st, s), OpAt(st, ev, s), EnvAt(st, s));
    HeldOwner(Next(st, ev), s);
  }

  /**
   * After a sign of life at `t`, any run in which nobody releases the lease and the holder shows no other sign of life
   * (a later renewal may bring an expiry forward) leaves it there through every tick up to t plus its idle limit, or up
   * to its expiry: t plus the duration the sign of life asked for, if it was explicit.
   */
  lemma LifeHolds(st: State, ev: Event, evs: seq<Event>, s: Serial, id: Id, now: Time)
    requires Inv(st) && OwnerIs(st, s, id) && ShowsLife(st, ev, s, id)
    requires var st1 := Next(st, ev);
             && Silent(st1, evs, s, id) && Unrevoked(st1, evs, s, id) && TicksBy(evs, s, now)
    requires var l, asked := LeaseOn(st, s), AskedExpiry(st.config, ev);
             now <= if asked.Some? then asked.value
                    else if l.explicit then l.expiresAt
                    else ev.now + if ev.Acquiring? then ev.idle else l.idleTTL
    ensures OwnerIs(Run(Next(st, ev), evs), s, id)
  {
    hide Inv, Next, Run, Silent, Unrevoked, TicksBy, Refreshed, SafeUntil, OwnerIs, StickyDevice, AskedExpiry, Live;
    OwnerLeased(st, s, id);
    OwnerLeased(Next(st, ev), s, id);
    SignOfLife(st, ev, s, id);
    RefreshedIsSafe(LeaseOn(st, s), LeaseOn(Next(st, ev), s), ev.now, AskedExpiry(st.config, ev),
                    if ev.Acquiring? then ev.idle else LeaseOn(st, s).idleTTL, now);
    SilentIsSpared(Next(st, ev), evs, s, id, now);
  }

  lemma RefreshedIsSafe(l: LeaseRec, l': LeaseRec, t: Time, asked: Option<Time>, idle: nat, now: Time)
    requires Refreshed(l, l', t, asked, idle)
    requires now <= if asked.Some? then asked.value else if l.explicit then l.expiresAt else t + idle
    ensures l'.claimed && now <= SafeUntil(l')
  {
  }

  // ---- a lease nobody picks up ----

  lemma UnclaimedStep(d: Device, op: Op, env: Env)
    requires d.Held? && d.id != env.nextId
    requires Step(d, op, env).Held? && Step(d, op, env).id == d.id && !Step(d, op, env).lease.claimed
    ensures var l := d.lease;
            !l.claimed && Step(d, op, env).lease.acquiredAt == l.acquiredAt
              && (op.Inspect? ==> op.now - l.acquiredAt <= 20 * SECOND)
  {
  }

  lemma UnclaimedEvent(st: State, ev: Event, s: Serial, id: Id)
    requires Inv(st) && OwnerIs(st, s, id) && OwnerIs(Next(st, ev), s, id) && !LeaseOn(Next(st, ev), s).claimed
    ensures var l := LeaseOn(st, s);
            !l.claimed && LeaseOn(Next(st, ev), s).acquiredAt == l.acquiredAt
              && (IsTick(ev, s) ==> ev.now - l.acquiredAt <= 20 * SECOND)
  {
    hide Inv, Next, Step, View, OpAt, EnvAt, Readable;
    Refines(st, ev, s);
    OwnerSeen(st, s, id);
    OwnerSeen(Next(st, ev), s, id);
    TickOp(st, ev, s);
    UnclaimedStep(View(st, s), OpAt(st, ev, s), EnvAt(st, s));
  }

  lemma {:induction false} UnclaimedSeen(st: State, evs: seq<Event>, s: Serial, id: Id, start: Time)
    requires Inv(st) && OwnerIs(st, s, id)
    ensures var st' := Run(st, evs);
            OwnerIs(st', s, id) && !LeaseOn(st', s).claimed ==>
              && LeaseOn(st', s).acquiredAt == LeaseOn(st, s).acquiredAt
              && LastTick(start, evs, s) <= Max(start, LeaseOn(st, s).acquiredAt + 20 * SECOND)
  {
    if evs != [] && OwnerIs(Run(st, evs), s, id) && !LeaseOn(Run(st, evs), s).claimed {
      var front := evs[..|evs| - 1];
      var ev := evs[|evs| - 1];
      RunKeeps(st, front);
      IssuedAfter(st, front, s, id);
      OwnedBefore(Run(st, front), ev, s, id);
      hide Inv, Next;
      UnclaimedEvent(Run(st, front), ev, s, id);
      UnclaimedSeen(st, front, s, id, start);
    }
  }

  /**
   * In any run with ticks at most delta apart, a lease granted from the queue has been claimed, or is gone, by
   * acquiredAt + 20s + delta.
   */
  lemma UnclaimedIsReclaimed(st: State, evs: seq<Event>, s: Serial, id: Id, delta: nat, now: Time)
    requires Inv(st) && OwnerIs(st, s, id)
    requires var granted := LeaseOn(st, s).acquiredAt;
             now <= LastTick(granted, evs, s) + delta && now > granted + 20 * SECOND + delta
    ensures Live(Run(st, evs), id) ==> Run(st, evs).lm[id].claimed
  {
    UnclaimedSeen(st, evs, s, id, LeaseOn(st, s).acquiredAt);
    NotElsewhere(st, evs, s, id);
  }

  // ---- waiting behind the dead ----

  /** The clock reading a hand-over makes. */
  function HandTime(op: Op): Time {
    match op
    case Inspect(_, t) => t
    case Revoke(now) => now
    case Cleaned(now) => now
    case _ => 0
  }

  /** A holder that never claimed its lease, at a device that is not cleaned between sessions. */
  ghost predicate DeadHolder(d: Device, env: Env) {
    d.Held? && !d.lease.claimed && !env.config.cleanup
  }

  /**
   * While wid waits at s: whoever holds the device never claims it, cleanup is off, hand-overs read the clock at most
   * lag after the tick interval, and wid itself keeps polling and does not give up.
   */
  ghost predicate BehindTheDead(st: State, evs: seq<Event>, s: Serial, wid: Id, start: Time, delta: nat, lag: nat)
    requires Inv(st)
  {
    evs != [] ==>
      var front := evs[..|evs| - 1];
      var ev := evs[|evs| - 1];
      var before := Run(st, front);
      RunKeeps(st, front);
      Readables(before, s);
      && BehindTheDead(st, front, s, wid, start, delta, lag)
      && (wid in Queue(before, s) ==>
            && DeadHolder(View(before, s), EnvAt(before, s))
            && (HandsOver(View(before, s), OpAt(before, ev, s), EnvAt(before, s)) ==>
                  HandTime(OpAt(before, ev, s)) <= LastTick(start, front, s) + delta + lag))
  }

  lemma DeadStep(d: Device, op: Op, env: Env, wid: Id)
    requires DeadHolder(d, env) && Has(QueueOf(d), wid) && Has(QueueOf(Step(d, op, env)), wid)
    ensures var d' := Step(d, op, env);
            && d'.Held?
            && (HandsOver(d, op, env) ==> d'.lease.acquiredAt == HandTime(op))
            && (!HandsOver(d, op, env) ==> d'.lease.acquiredAt == d.lease.acquiredAt)
            && (!HandsOver(d, op, env) && op.Inspect? ==> op.now <= d.lease.acquiredAt + 20 * SECOND)
  {
  }

  /** How long one dead session can keep the device. */
  function Turn(delta: nat, lag: nat): int {
    20 * SECOND + delta + lag
  }

  /** The holder got the device after at most n turns, and no tick later than that has passed it over. */
  ghost predicate OnTime(d: Device, start: Time, n: nat, turn: int, tick: Time) {
    d.Held? && d.lease.acquiredAt <= start + n * turn && tick <= start + n * turn + 20 * SECOND
  }

  lemma OnTimeStep(d: Device, op: Op, env: Env, wid: Id, start: Time, n: nat, delta: nat, lag: nat, tick: Time,
      tick': Time)
    requires DeadHolder(d, env) && Has(QueueOf(d), wid) && Has(QueueOf(Step(d, op, env)), wid)
    requires OnTime(d, start, n, Turn(delta, lag), tick)
    requires HandsOver(d, op, env) ==> HandTime(op) <= tick + delta + lag
    requires if op.Inspect? then tick' == op.now && tick' <= tick + delta else tick' == tick
    ensures OnTime(Step(d, op, env), start, if HandsOver(d, op, env) then n + 1 else n, Turn(delta, lag), tick')
  {
    hide Step, HandsOver, DeadHolder, Has, HandTime;
    DeadStep(d, op, env, wid);
    assert (n + 1) * Turn(delta, lag) == n * Turn(delta, lag) + Turn(delta, lag);
  }

  /** The run-level definitions, unfolded by one event. */
  lemma Unfolded(st: State, evs: seq<Event>, s: Serial, wid: Id, start: Time, delta: nat, lag: nat)
    requires Inv(st) && evs != []
    requires BehindTheDead(st, evs, s, wid, start, delta, lag) && Paced(start, evs, s, delta)
    ensures var front := evs[..|evs| - 1];
            var ev := evs[|evs| - 1];
            var before := Run(st, front);
            && Inv(before) && Readable(before, s) && Run(st, evs) == Next(before, ev)
            && BehindTheDead(st, front, s, wid, start, delta, lag) && Paced(start, front, s, delta)
            && LastTick(start, evs, s) == (if IsTick(ev, s) then ev.now else LastTick(start, front, s))
            && (IsTick(ev, s) ==> ev.now <= LastTick(start, front, s) + delta)
            && var hands := HandsOver(View(before, s), OpAt(before, ev, s), EnvAt(before, s));
            && HandoverCount(st, evs, s) == HandoverCount(st, front, s) + (if hands then 1 else 0)
            && (wid in Queue(before, s) ==>
                  && DeadHolder(View(before, s), EnvAt(before, s))
                  && (hands ==> HandTime(OpAt(before, ev, s)) <= LastTick(start, front, s) + delta + lag))
  {
    hide Inv, Next, View, OpAt, HandsOver, DeadHolder, HandTime;
    RunKeeps(st, evs[..|evs| - 1]);
    ReadableNow(Run(st, evs[..|evs| - 1]), s);
  }

  lemma NoEvents(st: State, evs: seq<Event>, s: Serial, start: Time)
    requires Inv(st) && evs == []
    ensures Run(st, evs) == st && HandoverCount(st, evs, s) == 0 && LastTick(start, evs, s) == start
  {
  }

  lemma OnTimeAtFirst(d: Device, start: Time, turn: int)
    requires d.Held? && d.lease.acquiredAt <= start
    ensures OnTime(d, start, 0, turn, start)
  {
  }

  lemma {:induction false} DeadBound(st: State, evs: seq<Event>, s: Serial, wid: Id, start: Time, delta: nat, lag: nat)
    requires Inv(st) && Readable(st, s) && Issued(st, wid) && wid in Queue(Run(st, evs), s)
    requires View(st, s).Held? && View(st, s).lease.acquiredAt <= start
    requires BehindTheDead(st, evs, s, wid, start, delta, lag) && Paced(start, evs, s, delta)
    ensures var st' := Run(st, evs);
            Inv(st') && Readable(st', s) &&
            OnTime(View(st', s), start, HandoverCount(st, evs, s), Turn(delta, lag), LastTick(start, evs, s))
  {
    hide *;
    RunKeeps(st, evs);
    QueueNamed(Run(st, evs), s);
    if evs == [] {
      NoEvents(st, evs, s, start);
      OnTimeAtFirst(View(st, s), start, Turn(delta, lag));
    } else {
      var front := evs[..|evs| - 1];
      var ev := evs[|evs| - 1];
      var before := Run(st, front);
      Unfolded(st, evs, s, wid, start, delta, lag);
      LeftForGood(st, front, s, wid);
      QueueGains(before, ev, s, wid);
      DeadBound(st, front, s, wid, start, delta, lag);
      Refines(before, ev, s);
      QueueNamed(before, s);
      TickOp(before, ev, s);
      OnTimeStep(View(before, s), OpAt(before, ev, s), EnvAt(before, s), wid, start, HandoverCount(st, front, s),
                 delta, lag, LastTick(start, front, s), LastTick(start, evs, s));
    }
  }

  /**
   * Behind d sessions that have died, the holder included, a waiter is off the queue within d turns of 20s + delta (and
   * the lag of the hand-over's clock) from the first hand-off.
   */
  lemma DeadQueueMoves(st: State, evs: seq<Event>, s: Serial, wid: Id, start: Time, delta: nat, lag: nat, now: Time)
    requires Inv(st) && Readable(st, s) && Issued(st, wid)
    requires View(st, s).Held? && View(st, s).lease.acquiredAt <= start
    requires BehindTheDead(st, evs, s, wid, start, delta, lag) && Paced(start, evs, s, delta)
    requires now <= LastTick(start, evs, s) + delta
    requires now > start + |AheadOf(QueueOf(View(st, s)), wid)| * Turn(delta, lag)
    ensures wid !in Queue(Run(st, evs), s)
  {
    if wid in Queue(Run(st, evs), s) {
      DeadBound(st, evs, s, wid, start, delta, lag);
      BoundedOvertaking(st, evs, s, wid);
      TooLate(start, HandoverCount(st, evs, s), |AheadOf(QueueOf(View(st, s)), wid)|, delta, lag);
    }
  }

  lemma TooLate(start: Time, n: nat, d: nat, delta: nat, lag: nat)
    requires n < d
    ensures start + n * Turn(delta, lag) + 20 * SECOND + delta <= start + d * Turn(delta, lag)
  {
    var turn := Turn(delta, lag);
    assert (n + 1) * turn == n * turn + turn;
    assert (n + 1) * turn <= d * turn;
  }

  /** wid keeps polling and does not give up, and no daemon dies. */
  ghost predicate Patient(st: State, evs: seq<Event>, wid: Id) {
    evs != [] ==>
      var before := Run(st, evs[..|evs| - 1]);
      var ev := evs[|evs| - 1];
      && Patient(st, evs[..|evs| - 1], wid)
      && !ev.Restarted? && !(ev.Dropped? && ev.wid == wid)
      && (wid in before.wm ==> !StaleAt(before.wm[wid], HandoverClock(ev, before.wm[wid].lastPoll)))
  }

  /** A patient waiter is in its queue or has been given a lease. */
  lemma {:induction false} PatientWaits(st: State, evs: seq<Event>, s: Serial, wid: Id)
    requires Inv(st) && wid in Queue(st, s) && Patient(st, evs, wid)
    ensures var st' := Run(st, evs);
            wid in st'.wm && (wid in Queue(st', s) || st'.wm[wid].lease.Some?)
  {
    if evs == [] {
      Readables(st, s);
    } else {
      var front := evs[..|evs| - 1];
      PatientWaits(st, front, s, wid);
      RunKeeps(st, front);
      hide Inv, Next;
      NoLostWakeup(Run(st, front), evs[|evs| - 1]);
      if wid in Queue(Run(st, front), s) {
        LeavesWithLease(Run(st, front), evs[|evs| - 1], s, wid);
      }
    }
  }

  /**
   * A polling waiter behind d sessions that have died, the holder included, has been given the device within d turns of
   * 20s + delta (and the lag of the hand-over's clock) from the first hand-off.
   */
  lemma ServedAfterTheDead(st: State, evs: seq<Event>, s: Serial, wid: Id, start: Time, delta: nat, lag: nat, now: Time)
    requires Inv(st) && Readable(st, s) && Issued(st, wid) && wid in Queue(st, s)
    requires View(st, s).Held? && View(st, s).lease.acquiredAt <= start
    requires BehindTheDead(st, evs, s, wid, start, delta, lag) && Paced(start, evs, s, delta) && Patient(st, evs, wid)
    requires now <= LastTick(start, evs, s) + delta
    requires now > start + |AheadOf(QueueOf(View(st, s)), wid)| * Turn(delta, lag)
    ensures var st' := Run(st, evs); wid in st'.wm && st'.wm[wid].lease.Some?
  {
    DeadQueueMoves(st, evs, s, wid, start, delta, lag, now);
    PatientWaits(st, evs, s, wid);
  }

  // ---- an instance ----

  /** Session B polls behind session A, which got the device at time 0 and never came for it. */
  function StuckState(): State {
    var config := Config(0, 0, false, [], []);
    var a := WaiterRec("phone", "A", "a", false, 0, 0, 0, true, Some(Id(1, 3)));
    var b := WaiterRec("phone", "B", "b", true, 0, 0, 0, false, None);
    var lease := QueueLease(config, "phone", a, 0, 0);
    State(1, {1}, 3, config, map[Id(1, 3) := lease], map[Id(1, 1) := a, Id(1, 2) := b], map["phone" := Id(1, 3)],
          map["phone" := [Id(1, 2)]], {Id(1, 2)}, map[], {}, map[Id(1, 3) := lease])
  }

  /** A single tick 21 seconds later is enough: the situation meets every condition of ServedAfterTheDead. */
  lemma StuckIsServed()
    ensures var st := StuckState();
            var evs := [Visiting("phone", 21 * SECOND, 21 * SECOND)];
            && Inv(st) && Readable(st, "phone")
            && BehindTheDead(st, evs, "phone", Id(1, 2), 0, (21 * SECOND) as nat, 0)
            && Paced(0, evs, "phone", (21 * SECOND) as nat) && Patient(st, evs, Id(1, 2))
            && 42 * SECOND > |AheadOf(QueueOf(View(st, "phone")), Id(1, 2))| * Turn((21 * SECOND) as nat, 0)
            && Id(1, 2) in Run(st, evs).wm && Run(st, evs).wm[Id(1, 2)].lease.Some?
  {
    var st := StuckState();
    var ev := Visiting("phone", 21 * SECOND, 21 * SECOND);
    var evs := [ev];
    var wid := Id(1, 2);
    StuckWell();
    assert evs[..0] == [];
    assert Run(st, evs[..0]) == st;
    assert Queue(st, "phone") == [wid];
    var q := QueueOf(View(st, "phone"));
    assert |q| == 1 && q[0].id == wid;
    assert q[..0] == [] && !Has(q[..0], wid);
    assert SessionsOf(q) == {"B"};
    assert AheadOf(q, wid) == {"B"};
    assert LastTick(0, evs, "phone") == 21 * SECOND;
    hide Inv;
    ServedAfterTheDead(st, evs, "phone", wid, 0, (21 * SECOND) as nat, 0, 42 * SECOND);
  }

  lemma StuckWell()
    ensures Inv(StuckState()) && Readable(StuckState(), "phone")
    ensures Issued(StuckState(), Id(1, 2))
  {
    StuckQueue();
    hide QueuesWell, RegistryWell, GrantsWell, NoSelfBlocking;
  }

  lemma StuckQueue()
    ensures var st := StuckState();
            && QueuesWell(st.queues, st.registry, st.wm) && RegistryWell(st.queues, st.registry, st.wm)
            && GrantsWell(st.wm, st.lm) && NoSelfBlocking(st.queues, st.leases, st.wm, st.lm)
  {
    var st := StuckState();
    assert QueueWell(st.queues["phone"], st.registry, st.wm, "phone");
  }
}
