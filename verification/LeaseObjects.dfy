/**
 * The lease objects behind the tables: a daemon never forgets one, and its device, session, holder, start and baseline
 * stay what they were, except for the one store of a baseline.
 */
module LeaseObjects {
  import opened Basics
  import opened Records
  import opened Selection
  import opened BrokerModel
  import opened BrokerInvariant

  /** Objects that are in both have the same owner; the new ones have no baseline. */
  ghost predicate Kept(lm: map<Id, LeaseRec>, lm': map<Id, LeaseRec>) {
    forall id :: id in lm' ==> if id in lm then SameOwner(lm[id], lm'[id]) else lm'[id].baseline == []
  }

  ghost predicate Grown(lm: map<Id, LeaseRec>, lm': map<Id, LeaseRec>) {
    lm.Keys <= lm'.Keys && Kept(lm, lm')
  }

  lemma GrownNot(lm: map<Id, LeaseRec>)
    ensures Grown(lm, lm)
  {
  }

  lemma GrownNew(lm: map<Id, LeaseRec>, id: Id, l: LeaseRec)
    requires id !in lm && l.baseline == []
    ensures Grown(lm, lm[id := l])
  {
  }

  lemma GrownTouch(lm: map<Id, LeaseRec>, id: Id, l: LeaseRec)
    requires id in lm && SameOwner(lm[id], l)
    ensures Grown(lm, lm[id := l])
  {
  }

  lemma GrownTwice(lm: map<Id, LeaseRec>, lm1: map<Id, LeaseRec>, lm2: map<Id, LeaseRec>)
    requires Grown(lm, lm1) && Grown(lm1, lm2)
    ensures Grown(lm, lm2)
  {
  }

  // ---- hand-offs ----

  lemma DropKeepsObjects(st: State, s: Serial, now: Time)
    ensures DropStale(st, s, now).lm == st.lm && FreshId(DropStale(st, s, now)) == FreshId(st)
  {
  }

  lemma ServedObjects(st: State, s: Serial, now: Time)
    requires Queue(st, s) != [] && Queue(st, s)[0] in st.wm
    ensures var lm' := ServeHead(st, s, now).lm;
            FreshId(st) in lm' && lm'[FreshId(st)].baseline == [] && lm' == st.lm[FreshId(st) := lm'[FreshId(st)]]
  {
  }

  lemma GrantNextObjects(st: State, s: Serial, now: Time)
    requires FreshId(st) !in st.lm
    ensures Grown(st.lm, GrantNext(st, s, now).lm)
  {
    hide *;
    GrownNot(st.lm);
    GrantNextSplit(st, s, now);
    DropKeepsObjects(st, s, now);
    var st1 := DropStale(st, s, now);
    if Queue(st1, s) != [] {
      ServedObjects(st1, s, now);
      GrownNew(st.lm, FreshId(st), ServeHead(st1, s, now).lm[FreshId(st)]);
    }
  }

  lemma ExpireTables(st: State, s: Serial, now: Time)
    requires Leased(st, s)
    ensures var st1 := st.(leases := st.leases - {s});
            && st1.lm == st.lm && FreshId(st1) == FreshId(st)
            && Expire(st, s, now).lm == if CleansUp(st, s) then st.lm else GrantNext(st1, s, now).lm
  {
    hide GrantNext;
  }

  lemma ExpireObjects(st: State, s: Serial, now: Time)
    requires Leased(st, s) && FreshId(st) !in st.lm
    ensures Grown(st.lm, Expire(st, s, now).lm)
  {
    hide *;
    GrownNot(st.lm);
    ExpireTables(st, s, now);
    GrantNextObjects(st.(leases := st.leases - {s}), s, now);
  }

  // ---- each critical section ----

  lemma DropObjects(st: State, wid: Id, now: Time)
    requires FreshId(st) !in st.lm
    ensures Grown(st.lm, Drop(st, wid, now).lm)
  {
    hide Expire, Filter, Grown, Queue;
    GrownNot(st.lm);
    if wid in st.wm {
      var s := st.wm[wid].serial;
      var st1 := st.(registry := st.registry - {wid},
                     queues := SetQueue(st.queues, s, Filter(x => x != wid, Queue(st, s))));
      if Leased(st, s) && st.wm[wid].lease == Some(st.leases[s]) {
        ExpireObjects(st1, s, now);
      }
    }
  }

  lemma FinishObjects(st: State, id: Id, now: Time)
    requires FreshId(st) !in st.lm
    ensures Grown(st.lm, FinishCleanup(st, id, now).lm)
  {
    hide GrantNext, Grown;
    GrownNot(st.lm);
    if id in st.jobs && id in st.lm {
      var s := st.lm[id].serial;
      GrantNextObjects(st.(cleaning := st.cleaning - {s}, jobs := st.jobs - {id}), s, now);
    }
  }

  lemma VisitObjects(st: State, s: Serial, now: Time, t: Time)
    requires FreshId(st) !in st.lm
    ensures Grown(st.lm, Visit(st, s, now, t).lm)
  {
    hide Expire, Grown, Unclaimed, Overdue;
    GrownNot(st.lm);
    if Leased(st, s) {
      var id := st.leases[s];
      var l := Disowned(LeaseOn(st, s), now);
      var st1 := SetLease(st, id, l);
      GrownTouch(st.lm, id, l);
      ExpireObjects(st, s, t);
      ExpireObjects(st1, s, t);
      GrownTwice(st.lm, st1.lm, Expire(st1, s, t).lm);
    }
  }

  lemma ReleaseObjects(st: State, req: ReleaseReq, now: Time)
    requires FreshId(st) !in st.lm
    ensures Grown(st.lm, Release(st, req, now).lm)
  {
    hide Expire, Grown, ReleaseTarget;
    GrownNot(st.lm);
    if MayRelease(st, req) {
      ExpireObjects(st, ReleaseTarget(st, req).value, now);
    }
  }

  lemma AcquireObjects(st: State, req: AcquireReq, now: Time, idle: nat)
    requires Inv(st)
    ensures Grown(st.lm, Acquire(st, req, now, idle).0.lm)
  {
    FreshIsUnused(st);
    LeasesNamed(st, req.serial);
    hide Inv, Grown, Queue, ExplicitTTL;
    GrownNot(st.lm);
    GrownNew(st.lm, FreshId(st), NewLease(st.config, req, now, idle));
    if Leased(st, req.serial) {
      GrownTouch(st.lm, st.leases[req.serial], Renewed(st.config, LeaseOn(st, req.serial), req, now, idle));
    }
  }

  lemma AnyObjects(st: State, req: AcquireAnyReq, devs: seq<DeviceLine>, first: Serial, now: Time, idle: nat)
    requires Inv(st)
    ensures Grown(st.lm, AcquireAny(st, req, devs, first, now, idle).lm)
  {
    FreshIsUnused(st);
    hide Inv, Grown, FirstFree, StickyDevice, ExplicitTTL;
    GrownNot(st.lm);
    match StickyDevice(st, req.session, first)
    case Some(s) =>
      if Leased(st, s) {
        GrownTouch(st.lm, st.leases[s], Stuck(st.config, LeaseOn(st, s), req, now));
      }
    case None =>
      match FirstFree(devs, st.leases.Keys, st.cleaning.Keys, st.config.denySerials, req.usb, req.emulator)
      case Some(s) => GrownNew(st.lm, FreshId(st), NewLease(st.config, AnyReq(req, s), now, idle));
      case None =>
  }

  lemma ClaimObjects(st: State, wid: Id)
    requires wid in st.wm
    ensures Grown(st.lm, Claim(st, wid).lm)
  {
  }

  lemma PollObjects(st: State, ev: Event)
    requires ev.Polled? || ev.Woken? || ev.KeptFresh?
    ensures Grown(st.lm, Next(st, ev).lm)
  {
    hide Grown, Claim;
    GrownNot(st.lm);
    match ev
    case Polled(wid, now) => if wid in st.wm { ClaimObjects(SetPoll(st, wid, now), wid); }
    case Woken(wid) => if wid in st.wm { ClaimObjects(st, wid); }
    case _ =>
  }

  lemma BeatObjects(st: State, ev: Event)
    requires ev.Beat? || ev.CommandEnded? || ev.Collecting? || ev.Reloaded?
    ensures Grown(st.lm, Next(st, ev).lm)
  {
    hide Grown;
    GrownNot(st.lm);
    match ev
    case Beat(id, now) => if Live(st, id) { GrownTouch(st.lm, id, Beaten(st.lm[id], now)); }
    case CommandEnded(id, now) => if Live(st, id) { GrownTouch(st.lm, id, Ended(st.lm[id], now)); }
    case _ =>
  }

  lemma RestartObjects(st: State, pid: nat, now: Time)
    requires Inv(st)
    ensures Kept(st.lm, Restart(st, pid, now).lm)
  {
    assert forall id :: id in st.disk ==> InTable(st.leases, st.lm, id);
  }

  lemma FreshIsUnused(st: State)
    requires Inv(st)
    ensures FreshId(st) !in st.lm && FreshId(st) !in st.wm && !Issued(st, FreshId(st))
  {
    assert !Issued(st, FreshId(st));
  }

  lemma LeasesNamed(st: State, s: Serial)
    requires Inv(st)
    ensures Leased(st, s) ==> LeaseOn(st, s).serial == s
  {
  }

  /** What a critical section does to the lease objects. */
  lemma ObjectStep(st: State, ev: Event)
    requires Inv(st)
    ensures if ev.Restarted? then Kept(st.lm, Next(st, ev).lm)
            else if ev.BaselineStored? && Live(st, ev.lease)
            then Next(st, ev).lm == st.lm[ev.lease := st.lm[ev.lease].(baseline := ev.pkgs)]
            else Grown(st.lm, Next(st, ev).lm)
  {
    FreshIsUnused(st);
    hide Inv, Grown, Kept, Issued, Acquire, AcquireAny, Poll, Wake, SetPoll, Drop, Release, FinishCleanup, Visit,
        Collect, Restart;
    match ev
    case Acquiring(req, now, idle) => AcquireObjects(st, req, now, idle);
    case AcquiringAny(req, devs, first, now, idle) => AnyObjects(st, req, devs, first, now, idle);
    case Dropped(wid, now) => DropObjects(st, wid, now);
    case Releasing(req, now) => ReleaseObjects(st, req, now);
    case CleanupFinished(id, now) => FinishObjects(st, id, now);
    case Visiting(s, now, t) => VisitObjects(st, s, now, t);
    case Restarted(pid, now) => RestartObjects(st, pid, now);
    case BaselineStored(id, pkgs) => GrownNot(st.lm);
    case Polled(_, _) => PollObjects(st, ev);
    case Woken(_) => PollObjects(st, ev);
    case KeptFresh(_, _) => PollObjects(st, ev);
    case _ => BeatObjects(st, ev);
  }

  /** Within one daemon's life, an object stays, and stays with its device and session. */
  lemma ObjectStays(st: State, ev: Event, id: Id)
    requires Inv(st) && id in st.lm && !ev.Restarted?
    ensures id in Next(st, ev).lm
    ensures Next(st, ev).lm[id].serial == st.lm[id].serial && Next(st, ev).lm[id].session == st.lm[id].session
  {
    ObjectStep(st, ev);
    hide Inv, Next;
  }

  /** Only storing a listing for a live lease changes a baseline, restarts included. */
  lemma BaselineStep(st: State, ev: Event, id: Id)
    requires Inv(st) && id in Next(st, ev).lm
    ensures Next(st, ev).lm[id].baseline ==
              if ev.BaselineStored? && ev.lease == id && Live(st, id) then ev.pkgs
              else if id in st.lm then st.lm[id].baseline else []
  {
    ObjectStep(st, ev);
    hide Inv, Next;
  }

  // ---- new objects ----

  /** Every object that lm does not have is the lease of its device. */
  ghost predicate NewHolds(lm: map<Id, LeaseRec>, st: State) {
    forall id :: id in st.lm && id !in lm ==> Live(st, id)
  }

  lemma ServedNew(st: State, s: Serial, now: Time)
    requires Queue(st, s) != [] && Queue(st, s)[0] in st.wm
    ensures NewHolds(st.lm, ServeHead(st, s, now))
  {
    hide Filter, HandTo;
  }

  lemma GrantNextNew(st: State, s: Serial, now: Time)
    ensures NewHolds(st.lm, GrantNext(st, s, now))
  {
    hide GrantNext, DropStale, ServeHead, Queue, FreshId;
    GrantNextSplit(st, s, now);
    DropKeepsObjects(st, s, now);
    var st1 := DropStale(st, s, now);
    if Queue(st1, s) != [] {
      ServedNew(st1, s, now);
    }
  }

  lemma ExpireNew(st: State, s: Serial, now: Time)
    requires Leased(st, s)
    ensures NewHolds(st.lm, Expire(st, s, now))
  {
    hide GrantNext;
    GrantNextNew(st.(leases := st.leases - {s}), s, now);
  }

  lemma DropNew(st: State, wid: Id, now: Time)
    ensures NewHolds(st.lm, Drop(st, wid, now))
  {
    hide Expire, Filter, Queue;
    if wid in st.wm {
      var s := st.wm[wid].serial;
      var st1 := st.(registry := st.registry - {wid},
                     queues := SetQueue(st.queues, s, Filter(x => x != wid, Queue(st, s))));
      if Leased(st, s) && st.wm[wid].lease == Some(st.leases[s]) {
        ExpireNew(st1, s, now);
      }
    }
  }

  lemma FinishNew(st: State, id: Id, now: Time)
    ensures NewHolds(st.lm, FinishCleanup(st, id, now))
  {
    hide GrantNext;
    if id in st.jobs && id in st.lm {
      var s := st.lm[id].serial;
      GrantNextNew(st.(cleaning := st.cleaning - {s}, jobs := st.jobs - {id}), s, now);
    }
  }

  lemma VisitNew(st: State, s: Serial, now: Time, t: Time)
    ensures NewHolds(st.lm, Visit(st, s, now, t))
  {
    hide Expire, Unclaimed, Overdue, Disowned;
    if Leased(st, s) {
      ExpireNew(st, s, t);
      ExpireNew(SetLease(st, st.leases[s], Disowned(LeaseOn(st, s), now)), s, t);
    }
  }

  lemma ReleaseNew(st: State, req: ReleaseReq, now: Time)
    ensures NewHolds(st.lm, Release(st, req, now))
  {
    hide Expire, ReleaseTarget;
    if MayRelease(st, req) {
      ExpireNew(st, ReleaseTarget(st, req).value, now);
    }
  }

  lemma AcquireNew(st: State, req: AcquireReq, now: Time, idle: nat)
    ensures NewHolds(st.lm, Acquire(st, req, now, idle).0)
  {
    hide Queue, ExplicitTTL, Renewed;
  }

  lemma AnyNew(st: State, req: AcquireAnyReq, devs: seq<DeviceLine>, first: Serial, now: Time, idle: nat)
    ensures NewHolds(st.lm, AcquireAny(st, req, devs, first, now, idle))
  {
    hide FirstFree, StickyDevice, ExplicitTTL, Stuck;
  }

  lemma QuietNew(st: State, ev: Event)
    requires ev.Polled? || ev.Woken? || ev.KeptFresh? || ev.Beat? || ev.CommandEnded? || ev.BaselineStored?
      || ev.Collecting? || ev.Reloaded?
    ensures Next(st, ev).lm.Keys == st.lm.Keys
  {
    hide SetPoll, Beaten, Ended;
    if ev.Polled? || ev.KeptFresh? {
      assert SetPoll(st, ev.wid, ev.now).lm == st.lm && SetPoll(st, ev.wid, ev.now).wm.Keys == st.wm.Keys by {
        PollObjectsSame(st, ev.wid, ev.now);
      }
    }
  }

  lemma PollObjectsSame(st: State, wid: Id, now: Time)
    ensures SetPoll(st, wid, now).lm == st.lm && SetPoll(st, wid, now).wm.Keys == st.wm.Keys
  {
  }

  /** Within one daemon's life, a lease object is made only as the lease of its device. */
  lemma NewIsLive(st: State, ev: Event, id: Id)
    requires !ev.Restarted? && id in Next(st, ev).lm && id !in st.lm
    ensures Live(Next(st, ev), id)
  {
    hide Live, Acquire, AcquireAny, Poll, Wake, SetPoll, Drop, Release, FinishCleanup, Visit, Collect, Restart,
        Heartbeat, EndCommand, StoreBaseline;
    match ev
    case Acquiring(req, now, idle) => AcquireNew(st, req, now, idle);
    case AcquiringAny(req, devs, first, now, idle) => AnyNew(st, req, devs, first, now, idle);
    case Dropped(wid, now) => DropNew(st, wid, now);
    case Releasing(req, now) => ReleaseNew(st, req, now);
    case CleanupFinished(job, now) => FinishNew(st, job, now);
    case Visiting(s, now, t) => VisitNew(st, s, now, t);
    case _ => QuietNew(st, ev);
  }
}
