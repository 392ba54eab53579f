/**
 * What holds of the broker at every unlock point: its references never dangle, a
 * registered waiter is either queued once with an open channel or holds a lease, a device
 * is never both leased and in cleanup, no queue waits at an idle device, nobody queues behind their own
 * session, and the persisted snapshot names the owners.
 */
module BrokerInvariant {
  import opened Basics
  import opened Records
  import opened Selection
  import opened BrokerModel

  // ---- the clauses, each over the tables it speaks of ----

  ghost predicate LeasesWell(leases: map<Serial, Id>, lm: map<Id, LeaseRec>) {
    forall s :: s in leases ==> leases[s] in lm && lm[leases[s]].serial == s
  }

  /** A device is never both leased and in cleanup. */
  ghost predicate Exclusive(leases: map<Serial, Id>, cleaning: map<Serial, Id>) {
    forall s :: s in cleaning ==> s !in leases
  }

  /** Every object's identifier has been handed out; so a fresh one is unused. */
  ghost predicate Numbered(pids: set<nat>, pid: nat, counter: nat, lm: map<Id, LeaseRec>, wm: map<Id, WaiterRec>) {
    && pid in pids
    && (forall id :: id in lm ==> HandedOut(pids, pid, counter, id))
    && (forall id :: id in wm ==> HandedOut(pids, pid, counter, id))
  }

  /** Registered, ungranted, with an open channel. */
  ghost predicate Waits(registry: set<Id>, wm: map<Id, WaiterRec>, s: Serial, id: Id) {
    && id in registry
    && id in wm
    && wm[id].serial == s
    && wm[id].lease.None?
    && !wm[id].closed
  }

  ghost predicate QueueWell(q: seq<Id>, registry: set<Id>, wm: map<Id, WaiterRec>, s: Serial) {
    && q != []
    && Distinct(q)
    && (forall id :: id in q ==> Waits(registry, wm, s, id))
  }

  ghost predicate QueuesWell(queues: map<Serial, seq<Id>>, registry: set<Id>, wm: map<Id, WaiterRec>) {
    forall s :: s in queues ==> QueueWell(queues[s], registry, wm, s)
  }

  /** A registered waiter without a lease is in its serial's queue. */
  ghost predicate RegistryWell(queues: map<Serial, seq<Id>>, registry: set<Id>, wm: map<Id, WaiterRec>) {
    forall id :: id in registry ==>
      && id in wm
      && (wm[id].lease.None? ==> wm[id].serial in queues && id in queues[wm[id].serial])
  }

  /** A waiter's lease is one of its device and session, and the waiter has been woken. */
  ghost predicate GrantsWell(wm: map<Id, WaiterRec>, lm: map<Id, LeaseRec>) {
    forall id :: id in wm && wm[id].lease.Some? ==>
      && wm[id].closed
      && wm[id].lease.value in lm
      && lm[wm[id].lease.value].serial == wm[id].serial
      && lm[wm[id].lease.value].session == wm[id].session
  }

  ghost predicate Strangers(q: seq<Id>, wm: map<Id, WaiterRec>, session: Session) {
    forall id :: id in q && id in wm ==> wm[id].session != session
  }

  /** Nobody queues behind a lease of their own session. */
  ghost predicate NoSelfBlocking(queues: map<Serial, seq<Id>>, leases: map<Serial, Id>,
                                 wm: map<Id, WaiterRec>, lm: map<Id, LeaseRec>) {
    forall s :: s in queues && s in leases && leases[s] in lm ==>
      Strangers(queues[s], wm, lm[leases[s]].session)
  }

  /** One cleanup pass for each serial in cleanup, and no other. */
  ghost predicate PassesWell(cleaning: map<Serial, Id>, jobs: set<Id>, lm: map<Id, LeaseRec>) {
    && (forall s :: s in cleaning ==>
          cleaning[s] in jobs && cleaning[s] in lm && lm[cleaning[s]].serial == s)
    && (forall id :: id in jobs ==>
          id in lm && lm[id].serial in cleaning && cleaning[lm[id].serial] == id)
  }

  ghost predicate Core(st: State) {
    && LeasesWell(st.leases, st.lm)
    && Exclusive(st.leases, st.cleaning)
    && Numbered(st.pids, st.pid, st.counter, st.lm, st.wm)
    && QueuesWell(st.queues, st.registry, st.wm)
    && RegistryWell(st.queues, st.registry, st.wm)
    && GrantsWell(st.wm, st.lm)
    && NoSelfBlocking(st.queues, st.leases, st.wm, st.lm)
    && PassesWell(st.cleaning, st.jobs, st.lm)
  }

  /** A queue exists only at a device that is leased or in cleanup; `except` are devices being handed over. */
  ghost predicate Working(queues: map<Serial, seq<Id>>, leases: map<Serial, Id>, cleaning: map<Serial, Id>,
                          except: set<Serial>)
  {
    forall s :: s in queues && s !in except ==> s in leases || s in cleaning
  }

  ghost predicate WorkingBut(st: State, except: set<Serial>) {
    Working(st.queues, st.leases, st.cleaning, except)
  }

  ghost predicate SameOwner(a: LeaseRec, b: LeaseRec) {
    && a.serial == b.serial
    && a.session == b.session
    && a.holder == b.holder
    && a.acquiredAt == b.acquiredAt
    && a.baseline == b.baseline
  }

  /** The snapshot holds the live leases, with the same owners. */
  ghost predicate SnapshotWell(disk: map<Id, LeaseRec>, leases: map<Serial, Id>, lm: map<Id, LeaseRec>) {
    && (forall id :: id in disk <==> InTable(leases, lm, id))
    && (forall id :: id in disk && id in lm ==> SameOwner(disk[id], lm[id]))
  }

  ghost predicate Inv(st: State) {
    Core(st) && WorkingBut(st, {}) && SnapshotWell(st.disk, st.leases, st.lm)
  }

  // ---- building blocks ----

  lemma SaveKeeps(st: State)
    requires Core(st) && WorkingBut(st, {})
    ensures Inv(Save(st))
  {
  }

  /** Overwriting the changeable fields of any lease object, live or dead. */
  lemma SetLeaseKeeps(st: State, id: Id, l: LeaseRec)
    requires Inv(st) && id in st.lm
    requires SameOwner(st.lm[id], l)
    ensures Inv(SetLease(st, id, l))
  {
  }

  lemma NumberedSame(st: State, id: Id, l: LeaseRec)
    requires id in st.lm && Numbered(st.pids, st.pid, st.counter, st.lm, st.wm)
    ensures Numbered(st.pids, st.pid, st.counter, st.lm[id := l], st.wm)
  {
  }

  lemma SetPollKeeps(st: State, wid: Id, now: Time)
    requires Inv(st)
    ensures Inv(SetPoll(st, wid, now))
  {
  }

  /** A waiter with a lease may leave the registry at any time. */
  lemma UnregisterKeeps(st: State, ids: set<Id>)
    requires Inv(st)
    requires forall id :: id in ids && id in st.registry && id in st.wm ==> st.wm[id].lease.Some?
    ensures Inv(st.(registry := st.registry - ids))
  {
  }

  lemma EnqueueQueue(st: State, req: AcquireReq, now: Time, idle: nat)
    requires Numbered(st.pids, st.pid, st.counter, st.lm, st.wm)
    requires QueuesWell(st.queues, st.registry, st.wm) && RegistryWell(st.queues, st.registry, st.wm)
    ensures var st' := Enqueue(st, req, now, idle);
            QueuesWell(st'.queues, st'.registry, st'.wm) && RegistryWell(st'.queues, st'.registry, st'.wm)
  {
    var st' := Enqueue(st, req, now, idle);
    assert !Issued(st, FreshId(st));
    forall s | s in st'.queues
      ensures QueueWell(st'.queues[s], st'.registry, st'.wm, s)
    {
      var q := Queue(st, s);
      assert q != [] ==> QueueWell(q, st.registry, st.wm, s);
      assert FreshId(st) !in q;
    }
  }

  lemma EnqueueStrangers(st: State, req: AcquireReq, now: Time, idle: nat)
    requires Numbered(st.pids, st.pid, st.counter, st.lm, st.wm)
    requires QueuesWell(st.queues, st.registry, st.wm) && NoSelfBlocking(st.queues, st.leases, st.wm, st.lm)
    requires Leased(st, req.serial) ==> LeaseOn(st, req.serial).session != req.session
    ensures var st' := Enqueue(st, req, now, idle); NoSelfBlocking(st'.queues, st'.leases, st'.wm, st'.lm)
  {
  }

  lemma EnqueueKeeps(st: State, req: AcquireReq, now: Time, idle: nat)
    requires Inv(st)
    requires req.serial in st.cleaning || (Leased(st, req.serial) && LeaseOn(st, req.serial).session != req.session)
    ensures Inv(Enqueue(st, req, now, idle))
  {
    EnqueueQueue(st, req, now, idle);
    EnqueueStrangers(st, req, now, idle);
    hide QueuesWell, RegistryWell, NoSelfBlocking;
    assert !Issued(st, FreshId(st));
  }

  /** A fresh lease disturbs nothing that refers to the older ones. */
  lemma FreshLeaseFrame(st: State, s: Serial, l: LeaseRec)
    requires Numbered(st.pids, st.pid, st.counter, st.lm, st.wm)
    requires LeasesWell(st.leases, st.lm) && GrantsWell(st.wm, st.lm) && PassesWell(st.cleaning, st.jobs, st.lm)
    requires l.serial == s
    ensures var lm := st.lm[FreshId(st) := l];
            && LeasesWell(st.leases[s := FreshId(st)], lm) && GrantsWell(st.wm, lm)
            && PassesWell(st.cleaning, st.jobs, lm)
            && Numbered(st.pids, st.pid, st.counter + 1, lm, st.wm)
  {
  }

  lemma FreshLeaseStrangers(st: State, s: Serial, l: LeaseRec)
    requires Numbered(st.pids, st.pid, st.counter, st.lm, st.wm) && LeasesWell(st.leases, st.lm)
    requires NoSelfBlocking(st.queues, st.leases, st.wm, st.lm)
    requires s !in st.queues
    ensures NoSelfBlocking(st.queues, st.leases[s := FreshId(st)], st.wm, st.lm[FreshId(st) := l])
  {
  }

  /** Nobody queues at an idle device, so the free branch of an acquire overtakes nobody. */
  lemma GrantKeeps(st: State, req: AcquireReq, now: Time, idle: nat)
    requires Inv(st)
    requires req.serial !in st.leases && req.serial !in st.cleaning
    ensures Inv(Grant(st, req, now, idle))
  {
    hide QueuesWell, RegistryWell, SnapshotWell, NoSelfBlocking, GrantsWell, LeasesWell, PassesWell, Numbered, Save;
    var l := NewLease(st.config, req, now, idle);
    FreshLeaseFrame(st, req.serial, l);
    FreshLeaseStrangers(st, req.serial, l);
    var st1 := st.(counter := st.counter + 1, lm := st.lm[FreshId(st) := l],
                   leases := st.leases[req.serial := FreshId(st)]);
    SaveKeeps(st1);
  }

  // ---- hand-off ----

  /** A device nobody holds and no pass is cleaning: about to be handed over. */
  ghost predicate Vacant(st: State, s: Serial) {
    s !in st.leases && s !in st.cleaning
  }

  lemma DropStaleQueues(st: State, s: Serial, now: Time)
    requires QueuesWell(st.queues, st.registry, st.wm) && RegistryWell(st.queues, st.registry, st.wm)
    ensures var st' := DropStale(st, s, now);
            QueuesWell(st'.queues, st'.registry, st'.wm) && RegistryWell(st'.queues, st'.registry, st'.wm)
  {
    var st' := DropStale(st, s, now);
    var q := Queue(st, s);
    assert q != [] ==> QueueWell(q, st.registry, st.wm, s);
    FilterDistinct(Polling(st.wm, now), q);
    forall x | x in st'.queues
      ensures QueueWell(st'.queues[x], st'.registry, st'.wm, x)
    {
      if x != s {
        assert QueueWell(st.queues[x], st.registry, st.wm, x);
      }
    }
  }

  lemma DropStaleKeeps(st: State, s: Serial, now: Time)
    requires Core(st) && WorkingBut(st, {s}) && Vacant(st, s)
    ensures Core(DropStale(st, s, now)) && WorkingBut(DropStale(st, s, now), {s}) && Vacant(DropStale(st, s, now), s)
  {
    DropStaleQueues(st, s, now);
    hide QueuesWell, RegistryWell;
  }

  lemma ServeHeadQueues(st: State, s: Serial, now: Time)
    requires QueuesWell(st.queues, st.registry, st.wm) && RegistryWell(st.queues, st.registry, st.wm)
    requires Queue(st, s) != [] && Queue(st, s)[0] in st.wm
    ensures var st' := ServeHead(st, s, now);
            QueuesWell(st'.queues, st'.registry, st'.wm) && RegistryWell(st'.queues, st'.registry, st'.wm)
  {
    var st' := ServeHead(st, s, now);
    var q := Queue(st, s);
    assert QueueWell(q, st.registry, st.wm, s);
    FilterDistinct(NotOfSession(st.wm, st.wm[q[0]].session), q);
    forall x | x in st'.queues
      ensures QueueWell(st'.queues[x], st'.registry, st'.wm, x)
    {
      if x != s {
        assert QueueWell(st.queues[x], st.registry, st.wm, x);
      }
    }
  }

  lemma ServeHeadGrants(st: State, s: Serial, now: Time, lm: map<Id, LeaseRec>)
    requires QueuesWell(st.queues, st.registry, st.wm) && GrantsWell(st.wm, lm)
    requires Queue(st, s) != [] && Queue(st, s)[0] in st.wm
    requires FreshId(st) in lm && lm[FreshId(st)].serial == s
    requires lm[FreshId(st)].session == st.wm[Queue(st, s)[0]].session
    ensures GrantsWell(ServeHead(st, s, now).wm, lm)
  {
  }

  lemma ServeHeadStrangers(st: State, s: Serial, now: Time)
    requires Numbered(st.pids, st.pid, st.counter, st.lm, st.wm) && LeasesWell(st.leases, st.lm)
    requires NoSelfBlocking(st.queues, st.leases, st.wm, st.lm)
    requires Queue(st, s) != [] && Queue(st, s)[0] in st.wm
    ensures var st' := ServeHead(st, s, now); NoSelfBlocking(st'.queues, st'.leases, st'.wm, st'.lm)
  {
  }

  lemma ServeHeadKeeps(st: State, s: Serial, now: Time)
    requires Core(st) && WorkingBut(st, {s}) && Vacant(st, s)
    requires Queue(st, s) != [] && Queue(st, s)[0] in st.wm
    ensures Core(ServeHead(st, s, now)) && WorkingBut(ServeHead(st, s, now), {})
  {
    hide QueuesWell, RegistryWell, GrantsWell, NoSelfBlocking, LeasesWell, PassesWell, Filter;
    var st' := ServeHead(st, s, now);
    ServeHeadQueues(st, s, now);
    ServeHeadStrangers(st, s, now);
    FreshLeaseFrame(st, s, st'.lm[FreshId(st)]);
    ServeHeadGrants(st, s, now, st'.lm);
    assert st'.wm.Keys == st.wm.Keys;
  }

  lemma GrantNextKeeps(st: State, s: Serial, now: Time)
    requires Core(st) && WorkingBut(st, {s}) && Vacant(st, s)
    ensures Core(GrantNext(st, s, now)) && WorkingBut(GrantNext(st, s, now), {})
  {
    DropStaleKeeps(st, s, now);
    var st1 := DropStale(st, s, now);
    if Queue(st1, s) != [] {
      assert Queue(st1, s)[0] in Queue(st1, s);
      ServeHeadKeeps(st1, s, now);
    }
  }

  lemma ExpireKeeps(st: State, s: Serial, now: Time)
    requires Core(st) && WorkingBut(st, {}) && Leased(st, s)
    ensures Inv(Expire(st, s, now))
  {
    var st1 := st.(leases := st.leases - {s});
    if CleansUp(st, s) {
      var id := st.leases[s];
      SaveKeeps(st1.(cleaning := st1.cleaning[s := id], jobs := st1.jobs + {id}));
    } else {
      GrantNextKeeps(st1, s, now);
      SaveKeeps(GrantNext(st1, s, now));
    }
  }

  /** The end of a cleanup pass leaves its device vacant. */
  lemma StopCleaningKeeps(st: State, id: Id)
    requires Inv(st) && id in st.jobs && id in st.lm
    ensures var s := st.lm[id].serial;
            var st1 := st.(cleaning := st.cleaning - {s}, jobs := st.jobs - {id});
            Core(st1) && WorkingBut(st1, {s}) && Vacant(st1, s)
  {
  }

  lemma FinishCleanupKeeps(st: State, id: Id, now: Time)
    requires Inv(st)
    ensures Inv(FinishCleanup(st, id, now))
  {
    if id in st.jobs && id in st.lm {
      StopCleaningKeeps(st, id);
      var s := st.lm[id].serial;
      var st1 := st.(cleaning := st.cleaning - {s}, jobs := st.jobs - {id});
      hide Core;
      GrantNextKeeps(st1, s, now);
      SaveKeeps(GrantNext(st1, s, now));
    }
  }

  // ---- one critical section ----

  /** A waiter leaves its queue and the registry. */
  lemma LeaveKeeps(st: State, wid: Id)
    requires Inv(st) && wid in st.wm
    ensures var s := st.wm[wid].serial;
            var st1 := st.(registry := st.registry - {wid},
                           queues := SetQueue(st.queues, s, Filter(x => x != wid, Queue(st, s))));
            Inv(st1)
  {
    hide QueuesWell, RegistryWell, NoSelfBlocking, Filter, LeasesWell, GrantsWell, PassesWell, SnapshotWell, Numbered;
    LeaveQueues(st, wid);
    LeaveStrangers(st, wid);
  }

  lemma LeaveQueues(st: State, wid: Id)
    requires wid in st.wm
    requires QueuesWell(st.queues, st.registry, st.wm) && RegistryWell(st.queues, st.registry, st.wm)
    ensures var s := st.wm[wid].serial;
            var queues := SetQueue(st.queues, s, Filter(x => x != wid, Queue(st, s)));
            && QueuesWell(queues, st.registry - {wid}, st.wm) && RegistryWell(queues, st.registry - {wid}, st.wm)
            && (forall x :: x in queues ==> x in st.queues)
  {
    var s := st.wm[wid].serial;
    var q := Queue(st, s);
    FilterDistinct(x => x != wid, q);
    var queues := SetQueue(st.queues, s, Filter(x => x != wid, q));
    hide Filter;
    assert q != [] ==> QueueWell(q, st.registry, st.wm, s);
    forall x | x in queues
      ensures QueueWell(queues[x], st.registry - {wid}, st.wm, x)
    {
      if x != s {
        assert QueueWell(st.queues[x], st.registry, st.wm, x);
      }
    }
  }

  lemma LeaveStrangers(st: State, wid: Id)
    requires wid in st.wm && NoSelfBlocking(st.queues, st.leases, st.wm, st.lm)
    ensures var s := st.wm[wid].serial;
            NoSelfBlocking(SetQueue(st.queues, s, Filter(x => x != wid, Queue(st, s))), st.leases, st.wm, st.lm)
  {
  }

  lemma DropKeeps(st: State, wid: Id, now: Time)
    requires Inv(st)
    ensures Inv(Drop(st, wid, now))
  {
    if wid in st.wm {
      LeaveKeeps(st, wid);
      var s := st.wm[wid].serial;
      var st1 := st.(registry := st.registry - {wid},
                     queues := SetQueue(st.queues, s, Filter(x => x != wid, Queue(st, s))));
      hide Core, SnapshotWell;
      if Leased(st, s) && st.wm[wid].lease == Some(st.leases[s]) {
        ExpireKeeps(st1, s, now);
      }
    }
  }

  lemma ClaimKeeps(st: State, wid: Id)
    requires Inv(st) && wid in st.wm
    ensures Inv(Claim(st, wid))
  {
    if st.wm[wid].lease.Some? {
      var id := st.wm[wid].lease.value;
      SetLeaseKeeps(st, id, st.lm[id].(claimed := true));
    }
  }

  lemma PollKeeps(st: State, wid: Id, now: Time)
    requires Inv(st)
    ensures Inv(Poll(st, wid, now))
  {
    assert wid in st.registry ==> wid in st.wm;
    hide Inv;
    SetPollKeeps(st, wid, now);
    if wid in st.registry && st.wm[wid].lease.Some? {
      ClaimKeeps(SetPoll(st, wid, now), wid);
      UnregisterKeeps(Claim(SetPoll(st, wid, now), wid), {wid});
    }
  }

  /** A closed waiter that is registered holds a lease: a dropped one has left the registry. */
  lemma WakeKeeps(st: State, wid: Id)
    requires Inv(st)
    ensures Inv(Wake(st, wid))
  {
    if wid in st.wm && st.wm[wid].closed {
      ClaimKeeps(st, wid);
      assert wid in st.registry ==> st.wm[wid].lease.Some? by {
        assert forall x :: x in Queue(st, st.wm[wid].serial) ==> Waits(st.registry, st.wm, st.wm[wid].serial, x);
      }
      UnregisterKeeps(Claim(st, wid), {wid});
    }
  }

  lemma AcquireKeeps(st: State, req: AcquireReq, now: Time, idle: nat)
    requires Inv(st)
    ensures Inv(Acquire(st, req, now, idle).0)
  {
    if req.serial in st.cleaning {
      EnqueueKeeps(st, req, now, idle);
    } else if Leased(st, req.serial) {
      var id := st.leases[req.serial];
      if st.lm[id].session == req.session {
        SetLeaseKeeps(st, id, Renewed(st.config, st.lm[id], req, now, idle));
      } else {
        EnqueueKeeps(st, req, now, idle);
      }
    } else {
      GrantKeeps(st, req, now, idle);
    }
  }

  lemma AcquireAnyKeeps(st: State, req: AcquireAnyReq, devs: seq<DeviceLine>, first: Serial, now: Time, idle: nat)
    requires Inv(st)
    ensures Inv(AcquireAny(st, req, devs, first, now, idle))
  {
    match StickyDevice(st, req.session, first)
    case Some(s) =>
      if Leased(st, s) {
        SetLeaseKeeps(st, st.leases[s], Stuck(st.config, LeaseOn(st, s), req, now));
      }
    case None =>
      match FirstFree(devs, st.leases.Keys, st.cleaning.Keys, st.config.denySerials, req.usb, req.emulator)
      case Some(s) =>
        FirstFreeIsFree(devs, st.leases.Keys, st.cleaning.Keys, st.config.denySerials, req.usb, req.emulator);
        GrantKeeps(st, AnyReq(req, s), now, idle);
      case None =>
  }

  lemma StoreBaselineKeeps(st: State, id: Id, pkgs: seq<string>)
    requires Inv(st)
    ensures Inv(StoreBaseline(st, id, pkgs))
  {
    if Live(st, id) {
      hide Save, SnapshotWell, QueuesWell, RegistryWell, Numbered;
      var st1 := SetLease(st, id, st.lm[id].(baseline := pkgs));
      NumberedSame(st, id, st1.lm[id]);
      SaveKeeps(st1);
    }
  }

  lemma VisitKeeps(st: State, s: Serial, now: Time, t: Time)
    requires Inv(st)
    ensures Inv(Visit(st, s, now, t))
  {
    if Leased(st, s) {
      var l := LeaseOn(st, s);
      if Unclaimed(l, now) {
        ExpireKeeps(st, s, t);
      } else {
        SetLeaseKeeps(st, st.leases[s], Disowned(l, now));
        if Overdue(Disowned(l, now), now) {
          ExpireKeeps(SetLease(st, st.leases[s], Disowned(l, now)), s, t);
        }
      }
    }
  }

  lemma CollectKeeps(st: State, now: Time)
    requires Inv(st)
    ensures Inv(Collect(st, now))
  {
  }

  /** A lease in the snapshot is the only one of its device. */
  lemma OnDiskOnce(st: State, id: Id)
    requires Inv(st) && id in st.disk
    ensures OwnerOnDisk(st.disk, st.disk[id].serial) == id
    ensures st.disk[id].serial == st.lm[id].serial && st.leases[st.disk[id].serial] == id
  {
  }

  lemma RestartKeeps(st: State, pid: nat, now: Time)
    requires Inv(st)
    ensures Inv(Restart(st, pid, now))
  {
    if pid !in st.pids {
      var st' := Restart(st, pid, now);
      forall id | id in st.disk
        ensures OwnerOnDisk(st.disk, st.disk[id].serial) == id && HandedOut(st.pids, st.pid, st.counter, id)
      {
        OnDiskOnce(st, id);
      }
      hide SnapshotWell, Core;
      RestartedWell(st, st');
    }
  }

  lemma RestartedWell(st: State, st': State)
    requires forall id :: id in st.disk ==> HandedOut(st.pids, st.pid, st.counter, id)
    requires st'.pids == st.pids + {st'.pid} && st'.pid !in st.pids
    requires st'.lm.Keys == st.disk.Keys && st'.disk == st.disk
    requires forall id :: id in st.disk ==> SameOwner(st.disk[id], st'.lm[id]) && InTable(st'.leases, st'.lm, id)
    requires forall s :: s in st'.leases ==> st'.leases[s] in st.disk && st.disk[st'.leases[s]].serial == s
    requires st'.wm == map[] && st'.queues == map[] && st'.registry == {} && st'.cleaning == map[] && st'.jobs == {}
    ensures Inv(st')
  {
  }

  lemma ReloadKeeps(st: State, config: Config)
    requires Inv(st)
    ensures Inv(st.(config := config))
  {
  }

  // ---- the steps at their calls ----

  lemma InvParts(st: State)
    requires Inv(st)
    ensures Core(st) && WorkingBut(st, {})
  {
  }

  lemma CoreLeases(st: State)
    requires Core(st)
    ensures LeasesWell(st.leases, st.lm)
  {
  }

  lemma GrantNextSplit(st: State, s: Serial, now: Time)
    ensures var st1 := DropStale(st, s, now);
            && (Queue(st1, s) == [] ==> GrantNext(st, s, now) == st1)
            && (Queue(st1, s) != [] ==>
                  && Queue(st1, s)[0] in st1.wm
                  && GrantNext(st, s, now) == ServeHead(st1, s, now))
  {
    var st1 := DropStale(st, s, now);
    if Queue(st1, s) != [] {
      assert Queue(st1, s)[0] in Queue(st1, s);
    }
  }

  lemma ExpireSplit(st: State, s: Serial, now: Time)
    requires Core(st) && WorkingBut(st, {}) && Leased(st, s)
    ensures var st1 := st.(leases := st.leases - {s});
            var l := LeaseOn(st, s);
            && (if st.config.cleanup && |l.baseline| > 0 && s !in st.cleaning
                then Expire(st, s, now) == Save(st1.(cleaning := st1.cleaning[s := st.leases[s]],
                                                                 jobs := st1.jobs + {st.leases[s]}))
                else Expire(st, s, now) == Save(GrantNext(st1, s, now)))
            && Core(st1) && LeasesWell(st1.leases, st1.lm)
            && WorkingBut(st1, {s}) && Vacant(st1, s)
  {
  }

  lemma VisitSplit(st: State, s: Serial, now: Time, t: Time)
    requires Inv(st)
    ensures Inv(Visit(st, s, now, t))
    ensures !Leased(st, s) ==> Visit(st, s, now, t) == st
    ensures Leased(st, s) ==>
              var l := LeaseOn(st, s);
              var st1 := SetLease(st, st.leases[s], Disowned(l, now));
              && (Unclaimed(l, now) ==> Visit(st, s, now, t) == Expire(st, s, t))
              && (!Unclaimed(l, now) ==>
                    && Inv(st1) && Leased(st1, s)
                    && Visit(st, s, now, t) ==
                       if Overdue(Disowned(l, now), now) then Expire(st1, s, t) else st1)
  {
    hide Core, SnapshotWell;
    VisitKeeps(st, s, now, t);
    if Leased(st, s) {
      SetLeaseKeeps(st, st.leases[s], Disowned(LeaseOn(st, s), now));
    }
  }

  lemma FinishSplit(st: State, id: Id, s: Serial, now: Time)
    requires Inv(st) && id in st.jobs && id in st.lm && st.lm[id].serial == s
    ensures var st1 := st.(cleaning := st.cleaning - {s}, jobs := st.jobs - {id});
            && Core(st1) && WorkingBut(st1, {s}) && Vacant(st1, s)
            && FinishCleanup(st, id, now) == Save(GrantNext(st1, s, now))
    ensures Inv(FinishCleanup(st, id, now))
  {
    FinishCleanupKeeps(st, id, now);
    StopCleaningKeeps(st, id);
    hide Inv, Core, Save, GrantNext;
  }

  /** Every critical section keeps the invariant. */
  lemma NextKeeps(st: State, ev: Event)
    requires Inv(st)
    ensures Inv(Next(st, ev))
  {
    hide Core, SnapshotWell, WorkingBut;
    match ev
    case Acquiring(req, now, idle) => AcquireKeeps(st, req, now, idle);
    case AcquiringAny(req, devs, first, now, idle) => AcquireAnyKeeps(st, req, devs, first, now, idle);
    case Polled(wid, now) => PollKeeps(st, wid, now);
    case Woken(wid) => WakeKeeps(st, wid);
    case KeptFresh(wid, now) => SetPollKeeps(st, wid, now);
    case Dropped(wid, now) => DropKeeps(st, wid, now);
    case Beat(id, now) => if Live(st, id) { SetLeaseKeeps(st, id, Beaten(st.lm[id], now)); }
    case CommandEnded(id, now) => if Live(st, id) { SetLeaseKeeps(st, id, Ended(st.lm[id], now)); }
    case Releasing(req, now) =>
      var target := ReleaseTarget(st, req);
      if target.Some? && Leased(st, target.value) { ExpireKeeps(st, target.value, now); }
    case BaselineStored(id, pkgs) => StoreBaselineKeeps(st, id, pkgs);
    case CleanupFinished(id, now) => FinishCleanupKeeps(st, id, now);
    case Visiting(s, now, t) => VisitKeeps(st, s, now, t);
    case Collecting(now) => CollectKeeps(st, now);
    case Reloaded(config) => ReloadKeeps(st, config);
    case Restarted(pid, now) => RestartKeeps(st, pid, now);
  }

  /** The invariant holds after any run of critical sections. */
  lemma {:induction false} RunKeeps(st: State, evs: seq<Event>)
    requires Inv(st)
    ensures Inv(Run(st, evs))
  {
    if evs != [] {
      RunKeeps(st, evs[..|evs| - 1]);
      NextKeeps(Run(st, evs[..|evs| - 1]), evs[|evs| - 1]);
    }
  }

  lemma {:induction false} ReachableWell(pid: nat, config: Config, evs: seq<Event>)
    ensures Inv(Run(Init(pid, config), evs))
  {
    RunKeeps(Init(pid, config), evs);
  }
}
