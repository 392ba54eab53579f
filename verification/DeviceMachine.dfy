/**
 * One device as a small machine: free, held by one session with a queue behind it, or being
 * cleaned with a queue behind it.  The broker's tables are shown to implement one such
 * machine for each serial, independent of the others.
 */
module DeviceMachine {
  import opened Basics
  import opened Records
  import opened Selection
  import opened BrokerModel
  import opened BrokerInvariant

  datatype Entry = Entry(id: Id, w: WaiterRec)

  datatype Device =
    | Free
    | Held(id: Id, lease: LeaseRec, queue: seq<Entry>)
    | Cleaning(job: Id, queue: seq<Entry>)

  datatype Op =
    | Stay
    | Arrive(req: AcquireReq, now: Time, idle: nat)
    | Stick(anyReq: AcquireAnyReq, now: Time)
    | PollBy(wid: Id, now: Time)
    | Leave(wid: Id)
    | ClaimLease
    | BeatLease(now: Time)
    | EndOne(now: Time)
    | Baseline(pkgs: seq<string>)
    | Revoke(now: Time)
    | Inspect(now: Time, t: Time)
    | Cleaned(now: Time)
    | Reboot(saved: Option<LeaseRec>, now: Time)

  /** What a step may use besides the device: the configuration, and the next unused ID. */
  datatype Env = Env(serial: Serial, config: Config, nextId: Id)

  // ---- the machine ----

  function StillPolling(now: Time): Entry -> bool {
    (e: Entry) => now - e.w.lastPoll <= STALE_WAITER
  }

  function SessionIsNot(session: Session): Entry -> bool {
    (e: Entry) => e.w.session != session
  }

  function CommandOf(session: Session): Entry -> bool {
    (e: Entry) => e.w.session == session && e.w.command
  }

  /** The device goes to the session of the first waiter still polling, with all its waiters at once. */
  function Handoff(q: seq<Entry>, env: Env, now: Time): Device {
    var alive := Filter(StillPolling(now), q);
    if alive == [] then Free else
      var head := alive[0].w;
      Held(env.nextId,
           QueueLease(env.config, env.serial, head, |Filter(CommandOf(head.session), alive)|, now),
           Filter(SessionIsNot(head.session), alive))
  }

  /** The holder is gone: clean up first if that is enabled and possible. */
  function Depart(id: Id, l: LeaseRec, q: seq<Entry>, env: Env, now: Time): Device {
    if env.config.cleanup && l.baseline != [] then Cleaning(id, q) else Handoff(q, env, now)
  }

  function Newcomer(env: Env, req: AcquireReq, now: Time, idle: nat): Entry {
    Entry(env.nextId, WaiterRec(req.serial, req.session, req.holder, req.command, idle, now, now, false, None))
  }

  function AfterPoll(wid: Id, now: Time): Entry -> Entry {
    (e: Entry) => if e.id == wid then Entry(e.id, e.w.(lastPoll := now)) else e
  }

  function NotNamed(wid: Id): Entry -> bool {
    (e: Entry) => e.id != wid
  }

  function MapQueue(f: Entry -> Entry, q: seq<Entry>): seq<Entry> {
    seq(|q|, i requires 0 <= i < |q| => f(q[i]))
  }

  function SetQueueOf(d: Device, q: seq<Entry>): Device {
    match d
    case Free => Free
    case Held(id, l, _) => Held(id, l, q)
    case Cleaning(job, _) => Cleaning(job, q)
  }

  function QueueOf(d: Device): seq<Entry> {
    if d.Free? then [] else d.queue
  }

  function Step(d: Device, op: Op, env: Env): Device {
    match op
    case Stay => d
    case Arrive(req, now, idle) => (
      match d
      case Free => Held(env.nextId, NewLease(env.config, req, now, idle), [])
      case Held(id, l, q) =>
        if l.session == req.session then Held(id, Renewed(env.config, l, req, now, idle), q)
        else Held(id, l, q + [Newcomer(env, req, now, idle)])
      case Cleaning(job, q) => Cleaning(job, q + [Newcomer(env, req, now, idle)])
    )
    case PollBy(wid, now) => SetQueueOf(d, MapQueue(AfterPoll(wid, now), QueueOf(d)))
    case Leave(wid) => SetQueueOf(d, Filter(NotNamed(wid), QueueOf(d)))
    case Cleaned(now) => if d.Cleaning? then Handoff(d.queue, env, now) else d
    case _ => if d.Held? then HolderStep(d.id, d.lease, d.queue, op, env) else if op.Reboot? then Free else d
  }

  /** The operations that concern a device's holder. */
  function HolderStep(id: Id, l: LeaseRec, q: seq<Entry>, op: Op, env: Env): Device {
    match op
    case Stick(req, now) => Held(id, Stuck(env.config, l, req, now), q)
    case ClaimLease => Held(id, l.(claimed := true), q)
    case BeatLease(now) => Held(id, Beaten(l, now), q)
    case EndOne(now) => Held(id, Ended(l, now), q)
    case Baseline(pkgs) => Held(id, l.(baseline := pkgs), q)
    case Revoke(now) => Depart(id, l, q, env, now)
    case Inspect(now, t) =>
      if Unclaimed(l, now) then Depart(id, l, q, env, t)
      else if Overdue(Disowned(l, now), now) then Depart(id, Disowned(l, now), q, env, t)
      else Held(id, Disowned(l, now), q)
    case Reboot(saved, now) => if saved.Some? then Held(id, Restored(saved.value, now), []) else Free
    case _ => Held(id, l, q)
  }

  // ---- the machine a broker state implements for a serial ----

  function Entries(wm: map<Id, WaiterRec>, q: seq<Id>): seq<Entry>
    requires forall id :: id in q ==> id in wm
  {
    seq(|q|, i requires 0 <= i < |q| => Entry(q[i], wm[q[i]]))
  }

  ghost predicate Readable(st: State, s: Serial) {
    forall id :: id in Queue(st, s) ==> id in st.wm
  }

  ghost function View(st: State, s: Serial): Device
    requires Readable(st, s)
  {
    if Leased(st, s) then Held(st.leases[s], LeaseOn(st, s), Entries(st.wm, Queue(st, s)))
    else if s in st.cleaning then Cleaning(st.cleaning[s], Entries(st.wm, Queue(st, s)))
    else Free
  }

  function EnvAt(st: State, s: Serial): Env {
    Env(s, st.config, FreshId(st))
  }

  /** What a critical section does to the device s. */
  ghost function OpAt(st: State, ev: Event, s: Serial): Op {
    match ev
    case Acquiring(req, now, idle) => if req.serial == s then Arrive(req, now, idle) else Stay
    case AcquiringAny(req, devs, first, now, idle) => (
      match StickyDevice(st, req.session, first)
      case Some(x) => if x == s then Stick(req, now) else Stay
      case None =>
        var pick := FirstFree(devs, st.leases.Keys, st.cleaning.Keys, st.config.denySerials, req.usb, req.emulator);
        if pick == Some(s) then Arrive(AnyReq(req, s), now, idle) else Stay
    )
    case Polled(wid, now) =>
      if wid !in st.registry || wid !in st.wm then Stay
      else if st.wm[wid].lease.Some? then ClaimAt(st, wid, s)
      else if st.wm[wid].serial == s then PollBy(wid, now) else Stay
    case Woken(wid) => if wid in st.wm && st.wm[wid].closed then ClaimAt(st, wid, s) else Stay
    case KeptFresh(wid, now) => if wid in st.wm && st.wm[wid].serial == s then PollBy(wid, now) else Stay
    case Dropped(wid, now) =>
      if wid !in st.wm || st.wm[wid].serial != s then Stay
      else if Leased(st, s) && st.wm[wid].lease == Some(st.leases[s]) then Revoke(now)
      else Leave(wid)
    case Beat(id, now) => if OwnerIs(st, s, id) then BeatLease(now) else Stay
    case CommandEnded(id, now) => if OwnerIs(st, s, id) then EndOne(now) else Stay
    case Releasing(req, now) => if MayRelease(st, req) && ReleaseTarget(st, req) == Some(s) then Revoke(now) else Stay
    case BaselineStored(id, pkgs) => if OwnerIs(st, s, id) then Baseline(pkgs) else Stay
    case CleanupFinished(id, now) =>
      if id in st.jobs && id in st.lm && st.lm[id].serial == s then Cleaned(now) else Stay
    case Visiting(x, now, t) => if x == s then Inspect(now, t) else Stay
    case Collecting(now) => Stay
    case Reloaded(config) => Stay
    case Restarted(pid, now) =>
      if pid in st.pids then Stay
      else if Leased(st, s) && st.leases[s] in st.disk then Reboot(Some(st.disk[st.leases[s]]), now)
      else Reboot(None, now)
  }

  predicate OwnerIs(st: State, s: Serial, id: Id) {
    s in st.leases && st.leases[s] == id && id in st.lm
  }

  function ClaimAt(st: State, wid: Id, s: Serial): Op
    requires wid in st.wm
  {
    if st.wm[wid].lease.Some? && OwnerIs(st, s, st.wm[wid].lease.value) then ClaimLease else Stay
  }

  // ---- refinement ----

  lemma Readables(st: State, s: Serial)
    requires QueuesWell(st.queues, st.registry, st.wm)
    ensures Readable(st, s)
    ensures forall id :: id in Queue(st, s) ==> Waits(st.registry, st.wm, s, id)
    ensures Distinct(Queue(st, s))
  {
  }

  lemma EntriesLast(wm: map<Id, WaiterRec>, q: seq<Id>)
    requires q != [] && forall id :: id in q ==> id in wm
    ensures forall id :: id in q[..|q| - 1] ==> id in wm
    ensures Entries(wm, q) == Entries(wm, q[..|q| - 1]) + [Entry(q[|q| - 1], wm[q[|q| - 1]])]
    ensures Entries(wm, q)[..|q| - 1] == Entries(wm, q[..|q| - 1])
  {
  }

  /** Filtering identifiers and filtering entries are the same. */
  lemma {:induction false} FilterEntries(wm: map<Id, WaiterRec>, q: seq<Id>, f: Id -> bool, g: Entry -> bool)
    requires forall id :: id in q ==> id in wm && f(id) == g(Entry(id, wm[id]))
    ensures Filter(g, Entries(wm, q)) == Entries(wm, Filter(f, q))
  {
    if q != [] {
      var front := q[..|q| - 1];
      var last := q[|q| - 1];
      EntriesLast(wm, q);
      FilterEntries(wm, front, f, g);
      if f(last) {
        EntriesLast(wm, Filter(f, front) + [last]);
        assert (Filter(f, front) + [last])[..|Filter(f, front)|] == Filter(f, front);
      }
    }
  }

  lemma EntriesSame(wm: map<Id, WaiterRec>, wm': map<Id, WaiterRec>, q: seq<Id>)
    requires forall id :: id in q ==> id in wm && id in wm' && wm'[id] == wm[id]
    ensures Entries(wm', q) == Entries(wm, q)
  {
  }

  function CommandIn(wm: map<Id, WaiterRec>, session: Session): Id -> bool {
    id => id in wm && wm[id].session == session && wm[id].command
  }

  /** The commands among a session's waiters, counted either way. */
  lemma CommandsSame(wm: map<Id, WaiterRec>, q: seq<Id>, session: Session)
    requires forall id :: id in q ==> id in wm
    ensures |Filter(IsCommand(wm), Filter(OfSession(wm, session), q))| == |Filter(CommandOf(session), Entries(wm, q))|
  {
    FilterTwice(OfSession(wm, session), IsCommand(wm), CommandIn(wm, session), q);
    FilterEntries(wm, q, CommandIn(wm, session), CommandOf(session));
  }

  /** A hand-off in the tables is a hand-off of the machine. */
  lemma HandoffRefines(st: State, s: Serial, now: Time)
    requires Core(st) && WorkingBut(st, {s}) && Vacant(st, s)
    ensures var st' := GrantNext(st, s, now);
            && Readable(st, s) && Readable(st', s)
            && View(st', s) == Handoff(Entries(st.wm, Queue(st, s)), EnvAt(st, s), now)
  {
    hide Core, WorkingBut, Filter, GrantNext, ServeHead, View;
    var st1 := DropStale(st, s, now);
    DropStaleKeeps(st, s, now);
    DropRefines(st, s, now);
    GrantNextSplit(st, s, now);
    if Queue(st1, s) != [] {
      ServeRefines(st1, s, now);
    } else {
      GrantNothing(st, s, now);
    }
  }

  lemma DropRefines(st: State, s: Serial, now: Time)
    requires Core(st)
    ensures var st1 := DropStale(st, s, now);
            && Readable(st, s) && Readable(st1, s)
            && Entries(st1.wm, Queue(st1, s)) == Filter(StillPolling(now), Entries(st.wm, Queue(st, s)))
            && Queue(st1, s) == Filter(Polling(st.wm, now), Queue(st, s))
            && FreshId(st1) == FreshId(st) && st1.config == st.config
  {
    Readables(st, s);
    var q := Queue(st, s);
    hide Core, Filter;
    FilterEntries(st.wm, q, Polling(st.wm, now), StillPolling(now));
    EntriesSame(st.wm, DropStale(st, s, now).wm, Filter(Polling(st.wm, now), q));
  }

  lemma GrantNothing(st: State, s: Serial, now: Time)
    requires Filter(Polling(st.wm, now), Queue(st, s)) == [] && Vacant(st, s)
    ensures var st' := GrantNext(st, s, now); Readable(st', s) && View(st', s) == Free
  {
  }

  lemma ServeRefines(st: State, s: Serial, now: Time)
    requires Core(st) && WorkingBut(st, {s}) && Vacant(st, s)
    requires Queue(st, s) != [] && Queue(st, s)[0] in st.wm && Readable(st, s)
    ensures var st' := ServeHead(st, s, now);
            var q := Entries(st.wm, Queue(st, s));
            var head := q[0].w;
            && Readable(st', s)
            && View(st', s) == Held(FreshId(st),
                 QueueLease(st.config, s, head, |Filter(CommandOf(head.session), q)|, now),
                 Filter(SessionIsNot(head.session), q))
  {
    var st' := ServeHead(st, s, now);
    ServeHeadKeeps(st, s, now);
    Readables(st', s);
    var q := Queue(st, s);
    var session := st.wm[q[0]].session;
    CommandsSame(st.wm, q, session);
    FilterEntries(st.wm, q, NotOfSession(st.wm, session), SessionIsNot(session));
    EntriesSame(st.wm, st'.wm, Filter(NotOfSession(st.wm, session), q));
    hide Core, WorkingBut, Filter;
  }

  // ---- other devices ----

  lemma DropFrame(st: State, s: Serial, x: Serial, now: Time)
    requires Core(st) && x != s
    ensures var st' := DropStale(st, s, now);
            Readable(st, x) && Readable(st', x) && View(st', x) == View(st, x)
  {
    Readables(st, x);
    Readables(st, s);
    EntriesSame(st.wm, DropStale(st, s, now).wm, Queue(st, x));
    hide Core, Filter;
  }

  lemma ServeFrame(st: State, s: Serial, x: Serial, now: Time)
    requires Core(st) && x != s && Queue(st, s) != [] && Queue(st, s)[0] in st.wm
    ensures var st' := ServeHead(st, s, now);
            Readable(st, x) && Readable(st', x) && View(st', x) == View(st, x)
  {
    hide Core, Filter, Entries;
    Readables2(st, s, x);
    EntriesSame(st.wm, ServeHead(st, s, now).wm, Queue(st, x));
  }

  /** The queues of two devices share no waiter, and a fresh ID names nothing. */
  lemma Readables2(st: State, s: Serial, x: Serial)
    requires Core(st) && x != s
    ensures Readable(st, x) && forall id :: id in Queue(st, x) ==> id !in Queue(st, s)
    ensures FreshId(st) !in st.lm && (x in st.leases ==> st.leases[x] in st.lm)
  {
    Readables(st, x);
    Readables(st, s);
    assert !Issued(st, FreshId(st));
  }

  lemma GrantNextFrame(st: State, s: Serial, x: Serial, now: Time)
    requires Core(st) && WorkingBut(st, {s}) && Vacant(st, s) && x != s
    ensures var st' := GrantNext(st, s, now);
            Readable(st, x) && Readable(st', x) && View(st', x) == View(st, x)
  {
    hide Core, WorkingBut, View;
    DropStaleKeeps(st, s, now);
    DropFrame(st, s, x, now);
    GrantNextSplit(st, s, now);
    var st1 := DropStale(st, s, now);
    if Queue(st1, s) != [] {
      ServeFrame(st1, s, x, now);
    }
  }

  lemma SaveView(st: State, x: Serial)
    requires Readable(st, x)
    ensures Readable(Save(st), x) && View(Save(st), x) == View(st, x)
    ensures EnvAt(Save(st), x) == EnvAt(st, x)
  {
  }

  /** Taking the lease of s back, and perhaps marking s as in cleanup. */
  lemma TakeBackView(st: State, s: Serial, x: Serial)
    requires Readable(st, x) && Leased(st, s)
    ensures var st1 := st.(leases := st.leases - {s});
            var st2 := st1.(cleaning := st1.cleaning[s := st.leases[s]], jobs := st1.jobs + {st.leases[s]});
            && Readable(st1, x) && Readable(st2, x)
            && EnvAt(st1, x) == EnvAt(st, x)
            && (x != s ==> View(st1, x) == View(st, x) && View(st2, x) == View(st, x))
            && (x == s ==> View(st2, s) == Cleaning(st.leases[s], Entries(st.wm, Queue(st, s))))
            && Queue(st1, x) == Queue(st, x)
  {
  }

  /** The end of a lease is the holder's departure, at its device and nowhere else. */
  lemma ExpireRefines(st: State, s: Serial, x: Serial, now: Time)
    requires Core(st) && WorkingBut(st, {}) && Leased(st, s)
    ensures var st' := Expire(st, s, now);
            && Readable(st, x) && Readable(st', x)
            && (x != s ==> View(st', x) == View(st, x))
            && (x == s ==>
                  View(st', s) == Depart(st.leases[s], LeaseOn(st, s), Entries(st.wm, Queue(st, s)), EnvAt(st, s), now))
  {
    var st1 := st.(leases := st.leases - {s});
    Readables(st, x);
    assert s !in st.cleaning;
    ExpireSplit(st, s, now);
    hide Core, WorkingBut, Filter, GrantNext, View, Save, Handoff, Expire;
    TakeBackView(st, s, x);
    if CleansUp(st, s) {
      SaveView(st1.(cleaning := st1.cleaning[s := st.leases[s]], jobs := st1.jobs + {st.leases[s]}), x);
    } else {
      if x == s {
        HandoffRefines(st1, s, now);
      } else {
        GrantNextFrame(st1, s, x, now);
      }
      SaveView(GrantNext(st1, s, now), x);
    }
  }

  // ---- each critical section ----

  lemma EnqueueView(st: State, req: AcquireReq, now: Time, idle: nat, x: Serial)
    requires Inv(st)
    requires req.serial in st.cleaning || (Leased(st, req.serial) && LeaseOn(st, req.serial).session != req.session)
    ensures var st' := Enqueue(st, req, now, idle);
            && Readable(st, x) && Readable(st', x)
            && View(st', x) == Step(View(st, x), if req.serial == x then Arrive(req, now, idle) else Stay, EnvAt(st, x))
  {
    Readables(st, x);
    assert !Issued(st, FreshId(st));
    assert FreshId(st) !in st.wm && (req.serial in st.cleaning ==> req.serial !in st.leases);
    hide Core, WorkingBut, SnapshotWell, Inv;
    EntriesSame(st.wm, Enqueue(st, req, now, idle).wm, Queue(st, x));
    EnqueueEntries(st, req, now, idle);
  }

  lemma EnqueueEntries(st: State, req: AcquireReq, now: Time, idle: nat)
    requires Readable(st, req.serial) && FreshId(st) !in st.wm
    ensures var st' := Enqueue(st, req, now, idle);
            Readable(st', req.serial) &&
            Entries(st'.wm, Queue(st', req.serial))
              == Entries(st.wm, Queue(st, req.serial)) + [Newcomer(EnvAt(st, req.serial), req, now, idle)]
  {
  }

  lemma GrantView(st: State, req: AcquireReq, now: Time, idle: nat, x: Serial)
    requires Inv(st)
    requires req.serial !in st.leases && req.serial !in st.cleaning
    ensures var st' := Grant(st, req, now, idle);
            && Readable(st, x) && Readable(st', x)
            && View(st', x) == Step(View(st, x), if req.serial == x then Arrive(req, now, idle) else Stay, EnvAt(st, x))
  {
    hide Inv, NewLease;
    ReadableNow(st, x);
    FreshNow(st);
    IdleHasNoQueue(st, req.serial);
    IdleHasNoQueue(st, x);
  }

  lemma FreshNow(st: State)
    requires Inv(st)
    ensures FreshId(st) !in st.lm && FreshId(st) !in st.wm
  {
    assert !Issued(st, FreshId(st));
  }

  lemma LeaseView(st: State, s: Serial, l: LeaseRec, x: Serial)
    requires Inv(st) && Leased(st, s)
    ensures var st' := SetLease(st, st.leases[s], l);
            && Readable(st, x) && Readable(st', x)
            && View(st', x) == if x == s then Held(st.leases[s], l, QueueOf(View(st, s))) else View(st, x)
  {
  }

  lemma ArriveRefines(st: State, req: AcquireReq, now: Time, idle: nat, x: Serial)
    requires Inv(st)
    ensures var st' := Acquire(st, req, now, idle).0;
            && Readable(st, x) && Readable(st', x)
            && View(st', x) == Step(View(st, x), if req.serial == x then Arrive(req, now, idle) else Stay, EnvAt(st, x))
  {
    Readables(st, x);
    assert req.serial in st.leases ==> Leased(st, req.serial);
    assert req.serial in st.cleaning ==> req.serial !in st.leases;
    hide Core, WorkingBut, SnapshotWell, Enqueue, Grant;
    if req.serial in st.cleaning || (Leased(st, req.serial) && LeaseOn(st, req.serial).session != req.session) {
      EnqueueView(st, req, now, idle, x);
    } else if Leased(st, req.serial) {
      LeaseView(st, req.serial, Renewed(st.config, LeaseOn(st, req.serial), req, now, idle), x);
    } else {
      GrantView(st, req, now, idle, x);
    }
  }

  lemma AnyRefines(st: State, req: AcquireAnyReq, devs: seq<DeviceLine>, first: Serial, now: Time, idle: nat, x: Serial)
    requires Inv(st)
    ensures var ev := AcquiringAny(req, devs, first, now, idle);
            && Readable(st, x) && Readable(Next(st, ev), x)
            && View(Next(st, ev), x) == Step(View(st, x), OpAt(st, ev, x), EnvAt(st, x))
  {
    Readables(st, x);
    hide Inv, Grant;
    match StickyDevice(st, req.session, first)
    case Some(s) =>
      assert Leased(st, s);
      LeaseView(st, s, Stuck(st.config, LeaseOn(st, s), req, now), x);
    case None =>
      var pick := FirstFree(devs, st.leases.Keys, st.cleaning.Keys, st.config.denySerials, req.usb, req.emulator);
      FirstFreeIsFree(devs, st.leases.Keys, st.cleaning.Keys, st.config.denySerials, req.usb, req.emulator);
      if pick.Some? {
        GrantView(st, AnyReq(req, pick.value), now, idle, x);
      }
  }

  lemma {:induction false} PollEntries(wm: map<Id, WaiterRec>, q: seq<Id>, wid: Id, now: Time)
    requires wid in wm && forall id :: id in q ==> id in wm
    ensures Entries(wm[wid := wm[wid].(lastPoll := now)], q) == MapQueue(AfterPoll(wid, now), Entries(wm, q))
  {
  }

  lemma PollRefines(st: State, wid: Id, now: Time, x: Serial)
    requires Inv(st) && wid in st.wm
    ensures var st' := SetPoll(st, wid, now);
            && Readable(st, x) && Readable(st', x)
            && View(st', x)
               == Step(View(st, x), if st.wm[wid].serial == x then PollBy(wid, now) else Stay, EnvAt(st, x))
  {
    hide Inv, Entries, AfterPoll, MapQueue;
    ReadableNow(st, x);
    IdleHasNoQueue(st, x);
    PollEntries(st.wm, Queue(st, x), wid, now);
    EntriesSame(st.wm, SetPoll(st, wid, now).wm, if st.wm[wid].serial != x then Queue(st, x) else []);
  }

  lemma ClaimRefines(st: State, wid: Id, x: Serial)
    requires Inv(st) && wid in st.wm
    ensures var st' := Claim(st, wid);
            && Readable(st, x) && Readable(st', x)
            && View(st', x) == Step(View(st, x), ClaimAt(st, wid, x), EnvAt(st, x))
  {
    hide Inv, Entries;
    ReadableNow(st, x);
    IdleHasNoQueue(st, x);
  }

  /** A closed or collected waiter is in no queue, so leaving the registry changes no device. */
  lemma RegistryView(st: State, ids: set<Id>, x: Serial)
    requires Readable(st, x)
    ensures var st' := st.(registry := ids); Readable(st', x) && View(st', x) == View(st, x)
  {
  }

  lemma PickUpRefines(st: State, wid: Id, now: Time, x: Serial)
    requires Inv(st) && wid in st.registry && wid in st.wm
    ensures var ev := Event.Polled(wid, now);
            && Readable(st, x) && Readable(Next(st, ev), x)
            && View(Next(st, ev), x) == Step(View(st, x), OpAt(st, ev, x), EnvAt(st, x))
  {
    hide Inv, Claim, View, SetPoll, Step, Readable, EnvAt;
    SetPollKeeps(st, wid, now);
    PollOfGranted(st, wid, now, x);
    PollRefines(st, wid, now, x);
    ClaimRefines(SetPoll(st, wid, now), wid, x);
    RegistryView(Claim(SetPoll(st, wid, now), wid), st.registry - {wid}, x);
  }

  /** A waiter that has its lease is in no queue; its poll changes no device. */
  lemma PollOfGranted(st: State, wid: Id, now: Time, x: Serial)
    requires Inv(st) && wid in st.wm
    ensures var st1 := SetPoll(st, wid, now);
            && wid in st1.wm && st1.wm[wid].lease == st.wm[wid].lease && st1.registry == st.registry
            && st1.leases == st.leases && st1.lm == st.lm
            && EnvAt(st1, x) == EnvAt(st, x)
            && Readable(st, x) && Readable(st1, x)
            && (st.wm[wid].lease.Some? ==> View(st1, x) == View(st, x))
  {
    Readables(st, x);
    var st1 := SetPoll(st, wid, now);
    if st.wm[wid].lease.Some? {
      assert wid !in Queue(st, x);
      EntriesSame(st.wm, st1.wm, Queue(st, x));
    }
    hide Core, WorkingBut, SnapshotWell, Inv;
  }

  lemma WakeRefines(st: State, wid: Id, x: Serial)
    requires Inv(st)
    ensures var ev := Woken(wid);
            && Readable(st, x) && Readable(Next(st, ev), x)
            && View(Next(st, ev), x) == Step(View(st, x), OpAt(st, ev, x), EnvAt(st, x))
  {
    Readables(st, x);
    hide Inv, Claim, View;
    if wid in st.wm && st.wm[wid].closed {
      ClaimRefines(st, wid, x);
      RegistryView(Claim(st, wid), st.registry - {wid}, x);
    }
  }

  lemma DropRefinesQueue(st: State, wid: Id, x: Serial)
    requires Inv(st) && wid in st.wm
    ensures var s := st.wm[wid].serial;
            var st1 := st.(registry := st.registry - {wid},
                           queues := SetQueue(st.queues, s, Filter(y => y != wid, Queue(st, s))));
            && Readable(st, x) && Readable(st1, x)
            && EnvAt(st1, x) == EnvAt(st, x) && st1.leases == st.leases && st1.lm == st.lm
            && (x != s ==> View(st1, x) == View(st, x))
            && (x == s ==> View(st1, s) == Step(View(st, s), Leave(wid), EnvAt(st, s)))
            && (x == s && st.wm[wid].lease.Some? ==> View(st1, s) == View(st, s))
  {
    hide Inv, Filter, Entries;
    var s := st.wm[wid].serial;
    ReadableNow(st, x);
    ReadableNow(st, s);
    FilterEntries(st.wm, Queue(st, s), y => y != wid, NotNamed(wid));
    QueueUnleased(st, wid);
    IdleHasNoQueue(st, s);
  }

  /** A waiter with a lease is in no queue. */
  lemma QueueUnleased(st: State, wid: Id)
    requires Inv(st) && wid in st.wm
    ensures var q := Queue(st, st.wm[wid].serial); st.wm[wid].lease.Some? ==> Filter(y => y != wid, q) == q
  {
    if st.wm[wid].lease.Some? {
      var s := st.wm[wid].serial;
      Readables(st, s);
      assert wid !in Queue(st, s);
      FilterAll(y => y != wid, Queue(st, s));
    }
  }

  lemma IdleHasNoQueue(st: State, s: Serial)
    requires Inv(st)
    ensures s !in st.leases && s !in st.cleaning ==> Queue(st, s) == []
    ensures s in st.leases ==> Leased(st, s)
  {
  }

  lemma DroppedRefines(st: State, wid: Id, now: Time, x: Serial)
    requires Inv(st)
    ensures var ev := Dropped(wid, now);
            && Readable(st, x) && Readable(Next(st, ev), x)
            && View(Next(st, ev), x) == Step(View(st, x), OpAt(st, ev, x), EnvAt(st, x))
  {
    hide Inv, Core, WorkingBut, View, Filter, Expire, EnvAt, Readable, Depart;
    ReadableNow(st, x);
    if wid in st.wm {
      var s := st.wm[wid].serial;
      var st1 := st.(registry := st.registry - {wid},
                     queues := SetQueue(st.queues, s, Filter(y => y != wid, Queue(st, s))));
      LeaveKeeps(st, wid);
      DropRefinesQueue(st, wid, x);
      if Leased(st, s) && st.wm[wid].lease == Some(st.leases[s]) {
        InvParts(st1);
        ViewOfLeased(st1, s);
        DropRefinesQueue(st, wid, s);
        ExpireRefines(st1, s, x, now);
      }
    }
  }

  lemma ReleaseRefines(st: State, req: ReleaseReq, now: Time, x: Serial)
    requires Inv(st)
    ensures var ev := Releasing(req, now);
            && Readable(st, x) && Readable(Next(st, ev), x)
            && View(Next(st, ev), x) == Step(View(st, x), OpAt(st, ev, x), EnvAt(st, x))
  {
    hide Inv, Core, WorkingBut, View, Expire, EnvAt, Readable, Depart, ReleaseTarget;
    ReadableNow(st, x);
    if MayRelease(st, req) {
      InvParts(st);
      ViewOfLeased(st, ReleaseTarget(st, req).value);
      ExpireRefines(st, ReleaseTarget(st, req).value, x, now);
    }
  }

  lemma OwnerLive(st: State, x: Serial, id: Id)
    requires Inv(st)
    ensures OwnerIs(st, x, id) <==> Live(st, id) && st.lm[id].serial == x
    ensures Live(st, id) ==> Leased(st, st.lm[id].serial) && st.leases[st.lm[id].serial] == id
  {
  }

  lemma UpkeepRefines(st: State, ev: Event, x: Serial)
    requires Inv(st) && (ev.Beat? || ev.CommandEnded? || ev.BaselineStored?)
    ensures && Readable(st, x) && Readable(Next(st, ev), x)
            && View(Next(st, ev), x) == Step(View(st, x), OpAt(st, ev, x), EnvAt(st, x))
  {
    hide Inv, Core, WorkingBut, Save, View, Readable, EnvAt, SetLease;
    var id := ev.lease;
    ReadableNow(st, x);
    OwnerLive(st, x, id);
    if Live(st, id) {
      var s := st.lm[id].serial;
      ViewOfLeased(st, s);
      match ev
      case Beat(_, now) => LeaseView(st, s, Beaten(st.lm[id], now), x);
      case CommandEnded(_, now) => LeaseView(st, s, Ended(st.lm[id], now), x);
      case BaselineStored(_, pkgs) =>
        LeaseView(st, s, st.lm[id].(baseline := pkgs), x);
        SaveView(SetLease(st, id, st.lm[id].(baseline := pkgs)), x);
    }
  }

  lemma ReadableNow(st: State, x: Serial)
    requires Inv(st)
    ensures Readable(st, x)
    ensures forall id :: id in Queue(st, x) ==> id in st.wm && st.wm[id].serial == x && Waits(st.registry, st.wm, x, id)
  {
  }

  lemma StopView(st: State, s: Serial, id: Id, x: Serial)
    requires Readable(st, x) && s in st.cleaning && s !in st.leases && st.cleaning[s] == id
    ensures var st1 := st.(cleaning := st.cleaning - {s}, jobs := st.jobs - {id});
            && Readable(st1, x) && EnvAt(st1, x) == EnvAt(st, x) && Queue(st1, x) == Queue(st, x)
            && (x != s ==> View(st1, x) == View(st, x))
            && (x == s ==> View(st, s) == Cleaning(id, Entries(st.wm, Queue(st, s))))
  {
  }

  lemma CleanupRefines(st: State, id: Id, now: Time, x: Serial)
    requires Inv(st)
    ensures var ev := CleanupFinished(id, now);
            && Readable(st, x) && Readable(Next(st, ev), x)
            && View(Next(st, ev), x) == Step(View(st, x), OpAt(st, ev, x), EnvAt(st, x))
  {
    hide Inv, Core, WorkingBut, Save, GrantNext, FinishCleanup, Filter, View, Handoff, EnvAt, Readable, Queue;
    ReadableNow(st, x);
    CleanupIdle(st, id, now);
    if id in st.jobs && id in st.lm {
      var s := st.lm[id].serial;
      var st1 := st.(cleaning := st.cleaning - {s}, jobs := st.jobs - {id});
      PassHere(st, id);
      FinishSplit(st, id, s, now);
      StopView(st, s, id, x);
      if x == s {
        HandoffRefines(st1, s, now);
      } else {
        GrantNextFrame(st1, s, x, now);
      }
      SaveView(GrantNext(st1, s, now), x);
    }
  }

  lemma CleanupIdle(st: State, id: Id, now: Time)
    ensures id !in st.jobs || id !in st.lm ==> FinishCleanup(st, id, now) == st
  {
  }

  lemma PassHere(st: State, id: Id)
    requires Inv(st) && id in st.jobs && id in st.lm
    ensures var s := st.lm[id].serial; s in st.cleaning && s !in st.leases && st.cleaning[s] == id
  {
  }

  lemma ViewOfLeased(st: State, s: Serial)
    requires Inv(st) && Leased(st, s)
    ensures Readable(st, s) && View(st, s) == Held(st.leases[s], LeaseOn(st, s), Entries(st.wm, Queue(st, s)))
  {
  }

  lemma InspectStep(id: Id, l: LeaseRec, q: seq<Entry>, now: Time, t: Time, env: Env)
    ensures Step(Held(id, l, q), Inspect(now, t), env) ==
            if Unclaimed(l, now) then Depart(id, l, q, env, t)
            else if Overdue(Disowned(l, now), now) then Depart(id, Disowned(l, now), q, env, t)
            else Held(id, Disowned(l, now), q)
  {
  }

  lemma SetLeaseParts(st: State, s: Serial, l: LeaseRec)
    requires Leased(st, s)
    ensures var st1 := SetLease(st, st.leases[s], l);
            && Leased(st1, s) && st1.leases == st.leases && LeaseOn(st1, s) == l && st1.wm == st.wm
            && Queue(st1, s) == Queue(st, s) && EnvAt(st1, s) == EnvAt(st, s)
  {
  }

  lemma InspectRefines(st: State, s: Serial, now: Time, t: Time, x: Serial)
    requires Inv(st)
    ensures var ev := Visiting(s, now, t);
            && Readable(st, x) && Readable(Next(st, ev), x)
            && View(Next(st, ev), x) == Step(View(st, x), OpAt(st, ev, x), EnvAt(st, x))
  {
    Readables(st, x);
    VisitSplit(st, s, now, t);
    if Leased(st, s) {
      var l := LeaseOn(st, s);
      var l' := Disowned(l, now);
      var st1 := SetLease(st, st.leases[s], l');
      Readables(st, s);
      ViewOfLeased(st, s);
      SetLeaseParts(st, s, l');
      InspectStep(st.leases[s], l, Entries(st.wm, Queue(st, s)), now, t, EnvAt(st, s));
      InvParts(st);
      hide Inv, Core, WorkingBut, Expire, Visit, View, Depart, Disowned, Unclaimed, Overdue, HolderStep, SetLease,
          EnvAt;
      LeaseView(st, s, l', x);
      if Unclaimed(l, now) {
        ExpireRefines(st, s, x, t);
      } else if Overdue(l', now) {
        InvParts(st1);
        ExpireRefines(st1, s, x, t);
      }
      if x == s {
        hide Step;
      }
    }
  }

  lemma RebootTable(st: State, pid: nat, now: Time, x: Serial)
    requires Inv(st) && pid !in st.pids
    ensures var st' := Restart(st, pid, now);
            && (Leased(st, x) ==>
                  && st.leases[x] in st.disk
                  && Leased(st', x) && st'.leases[x] == st.leases[x]
                  && LeaseOn(st', x) == Restored(st.disk[st.leases[x]], now))
            && (!Leased(st, x) ==> x !in st'.leases)
  {
  }

  lemma RebootRefines(st: State, pid: nat, now: Time, x: Serial)
    requires Inv(st)
    ensures var ev := Restarted(pid, now);
            && Readable(st, x) && Readable(Next(st, ev), x)
            && View(Next(st, ev), x) == Step(View(st, x), OpAt(st, ev, x), EnvAt(st, x))
  {
    hide Inv, Restart;
    ReadableNow(st, x);
    IdleHasNoQueue(st, x);
    RestartedTables(st, pid, now, x);
    if pid !in st.pids {
      RebootTable(st, pid, now, x);
    }
  }

  lemma RestartedTables(st: State, pid: nat, now: Time, x: Serial)
    ensures var st' := Restart(st, pid, now);
            if pid in st.pids then st' == st else Queue(st', x) == [] && x !in st'.cleaning
  {
  }

  /** Every critical section steps each device's machine by one operation, and leaves most alone. */
  lemma Refines(st: State, ev: Event, x: Serial)
    requires Inv(st)
    ensures && Inv(Next(st, ev))
            && Readable(st, x) && Readable(Next(st, ev), x)
            && View(Next(st, ev), x) == Step(View(st, x), OpAt(st, ev, x), EnvAt(st, x))
  {
    NextKeeps(st, ev);
    Readables(st, x);
    hide Inv, View;
    match ev
    case Acquiring(req, now, idle) => ArriveRefines(st, req, now, idle, x);
    case AcquiringAny(req, devs, first, now, idle) => AnyRefines(st, req, devs, first, now, idle, x);
    case Polled(wid, now) => if wid in st.registry && wid in st.wm { PickUpRefines(st, wid, now, x); }
    case Woken(wid) => WakeRefines(st, wid, x);
    case KeptFresh(wid, now) => if wid in st.wm { PollRefines(st, wid, now, x); }
    case Dropped(wid, now) => DroppedRefines(st, wid, now, x);
    case Beat(id, now) => UpkeepRefines(st, ev, x);
    case CommandEnded(id, now) => UpkeepRefines(st, ev, x);
    case Releasing(req, now) => ReleaseRefines(st, req, now, x);
    case BaselineStored(id, pkgs) => UpkeepRefines(st, ev, x);
    case CleanupFinished(id, now) => CleanupRefines(st, id, now, x);
    case Visiting(s, now, t) => InspectRefines(st, s, now, t, x);
    case Collecting(now) => RegistryView(st, Collect(st, now).registry, x);
    case Reloaded(config) => ReloadView(st, config, x);
    case Restarted(pid, now) => RebootRefines(st, pid, now, x);
  }

  lemma ReloadView(st: State, config: Config, x: Serial)
    requires Readable(st, x)
    ensures Readable(st.(config := config), x) && View(st.(config := config), x) == View(st, x)
  {
  }
}
