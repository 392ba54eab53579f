/**
 * The running-command count of a lease against the commands clients have outstanding on it.
 */
module Commands {
  import opened Basics
  import opened Records
  import opened Selection
  import opened BrokerModel
  import opened BrokerInvariant
  import opened DeviceMachine
  import opened Handoffs
  import opened Recovery
  import opened Wakeups

  // ---- commands granted ----

  /** The commands whose waiters a critical section hands the lease id. */
  function NewlyServed(st: State, st': State, id: Id): set<Id> {
    set w | w in st.wm && w in st'.wm && st.wm[w].lease.None? && st'.wm[w].lease == Some(id) && st.wm[w].command
  }

  /** How many commands a critical section grants the lease id to. */
  ghost function CommandsGranted(st: State, ev: Event, id: Id): nat {
    |NewlyServed(st, Next(st, ev), id)|
      + if ev.Acquiring? && ev.req.command && Acquire(st, ev.req, ev.now, ev.idle).1 == Granted(id) then 1 else 0
  }

  /**
   * The commands outstanding on the lease id: those granted so far in a run, less the ends reported; an end reported
   * when none is outstanding ends nothing.
   */
  ghost function Outstanding(st: State, evs: seq<Event>, id: Id): nat {
    if evs == [] then 0 else
      var front := evs[..|evs| - 1];
      var ev := evs[|evs| - 1];
      var before := Outstanding(st, front, id);
      (if ev.CommandEnded? && ev.lease == id && before > 0 then before - 1 else before)
        + CommandsGranted(Run(st, front), ev, id)
  }

  ghost function TotalGranted(st: State, evs: seq<Event>, id: Id): nat {
    if evs == [] then 0 else
      TotalGranted(st, evs[..|evs| - 1], id) + CommandsGranted(Run(st, evs[..|evs| - 1]), evs[|evs| - 1], id)
  }

  ghost function TotalEnded(evs: seq<Event>, id: Id): nat {
    if evs == [] then 0 else
      var ev := evs[|evs| - 1];
      TotalEnded(evs[..|evs| - 1], id) + if ev.CommandEnded? && ev.lease == id then 1 else 0
  }

  /** Clients report the end of a command only when one is outstanding. */
  ghost predicate EndsMatched(st: State, evs: seq<Event>, id: Id) {
    evs != [] ==>
      var front := evs[..|evs| - 1];
      var ev := evs[|evs| - 1];
      EndsMatched(st, front, id) && (ev.CommandEnded? && ev.lease == id ==> Outstanding(st, front, id) > 0)
  }

  /**
   * The outstanding commands are at least the difference, and exactly the difference if and only if every end matched.
   */
  lemma {:induction false} OutstandingIsDifference(st: State, evs: seq<Event>, id: Id)
    ensures Outstanding(st, evs, id) >= TotalGranted(st, evs, id) - TotalEnded(evs, id)
    ensures Outstanding(st, evs, id) == TotalGranted(st, evs, id) - TotalEnded(evs, id) <==> EndsMatched(st, evs, id)
  {
    hide CommandsGranted, Run;
    if evs != [] {
      OutstandingIsDifference(st, evs[..|evs| - 1], id);
    }
  }

  // ---- a hand-off counts the commands it serves ----

  lemma {:induction false} DistinctCount(q: seq<Id>)
    requires Distinct(q)
    ensures |set x | x in q| == |q|
  {
    if q != [] {
      var front := q[..|q| - 1];
      DistinctCount(front);
      assert (set x | x in q) == (set x | x in front) + {q[|q| - 1]};
      assert q[|q| - 1] !in front;
    }
  }

  ghost predicate CountsServed(st: State, st': State) {
    FreshId(st) in st'.lm ==> st'.lm[FreshId(st)].running == |NewlyServed(st, st', FreshId(st))|
  }

  /** What the hand-off's served commands are, as a set. */
  lemma ServedCommands(st: State, s: Serial, now: Time)
    requires Queue(st, s) != [] && Queue(st, s)[0] in st.wm
    requires forall id :: id in Queue(st, s) ==> id in st.wm && st.wm[id].lease.None?
    requires forall id :: id in st.wm && st.wm[id].lease.Some? ==> st.wm[id].lease.value != FreshId(st)
    ensures var q := Queue(st, s);
            var served := Filter(OfSession(st.wm, st.wm[q[0]].session), q);
            NewlyServed(st, ServeHead(st, s, now), FreshId(st)) == set x | x in Filter(IsCommand(st.wm), served)
  {
  }

  lemma ServeCounts(st: State, s: Serial, now: Time)
    requires Distinct(Queue(st, s)) && Queue(st, s) != [] && Queue(st, s)[0] in st.wm
    requires forall id :: id in Queue(st, s) ==> id in st.wm && st.wm[id].lease.None?
    requires forall id :: id in st.wm && st.wm[id].lease.Some? ==> st.wm[id].lease.value in st.lm
    requires FreshId(st) !in st.lm
    ensures CountsServed(st, ServeHead(st, s, now))
  {
    hide Filter, Distinct, NewlyServed;
    var q := Queue(st, s);
    var served := Filter(OfSession(st.wm, st.wm[q[0]].session), q);
    FilterDistinct(OfSession(st.wm, st.wm[q[0]].session), q);
    FilterDistinct(IsCommand(st.wm), served);
    DistinctCount(Filter(IsCommand(st.wm), served));
    ServedCommands(st, s, now);
  }

  /** The states may differ in the tables that waiters do not see. */
  lemma CountsFrame(st: State, st1: State, st2: State, st': State)
    requires CountsServed(st1, st2)
    requires st1.wm == st.wm && FreshId(st1) == FreshId(st) && st'.wm == st2.wm && st'.lm == st2.lm
    ensures CountsServed(st, st')
  {
  }

  lemma GrantNextCounts(st: State, s: Serial, now: Time)
    requires Core(st) && FreshId(st) !in st.lm
    ensures CountsServed(st, GrantNext(st, s, now))
  {
    hide *;
    GrantNextSplit(st, s, now);
    DropCountsFacts(st, s, now);
    var st1 := DropStale(st, s, now);
    if Queue(st1, s) == [] {
      NoNewCounts(st, st1);
    } else {
      ServeCounts(st1, s, now);
      CountsCompose(st, st1, GrantNext(st, s, now));
    }
  }

  lemma GrantsLead(st: State)
    requires Core(st)
    ensures forall id :: id in st.wm && st.wm[id].lease.Some? ==> st.wm[id].lease.value in st.lm
  {
  }

  lemma DroppedQueue(st: State, s: Serial, now: Time)
    requires Core(st)
    ensures var q := Queue(DropStale(st, s, now), s);
            Distinct(q) && forall id :: id in q ==> id in st.wm && st.wm[id].lease.None?
  {
    Readables(st, s);
    hide Core, Filter, Distinct;
    FilterDistinct(Polling(st.wm, now), Queue(st, s));
  }

  lemma DropSameGrants(st: State, s: Serial, now: Time)
    ensures var st1 := DropStale(st, s, now);
            st1.lm == st.lm && FreshId(st1) == FreshId(st) && SameGrants(st.wm, st1.wm)
  {
    hide Filter;
  }

  lemma DropCountsFacts(st: State, s: Serial, now: Time)
    requires Core(st)
    ensures var st1 := DropStale(st, s, now);
            && st1.lm == st.lm && FreshId(st1) == FreshId(st) && SameGrants(st.wm, st1.wm)
            && Distinct(Queue(st1, s))
            && (forall id :: id in Queue(st1, s) ==> id in st1.wm && st1.wm[id].lease.None?)
            && (forall id :: id in st1.wm && st1.wm[id].lease.Some? ==> st1.wm[id].lease.value in st1.lm)
  {
    hide Core, Filter, Distinct, DropStale;
    GrantsLead(st);
    DroppedQueue(st, s, now);
    DropSameGrants(st, s, now);
  }

  ghost predicate SameGrants(wm: map<Id, WaiterRec>, wm1: map<Id, WaiterRec>) {
    && wm1.Keys == wm.Keys
    && (forall id :: id in wm ==> wm1[id].lease == wm[id].lease && wm1[id].command == wm[id].command)
  }

  lemma CountsCompose(st: State, st1: State, st': State)
    requires SameGrants(st.wm, st1.wm) && FreshId(st1) == FreshId(st) && CountsServed(st1, st')
    ensures CountsServed(st, st')
  {
    assert NewlyServed(st, st', FreshId(st)) == NewlyServed(st1, st', FreshId(st));
  }

  lemma ExpireCounts(st: State, s: Serial, now: Time)
    requires Core(st) && WorkingBut(st, {}) && Leased(st, s) && FreshId(st) !in st.lm
    ensures CountsServed(st, Expire(st, s, now))
  {
    ExpireSplit(st, s, now);
    hide Core, WorkingBut, GrantNext, CountsServed;
    var st1 := st.(leases := st.leases - {s});
    if CleansUp(st, s) {
      NoNewCounts(st, Expire(st, s, now));
    } else {
      GrantNextCounts(st1, s, now);
      CountsFrame(st, st1, GrantNext(st1, s, now), Expire(st, s, now));
    }
  }

  lemma NoNewCounts(st: State, st': State)
    requires FreshId(st) !in st'.lm
    ensures CountsServed(st, st')
  {
  }

  lemma FreshUnused(st: State)
    requires Inv(st)
    ensures FreshId(st) !in st.lm && FreshId(st) !in st.wm && !Issued(st, FreshId(st))
  {
  }

  lemma DropCounts(st: State, wid: Id, now: Time)
    requires Inv(st)
    ensures CountsServed(st, Drop(st, wid, now))
  {
    hide Inv, Core, WorkingBut, Expire, Filter, CountsServed;
    FreshUnused(st);
    if wid in st.wm {
      var s := st.wm[wid].serial;
      var st1 := st.(registry := st.registry - {wid},
                     queues := SetQueue(st.queues, s, Filter(x => x != wid, Queue(st, s))));
      LeaveKeeps(st, wid);
      if Leased(st, s) && st.wm[wid].lease == Some(st.leases[s]) {
        InvParts(st1);
        ExpireCounts(st1, s, now);
        CountsFrame(st, st1, Expire(st1, s, now), Drop(st, wid, now));
      } else {
        NoNewCounts(st, Drop(st, wid, now));
      }
    } else {
      NoNewCounts(st, st);
    }
  }

  lemma VisitCounts(st: State, s: Serial, now: Time, t: Time)
    requires Inv(st)
    ensures CountsServed(st, Visit(st, s, now, t))
  {
    hide Inv, Core, WorkingBut, Expire, Visit, Unclaimed, Overdue, Disowned, CountsServed;
    FreshUnused(st);
    VisitSplit(st, s, now, t);
    NoNewCounts(st, st);
    if Leased(st, s) {
      var st1 := SetLease(st, st.leases[s], Disowned(LeaseOn(st, s), now));
      NoNewCounts(st, st1);
      if Unclaimed(LeaseOn(st, s), now) {
        InvParts(st);
        ExpireCounts(st, s, t);
      } else if Overdue(Disowned(LeaseOn(st, s), now), now) {
        InvParts(st1);
        ExpireCounts(st1, s, t);
        CountsFrame(st, st1, Expire(st1, s, t), Visit(st, s, now, t));
      }
    }
  }

  lemma CleanupCounts(st: State, id: Id, now: Time)
    requires Inv(st)
    ensures CountsServed(st, FinishCleanup(st, id, now))
  {
    FreshUnused(st);
    NoNewCounts(st, st);
    if id in st.jobs && id in st.lm {
      var s := st.lm[id].serial;
      var st1 := st.(cleaning := st.cleaning - {s}, jobs := st.jobs - {id});
      hide Inv, Core, WorkingBut, GrantNext, FinishCleanup, CountsServed;
      StopCleaningKeeps(st, id);
      FinishSplit(st, id, s, now);
      GrantNextCounts(st1, s, now);
      CountsFrame(st, st1, GrantNext(st1, s, now), FinishCleanup(st, id, now));
    }
  }

  lemma ReleaseCounts(st: State, req: ReleaseReq, now: Time)
    requires Inv(st)
    ensures CountsServed(st, Release(st, req, now))
  {
    hide Inv, Core, WorkingBut, Expire;
    FreshUnused(st);
    InvParts(st);
    if MayRelease(st, req) {
      ExpireCounts(st, ReleaseTarget(st, req).value, now);
    }
  }

  lemma HandoffCounts(st: State, ev: Event)
    requires Inv(st) && !ev.Acquiring? && !ev.AcquiringAny? && !ev.Restarted?
    ensures CountsServed(st, Next(st, ev))
  {
    FreshUnused(st);
    hide Inv, CountsServed, Drop, Release, FinishCleanup, Visit;
    match ev
    case Dropped(wid, now) => DropCounts(st, wid, now);
    case Releasing(req, now) => ReleaseCounts(st, req, now);
    case CleanupFinished(id, now) => CleanupCounts(st, id, now);
    case Visiting(s, now, t) => VisitCounts(st, s, now, t);
    case _ => NoNewLease(st, ev);
  }

  lemma NoNewLease(st: State, ev: Event)
    requires FreshId(st) !in st.lm
    requires ev.Polled? || ev.Woken? || ev.KeptFresh? || ev.Beat? || ev.CommandEnded? || ev.BaselineStored?
      || ev.Collecting? || ev.Reloaded?
    ensures CountsServed(st, Next(st, ev))
  {
    var st' := Next(st, ev);
    assert FreshId(st) !in st'.lm by { hide NewlyServed, Save; }
    NoNewCounts(st, st');
  }

  // ---- one critical section ----

  /** How a step of the device that keeps its holder changes the holder's count. */
  function CountAfter(l: LeaseRec, op: Op): nat {
    match op
    case Arrive(req, _, _) => if l.session == req.session && req.command then l.running + 1 else l.running
    case EndOne(_) => if l.running > 0 then l.running - 1 else 0
    case Inspect(now, _) => Disowned(l, now).running
    case Reboot(_, _) => 0
    case _ => l.running
  }

  lemma StepCounts(d: Device, op: Op, env: Env)
    requires d.Held? && d.id != env.nextId
    requires Step(d, op, env).Held? && Step(d, op, env).id == d.id
    ensures Step(d, op, env).lease.running == CountAfter(d.lease, op)
  {
  }

  /** No waiter is handed a lease that was already there. */
  lemma NobodyJoins(st: State, ev: Event, id: Id)
    requires Inv(st) && Issued(st, id)
    ensures NewlyServed(st, Next(st, ev), id) == {}
  {
    assert !Issued(st, FreshId(st));
    if !ev.Restarted? {
      NoLostWakeup(st, ev);
    }
    RestartForgets(st, ev);
    hide Inv, Next;
  }

  lemma RestartForgets(st: State, ev: Event)
    ensures ev.Restarted? ==> Next(st, ev) == st || Next(st, ev).wm == map[]
  {
  }

  /** An acquire gets an existing lease just when it asks for that lease's device, from its session. */
  lemma RenewalReply(st: State, req: AcquireReq, now: Time, idle: nat, id: Id)
    requires Inv(st) && Live(st, id)
    ensures Acquire(st, req, now, idle).1 == Granted(id)
      <==> req.serial == st.lm[id].serial && req.session == st.lm[id].session
  {
  }

  lemma RenewalsCounted(st: State, ev: Event, id: Id)
    requires Inv(st) && Live(st, id)
    ensures var op := OpAt(st, ev, st.lm[id].serial);
            CommandsGranted(st, ev, id) ==
              if op.Arrive? && st.lm[id].session == op.req.session && op.req.command then 1 else 0
  {
    hide Inv, Issued, NewlyServed, Next, Acquire, StickyDevice, ReleaseTarget, MayRelease, FirstFree, OwnerIs;
    LiveIssued(st, id);
    NobodyJoins(st, ev, id);
    PickIsFree(st, ev, st.lm[id].serial);
    if ev.Acquiring? {
      RenewalReply(st, ev.req, ev.now, ev.idle, id);
    }
  }

  lemma LeaseNames(st: State, s: Serial)
    requires Inv(st)
    ensures s in st.leases ==> Leased(st, s) && st.lm[st.leases[s]].serial == s && s !in st.cleaning
  {
  }

  lemma LiveIssued(st: State, id: Id)
    requires Inv(st)
    ensures id in st.lm ==> Issued(st, id)
    ensures !Issued(st, FreshId(st))
  {
  }

  lemma PickIsFree(st: State, ev: Event, s: Serial)
    requires Leased(st, s)
    ensures ev.AcquiringAny? ==> !OpAt(st, ev, s).Arrive?
  {
    if ev.AcquiringAny? {
      FirstFreeIsFree(ev.devs, st.leases.Keys, st.cleaning.Keys, st.config.denySerials, ev.anyReq.usb,
          ev.anyReq.emulator);
    }
  }

  /** A lease that stays in the table stays at its device. */
  lemma SerialStays(st: State, ev: Event, id: Id)
    requires Inv(st) && Live(st, id) && Live(Next(st, ev), id)
    ensures Next(st, ev).lm[id].serial == st.lm[id].serial
  {
    var x := Next(st, ev).lm[id].serial;
    LiveIssued(st, id);
    NewHolderIsNew(st, ev, x);
    LeaseNames(st, x);
    hide Inv, Next;
  }

  // ---- a lease from its first moment on ----

  predicate Resets(st: State, ev: Event, id: Id)
    requires Live(st, id)
  {
    || (ev.Restarted? && ev.pid !in st.pids)
    || (ev.Visiting? && ev.serial == st.lm[id].serial && st.lm[id].running > 0
        && ev.now - st.lm[id].lastBeat > 60 * SECOND)
  }

  lemma OpCount(st: State, ev: Event, id: Id)
    requires Live(st, id) && OwnerIs(st, st.lm[id].serial, id)
    requires forall x :: OwnerIs(st, x, id) ==> x == st.lm[id].serial
    ensures var l := st.lm[id];
            var op := OpAt(st, ev, l.serial);
            CountAfter(l, op) ==
              if Resets(st, ev, id) then 0
              else (if ev.CommandEnded? && ev.lease == id then if l.running > 0 then l.running - 1 else 0
                  else l.running)
                   + if op.Arrive? && l.session == op.req.session && op.req.command then 1 else 0
  {
  }

  /** A critical section changes a lease's count by the commands it grants and the end it reports, or resets it to 0. */
  lemma CountStep(st: State, ev: Event, id: Id)
    requires Inv(st) && Live(st, id) && Live(Next(st, ev), id)
    ensures var n := st.lm[id].running;
            Next(st, ev).lm[id].running ==
              if Resets(st, ev, id) then 0
              else (if ev.CommandEnded? && ev.lease == id then if n > 0 then n - 1 else 0 else n)
                   + CommandsGranted(st, ev, id)
  {
    hide Inv, Next, Step, CommandsGranted, View, OpAt, Readable, CountAfter, Resets, EnvAt;
    var s := st.lm[id].serial;
    RenewalsCounted(st, ev, id);
    SerialStays(st, ev, id);
    Refines(st, ev, s);
    Owns(st, id);
    Owns(Next(st, ev), id);
    OpCount(st, ev, id);
    StepCounts(View(st, s), OpAt(st, ev, s), EnvAt(st, s));
  }

  /** A live lease, as its device's holder. */
  lemma Owns(st: State, id: Id)
    requires Inv(st) && Live(st, id)
    ensures var s := st.lm[id].serial;
            && OwnerIs(st, s, id) && Readable(st, s)
            && View(st, s).Held? && View(st, s).id == id && View(st, s).lease == st.lm[id]
            && EnvAt(st, s).nextId != id
    ensures forall x :: OwnerIs(st, x, id) ==> x == st.lm[id].serial
  {
  }

  /** A lease that appears in the table has the next identifier; a restart makes none appear. */
  lemma NewIdIsFresh(st: State, ev: Event, id: Id)
    requires Inv(st) && Live(Next(st, ev), id) && !Issued(st, id)
    ensures id == FreshId(st) && !ev.Restarted?
  {
    var x := Next(st, ev).lm[id].serial;
    Refines(st, ev, x);
    Owns(Next(st, ev), id);
    StepHolder(View(st, x), OpAt(st, ev, x), EnvAt(st, x));
    HolderIssued(st, x);
    RestartIssuesNothing(st, ev, id);
    hide Inv, Next, OpAt, Step, Issued;
  }

  lemma HolderIssued(st: State, x: Serial)
    requires Inv(st) && Readable(st, x)
    ensures View(st, x).Held? ==> Issued(st, View(st, x).id)
  {
  }

  lemma RestartIssuesNothing(st: State, ev: Event, id: Id)
    requires Inv(st)
    ensures ev.Restarted? && id in Next(st, ev).lm ==> Issued(st, id)
  {
  }

  lemma GrantStarts(st: State, req: AcquireReq, now: Time, idle: nat)
    requires Inv(st) && Live(Acquire(st, req, now, idle).0, FreshId(st))
    ensures var ev := Acquiring(req, now, idle);
            Next(st, ev).lm[FreshId(st)].running == CommandsGranted(st, ev, FreshId(st))
  {
    LiveIssued(st, FreshId(st));
    NobodyWaits(st, Acquiring(req, now, idle));
  }

  lemma AnyStarts(st: State, ev: Event)
    requires Inv(st) && ev.AcquiringAny? && Live(Next(st, ev), FreshId(st))
    ensures Next(st, ev).lm[FreshId(st)].running == CommandsGranted(st, ev, FreshId(st))
  {
    LiveIssued(st, FreshId(st));
    NobodyWaits(st, ev);
  }

  /** An acquire hands no lease to a waiter. */
  lemma NobodyWaits(st: State, ev: Event)
    requires ev.Acquiring? || ev.AcquiringAny?
    ensures NewlyServed(st, Next(st, ev), FreshId(st)) == {}
  {
  }

  /** A lease handed out by this critical section starts with the commands it was granted to. */
  lemma CountStart(st: State, ev: Event, id: Id)
    requires Inv(st) && !Issued(st, id) && Live(Next(st, ev), id)
    ensures Next(st, ev).lm[id].running == CommandsGranted(st, ev, id)
  {
    NewIdIsFresh(st, ev, id);
    if ev.Acquiring? {
      GrantStarts(st, ev.req, ev.now, ev.idle);
    } else if ev.AcquiringAny? {
      AnyStarts(st, ev);
    } else {
      HandoffCounts(st, ev);
      hide Inv, Next, NewlyServed;
    }
  }

  // ---- over runs ----

  /** Nobody has commands outstanding on an identifier not handed out yet. */
  lemma NothingBefore(st: State, ev: Event, id: Id)
    requires Inv(st) && !Issued(Next(st, ev), id)
    ensures CommandsGranted(st, ev, id) == 0
  {
    NextKeeps(st, ev);
    var st' := Next(st, ev);
    LiveIssued(st', id);
    assert forall w :: w in st'.wm && st'.wm[w].lease == Some(id) ==> id in st'.lm;
    assert NewlyServed(st, st', id) == {} by { hide Inv, Next; }
    if ev.Acquiring? {
      GrantedIsIssued(st, ev.req, ev.now, ev.idle, id);
    }
  }

  lemma GrantedIsIssued(st: State, req: AcquireReq, now: Time, idle: nat, id: Id)
    requires Inv(st)
    ensures Acquire(st, req, now, idle).1 == Granted(id) ==> Issued(Acquire(st, req, now, idle).0, id)
  {
  }

  /**
   * In every run, restarts, orphan resets and stray ends included, a lease never counts more commands than are
   * outstanding.
   */
  lemma {:induction false} RunningBounded(st: State, evs: seq<Event>, id: Id)
    requires Inv(st) && !Issued(st, id)
    ensures !Issued(Run(st, evs), id) ==> Outstanding(st, evs, id) == 0
    ensures Live(Run(st, evs), id) ==> Run(st, evs).lm[id].running <= Outstanding(st, evs, id)
  {
    RunKeeps(st, evs);
    LiveIssued(Run(st, evs), id);
    LiveIssued(st, id);
    if evs != [] {
      var front := evs[..|evs| - 1];
      var ev := evs[|evs| - 1];
      var before := Run(st, front);
      RunningBounded(st, front, id);
      RunKeeps(st, front);
      hide Inv, Issued, Live, Next, CommandsGranted;
      RunningStep(before, ev, id);
    }
  }

  lemma RunningStep(st: State, ev: Event, id: Id)
    requires Inv(st)
    ensures !Issued(Next(st, ev), id) ==> !Issued(st, id) && CommandsGranted(st, ev, id) == 0
    ensures Live(Next(st, ev), id) ==>
              if Live(st, id) then
                Next(st, ev).lm[id].running ==
                  if Resets(st, ev, id) then 0
                  else (if ev.CommandEnded? && ev.lease == id then
                          if st.lm[id].running > 0 then st.lm[id].running - 1 else 0
                        else st.lm[id].running)
                       + CommandsGranted(st, ev, id)
              else !Issued(st, id) && Next(st, ev).lm[id].running == CommandsGranted(st, ev, id)
  {
    if !Issued(Next(st, ev), id) {
      NothingBefore(st, ev, id);
      if Issued(st, id) { IssuedStays(st, ev, id); }
    }
    if Live(Next(st, ev), id) {
      if Live(st, id) {
        CountStep(st, ev, id);
      } else {
        if Issued(st, id) { DeadStaysDead(st, ev, id); }
        CountStart(st, ev, id);
      }
    }
  }

  /** No restart, and no tick that finds the lease's commands silent for more than a minute. */
  ghost predicate KeptAlive(st: State, evs: seq<Event>, id: Id) {
    evs != [] ==>
      var before := Run(st, evs[..|evs| - 1]);
      KeptAlive(st, evs[..|evs| - 1], id) && (Live(before, id) ==> !Resets(before, evs[|evs| - 1], id))
  }

  lemma NotYetLive(st: State, evs: seq<Event>, id: Id)
    requires Inv(st) && !Issued(st, id) && evs == []
    ensures !Live(Run(st, evs), id)
  {
  }

  lemma OneMore(st: State, evs: seq<Event>, id: Id)
    requires evs != []
    ensures var front := evs[..|evs| - 1];
            var ev := evs[|evs| - 1];
            var before := Run(st, front);
            && Run(st, evs) == Next(before, ev)
            && (var n := Outstanding(st, front, id);
                Outstanding(st, evs, id) == (if ev.CommandEnded? && ev.lease == id && n > 0 then n - 1 else n)
                                            + CommandsGranted(before, ev, id))
            && (KeptAlive(st, evs, id) ==> KeptAlive(st, front, id) && (Live(before, id) ==> !Resets(before, ev, id)))
  {
  }

  /** In one daemon's life, a lease kept alive counts exactly the commands outstanding on it. */
  lemma {:induction false} RunningExact(st: State, evs: seq<Event>, id: Id)
    requires Inv(st) && !Issued(st, id) && KeptAlive(st, evs, id)
    ensures Live(Run(st, evs), id) ==> Run(st, evs).lm[id].running == Outstanding(st, evs, id)
  {
    hide *;
    if evs == [] {
      NotYetLive(st, evs, id);
    } else {
      var front := evs[..|evs| - 1];
      OneMore(st, evs, id);
      RunningBounded(st, front, id);
      RunningExact(st, front, id);
      RunKeeps(st, front);
      RunningStep(Run(st, front), evs[|evs| - 1], id);
    }
  }

  /** The reaper passes over a claimed lease whose commands beat within the last minute. */
  lemma BusyIsSpared(st: State, id: Id, s: Serial, now: Time, t: Time)
    requires Inv(st) && Live(st, id)
    requires st.lm[id].claimed && st.lm[id].running > 0 && now - st.lm[id].lastBeat <= 60 * SECOND
    ensures var st' := Visit(st, s, now, t);
            Live(st', id) && st'.lm[id] == st.lm[id]
  {
    var x := st.lm[id].serial;
    Owns(st, id);
    Refines(st, Visiting(s, now, t), x);
    VisitIsNext(st, s, now, t);
    HeldIsLive(Visit(st, s, now, t), x);
    hide Inv, Next, Visit, Readable, View, OpAt, Step, Live;
    SparedStep(st, View(st, x), s, now, t, x);
  }

  lemma VisitIsNext(st: State, s: Serial, now: Time, t: Time)
    ensures Next(st, Visiting(s, now, t)) == Visit(st, s, now, t)
  {
  }

  lemma SparedStep(st: State, d: Device, s: Serial, now: Time, t: Time, x: Serial)
    requires d.Held? && d.lease.claimed && d.lease.running > 0 && now - d.lease.lastBeat <= 60 * SECOND
    ensures Step(d, OpAt(st, Visiting(s, now, t), x), EnvAt(st, x)) == d
  {
  }

  lemma HeldIsLive(st: State, x: Serial)
    requires Inv(st) && Readable(st, x)
    ensures View(st, x).Held? ==> Live(st, View(st, x).id) && View(st, x).lease == st.lm[View(st, x).id]
  {
  }

  /**
   * Nobody releases the lease and no daemon dies while it is live; and every tick that looks at its device finds it
   * claimed, with a command outstanding and a heartbeat within the last minute.
   */
  ghost predicate Attended(st: State, evs: seq<Event>, id: Id) {
    evs != [] ==>
      var front := evs[..|evs| - 1];
      var before := Run(st, front);
      Attended(st, front, id)
          && (Live(before, id) ==> AttendedAt(before, evs[|evs| - 1], id, Outstanding(st, front, id)))
  }

  ghost predicate AttendedAt(st: State, ev: Event, id: Id, outstanding: nat)
    requires Live(st, id)
  {
    var l := st.lm[id];
    && !(ev.Restarted? && ev.pid !in st.pids)
    && !OpAt(st, ev, l.serial).Revoke?
    && (ev.Visiting? && ev.serial == l.serial ==> l.claimed && outstanding > 0 && ev.now - l.lastBeat <= 60 * SECOND)
  }

  lemma StepHolds(d: Device, op: Op, env: Env)
    requires d.Held? && !op.Revoke? && !op.Reboot?
    requires op.Inspect? ==> d.lease.claimed && d.lease.running > 0 && op.now - d.lease.lastBeat <= 60 * SECOND
    ensures Step(d, op, env).Held? && Step(d, op, env).id == d.id
  {
  }

  lemma AttendedOp(st: State, ev: Event, id: Id, outstanding: nat)
    requires Live(st, id) && AttendedAt(st, ev, id, outstanding)
    ensures var op := OpAt(st, ev, st.lm[id].serial);
            && !op.Revoke? && !op.Reboot?
            && (op.Inspect? ==> st.lm[id].claimed && outstanding > 0 && op.now - st.lm[id].lastBeat <= 60 * SECOND)
    ensures !Resets(st, ev, id)
  {
    hide StickyDevice, FirstFree, ReleaseTarget, MayRelease;
  }

  lemma AttendedStep(st: State, ev: Event, id: Id)
    requires Inv(st) && Live(st, id) && AttendedAt(st, ev, id, st.lm[id].running)
    ensures Live(Next(st, ev), id)
  {
    hide Inv, Next, Step, View, OpAt, EnvAt, Readable, AttendedAt;
    var s := st.lm[id].serial;
    AttendedOp(st, ev, id, st.lm[id].running);
    Refines(st, ev, s);
    Owns(st, id);
    StepHolds(View(st, s), OpAt(st, ev, s), EnvAt(st, s));
    HeldIsLive(Next(st, ev), s);
  }

  lemma AttendedMore(st: State, evs: seq<Event>, id: Id)
    requires evs != [] && Attended(st, evs, id)
    ensures var front := evs[..|evs| - 1];
            var before := Run(st, front);
            && Run(st, evs) == Next(before, evs[|evs| - 1]) && Attended(st, front, id)
            && (Live(before, id) ==> AttendedAt(before, evs[|evs| - 1], id, Outstanding(st, front, id)))
  {
    hide Live, AttendedAt, Outstanding;
  }

  lemma {:induction false} AttendedIsKeptAlive(st: State, evs: seq<Event>, id: Id)
    requires Attended(st, evs, id)
    ensures KeptAlive(st, evs, id)
  {
    hide Live, AttendedAt, Outstanding, Resets;
    if evs != [] {
      var front := evs[..|evs| - 1];
      AttendedMore(st, evs, id);
      AttendedIsKeptAlive(st, front, id);
      if Live(Run(st, front), id) {
        AttendedOp(Run(st, front), evs[|evs| - 1], id, Outstanding(st, front, id));
      }
    }
  }

  /**
   * A live holder is never reaped: over any run in which nobody releases the lease and no daemon dies, and in which
   * every tick finds it claimed, beaten within the last minute and with a command outstanding, a lease live at any
   * moment is live at the end.
   */
  lemma {:induction false} LiveHolderKept(st: State, evs: seq<Event>, id: Id, k: nat)
    requires Inv(st) && !Issued(st, id) && Attended(st, evs, id)
    requires k <= |evs| && Live(Run(st, evs[..k]), id)
    ensures Live(Run(st, evs), id)
  {
    hide *;
    if k == |evs| {
      assert evs[..k] == evs;
    } else {
      var front := evs[..|evs| - 1];
      assert front[..k] == evs[..k];
      AttendedMore(st, evs, id);
      LiveHolderKept(st, front, id, k);
      AttendedIsKeptAlive(st, front, id);
      RunningExact(st, front, id);
      RunKeeps(st, front);
      AttendedStep(Run(st, front), evs[|evs| - 1], id);
    }
  }
}
