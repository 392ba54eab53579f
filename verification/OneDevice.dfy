/** Acquire-any: which device it picks, and why a session that only ever uses it never holds two. */
module OneDevice {
  import opened Basics
  import opened Records
  import opened Selection
  import opened BrokerModel
  import opened BrokerInvariant
  import opened DeviceMachine
  import opened Handoffs
  import opened Commands
  import opened LeaseObjects

  // ---- the pick ----

  /**
   * The pick is the first listed device that suits and is free, and there is none exactly when no such device exists.
   */
  lemma {:induction false} FirstFreeIsFirst(devs: seq<DeviceLine>, held: set<Serial>, cleaning: set<Serial>,
                                            deny: seq<string>, usb: bool, emulator: bool)
    ensures var pick := FirstFree(devs, held, cleaning, deny, usb, emulator);
            && (pick.Some? ==>
                  exists i: nat ::
                    FirstAt(devs, held, cleaning, deny, usb, emulator, i) && devs[i].serial == pick.value)
            && (pick.None? <==> AllBusy(devs, held, cleaning, deny, usb, emulator))
  {
    if devs != [] {
      SuitsExactly(devs[0], deny, usb, emulator);
      var pick := FirstFree(devs, held, cleaning, deny, usb, emulator);
      FirstFreeIsFirst(devs[1..], held, cleaning, deny, usb, emulator);
      assert devs == [devs[0]] + devs[1..];
      if Suits(devs[0], deny, usb, emulator) && devs[0].serial !in held && devs[0].serial !in cleaning {
        assert FirstAt(devs, held, cleaning, deny, usb, emulator, 0);
      } else if pick.Some? {
        var i: nat :| FirstAt(devs[1..], held, cleaning, deny, usb, emulator, i) && devs[1..][i].serial == pick.value;
        assert FirstAt(devs, held, cleaning, deny, usb, emulator, i + 1);
      }
    }
  }

  ghost predicate HoldsNone(st: State, session: Session) {
    forall s :: Leased(st, s) ==> LeaseOn(st, s).session != session
  }

  /**
   * What acquire-any does: a session that holds a device gets one it holds, and nothing else changes hands; a session
   * that holds none gets the first listed device that suits and is free; if there is none, nothing happens.
   */
  lemma AnyOutcome(st: State, req: AcquireAnyReq, devs: seq<DeviceLine>, first: Serial, now: Time, idle: nat)
    requires Inv(st)
    ensures var st' := AcquireAny(st, req, devs, first, now, idle);
            var deny := st.config.denySerials;
            var ttl := if req.ttlSec > 0 then req.ttlSec * 1_000_000_000 else st.config.explicitTTL;
            && st'.queues == st.queues && st'.cleaning == st.cleaning && st'.jobs == st.jobs
            && st'.wm == st.wm && st'.registry == st.registry
            && (!HoldsNone(st, req.session) ==>
                  st'.leases == st.leases
                  && exists s :: Leased(st, s) && LeaseOn(st, s).session == req.session
                       && st'.lm == st.lm[st.leases[s] := LeaseOn(st, s).(lastActive := now, lastBeat := now,
                                                            claimed := true, explicit := true, expiresAt := now + ttl)])
            && (HoldsNone(st, req.session) ==>
                  if AllBusy(devs, st.leases.Keys, st.cleaning.Keys, deny, req.usb, req.emulator) then st' == st
                  else exists i: nat, id ::
                    FirstAt(devs, st.leases.Keys, st.cleaning.Keys, deny, req.usb, req.emulator, i)
                    && !Issued(st, id) && st'.leases == st.leases[devs[i].serial := id]
                    && st'.lm == st.lm[id := LeaseRec(devs[i].serial, req.session, req.holder, req.pid, now, now, now,
                                                      0, idle, true, now + ttl, true, [])])
  {
    FreshIsUnused(st);
    FirstFreeIsFirst(devs, st.leases.Keys, st.cleaning.Keys, st.config.denySerials, req.usb, req.emulator);
    hide Inv, Issued, AllBusy, FirstFree, FirstAt, StickyDevice, Leased;
    StickyIsHeld(st, req.session, first);
    match StickyDevice(st, req.session, first)
    case Some(s) => AnySticks(st, req, devs, first, now, idle, s);
    case None => AnyPicks(st, req, devs, first, now, idle);
  }

  lemma StickyIsHeld(st: State, session: Session, first: Serial)
    requires Inv(st)
    ensures match StickyDevice(st, session, first)
            case Some(s) => !HoldsNone(st, session) && Leased(st, s) && LeaseOn(st, s).session == session
            case None => HoldsNone(st, session)
  {
    hide Inv;
    if !HoldsNone(st, session) {
      var s :| Leased(st, s) && LeaseOn(st, s).session == session;
      assert HeldBy(st, s, session) && s in st.leases;
    }
  }

  lemma AnySticks(st: State, req: AcquireAnyReq, devs: seq<DeviceLine>, first: Serial, now: Time, idle: nat, s: Serial)
    requires StickyDevice(st, req.session, first) == Some(s) && Leased(st, s)
    ensures var ttl := if req.ttlSec > 0 then req.ttlSec * 1_000_000_000 else st.config.explicitTTL;
            AcquireAny(st, req, devs, first, now, idle)
            == st.(lm := st.lm[st.leases[s] := LeaseOn(st, s).(lastActive := now, lastBeat := now, claimed := true,
                                                 explicit := true, expiresAt := now + ttl)])
  {
    hide StickyDevice, FirstFree;
  }

  lemma AnyPicks(st: State, req: AcquireAnyReq, devs: seq<DeviceLine>, first: Serial, now: Time, idle: nat)
    requires StickyDevice(st, req.session, first) == None
    ensures var st' := AcquireAny(st, req, devs, first, now, idle);
            var ttl := if req.ttlSec > 0 then req.ttlSec * 1_000_000_000 else st.config.explicitTTL;
            match FirstFree(devs, st.leases.Keys, st.cleaning.Keys, st.config.denySerials, req.usb, req.emulator)
            case None => st' == st
            case Some(s) =>
              && st'.queues == st.queues && st'.cleaning == st.cleaning && st'.jobs == st.jobs
              && st'.wm == st.wm && st'.registry == st.registry
              && st'.leases == st.leases[s := FreshId(st)]
              && st'.lm == st.lm[FreshId(st) := LeaseRec(s, req.session, req.holder, req.pid, now, now, now,
                                                         0, idle, true, now + ttl, true, [])]
  {
    hide StickyDevice, FirstFree;
  }

  // ---- at most one device for each session ----

  ghost predicate OnePerSession(st: State) {
    forall s1, s2 :: Leased(st, s1) && Leased(st, s2) && LeaseOn(st, s1).session == LeaseOn(st, s2).session ==> s1 == s2
  }

  ghost predicate NobodyQueues(st: State) {
    forall s :: Queue(st, s) == []
  }

  lemma StepSession(d: Device, op: Op, env: Env)
    requires QueueOf(d) == [] && Step(d, op, env).Held?
    ensures || (d.Free? && op.Arrive? && Step(d, op, env).lease.session == op.req.session)
            || (d.Held? && Step(d, op, env).lease.session
                  == if op.Reboot? && op.saved.Some? then op.saved.value.session else d.lease.session)
  {
  }

  lemma StepQueue(d: Device, op: Op, env: Env)
    requires QueueOf(d) == [] && (op.Arrive? ==> d.Free?)
    ensures QueueOf(Step(d, op, env)) == []
  {
  }

  /** Without plain acquires, a device's session changes only through acquire-any's pick of a free device. */
  lemma SessionStep(st: State, ev: Event, s: Serial)
    requires Inv(st) && NobodyQueues(st) && !ev.Acquiring?
    ensures Queue(Next(st, ev), s) == []
    ensures Leased(Next(st, ev), s) ==>
              var session := LeaseOn(Next(st, ev), s).session;
              || (Leased(st, s) && session == LeaseOn(st, s).session)
              || (ev.AcquiringAny? && !Leased(st, s) && OpAt(st, ev, s).Arrive? && session == ev.anyReq.session)
  {
    hide Inv, Next, Step, View, OpAt, EnvAt, Readable;
    Refines(st, ev, s);
    EmptyView(st, s);
    LeasedView(Next(st, ev), s);
    ArrivesFree(st, ev, s);
    SavedSession(st, ev, s);
    StepQueue(View(st, s), OpAt(st, ev, s), EnvAt(st, s));
    if Step(View(st, s), OpAt(st, ev, s), EnvAt(st, s)).Held? {
      StepSession(View(st, s), OpAt(st, ev, s), EnvAt(st, s));
    }
  }

  lemma EmptyView(st: State, s: Serial)
    requires Inv(st) && NobodyQueues(st)
    ensures Readable(st, s) && QueueOf(View(st, s)) == []
    ensures View(st, s).Held? <==> Leased(st, s)
    ensures Leased(st, s) ==> View(st, s).lease == LeaseOn(st, s)
  {
  }

  lemma LeasedView(st: State, s: Serial)
    requires Inv(st)
    ensures Readable(st, s)
    ensures Leased(st, s) ==> View(st, s).Held? && View(st, s).lease == LeaseOn(st, s)
    ensures QueueOf(View(st, s)) == [] ==> Queue(st, s) == []
  {
  }

  lemma ArrivesFree(st: State, ev: Event, s: Serial)
    requires Inv(st) && Readable(st, s) && !ev.Acquiring?
    ensures OpAt(st, ev, s).Arrive? ==>
              ev.AcquiringAny? && OpAt(st, ev, s).req.session == ev.anyReq.session && View(st, s).Free?
  {
    if ev.AcquiringAny? {
      FirstFreeIsFree(ev.devs, st.leases.Keys, st.cleaning.Keys, st.config.denySerials, ev.anyReq.usb,
          ev.anyReq.emulator);
    }
    hide Inv, StickyDevice, ReleaseTarget, MayRelease, FirstFree;
  }

  lemma SavedSession(st: State, ev: Event, s: Serial)
    requires Inv(st)
    ensures OpAt(st, ev, s).Reboot? && OpAt(st, ev, s).saved.Some? ==>
              Leased(st, s) && OpAt(st, ev, s).saved.value.session == LeaseOn(st, s).session
  {
    hide Core, StickyDevice, ReleaseTarget, MayRelease, FirstFree;
  }

  /** Acquire-any picks a free device only for a session that holds none. */
  lemma ArrivesEmptyHanded(st: State, ev: Event, s: Serial)
    requires ev.AcquiringAny? && OpAt(st, ev, s).Arrive?
    ensures HoldsNone(st, ev.anyReq.session)
    ensures forall x :: OpAt(st, ev, x).Arrive? ==> x == s
  {
  }

  lemma OnePerSessionKept(st: State, ev: Event)
    requires Inv(st) && NobodyQueues(st) && OnePerSession(st) && !ev.Acquiring?
    ensures NobodyQueues(Next(st, ev)) && OnePerSession(Next(st, ev))
  {
    hide Inv, Next, OpAt;
    var st' := Next(st, ev);
    forall s
      ensures Queue(st', s) == []
    {
      SessionStep(st, ev, s);
    }
    forall s1, s2 | Leased(st', s1) && Leased(st', s2) && LeaseOn(st', s1).session == LeaseOn(st', s2).session
      ensures s1 == s2
    {
      SessionStep(st, ev, s1);
      SessionStep(st, ev, s2);
      if ev.AcquiringAny? && OpAt(st, ev, s1).Arrive? { ArrivesEmptyHanded(st, ev, s1); }
      if ev.AcquiringAny? && OpAt(st, ev, s2).Arrive? { ArrivesEmptyHanded(st, ev, s2); }
    }
  }

  ghost predicate OnlyAny(evs: seq<Event>) {
    forall i :: 0 <= i < |evs| ==> !evs[i].Acquiring?
  }

  /**
   * In a run where sessions acquire only through acquire-any, whatever else happens, restarts included, no session ever
   * holds two devices, and nobody ever queues.
   */
  lemma {:induction false} AnyRunsHoldOne(pid: nat, config: Config, evs: seq<Event>)
    requires OnlyAny(evs)
    ensures var st := Run(Init(pid, config), evs);
            Inv(st) && NobodyQueues(st) && OnePerSession(st)
  {
    var st := Init(pid, config);
    RunKeeps(st, evs);
    if evs != [] {
      var front := evs[..|evs| - 1];
      AnyRunsHoldOne(pid, config, front);
      hide Inv, Next, NobodyQueues, OnePerSession;
      OnePerSessionKept(Run(st, front), evs[|evs| - 1]);
    }
  }

  // ---- no barging ----

  /** An acquire of either kind that puts a new lease on a device overtakes nobody: the device had no queue. */
  lemma NoBarging(st: State, ev: Event, s: Serial)
    requires Inv(st) && (ev.Acquiring? || ev.AcquiringAny?)
    requires var st' := Next(st, ev); Leased(st', s) && !Issued(st, st'.leases[s])
    ensures Queue(st, s) == [] && s !in st.leases && s !in st.cleaning
  {
    hide Inv, Next, Step, View, OpAt, EnvAt, Readable, Issued;
    Refines(st, ev, s);
    ViewOfLeased(Next(st, ev), s);
    HolderIssued(st, s);
    NewByArrival(st, ev, s);
    FreeIsEmpty(st, s);
  }

  /** Neither kind of acquire takes a device from its holder or from a cleanup pass. */
  lemma NewByArrival(st: State, ev: Event, s: Serial)
    requires Readable(st, s) && (ev.Acquiring? || ev.AcquiringAny?)
    ensures var d := View(st, s);
            var d' := Step(d, OpAt(st, ev, s), EnvAt(st, s));
            d'.Held? ==> d.Free? || (d.Held? && d'.id == d.id)
  {
  }

  lemma FreeIsEmpty(st: State, s: Serial)
    requires Inv(st) && Readable(st, s)
    ensures View(st, s).Free? ==> Queue(st, s) == [] && s !in st.leases && s !in st.cleaning
  {
  }
}
