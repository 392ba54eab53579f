/**
 * Cleanup passes among the broker's other critical sections: which baseline a pass works with, and when the device is
 * handed on.
 */
module CleanupPasses {
  import opened Basics
  import opened Records
  import opened Selection
  import opened BrokerModel
  import opened BrokerInvariant
  import opened DeviceMachine
  import opened Commands
  import opened LeaseObjects
  import opened Handoffs
  import opened Recovery
  import opened Packages

  // ---- a pass and its baseline ----

  /** The listings stored for the lease id during a run. */
  ghost function Stored(evs: seq<Event>, id: Id): set<seq<string>> {
    set i | 0 <= i < |evs| && evs[i].BaselineStored? && evs[i].lease == id :: evs[i].pkgs
  }

  lemma StoredGrows(evs: seq<Event>, id: Id)
    requires evs != []
    ensures Stored(evs[..|evs| - 1], id) <= Stored(evs, id)
    ensures var ev := evs[|evs| - 1]; ev.BaselineStored? && ev.lease == id ==> ev.pkgs in Stored(evs, id)
  {
  }

  /**
   * A lease's baseline is empty until a listing is stored for it, and then one of the stored listings; restarts keep
   * it.
   */
  lemma {:induction false} BaselineIsStored(st: State, evs: seq<Event>, id: Id)
    requires Inv(st) && id !in st.lm
    ensures var lm := Run(st, evs).lm;
            id in lm ==> lm[id].baseline == [] || lm[id].baseline in Stored(evs, id)
  {
    if evs != [] {
      var front := evs[..|evs| - 1];
      BaselineIsStored(st, front, id);
      RunKeeps(st, front);
      hide Inv, Next, Stored, Live;
      StoredGrows(evs, id);
      if id in Run(st, evs).lm {
        BaselineStep(Run(st, front), evs[|evs| - 1], id);
      }
    }
  }

  /** Every running pass works with a recorded baseline. */
  ghost predicate PassesHaveBaselines(st: State) {
    forall id :: id in st.jobs ==> id in st.lm && st.lm[id].baseline != []
  }

  lemma PassSeen(st: State, id: Id)
    requires Inv(st) && id in st.jobs
    ensures id in st.lm && !Live(st, id)
    ensures var s := st.lm[id].serial; Readable(st, s) && View(st, s).Cleaning? && View(st, s).job == id
  {
  }

  lemma SeenPass(st: State, s: Serial)
    requires Inv(st) && Readable(st, s)
    ensures View(st, s).Cleaning? ==> s in st.cleaning && st.cleaning[s] == View(st, s).job && st.cleaning[s] in st.jobs
    ensures View(st, s).Held? ==> Live(st, View(st, s).id) && View(st, s).lease == st.lm[View(st, s).id]
  {
  }

  lemma StepPass(d: Device, op: Op, env: Env)
    requires Step(d, op, env).Cleaning?
    ensures var id := Step(d, op, env).job;
            (d.Cleaning? && d.job == id) || (d.Held? && d.id == id && d.lease.baseline != [])
  {
  }

  lemma NewPass(st: State, ev: Event, id: Id)
    requires Inv(st) && id in Next(st, ev).jobs
    ensures id in st.jobs || (Live(st, id) && st.lm[id].baseline != [] && !ev.BaselineStored?)
  {
    hide Inv, Next, Step, View, OpAt, EnvAt, Readable, Live;
    NextKeeps(st, ev);
    PassSeen(Next(st, ev), id);
    var s := Next(st, ev).lm[id].serial;
    Refines(st, ev, s);
    SeenPass(st, s);
    StepPass(View(st, s), OpAt(st, ev, s), EnvAt(st, s));
    StoringStartsNone(st, ev);
  }

  lemma StoringStartsNone(st: State, ev: Event)
    ensures ev.BaselineStored? ==> Next(st, ev).jobs == st.jobs
  {
  }

  lemma PassBaseline(st: State, ev: Event, id: Id)
    requires Inv(st) && PassesHaveBaselines(st) && id in Next(st, ev).jobs
    ensures id in st.lm && id in Next(st, ev).lm
    ensures Next(st, ev).lm[id].baseline == st.lm[id].baseline != []
  {
    hide Inv, Next;
    NextKeeps(st, ev);
    PassSeen(Next(st, ev), id);
    NewPass(st, ev, id);
    BaselineStep(st, ev, id);
    if id in st.jobs {
      PassSeen(st, id);
    }
  }

  /** In every reachable state, a running pass has a baseline: nothing is ever removed without one. */
  lemma {:induction false} NoPassWithoutBaseline(pid: nat, config: Config, evs: seq<Event>)
    ensures PassesHaveBaselines(Run(Init(pid, config), evs))
  {
    var st := Init(pid, config);
    if evs != [] {
      var front := evs[..|evs| - 1];
      NoPassWithoutBaseline(pid, config, front);
      RunKeeps(st, front);
      hide Inv, Next;
      forall id | id in Run(st, evs).jobs
        ensures id in Run(st, evs).lm && Run(st, evs).lm[id].baseline != []
      {
        PassBaseline(Run(st, front), evs[|evs| - 1], id);
      }
    }
  }

  /**
   * A package that every listing stored for a lease shows is never uninstalled by that lease's pass: it is on the
   * device after any number of the pass's uninstalls exactly when it would have been there without them.
   */
  lemma PreexistingIsKept(pid: nat, config: Config, evs: seq<Event>, id: Id, pkg: Package,
                          packages: set<Package>, listing: seq<Package>, prefixes: seq<string>, w: World, n: nat)
    requires var st := Run(Init(pid, config), evs);
             && id in st.jobs && id in st.lm
             && n <= |ToRemove(listing, st.lm[id].baseline, prefixes)|
    requires forall l :: l in Stored(evs, id) ==> pkg in l
    ensures var baseline := Run(Init(pid, config), evs).lm[id].baseline;
            && baseline != []
            && (pkg in AfterUninstalls(packages, ToRemove(listing, baseline, prefixes), w, n)
                <==> pkg in Untouched(packages, w, n))
  {
    var st := Run(Init(pid, config), evs);
    BaselineIsStored(Init(pid, config), evs, id);
    NoPassWithoutBaseline(pid, config, evs);
    SparedPackage(packages, listing, st.lm[id].baseline, prefixes, w, n, pkg);
  }

  /**
   * Exactly the packages in the recorded baseline and the protected ones are safe from a pass whatever the device
   * holds, the listing shows and the world does; and that baseline is one of the listings stored for the lease.
   */
  lemma PassSparesExactly(pid: nat, config: Config, evs: seq<Event>, id: Id, pkg: Package, prefixes: seq<string>)
    requires var st := Run(Init(pid, config), evs); id in st.jobs && id in st.lm
    ensures var baseline := Run(Init(pid, config), evs).lm[id].baseline;
            && baseline != [] && baseline in Stored(evs, id)
            && (AlwaysSpared(pkg, baseline, prefixes) <==> pkg in baseline || Protected(pkg, prefixes))
  {
    hide Stored, AlwaysSpared, Protected;
    BaselineIsStored(Init(pid, config), evs, id);
    NoPassWithoutBaseline(pid, config, evs);
    SparedExactly(Run(Init(pid, config), evs).lm[id].baseline, prefixes, pkg);
  }

  // ---- an app that predates the session and is removed ----

  function CleaningConfig(): Config {
    Config(600 * SECOND, 0, true, [], [])
  }

  /** A session takes the phone, a listing without the app is stored for it, and it releases the phone. */
  function ReinstallRun(): seq<Event> {
    [Acquiring(AcquireReq("phone", "A", "a", 0, 0, false, false), 0, 0),
     BaselineStored(Id(1, 1), ["launcher"]),
     Releasing(ReleaseReq("phone", None, "A", false), 0)]
  }

  lemma RunOneMore(st: State, evs: seq<Event>, ev: Event)
    ensures Run(st, evs + [ev]) == Next(Run(st, evs), ev)
  {
    assert (evs + [ev])[..|evs|] == evs;
  }

  /** The phone is leased to session A, with this baseline. */
  ghost predicate HeldByA(st: State, baseline: seq<string>) {
    && st.pid == 1 && st.pids == {1} && st.config == CleaningConfig()
    && st.leases == map["phone" := Id(1, 1)] && st.cleaning == map[] && st.jobs == {}
    && Id(1, 1) in st.lm && st.lm[Id(1, 1)].serial == "phone" && st.lm[Id(1, 1)].session == "A"
    && st.lm[Id(1, 1)].baseline == baseline
  }

  lemma Taken()
    ensures HeldByA(Next(Init(1, CleaningConfig()), ReinstallRun()[0]), [])
  {
  }

  lemma Listed(st: State)
    requires HeldByA(st, [])
    ensures HeldByA(Next(st, ReinstallRun()[1]), ["launcher"])
  {
  }

  lemma Released(st: State)
    requires HeldByA(st, ["launcher"])
    ensures var st' := Next(st, ReinstallRun()[2]);
            && st'.pids == {1} && st'.config == CleaningConfig()
            && st'.leases == map[] && st'.cleaning == map["phone" := Id(1, 1)]
            && Id(1, 1) in st'.jobs && Id(1, 1) in st'.lm && st'.lm[Id(1, 1)].baseline == ["launcher"]
  {
    assert CleansUp(st, "phone");
    hide GrantNext;
  }

  lemma ReinstallTables()
    ensures var st := Run(Init(1, CleaningConfig()), ReinstallRun());
            && st.pids == {1} && st.config == CleaningConfig()
            && st.leases == map[] && st.cleaning == map["phone" := Id(1, 1)]
            && Id(1, 1) in st.jobs && Id(1, 1) in st.lm && st.lm[Id(1, 1)].baseline == ["launcher"]
  {
    hide Next, HeldByA, Init;
    var evs := ReinstallRun();
    var st := Init(1, CleaningConfig());
    assert evs == [] + [evs[0]] + [evs[1]] + [evs[2]];
    RunOneMore(st, [], evs[0]);
    RunOneMore(st, [] + [evs[0]], evs[1]);
    RunOneMore(st, [] + [evs[0]] + [evs[1]], evs[2]);
    Taken();
    Listed(Next(st, evs[0]));
    Released(Next(Next(st, evs[0]), evs[1]));
  }

  /**
   * The app is on the phone before the session.  The session uninstalls it, then the baseline is listed, then the
   * session installs it again; when the lease ends, the pass uninstalls it.
   */
  lemma PredatingAppRemoved()
    ensures var before := {"launcher", "app"};
            var listed := Apply(before, Change({"app"}, {}));
            var ended := Apply(listed, Change({}, {"app"}));
            var st := Run(Init(1, CleaningConfig()), ReinstallRun());
            var w := World(_ => true, _ => Change({}, {}));
            && "app" in before && listed == {"launcher"} && ended == before
            && Id(1, 1) in st.jobs && Id(1, 1) in st.lm && st.lm[Id(1, 1)].baseline == ["launcher"]
            && var todo := ToRemove(["launcher", "app"], st.lm[Id(1, 1)].baseline, st.config.protectedPrefixes);
               todo == ["app"] && AfterUninstalls(ended, todo, w, |todo|) == {"launcher"}
  {
    ReinstallTables();
    hide Run, Init;
    var f := p => Removable(p, ["launcher"], []);
    assert ["launcher", "app"][..1] == ["launcher"] && ["launcher"][..0] == [];
    assert Filter(f, ["launcher"]) == [];
    assert Filter(f, ["launcher", "app"]) == ["app"];
    var w := World(_ => true, _ => Change({}, {}));
    assert Apply({"launcher", "app"}, Change({}, {})) == {"launcher", "app"};
    assert AfterUninstalls({"launcher", "app"}, ["app"], w, 0) == {"launcher", "app"};
    assert AfterUninstalls({"launcher", "app"}, ["app"], w, 1) == {"launcher", "app"} - {"app"};
  }

  // ---- the device is handed on after the pass ----

  /** What ends the pass working for the lease job: its own last critical section, or a new daemon. */
  predicate EndsPass(st: State, ev: Event, job: Id) {
    (ev.CleanupFinished? && ev.lease == job) || (ev.Restarted? && ev.pid !in st.pids)
  }

  lemma GrantNextJobs(st: State, s: Serial, now: Time)
    ensures GrantNext(st, s, now).jobs == st.jobs
  {
    GrantNextSplit(st, s, now);
  }

  lemma ExpireJobs(st: State, s: Serial, now: Time)
    requires Leased(st, s)
    ensures st.jobs <= Expire(st, s, now).jobs
  {
    hide GrantNext;
    GrantNextJobs(st.(leases := st.leases - {s}), s, now);
  }

  lemma DropJobs(st: State, wid: Id, now: Time)
    ensures st.jobs <= Drop(st, wid, now).jobs
  {
    hide Expire, Filter, Queue;
    if wid in st.wm {
      var s := st.wm[wid].serial;
      var st1 := st.(registry := st.registry - {wid},
                     queues := SetQueue(st.queues, s, Filter(x => x != wid, Queue(st, s))));
      if Leased(st, s) && st.wm[wid].lease == Some(st.leases[s]) {
        ExpireJobs(st1, s, now);
      }
    }
  }

  lemma FinishJobs(st: State, id: Id, now: Time)
    ensures id in st.lm ==> FinishCleanup(st, id, now).jobs == st.jobs - {id}
    ensures st.jobs - {id} <= FinishCleanup(st, id, now).jobs
  {
    hide GrantNext;
    if id in st.jobs && id in st.lm {
      var s := st.lm[id].serial;
      GrantNextJobs(st.(cleaning := st.cleaning - {s}, jobs := st.jobs - {id}), s, now);
    }
  }

  lemma VisitJobs(st: State, s: Serial, now: Time, t: Time)
    ensures st.jobs <= Visit(st, s, now, t).jobs
  {
    hide Expire, Unclaimed, Overdue, Disowned;
    if Leased(st, s) {
      ExpireJobs(st, s, t);
      ExpireJobs(SetLease(st, st.leases[s], Disowned(LeaseOn(st, s), now)), s, t);
    }
  }

  /** A pass runs on until one of the two ends it, and is over then. */
  lemma PassEnds(st: State, ev: Event, job: Id)
    requires Inv(st) && job in st.jobs
    ensures job in Next(st, ev).jobs <==> !EndsPass(st, ev, job)
  {
    hide *;
    PassSeen(st, job);
    if ev.CleanupFinished? {
      FinishedJobs(st, ev);
    } else if ev.Restarted? {
      RestartStops(st, ev);
    } else {
      PassesContinue(st, ev);
    }
    EndsPassIs(st, ev, job);
  }

  lemma EndsPassIs(st: State, ev: Event, job: Id)
    ensures EndsPass(st, ev, job) <==> (ev.CleanupFinished? && ev.lease == job) || (ev.Restarted? && ev.pid !in st.pids)
  {
  }

  lemma FinishedJobs(st: State, ev: Event)
    requires ev.CleanupFinished?
    ensures ev.lease in st.lm ==> Next(st, ev).jobs == st.jobs - {ev.lease}
    ensures st.jobs - {ev.lease} <= Next(st, ev).jobs
  {
    FinishJobs(st, ev.lease, ev.now);
    hide FinishCleanup;
  }

  lemma PassesContinue(st: State, ev: Event)
    requires !ev.CleanupFinished? && !ev.Restarted?
    ensures st.jobs <= Next(st, ev).jobs
  {
    hide Acquire, AcquireAny, Poll, Wake, SetPoll, Drop, Visit, Heartbeat, EndCommand, StoreBaseline, Release, Collect;
    match ev
    case Dropped(wid, now) => DropJobs(st, wid, now);
    case Releasing(req, now) => ReleaseJobs(st, req, now);
    case Visiting(s, now, t) => VisitJobs(st, s, now, t);
    case _ => QuietJobs(st, ev);
  }

  lemma ReleaseJobs(st: State, req: ReleaseReq, now: Time)
    ensures st.jobs <= Release(st, req, now).jobs
  {
    hide Expire, ReleaseTarget;
    if MayRelease(st, req) {
      ExpireJobs(st, ReleaseTarget(st, req).value, now);
    }
  }

  lemma QuietJobs(st: State, ev: Event)
    requires ev.Acquiring? || ev.AcquiringAny? || ev.Polled? || ev.Woken? || ev.KeptFresh? || ev.Beat?
      || ev.CommandEnded? || ev.BaselineStored? || ev.Collecting? || ev.Reloaded?
    ensures Next(st, ev).jobs == st.jobs
  {
    hide FirstFree, StickyDevice, Queue, Live, Renewed, Stuck, NewLease, ExplicitTTL, SetPoll;
    if ev.Polled? {
      assert SetPoll(st, ev.wid, ev.now).jobs == st.jobs by { PollJobs(st, ev.wid, ev.now); }
    }
    if ev.KeptFresh? {
      PollJobs(st, ev.wid, ev.now);
    }
  }

  lemma PollJobs(st: State, wid: Id, now: Time)
    ensures SetPoll(st, wid, now).jobs == st.jobs
  {
  }

  /** Nothing in the run ends the pass working for job. */
  ghost predicate PassUnended(st: State, evs: seq<Event>, job: Id) {
    evs != [] ==>
      PassUnended(st, evs[..|evs| - 1], job) && !EndsPass(Run(st, evs[..|evs| - 1]), evs[|evs| - 1], job)
  }

  /** A lease that is out of the table and has no pass never gets one. */
  lemma NoSecondPass(st: State, ev: Event, id: Id)
    requires Inv(st) && Issued(st, id) && !Live(st, id) && id !in st.jobs
    ensures Issued(Next(st, ev), id) && !Live(Next(st, ev), id) && id !in Next(st, ev).jobs
  {
    hide Inv, Next, Live, Issued;
    IssuedStays(st, ev, id);
    DeadStaysDead(st, ev, id);
    if id in Next(st, ev).jobs {
      NewPass(st, ev, id);
    }
  }

  /** A pass and its device: the device is in cleanup for this lease, and nobody holds it. */
  lemma PassHolds(st: State, job: Id)
    requires Inv(st) && job in st.jobs
    ensures job in st.lm && Issued(st, job) && !Live(st, job)
    ensures var s := st.lm[job].serial; s in st.cleaning && st.cleaning[s] == job && s !in st.leases
  {
    LiveIssued(st, job);
  }

  lemma PassOn(st: State, s: Serial)
    requires Inv(st) && s in st.cleaning
    ensures var job := st.cleaning[s];
            && job in st.jobs && job in st.lm && st.lm[job].serial == s
            && Issued(st, job) && !Live(st, job)
  {
    LiveIssued(st, st.cleaning[s]);
  }

  lemma {:induction false} PassLasts(st: State, evs: seq<Event>, job: Id)
    requires Inv(st) && job in st.jobs && job in st.lm
    ensures var st' := Run(st, evs);
            && Inv(st') && Issued(st', job) && !Live(st', job)
            && (job in st'.jobs <==> PassUnended(st, evs, job))
            && (job in st'.jobs ==> job in st'.lm && st'.lm[job].serial == st.lm[job].serial)
  {
    hide Inv, Next, Live, Issued, EndsPass;
    RunKeeps(st, evs);
    if evs == [] {
      PassHolds(st, job);
    } else {
      var front := evs[..|evs| - 1];
      var ev := evs[|evs| - 1];
      var before := Run(st, front);
      PassLasts(st, front, job);
      if job in before.jobs {
        PassEnds(before, ev, job);
        IssuedStays(before, ev, job);
        DeadStaysDead(before, ev, job);
        PassKeepsDevice(before, ev, job);
      } else {
        NoSecondPass(before, ev, job);
      }
    }
  }

  lemma PassKeepsDevice(st: State, ev: Event, job: Id)
    requires Inv(st) && job in st.jobs && job in st.lm
    ensures job in Next(st, ev).jobs ==> job in Next(st, ev).lm && Next(st, ev).lm[job].serial == st.lm[job].serial
  {
    PassEnds(st, ev, job);
    NextKeeps(st, ev);
    RestartStops(st, ev);
    hide Inv, Next;
    if job in Next(st, ev).jobs {
      if ev.Restarted? {
        PassHolds(Next(st, ev), job);
      } else {
        ObjectStays(st, ev, job);
      }
    }
  }

  lemma RestartStops(st: State, ev: Event)
    ensures ev.Restarted? ==>
              if ev.pid in st.pids then Next(st, ev) == st
              else Next(st, ev).jobs == {} && Next(st, ev).cleaning == map[]
  {
  }

  /**
   * A device in cleanup stays in cleanup for the same lease, and is leased to nobody, exactly as long as neither that
   * lease's own pass has finished nor a new daemon has started.
   */
  lemma NextGrantAfterPass(st: State, evs: seq<Event>, s: Serial)
    requires Inv(st) && s in st.cleaning
    ensures var st' := Run(st, evs);
            && (s in st'.cleaning && st'.cleaning[s] == st.cleaning[s] <==> PassUnended(st, evs, st.cleaning[s]))
            && (PassUnended(st, evs, st.cleaning[s]) ==> s !in st'.leases)
  {
    hide Inv, Next, PassUnended;
    var job := st.cleaning[s];
    var st' := Run(st, evs);
    PassOn(st, s);
    PassLasts(st, evs, job);
    if job in st'.jobs {
      PassHolds(st', job);
    }
    if s in st'.cleaning {
      PassOn(st', s);
    }
  }

  /** A restart in the middle of a pass forgets it: the device is free, and what the pass had not removed stays. */
  lemma RestartForgetsPass()
    ensures var evs := ReinstallRun();
            var st := Run(Init(1, CleaningConfig()), evs);
            var st' := Run(Init(1, CleaningConfig()), evs + [Restarted(2, 0)]);
            && "phone" in st.cleaning
            && "phone" !in st'.cleaning && "phone" !in st'.leases && st'.jobs == {}
  {
    hide Inv, Restart, Run, Init, Next;
    var evs := ReinstallRun();
    var st := Run(Init(1, CleaningConfig()), evs);
    ReinstallTables();
    ReachableWell(1, CleaningConfig(), evs);
    RunOneMore(Init(1, CleaningConfig()), evs, Restarted(2, 0));
    RestartStops(st, Restarted(2, 0));
    RestartIsNext(st, 2, 0);
    RebootTable(st, 2, 0, "phone");
  }

  lemma RestartIsNext(st: State, pid: nat, now: Time)
    ensures Next(st, Restarted(pid, now)) == Restart(st, pid, now)
  {
  }
}
