/** Lease identities over a daemon's life and across restarts: the dead stay dead, and owners survive a crash. */
module Recovery {
  import opened Basics
  import opened Records
  import opened BrokerModel
  import opened BrokerInvariant
  import opened DeviceMachine
  import opened Handoffs

  /** A device's holder changes only to nobody, or to the bearer of a new ID. */
  lemma StepHolder(d: Device, op: Op, env: Env)
    ensures var d' := Step(d, op, env);
            d'.Held? ==> (d.Held? && d'.id == d.id) || d'.id == env.nextId
  {
  }

  /** A new lease gets an ID nobody ever had, so no reference to an older lease can reach it. */
  lemma NewHolderIsNew(st: State, ev: Event, s: Serial)
    requires Inv(st)
    ensures Leased(Next(st, ev), s) ==>
              var id := Next(st, ev).leases[s];
              (Leased(st, s) && id == st.leases[s]) || !Issued(st, id)
  {
    Refines(st, ev, s);
    StepHolder(View(st, s), OpAt(st, ev, s), EnvAt(st, s));
    assert !Issued(st, FreshId(st));
    hide Inv, Next, OpAt, Step;
  }

  /** An ID that was handed out and is not in the table never returns to it. */
  lemma DeadStaysDead(st: State, ev: Event, id: Id)
    requires Inv(st) && Issued(st, id) && !Live(st, id)
    ensures !Live(Next(st, ev), id)
  {
    var st' := Next(st, ev);
    hide Inv, Next;
    var x := if id in st'.lm then st'.lm[id].serial else "";
    NewHolderIsNew(st, ev, x);
    OwnerLive(st, x, id);
  }

  /**
   * Once an ID is out of the table it stays out, over any run, restarts included; so a late heartbeat, end, release
   * by ID or baseline from its former holder changes nothing.
   */
  lemma {:induction false} StaleReferencesAreInert(st: State, evs: seq<Event>, id: Id, now: Time, pkgs: seq<string>,
                                                   req: ReleaseReq)
    requires Inv(st) && Issued(st, id) && !Live(st, id) && req.lease == Some(id)
    ensures var st' := Run(st, evs);
            && Inv(st') && Issued(st', id) && !Live(st', id)
            && Next(st', Beat(id, now)) == st'
            && Next(st', CommandEnded(id, now)) == st'
            && Next(st', BaselineStored(id, pkgs)) == st'
            && Next(st', Releasing(req, now)) == st'
  {
    if evs != [] {
      var front := evs[..|evs| - 1];
      StaleReferencesAreInert(st, front, id, now, pkgs, req);
      NextKeeps(Run(st, front), evs[|evs| - 1]);
      IssuedStays(Run(st, front), evs[|evs| - 1], id);
      DeadStaysDead(Run(st, front), evs[|evs| - 1], id);
    }
  }

  /** A request naming one lease leaves every device that lease does not hold as it was. */
  lemma OthersUntouched(st: State, ev: Event, x: Serial)
    requires Inv(st) && (ev.Beat? || ev.CommandEnded? || ev.BaselineStored?)
    requires !OwnerIs(st, x, ev.lease) && Readable(st, x)
    ensures Readable(Next(st, ev), x) && View(Next(st, ev), x) == View(st, x)
  {
    UpkeepRefines(st, ev, x);
    hide Inv, View, Next;
  }

  // ---- crash and restart ----

  /** The same devices are held, by the same leases of the same owners, and nobody waits. */
  ghost predicate SameOwners(st: State, st': State) {
    && st'.leases == st.leases
    && (forall s :: s in st.leases ==> Leased(st, s) && Leased(st', s) && SameOwner(LeaseOn(st, s), LeaseOn(st', s)))
    && st'.queues == map[] && st'.registry == {} && st'.cleaning == map[] && st'.jobs == {}
  }

  /**
   * A crash between any two critical sections, even during cleanup passes, loses the queues and the passes and nothing
   * else: the next daemon has the same owners, in a state that satisfies the whole invariant.
   */
  lemma CrashKeepsOwners(st: State, evs: seq<Event>, pid: nat, now: Time)
    requires Inv(st) && pid !in Run(st, evs).pids
    ensures var before := Run(st, evs);
            var after := Next(before, Restarted(pid, now));
            Inv(before) && Inv(after) && SameOwners(before, after)
  {
    hide Inv, Run, Restart;
    RunKeeps(st, evs);
    var before := Run(st, evs);
    NextKeeps(before, Restarted(pid, now));
    var after := Restart(before, pid, now);
    RestartForgetsWaiters(before, pid, now);
    forall s
      ensures s in after.leases <==> s in before.leases
      ensures s in before.leases ==>
                Leased(before, s) && Leased(after, s) && after.leases[s] == before.leases[s]
                && SameOwner(LeaseOn(before, s), LeaseOn(after, s))
    {
      RebootTable(before, pid, now, s);
      IdleHasNoQueue(before, s);
      SavedOwner(before, s);
      hide Restored;
      RestoredOwner(before, s, now);
    }
    assert after.leases == before.leases;
  }

  lemma RestartForgetsWaiters(st: State, pid: nat, now: Time)
    requires pid !in st.pids
    ensures var st' := Restart(st, pid, now);
            st'.queues == map[] && st'.registry == {} && st'.cleaning == map[] && st'.jobs == {}
  {
  }

  lemma SavedOwner(st: State, s: Serial)
    requires Inv(st)
    ensures Leased(st, s) ==> st.leases[s] in st.disk && SameOwner(st.disk[st.leases[s]], LeaseOn(st, s))
  {
  }

  lemma RestoredOwner(st: State, s: Serial, now: Time)
    ensures Leased(st, s) && st.leases[s] in st.disk ==>
              SameOwner(st.disk[st.leases[s]], Restored(st.disk[st.leases[s]], now))
  {
  }
}
