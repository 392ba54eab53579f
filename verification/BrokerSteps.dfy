/**
 * How the loops and branches of the broker's critical sections add up to the steps of BrokerModel: what each scan has
 * done after i turns, and what each branch amounts to.
 */
module BrokerSteps {
  import opened Basics
  import opened Records
  import opened Selection
  import Model = BrokerModel
  import Inv = BrokerInvariant

  // The stale scan of a hand-off, over values.

  /** The state once the waiters of ids have been looked at. */
  ghost function StaleScan(st: Model.State, ids: seq<Id>, now: Time): Model.State {
    st.(registry := st.registry - Model.Gone(st.wm, ids, now), wm := Model.CloseAll(st.wm, Model.Gone(st.wm, ids, now)))
  }

  lemma StaleScanStart(st: Model.State, ids: seq<Id>, now: Time)
    ensures StaleScan(st, ids[..0], now) == st && Filter(Model.Polling(st.wm, now), ids[..0]) == []
  {
  }

  lemma GoneStep(wm: map<Id, WaiterRec>, ids: seq<Id>, i: nat, now: Time)
    requires i < |ids| && Distinct(ids)
    ensures ids[i] !in Model.Gone(wm, ids[..i], now)
    ensures Model.Gone(wm, ids[..i + 1], now)
         == Model.Gone(wm, ids[..i], now) + if Model.Polling(wm, now)(ids[i]) then {} else {ids[i]}
  {
  }

  lemma CloseMore(wm: map<Id, WaiterRec>, gone: set<Id>, more: set<Id>)
    ensures Model.CloseAll(Model.CloseAll(wm, gone), more) == Model.CloseAll(wm, gone + more)
    ensures more == {} ==> Model.CloseAll(wm, gone + more) == Model.CloseAll(wm, gone)
  {
  }

  lemma StaleScanStep(st: Model.State, ids: seq<Id>, i: nat, now: Time)
    requires i < |ids| && Distinct(ids) && ids[i] in st.wm
    ensures var st1 := StaleScan(st, ids[..i], now);
            && st1.wm.Keys == st.wm.Keys
            && st1.wm[ids[i]] == st.wm[ids[i]]
            && StaleScan(st, ids[..i + 1], now) ==
               (if Model.Polling(st.wm, now)(ids[i]) then st1 else
                 st1.(registry := st1.registry - {ids[i]}, wm := Model.CloseAll(st1.wm, {ids[i]})))
  {
    var gone := Model.Gone(st.wm, ids[..i], now);
    var more := if Model.Polling(st.wm, now)(ids[i]) then {} else {ids[i]};
    GoneStep(st.wm, ids, i, now);
    CloseMore(st.wm, gone, more);
    assert st.registry - (gone + more) == st.registry - gone - more;
    hide Model.Gone, Distinct;
  }

  lemma StaleScanEnd(st: Model.State, s: Serial, now: Time)
    ensures var st1 := StaleScan(st, Model.Queue(st, s), now);
            Model.DropStale(st, s, now)
              == st1.(queues := Model.SetQueue(st1.queues, s, Filter(Model.Polling(st.wm, now), Model.Queue(st, s))))
  {
  }

  // Serving the head's session, over values.

  /** The state once the waiters in served share a new lease for head's session. */
  ghost function Serving(st: Model.State, s: Serial, head: WaiterRec, served: seq<Id>, commands: nat,
      now: Time): Model.State {
    st.(counter := st.counter + 1,
        lm := st.lm[Model.FreshId(st) := Model.QueueLease(st.config, s, head, commands, now)],
        leases := st.leases[s := Model.FreshId(st)],
        wm := Model.HandTo(st.wm, served, Model.FreshId(st)))
  }

  /** The state once the head of ids has its lease and the others in ids have been looked at. */
  ghost function ServeScan(st: Model.State, s: Serial, ids: seq<Id>, now: Time): Model.State
    requires ids != [] && ids[0] in st.wm
  {
    var head := st.wm[ids[0]];
    var served := Filter(Model.OfSession(st.wm, head.session), ids);
    Serving(st, s, head, served, |Filter(Model.IsCommand(st.wm), served)|, now)
  }

  lemma ServingOne(st: Model.State, s: Serial, head: WaiterRec, id: Id, commands: nat, now: Time)
    ensures Serving(st, s, head, [id], commands, now)
         == st.(counter := st.counter + 1,
                lm := st.lm[Model.FreshId(st) := Model.QueueLease(st.config, s, head, commands, now)],
                leases := st.leases[s := Model.FreshId(st)],
                wm := Model.HandTo(st.wm, [id], Model.FreshId(st)))
    ensures Model.QueueLease(st.config, s, head, commands, now).serial == s
    ensures Model.QueueLease(st.config, s, head, commands, now).session == head.session
  {
  }

  lemma ServingMore(st: Model.State, s: Serial, head: WaiterRec, served: seq<Id>, commands: nat, now: Time, id: Id)
    requires id in st.wm && id !in served
    ensures var st1 := Serving(st, s, head, served, commands, now);
            var l := st1.lm[Model.FreshId(st)];
            && st1.wm.Keys == st.wm.Keys
            && st1.wm[id] == st.wm[id]
            && Serving(st, s, head, served + [id], commands, now)
               == st1.(wm := Model.HandTo(st1.wm, [id], Model.FreshId(st)))
            && Serving(st, s, head, served + [id], commands + 1, now)
               == st1.(wm := Model.HandTo(st1.wm, [id], Model.FreshId(st)),
                       lm := st1.lm[Model.FreshId(st) := l.(running := l.running + 1)])
  {
  }

  lemma ServeScanStart(st: Model.State, s: Serial, ids: seq<Id>, now: Time)
    requires ids != [] && ids[0] in st.wm
    ensures var head := st.wm[ids[0]];
            && ServeScan(st, s, ids[..1], now) == Serving(st, s, head, [ids[0]], if head.command then 1 else 0, now)
            && Filter(Model.NotOfSession(st.wm, head.session), ids[..1]) == []
  {
  }

  lemma ServedStep(wm: map<Id, WaiterRec>, session: Session, ids: seq<Id>, i: nat)
    requires i < |ids| && ids[i] in wm && Distinct(ids)
    ensures var f := Model.OfSession(wm, session);
            var g := Model.IsCommand(wm);
            var served := Filter(f, ids[..i]);
            && ids[i] !in served
            && (wm[ids[i]].session != session ==> Filter(f, ids[..i + 1]) == served)
            && (wm[ids[i]].session == session ==>
                  && Filter(f, ids[..i + 1]) == served + [ids[i]]
                  && |Filter(g, served + [ids[i]])| == |Filter(g, served)| + if wm[ids[i]].command then 1 else 0)
  {
    var f := Model.OfSession(wm, session);
    var g := Model.IsCommand(wm);
    FilterStep(f, ids, i);
    FilterAppend(g, Filter(f, ids[..i]), [ids[i]]);
    assert [ids[i]][..0] == [];
    assert forall x :: x in ids[..i] ==> x != ids[i];
  }

  lemma ServeScanStep(st: Model.State, s: Serial, ids: seq<Id>, i: nat, now: Time)
    requires 0 < i < |ids| && ids[0] in st.wm && ids[i] in st.wm && Distinct(ids)
    ensures var st1 := ServeScan(st, s, ids[..i], now);
            var l := st1.lm[Model.FreshId(st)];
            && st1.wm.Keys == st.wm.Keys
            && st1.wm[ids[i]] == st.wm[ids[i]]
            && ServeScan(st, s, ids[..i + 1], now) ==
               (if st.wm[ids[i]].session != st.wm[ids[0]].session then st1 else
                 st1.(wm := Model.HandTo(st1.wm, [ids[i]], Model.FreshId(st)),
                      lm := if st.wm[ids[i]].command
                            then st1.lm[Model.FreshId(st) := l.(running := l.running + 1)] else st1.lm))
  {
    hide Filter, Distinct, Serving, Model.HandTo, Model.QueueLease;
    assert ids[..i + 1][0] == ids[0] && ids[..i][0] == ids[0];
    ServedStep(st.wm, st.wm[ids[0]].session, ids, i);
    var served := Filter(Model.OfSession(st.wm, st.wm[ids[0]].session), ids[..i]);
    var commands := |Filter(Model.IsCommand(st.wm), served)|;
    ServingMore(st, s, st.wm[ids[0]], served, commands, now, ids[i]);
    if st.wm[ids[i]].session != st.wm[ids[0]].session {
    } else if st.wm[ids[i]].command {
    } else {
    }
  }

  lemma ServeScanEnd(st: Model.State, s: Serial, now: Time)
    requires Model.Queue(st, s) != [] && Model.Queue(st, s)[0] in st.wm
    ensures var q := Model.Queue(st, s);
            var st1 := ServeScan(st, s, q, now);
            Model.ServeHead(st, s, now)
              == st1.(queues := Model.SetQueue(st1.queues, s,
                  Filter(Model.NotOfSession(st.wm, st.wm[q[0]].session), q)))
  {
  }

  // Splitting the model's steps at their calls.

  lemma EnqueueIs(st: Model.State, req: AcquireReq, now: Time, idle: nat)
    ensures var id := Model.FreshId(st);
            Model.Enqueue(st, req, now, idle)
              == st.(counter := st.counter + 1, registry := st.registry + {id},
                     wm := st.wm[id := WaiterRec(req.serial, req.session, req.holder, req.command,
                                                 idle, now, now, false, None)],
                     queues := Model.SetQueue(st.queues, req.serial, Model.Queue(st, req.serial) + [id]))
    ensures forall st1: Model.State :: st1.queues == st.queues ==>
              Model.Queue(st1, req.serial) == Model.Queue(st, req.serial)
  {
  }

  lemma AcquireSplit(st: Model.State, req: AcquireReq, now: Time, idle: nat)
    ensures var r := Model.Acquire(st, req, now, idle);
            var s := req.serial;
            if s in st.cleaning then
              r == (Model.Enqueue(st, req, now, idle), Model.Queued(Model.FreshId(st)))
            else if !Model.Leased(st, s) then
              r == (Model.Grant(st, req, now, idle), Model.Granted(Model.FreshId(st)))
            else if st.lm[st.leases[s]].session == req.session then
              r == (Model.SetLease(st, st.leases[s], Model.Renewed(st.config, st.lm[st.leases[s]], req, now, idle)),
                    Model.Granted(st.leases[s]))
            else r == (Model.Enqueue(st, req, now, idle), Model.Queued(Model.FreshId(st)))
  {
  }

  lemma BeatIs(st: Model.State, id: Id, now: Time)
    requires Inv.Inv(st)
    ensures !Model.Live(st, id) ==> Model.EndCommand(st, id, now) == st && Model.Heartbeat(st, id, now) == st
    ensures Model.Live(st, id) ==>
              && Model.EndCommand(st, id, now) == Model.SetLease(st, id, Model.Ended(st.lm[id], now))
              && Model.Heartbeat(st, id, now) == Model.SetLease(st, id, Model.Beaten(st.lm[id], now))
    ensures Inv.Inv(Model.EndCommand(st, id, now)) && Inv.Inv(Model.Heartbeat(st, id, now))
  {
    hide Inv.Inv;
    Inv.NextKeeps(st, Model.Beat(id, now));
    Inv.NextKeeps(st, Model.CommandEnded(id, now));
  }

  lemma BaselineIs(st: Model.State, id: Id, pkgs: seq<string>)
    requires Inv.Inv(st)
    ensures !Model.Live(st, id) ==> Model.StoreBaseline(st, id, pkgs) == st
    ensures Model.Live(st, id) ==>
              var st1 := Model.SetLease(st, id, st.lm[id].(baseline := pkgs));
              Model.StoreBaseline(st, id, pkgs) == Model.Save(st1) && Inv.LeasesWell(st1.leases, st1.lm)
  {
  }

  lemma WakeIs(st: Model.State, wid: Id)
    requires wid in st.wm && st.wm[wid].closed
    ensures Model.Wake(st, wid) == Model.Claim(st, wid).(registry := st.registry - {wid})
  {
  }

  /** The state once a waiter giving up has left the queue and the registry. */
  ghost function Dropping(st: Model.State, wid: Id, s: Serial): Model.State {
    st.(registry := st.registry - {wid},
        queues := Model.SetQueue(st.queues, s, Filter(x => x != wid, Model.Queue(st, s))))
  }

  lemma DroppingIs(st: Model.State, wid: Id, s: Serial)
    ensures Dropping(st, wid, s)
         == st.(registry := st.registry - {wid},
                queues := Model.SetQueue(st.queues, s, Filter(x => x != wid, Model.Queue(st, s))))
  {
  }

  lemma DropSplit(st: Model.State, wid: Id, s: Serial, now: Time)
    requires Inv.Inv(st) && wid in st.wm && st.wm[wid].serial == s
    ensures var st1 := Dropping(st, wid, s);
            && (if Model.Leased(st, s) && st.wm[wid].lease == Some(st.leases[s])
                then Model.Leased(st1, s) && Model.Drop(st, wid, now) == Model.Expire(st1, s, now)
                else Model.Drop(st, wid, now) == st1)
            && Inv.Core(st1) && Inv.WorkingBut(st1, {})
  {
    Inv.LeaveKeeps(st, wid);
  }

  lemma ReleaseSplit(st: Model.State, req: Model.ReleaseReq, now: Time)
    ensures var target := Model.ReleaseTarget(st, req);
            && (target.None? ==> Model.Release(st, req, now) == st)
            && (target.Some? ==>
                  && Model.Leased(st, target.value)
                  && Model.MayRelease(st, req) ==
                     (req.force || req.lease.Some? || Model.LeaseOn(st, target.value).session == req.session)
                  && Model.Release(st, req, now) ==
                     if Model.MayRelease(st, req) then Model.Expire(st, target.value, now) else st)
            && (req.lease.Some? ==> (target.Some? <==> Model.Live(st, req.lease.value)))
            && (req.lease.Some? && target.Some? ==> target.value == st.lm[req.lease.value].serial)
            && (req.lease.None? ==>
                  target == if req.serial != "" && Model.Leased(st, req.serial) then Some(req.serial) else None)
  {
  }

  lemma VisitStart(st: Model.State, now: Time, clock: map<Serial, Time>)
    ensures Model.VisitAll(st, [], now, clock) == st
  {
  }

  lemma VisitMore(st: Model.State, order: seq<Serial>, s: Serial, now: Time, clock: map<Serial, Time>)
    ensures Model.VisitAll(st, order + [s], now, clock)
         == Model.Visit(Model.VisitAll(st, order, now, clock), s, now, Model.Reading(clock, s, now))
  {
  }

  lemma AnyHeld(st: Model.State, req: AcquireAnyReq, devs: seq<DeviceLine>, s: Serial, now: Time, idle: nat)
    requires Inv.Inv(st) && Model.HeldBy(st, s, req.session)
    ensures Model.AcquireAny(st, req, devs, s, now, idle)
         == Model.SetLease(st, st.leases[s], Model.Stuck(st.config, Model.LeaseOn(st, s), req, now))
    ensures Inv.Inv(Model.AcquireAny(st, req, devs, s, now, idle))
    ensures Model.HeldBy(Model.AcquireAny(st, req, devs, s, now, idle), s, req.session)
  {
    Inv.AcquireAnyKeeps(st, req, devs, s, now, idle);
    hide Inv.Inv;
  }

  lemma AnyFree(st: Model.State, req: AcquireAnyReq, devs: seq<DeviceLine>, first: Serial, now: Time, idle: nat)
    requires Inv.Inv(st) && forall s :: !Model.HeldBy(st, s, req.session)
    ensures var pick := FirstFree(devs, st.leases.Keys, st.cleaning.Keys, st.config.denySerials, req.usb, req.emulator);
            && Inv.Inv(Model.AcquireAny(st, req, devs, first, now, idle))
            && (pick.None? ==> Model.AcquireAny(st, req, devs, first, now, idle) == st)
            && (pick.Some? ==>
                  && pick.value !in st.leases && pick.value !in st.cleaning
                  && Model.AnyReq(req, pick.value).serial == pick.value
                  && Model.AcquireAny(st, req, devs, first, now, idle)
                     == Model.Grant(st, Model.AnyReq(req, pick.value), now, idle)
                  && Model.HeldBy(Model.AcquireAny(st, req, devs, first, now, idle), pick.value, req.session))
  {
    hide Inv.Inv, Suits, FirstFree;
    Inv.AcquireAnyKeeps(st, req, devs, first, now, idle);
    FirstFreeIsFree(devs, st.leases.Keys, st.cleaning.Keys, st.config.denySerials, req.usb, req.emulator);
    assert Model.StickyDevice(st, req.session, first).None?;
  }

  /** A daemon that has brought back the persisted leases in done. */
  ghost function Restoring(before: Model.State, pid: nat, done: set<Id>, now: Time): Model.State {
    Model.State(pid, before.pids + {pid}, 0, before.config,
                map id | id in before.disk && id in done :: Model.Restored(before.disk[id], now),
                map[],
                map s | s in (set id | id in before.disk && id in done :: before.disk[id].serial) ::
                    Model.OwnerOnDisk(before.disk, s),
                map[], {}, map[], {}, before.disk)
  }

  lemma RestoringMore(before: Model.State, pid: nat, done: set<Id>, id: Id, now: Time)
    requires Inv.Inv(before) && id in before.disk
    ensures var r := Model.Restored(before.disk[id], now);
            var st := Restoring(before, pid, done, now);
            Restoring(before, pid, done + {id}, now) == st.(lm := st.lm[id := r], leases := st.leases[r.serial := id])
  {
    hide Inv.Inv;
    Inv.OnDiskOnce(before, id);
    var st := Restoring(before, pid, done, now);
    var st' := Restoring(before, pid, done + {id}, now);
    assert st'.lm == st.lm[id := Model.Restored(before.disk[id], now)];
    assert st'.leases == st.leases[before.disk[id].serial := id];
  }

  lemma RestoringAll(before: Model.State, pid: nat, done: set<Id>, now: Time)
    requires done == before.disk.Keys && pid !in before.pids
    ensures Restoring(before, pid, done, now) == Model.Restart(before, pid, now)
  {
  }
}
