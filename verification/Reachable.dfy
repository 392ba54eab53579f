/** What the invariant says of every state a daemon, and the daemons after it, can reach. */
module Reachable {
  import opened Basics
  import opened Records
  import opened BrokerModel
  import opened BrokerInvariant
  import opened DeviceMachine

  /**
   * Devices: a leased device is not in cleanup and its lease is its own; at most one pass works on a device; an empty
   * queue is never stored, and nobody queues for a device that is neither leased nor in cleanup.
   */
  lemma DevicesSafe(pid: nat, config: Config, evs: seq<Event>)
    ensures var st := Run(Init(pid, config), evs);
            && (forall s :: s in st.leases ==> Leased(st, s) && LeaseOn(st, s).serial == s && s !in st.cleaning)
            && (forall a, b | a in st.jobs && b in st.jobs && a in st.lm && b in st.lm ::
                  st.lm[a].serial == st.lm[b].serial ==> a == b)
            && (forall s :: s in st.queues ==> st.queues[s] != [] && (s in st.leases || s in st.cleaning))
  {
    var st := Run(Init(pid, config), evs);
    ReachableWell(pid, config, evs);
    forall s | s in st.queues
      ensures st.queues[s] != []
    {
      assert QueueWell(st.queues[s], st.registry, st.wm, s);
    }
  }

  /**
   * Waiters: a registered waiter has no lease exactly when it stands in its own device's queue, once, with its channel
   * open; and nobody stands in a queue unregistered, or behind a lease of their own session.
   */
  lemma WaitersSafe(pid: nat, config: Config, evs: seq<Event>, id: Id)
    ensures var st := Run(Init(pid, config), evs);
            && (id in st.registry ==>
                  && id in st.wm
                  && (st.wm[id].lease.None? <==> id in Queue(st, st.wm[id].serial) && !st.wm[id].closed))
            && (forall s :: id in Queue(st, s) ==>
                  && id in st.registry && id in st.wm && st.wm[id].serial == s
                  && (exists i :: 0 <= i < |Queue(st, s)| && Queue(st, s)[i] == id
                        && forall j :: 0 <= j < |Queue(st, s)| && Queue(st, s)[j] == id ==> j == i)
                  && (Leased(st, s) ==> LeaseOn(st, s).session != st.wm[id].session))
  {
    var st := Run(Init(pid, config), evs);
    ReachableWell(pid, config, evs);
    hide Inv, Run, Queue;
    if id in st.registry {
      Registered(st, id);
    }
    forall s | id in Queue(st, s)
      ensures id in st.registry && id in st.wm && st.wm[id].serial == s
      ensures exists i :: 0 <= i < |Queue(st, s)| && Queue(st, s)[i] == id
                && forall j :: 0 <= j < |Queue(st, s)| && Queue(st, s)[j] == id ==> j == i
      ensures Leased(st, s) ==> LeaseOn(st, s).session != st.wm[id].session
    {
      Queued(st, s, id);
      QueuedOnce(Queue(st, s), id);
    }
  }

  lemma Registered(st: State, id: Id)
    requires Inv(st) && id in st.registry
    ensures id in st.wm
    ensures st.wm[id].lease.None? <==> id in Queue(st, st.wm[id].serial) && !st.wm[id].closed
  {
    Readables(st, st.wm[id].serial);
  }

  lemma Queued(st: State, s: Serial, id: Id)
    requires Inv(st) && id in Queue(st, s)
    ensures id in st.registry && id in st.wm && st.wm[id].serial == s && Distinct(Queue(st, s))
    ensures Leased(st, s) ==> LeaseOn(st, s).session != st.wm[id].session
  {
    Readables(st, s);
    if Leased(st, s) {
      assert Strangers(st.queues[s], st.wm, LeaseOn(st, s).session);
    }
  }

  lemma QueuedOnce(q: seq<Id>, id: Id)
    requires Distinct(q) && id in q
    ensures exists i :: 0 <= i < |q| && q[i] == id && forall j :: 0 <= j < |q| && q[j] == id ==> j == i
  {
    var i :| 0 <= i < |q| && q[i] == id;
    assert forall j :: 0 <= j < |q| && q[j] == id ==> j == i;
  }

  /** The snapshot names exactly the live leases, each with its device, session, holder, start and baseline. */
  lemma SnapshotSafe(pid: nat, config: Config, evs: seq<Event>)
    ensures var st := Run(Init(pid, config), evs);
            && (forall s :: s in st.leases ==>
                  Leased(st, s) && st.leases[s] in st.disk && SameOwner(st.disk[st.leases[s]], LeaseOn(st, s)))
            && (forall id :: id in st.disk ==> st.disk[id].serial in st.leases && st.leases[st.disk[id].serial] == id)
  {
    var st := Run(Init(pid, config), evs);
    ReachableWell(pid, config, evs);
    forall s | s in st.leases
      ensures Leased(st, s) && st.leases[s] in st.disk && SameOwner(st.disk[st.leases[s]], LeaseOn(st, s))
    {
      assert InTable(st.leases, st.lm, st.leases[s]);
    }
    forall id | id in st.disk
      ensures st.disk[id].serial in st.leases && st.leases[st.disk[id].serial] == id
    {
      assert InTable(st.leases, st.lm, id);
    }
  }
}
