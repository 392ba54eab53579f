/**
 * The broker with its shared objects and mutable tables.  Each critical section is a
 * method proved to be the corresponding step of BrokerModel on the abstract state.
 */
module Broker {
  import opened Basics
  import opened Records
  import opened Selection
  import Model = BrokerModel
  import Inv = BrokerInvariant
  import opened BrokerSteps
  import opened Slices

  class Lease {
    const id: Id
    const serial: Serial
    const session: Session
    const holder: string
    const pid: int
    const acquiredAt: Time
    var lastActive: Time
    var lastBeat: Time
    var running: nat
    var idleTTL: nat
    var explicit: bool
    var expiresAt: Time
    var claimed: bool
    var baseline: seq<string>

    function Rec(): LeaseRec
      reads this
    {
      LeaseRec(serial, session, holder, pid, acquiredAt, lastActive, lastBeat,
               running, idleTTL, explicit, expiresAt, claimed, baseline)
    }

    constructor (id: Id, r: LeaseRec)
      ensures this.id == id && Rec() == r
    {
      this.id := id;
      serial, session, holder, pid, acquiredAt := r.serial, r.session, r.holder, r.pid, r.acquiredAt;
      lastActive, lastBeat, running, idleTTL := r.lastActive, r.lastBeat, r.running, r.idleTTL;
      explicit, expiresAt, claimed, baseline := r.explicit, r.expiresAt, r.claimed, r.baseline;
    }

    /** The same-session branch of acquireLocked. */
    method Renew(config: Config, req: AcquireReq, now: Time, idle: nat)
      modifies this
      ensures Rec() == Model.Renewed(config, old(Rec()), req, now, idle)
    {
      lastActive, lastBeat := now, now;
      idleTTL := idle;
      claimed := true;
      if req.command {
        running := running + 1;
      }
      if req.explicit {
        explicit := true;
        expiresAt := now + ExplicitTTL(config, req.ttlSec);
      }
    }

    /** A sign of life: a heartbeat, or the end of a command. */
    method Beat(now: Time, ended: bool)
      modifies this
      ensures Rec() == if ended then Model.Ended(old(Rec()), now) else Model.Beaten(old(Rec()), now)
    {
      if ended && running > 0 {
        running := running - 1;
      }
      lastBeat, lastActive := now, now;
      claimed := true;
    }

    /** A session asking for any device is given the one it holds. */
    method Stick(config: Config, req: AcquireAnyReq, now: Time)
      modifies this
      ensures Rec() == Model.Stuck(config, old(Rec()), req, now)
    {
      lastActive, lastBeat, claimed := now, now, true;
      explicit := true;
      expiresAt := now + ExplicitTTL(config, req.ttlSec);
    }

    /** The reaper's orphan check. */
    method Disown(now: Time)
      modifies this
      ensures Rec() == Model.Disowned(old(Rec()), now)
    {
      if running > 0 && now - lastBeat > ORPHAN_BEAT {
        running := 0;
        lastActive := now;
      }
    }
  }

  class Waiter {
    const id: Id
    const serial: Serial
    const session: Session
    const holder: string
    const command: bool
    const idleTTL: nat
    const enqueued: Time
    var lastPoll: Time
    var closed: bool
    var lease: Lease?

    function Rec(): WaiterRec
      reads this
    {
      WaiterRec(serial, session, holder, command, idleTTL, enqueued, lastPoll, closed,
                if lease == null then None else Some(lease.id))
    }

    constructor (id: Id, req: AcquireReq, now: Time, idle: nat)
      ensures this.id == id && lease == null
      ensures Rec() == WaiterRec(req.serial, req.session, req.holder, req.command, idle, now, now, false, None)
    {
      this.id := id;
      serial, session, holder, command := req.serial, req.session, req.holder, req.command;
      idleTTL, enqueued, lastPoll, closed, lease := idle, now, now, false, null;
    }

    /** Closing a closed channel would panic. */
    method Close()
      requires !closed
      modifies this`closed
      ensures closed
    {
      closed := true;
    }
  }

  function Ids(q: seq<Waiter>): (r: seq<Id>)
    ensures |r| == |q| && forall i :: 0 <= i < |q| ==> r[i] == q[i].id
  {
    seq(|q|, i requires 0 <= i < |q| => q[i].id)
  }

  lemma KnownAt(wm: map<Id, Waiter>, q: seq<Waiter>, i: nat)
    requires i < |q| && AllKnown(wm, q)
    ensures Known(wm, q[i]) && q[i] in wm.Values
  {
  }

  lemma AppendIds(q: seq<Waiter>, w: Waiter)
    ensures Ids(q + [w]) == Ids(q) + [w.id]
  {
  }

  lemma AppendKnown(wm: map<Id, Waiter>, q: seq<Waiter>, w: Waiter)
    requires AllKnown(wm, q) && Known(wm, w)
    ensures AllKnown(wm, q + [w])
  {
  }

  // What the tables and objects stand for.

  ghost function LeaseView(lm: map<Id, Lease>): map<Id, LeaseRec>
    reads lm.Values
  {
    map id | id in lm :: lm[id].Rec()
  }

  ghost function WaiterView(wm: map<Id, Waiter>): map<Id, WaiterRec>
    reads wm.Values
  {
    map id | id in wm :: wm[id].Rec()
  }

  ghost function LeaseTable(leases: map<Serial, Lease>): map<Serial, Id> {
    map s | s in leases :: leases[s].id
  }

  ghost function QueueTable(queues: map<Serial, seq<Waiter>>): map<Serial, seq<Id>> {
    map s | s in queues :: Ids(queues[s])
  }

  // An identifier names one object, and every pointer leads to the object its identifier names.

  ghost predicate Named(lm: map<Id, Lease>, wm: map<Id, Waiter>) {
    (forall id :: id in lm ==> lm[id].id == id) && (forall id :: id in wm ==> wm[id].id == id)
  }

  ghost predicate KnownLease(lm: map<Id, Lease>, l: Lease) {
    l.id in lm && lm[l.id] == l
  }

  ghost predicate Known(wm: map<Id, Waiter>, w: Waiter) {
    w.id in wm && wm[w.id] == w
  }

  /** Every object is still there under its name. */
  ghost predicate Extends(wm: map<Id, Waiter>, wm': map<Id, Waiter>) {
    forall id :: id in wm ==> id in wm' && wm'[id] == wm[id]
  }

  lemma ExtendsSame(wm: map<Id, Waiter>)
    ensures Extends(wm, wm)
  {
  }

  lemma ExtendsMore(wm: map<Id, Waiter>, w: Waiter)
    requires w.id !in wm
    ensures Extends(wm, wm[w.id := w]) && Known(wm[w.id := w], w)
  {
  }

  ghost predicate AllKnown(wm: map<Id, Waiter>, q: seq<Waiter>) {
    forall i :: 0 <= i < |q| ==> Known(wm, q[i])
  }

  ghost predicate LeasesKnown(lm: map<Id, Lease>, leases: map<Serial, Lease>) {
    forall s :: s in leases ==> KnownLease(lm, leases[s])
  }

  ghost predicate QueuesKnown(wm: map<Id, Waiter>, queues: map<Serial, seq<Waiter>>) {
    forall s :: s in queues ==> AllKnown(wm, queues[s])
  }

  ghost predicate RegistryKnown(wm: map<Id, Waiter>, waiters: map<Id, Waiter>) {
    forall id :: id in waiters ==> id in wm && waiters[id] == wm[id]
  }

  ghost predicate GrantsKnown(lm: map<Id, Lease>, wm: map<Id, Waiter>)
    reads wm.Values
  {
    forall id :: id in wm && wm[id].lease != null ==> KnownLease(lm, wm[id].lease)
  }

  lemma MoreLeases(lm: map<Id, Lease>, l: Lease, leases: map<Serial, Lease>, wm: map<Id, Waiter>)
    requires l.id !in lm && Named(lm, wm) && LeasesKnown(lm, leases) && GrantsKnown(lm, wm)
    ensures Named(lm[l.id := l], wm) && LeasesKnown(lm[l.id := l], leases) && GrantsKnown(lm[l.id := l], wm)
  {
  }

  lemma CutIds(wm: map<Id, Waiter>, q: seq<Waiter>, i: nat)
    requires i < |q| && AllKnown(wm, q)
    ensures Ids(RemoveAt(q, i)) == RemoveAt(Ids(q), i) && AllKnown(wm, RemoveAt(q, i))
  {
  }

  /** A queue without wt, by dropWaiter's loop on the queue's own array. */
  method Without(q: seq<Waiter>, wt: Waiter, ghost wm: map<Id, Waiter>) returns (r: seq<Waiter>)
    requires AllKnown(wm, q) && Known(wm, wt) && Distinct(Ids(q))
    ensures AllKnown(wm, r) && Ids(r) == Filter(x => x != wt.id, Ids(q))
  {
    hide *;
    var a := new Waiter[|q|](i requires 0 <= i < |q| => q[i]);
    assert a[..] == q && a[..|q|] == q;
    NotThere(wm, q, wt);
    var k := RemoveInPlace(a, |q|, wt);
    r := a[..k];
    if wt in q {
      ghost var i: nat :| i < |q| && q[i] == wt && r == RemoveAt(q, i);
      CutOne(wm, q, wt, i);
    } else {
      assert r == a[..] == q;
    }
  }

  lemma NotThere(wm: map<Id, Waiter>, q: seq<Waiter>, wt: Waiter)
    requires AllKnown(wm, q) && Known(wm, wt)
    ensures wt !in q ==> Filter(x => x != wt.id, Ids(q)) == Ids(q)
  {
    if wt !in q {
      FilterAll(x => x != wt.id, Ids(q));
    }
    hide Filter;
  }

  lemma CutOne(wm: map<Id, Waiter>, q: seq<Waiter>, wt: Waiter, i: nat)
    requires AllKnown(wm, q) && Distinct(Ids(q)) && i < |q| && q[i] == wt
    ensures AllKnown(wm, RemoveAt(q, i)) && Ids(RemoveAt(q, i)) == Filter(x => x != wt.id, Ids(q))
  {
    RemoveAtIsFilter(Ids(q), i, x => x != wt.id);
    CutIds(wm, q, i);
    hide Filter, RemoveAt;
  }

  ghost function Kept(waiters: map<Id, Waiter>, now: Time): map<Id, Waiter>
    reads waiters.Values
  {
    map id | id in waiters && !(waiters[id].lease != null && now - waiters[id].lastPoll > STALE_WAITER) :: waiters[id]
  }

  /** The reaper's second loop over the registry. */
  method Uncollected(waiters: map<Id, Waiter>, now: Time) returns (kept: map<Id, Waiter>)
    ensures kept == Kept(waiters, now)
  {
    kept := waiters;
    var todo := waiters.Keys;
    while todo != {}
      invariant todo <= waiters.Keys
      invariant kept == map id | id in waiters
                  && (id in todo || !(waiters[id].lease != null && now - waiters[id].lastPoll > STALE_WAITER)) ::
                      waiters[id]
    {
      var id :| id in todo;
      if waiters[id].lease != null && now - waiters[id].lastPoll > STALE_WAITER {
        kept := kept - {id};
      }
      todo := todo - {id};
    }
  }

  /** The leases of the table, in whatever order they come. */
  method Snapshot(leases: map<Serial, Lease>, ghost lm: map<Id, Lease>) returns (saved: map<Id, LeaseRec>)
    requires LeasesKnown(lm, leases) && (forall id :: id in lm ==> lm[id].id == id)
    requires forall s :: s in leases ==> leases[s].serial == s
    ensures forall id :: id in saved <==> id in lm && lm[id].serial in leases && leases[lm[id].serial] == lm[id]
    ensures forall id :: id in saved && id in lm ==> saved[id] == lm[id].Rec()
  {
    saved := map[];
    var todo := leases.Keys;
    while todo != {}
      invariant todo <= leases.Keys
      invariant forall id :: id in saved <==>
                               id in lm && lm[id].serial in leases && leases[lm[id].serial] == lm[id]
                                   && lm[id].serial !in todo
      invariant forall id :: id in saved && id in lm ==> saved[id] == lm[id].Rec()
    {
      var s :| s in todo;
      saved := saved[leases[s].id := leases[s].Rec()];
      todo := todo - {s};
    }
  }

  lemma OneName(lm: map<Id, Lease>, a: Lease, b: Lease)
    requires KnownLease(lm, a) && KnownLease(lm, b)
    ensures a.id == b.id <==> a == b
  {
  }

  lemma MinusKnown(wm: map<Id, Waiter>, waiters: map<Id, Waiter>, id: Id)
    requires RegistryKnown(wm, waiters)
    ensures RegistryKnown(wm, waiters - {id}) && (waiters - {id}).Keys == waiters.Keys - {id}
  {
  }

  lemma NamesOf(lm: map<Id, Lease>, wm: map<Id, Waiter>)
    requires Named(lm, wm)
    ensures forall id :: id in lm ==> lm[id].id == id
  {
  }

  lemma EmptyIds(wm: map<Id, Waiter>)
    ensures Ids([]) == [] && AllKnown(wm, [])
  {
  }

  lemma MoreWaiters(lm: map<Id, Lease>, w: Waiter, queues: map<Serial, seq<Waiter>>, wm: map<Id, Waiter>,
                    waiters: map<Id, Waiter>)
    requires w.id !in wm && w.lease == null
    requires Named(lm, wm) && QueuesKnown(wm, queues) && RegistryKnown(wm, waiters) && GrantsKnown(lm, wm)
    ensures var wm' := wm[w.id := w];
            && Named(lm, wm') && QueuesKnown(wm', queues) && RegistryKnown(wm', waiters) && GrantsKnown(lm, wm')
  {
  }

  lemma ViewKeys(lm: map<Id, Lease>, wm: map<Id, Waiter>)
    ensures LeaseView(lm).Keys == lm.Keys && WaiterView(wm).Keys == wm.Keys
  {
  }

  lemma OneMoreLease(lm: map<Id, Lease>, l: Lease)
    ensures LeaseView(lm[l.id := l]) == LeaseView(lm)[l.id := l.Rec()]
  {
  }

  lemma OneMoreWaiter(wm: map<Id, Waiter>, w: Waiter)
    ensures WaiterView(wm[w.id := w]) == WaiterView(wm)[w.id := w.Rec()]
  {
  }

  class Broker {
    const pid: nat
    var counter: nat
    var config: Config
    var leases: map<Serial, Lease>
    var queues: map<Serial, seq<Waiter>>
    var waiters: map<Id, Waiter>
    var cleaning: set<Serial>
    var disk: map<Id, LeaseRec>

    /** Every daemon so far; every lease and waiter object made by this one; the cleanup passes under way. */
    ghost var pids: set<nat>
    ghost var lm: map<Id, Lease>
    ghost var wm: map<Id, Waiter>
    ghost var passes: map<Serial, Id>
    ghost var jobs: set<Id>

    ghost function Abs(): Model.State
      reads this, lm.Values, wm.Values
    {
      Model.State(pid, pids, counter, config, LeaseView(lm), WaiterView(wm), LeaseTable(leases), QueueTable(queues),
                  waiters.Keys, passes, jobs, disk)
    }

    ghost predicate Valid()
      reads this, lm.Values, wm.Values
    {
      && Named(lm, wm)
      && LeasesKnown(lm, leases)
      && QueuesKnown(wm, queues)
      && RegistryKnown(wm, waiters)
      && GrantsKnown(lm, wm)
      && passes.Keys == cleaning
    }

    /** Drop one waiter: delete(b.waiters, wt.ID); close(wt.ch). */
    method Discard(wt: Waiter)
      requires Valid() && Known(wm, wt) && !wt.closed
      modifies this`waiters, wt`closed
      ensures Valid()
      ensures Abs() == old(Abs()).(registry := old(Abs()).registry - {wt.id},
                                   wm := Model.CloseAll(old(Abs()).wm, {wt.id}))
    {
      hide LeasesKnown, QueuesKnown, LeaseView, LeaseTable, QueueTable, RegistryKnown;
      MinusKnown(wm, waiters, wt.id);
      waiters := waiters - {wt.id};
      wt.Close();
      assert WaiterView(wm) == Model.CloseAll(old(WaiterView(wm)), {wt.id});
      assert waiters.Keys == old(waiters.Keys) - {wt.id};
    }

    /** Store a serial's queue, or delete an empty one. */
    method PutQueue(serial: Serial, q: seq<Waiter>)
      requires Valid() && AllKnown(wm, q)
      modifies this`queues
      ensures Valid()
      ensures Abs() == old(Abs()).(queues := Model.SetQueue(old(Abs()).queues, serial, Ids(q)))
    {
      hide LeasesKnown, RegistryKnown, GrantsKnown, LeaseView, LeaseTable, WaiterView;
      if |q| == 0 {
        queues := queues - {serial};
      } else {
        queues := queues[serial := q];
      }
      assert QueueTable(queues) == Model.SetQueue(old(QueueTable(queues)), serial, Ids(q));
    }

    lemma Resolve(wt: Waiter)
      requires Known(wm, wt)
      ensures wt.id in Abs().wm && Abs().wm[wt.id] == wt.Rec()
    {
    }

    /**
     * The first loop's body, on the queue's own array: keep a[i] among the first k, or drop it if its client stopped
     * polling.
     */
    method KeepOrDrop(a: array<Waiter>, k: nat, i: nat, wt: Waiter, now: Time, ghost st: Model.State,
        ghost ids: seq<Id>)
      returns (kept: nat)
      requires Valid() && k <= i < a.Length && a[i] == wt && Known(wm, wt) && AllKnown(wm, a[..k])
      requires i < |ids| && Distinct(ids) && ids[i] == wt.id
      requires wt.id in st.wm && !st.wm[wt.id].closed
      requires Abs() == StaleScan(st, ids[..i], now)
      requires Ids(a[..k]) == Filter(Model.Polling(st.wm, now), ids[..i])
      modifies this`waiters, wt`closed, a
      ensures Valid() && kept <= i + 1 && AllKnown(wm, a[..kept])
      ensures Abs() == StaleScan(st, ids[..i + 1], now)
      ensures Ids(a[..kept]) == Filter(Model.Polling(st.wm, now), ids[..i + 1])
      ensures a[i + 1..] == old(a[i + 1..])
    {
      hide Valid, Abs, Filter, StaleScan;
      ghost var alive := a[..k];
      Resolve(wt);
      StaleScanStep(st, ids, i, now);
      FilterStep(Model.Polling(st.wm, now), ids, i);
      if wt.lease == null && now - wt.lastPoll > STALE_WAITER {
        kept := k;
        Discard(wt);
      } else {
        AppendKnown(wm, alive, wt);
        AppendIds(alive, wt);
        KeepInPlace(a, k, i);
        kept := k + 1;
      }
    }

    /** grantNextLocked's first loop; the queue's array is overwritten while it is read. */
    method ScanQueue(q: seq<Waiter>, now: Time, ghost st: Model.State, ghost serial: Serial)
      returns (alive: seq<Waiter>)
      requires Valid() && Abs() == st && AllKnown(wm, q) && Distinct(Ids(q))
      requires forall id :: id in Ids(q) ==> Inv.Waits(st.registry, st.wm, serial, id)
      modifies this`waiters, wm.Values`closed
      ensures Valid() && AllKnown(wm, alive)
      ensures Abs() == StaleScan(st, Ids(q), now)
      ensures Ids(alive) == Filter(Model.Polling(st.wm, now), Ids(q))
    {
      hide Valid, Abs, Filter, StaleScan, AllKnown;
      ghost var ids := Ids(q);
      StaleScanStart(st, ids, now);
      EmptyIds(wm);
      var a := new Waiter[|q|](i requires 0 <= i < |q| => q[i]);
      var k := 0;
      assert a[..] == q && a[..k] == [];
      for i := 0 to |q|
        invariant Valid() && 0 <= k <= i && AllKnown(wm, a[..k]) && a[i..] == q[i..]
        invariant Abs() == StaleScan(st, ids[..i], now)
        invariant Ids(a[..k]) == Filter(Model.Polling(st.wm, now), ids[..i])
      {
        assert a[i] == a[i..][0] && q[i] == q[i..][0] && ids[i] in ids;
        assert a[i + 1..] == a[i..][1..] && q[i + 1..] == q[i..][1..];
        KnownAt(wm, q, i);
        k := KeepOrDrop(a, k, i, a[i], now, st, ids);
      }
      assert ids[..|q|] == ids;
      alive := a[..k];
    }

    /** grantNextLocked up to the end of its first loop. */
    method DropStale(serial: Serial, now: Time)
      requires Valid() && Inv.Core(Abs())
      requires serial in queues
      modifies this`waiters, this`queues, wm.Values`closed
      ensures Valid()
      ensures Abs() == Model.DropStale(old(Abs()), serial, now)
    {
      hide *;
      ghost var st := Abs();
      QueueScan(serial);
      StaleScanEnd(st, serial, now);
      var alive := ScanQueue(queues[serial], now, st, serial);
      PutQueue(serial, alive);
    }

    lemma QueueScan(serial: Serial)
      requires Valid() && Inv.Core(Abs()) && serial in queues
      ensures var q := queues[serial];
              && AllKnown(wm, q) && Distinct(Ids(q)) && Ids(q) == Model.Queue(Abs(), serial)
              && (forall id :: id in Ids(q) ==> Inv.Waits(Abs().registry, Abs().wm, serial, id))
    {
      assert serial in Abs().queues && Abs().queues[serial] == Ids(queues[serial]);
      assert Inv.QueueWell(Abs().queues[serial], Abs().registry, Abs().wm, serial);
    }

    lemma ResolveLease(l: Lease)
      requires KnownLease(lm, l)
      ensures l.id in Abs().lm && Abs().lm[l.id] == l.Rec()
    {
    }

    /** A new lease object with a new ID. */
    method NewLease(r: LeaseRec) returns (l: Lease)
      requires Valid() && Model.FreshId(Abs()) !in Abs().lm
      modifies this`counter, this`lm
      ensures Valid() && fresh(l) && l.id == Model.FreshId(old(Abs())) && l.serial == r.serial && l.session == r.session
      ensures lm == old(lm)[l.id := l] && KnownLease(lm, l)
      ensures var st := old(Abs()); Abs() == st.(counter := st.counter + 1, lm := st.lm[l.id := r])
    {
      hide AllKnown, QueueTable, LeaseTable, Named, LeasesKnown, GrantsKnown, QueuesKnown, RegistryKnown, WaiterView,
          LeaseView;
      ViewKeys(lm, wm);
      counter := counter + 1;
      l := new Lease(Id(pid, counter), r);
      MoreLeases(lm, l, leases, wm);
      OneMoreLease(lm, l);
      lm := lm[l.id := l];
    }

    /** b.leases[l.Serial] = l. */
    method PutLease(l: Lease)
      requires Valid() && KnownLease(lm, l)
      modifies this`leases
      ensures Valid()
      ensures Abs() == old(Abs()).(leases := old(Abs()).leases[l.serial := l.id])
    {
      hide AllKnown, QueueTable, LeaseView, WaiterView, GrantsKnown;
      leases := leases[l.serial := l];
      assert LeaseTable(leases) == old(LeaseTable(leases))[l.serial := l.id];
    }

    /** A new lease in the table. */
    method AddLease(r: LeaseRec) returns (l: Lease)
      requires Valid() && Model.FreshId(Abs()) !in Abs().lm
      modifies this`counter, this`lm, this`leases
      ensures Valid() && fresh(l) && l.id == Model.FreshId(old(Abs())) && l.serial == r.serial && l.session == r.session
      ensures lm == old(lm)[l.id := l] && KnownLease(lm, l)
      ensures var st := old(Abs());
              Abs() == st.(counter := st.counter + 1, lm := st.lm[l.id := r], leases := st.leases[r.serial := l.id])
    {
      hide *;
      l := NewLease(r);
      PutLease(l);
    }

    /** wt.lease = l; close(wt.ch). */
    method Hand(wt: Waiter, l: Lease)
      requires Valid() && Known(wm, wt) && KnownLease(lm, l) && !wt.closed
      modifies wt`lease, wt`closed
      ensures Valid() && wt.lease == l
      ensures Abs() == old(Abs()).(wm := Model.HandTo(old(Abs()).wm, [wt.id], l.id))
    {
      hide LeasesKnown, QueuesKnown, RegistryKnown, LeaseView, LeaseTable, QueueTable;
      wt.lease := l;
      wt.Close();
      assert WaiterView(wm) == Model.HandTo(old(WaiterView(wm)), [wt.id], l.id);
    }

    /** l.Running++. */
    method Count(l: Lease)
      requires Valid() && KnownLease(lm, l)
      modifies l`running
      ensures Valid()
      ensures Abs() == Model.SetLease(old(Abs()), l.id, old(l.Rec()).(running := old(l.running) + 1))
    {
      hide LeasesKnown, QueuesKnown, RegistryKnown, WaiterView, LeaseTable, QueueTable;
      l.running := l.running + 1;
      assert LeaseView(lm) == old(LeaseView(lm))[l.id := l.Rec()];
    }

    /** grantNextLocked, second loop's body: a waiter of the served session gets the lease, another stays. */
    method ServeOrKeep(remaining: seq<Waiter>, wt: Waiter, l: Lease, now: Time,
                       ghost st: Model.State, ghost ids: seq<Id>, ghost i: nat)
      returns (kept: seq<Waiter>)
      requires Valid() && Known(wm, wt) && AllKnown(wm, remaining) && KnownLease(lm, l)
      requires 0 < i < |ids| && Distinct(ids) && ids[i] == wt.id && ids[0] in st.wm && wt.id in st.wm
      requires !st.wm[wt.id].closed
      requires l.id == Model.FreshId(st) && l.session == st.wm[ids[0]].session
      requires Abs() == ServeScan(st, l.serial, ids[..i], now)
      requires Ids(remaining) == Filter(Model.NotOfSession(st.wm, l.session), ids[..i])
      modifies wt`lease, wt`closed, l`running
      ensures Valid() && AllKnown(wm, kept)
      ensures Abs() == ServeScan(st, l.serial, ids[..i + 1], now)
      ensures Ids(kept) == Filter(Model.NotOfSession(st.wm, l.session), ids[..i + 1])
    {
      hide Valid, Abs, Filter, ServeScan, Distinct, Model.HandTo;
      Resolve(wt);
      ServeScanStep(st, l.serial, ids, i, now);
      FilterStep(Model.NotOfSession(st.wm, l.session), ids, i);
      if wt.session == l.session {
        kept := remaining;
        Hand(wt, l);
        if wt.command {
          ResolveLease(l);
          Count(l);
        }
      } else {
        AppendKnown(wm, remaining, wt);
        AppendIds(remaining, wt);
        kept := remaining + [wt];
      }
    }

    /** grantNextLocked, second loop, over the queue q whose head has lease l. */
    method ServeRest(q: seq<Waiter>, l: Lease, now: Time, ghost st: Model.State)
      returns (remaining: seq<Waiter>)
      requires Valid() && AllKnown(wm, q) && KnownLease(lm, l)
      requires Inv.QueueWell(Ids(q), st.registry, st.wm, l.serial)
      requires Ids(q)[0] in st.wm && l.id == Model.FreshId(st) && l.session == st.wm[Ids(q)[0]].session
      requires Abs() == ServeScan(st, l.serial, Ids(q)[..1], now)
      modifies wm.Values`lease, wm.Values`closed, l`running
      ensures Valid() && AllKnown(wm, remaining)
      ensures Abs() == ServeScan(st, l.serial, Ids(q), now)
      ensures Ids(remaining) == Filter(Model.NotOfSession(st.wm, l.session), Ids(q))
    {
      ghost var ids := Ids(q);
      assert forall i :: 0 <= i < |ids| ==> Inv.Waits(st.registry, st.wm, l.serial, ids[i]);
      ServeScanStart(st, l.serial, ids, now);
      hide Valid, Abs, Filter, ServeScan, Inv.QueueWell;
      remaining := [];
      for i := 1 to |q|
        invariant Valid() && AllKnown(wm, remaining)
        invariant Abs() == ServeScan(st, l.serial, ids[..i], now)
        invariant Ids(remaining) == Filter(Model.NotOfSession(st.wm, l.session), ids[..i])
      {
        assert Inv.Waits(st.registry, st.wm, l.serial, ids[i]);
        remaining := ServeOrKeep(remaining, q[i], l, now, st, ids, i);
      }
      assert ids[..|q|] == ids;
    }

    /** A hand-off finds a queue of known, waiting clients, and an unused ID for the lease. */
    lemma QueueFacts(serial: Serial)
      requires Valid() && Inv.Core(Abs()) && serial in queues
      ensures var q := queues[serial];
              && AllKnown(wm, q)
              && Ids(q) == Model.Queue(Abs(), serial)
              && Inv.QueueWell(Ids(q), Abs().registry, Abs().wm, serial)
              && |q| > 0
              && Known(wm, q[0]) && q[0] in wm.Values
              && Ids(q)[0] in Abs().wm
              && Abs().wm[Ids(q)[0]] == q[0].Rec()
              && Abs().wm[Ids(q)[0]].session == q[0].session
              && Abs().wm[Ids(q)[0]].command == q[0].command
              && !q[0].closed
              && Model.FreshId(Abs()) !in Abs().lm
    {
      var q := queues[serial];
      var st := Abs();
      assert st.queues[serial] == Ids(q);
      assert Inv.QueueWell(Ids(q), st.registry, st.wm, serial);
      assert Inv.Waits(st.registry, st.wm, serial, Ids(q)[0]);
      Resolve(q[0]);
      assert !Model.Issued(st, Model.FreshId(st));
    }

    /** grantNextLocked from the head on: a lease for its session, shared by that session's other waiters. */
    method ServeHead(serial: Serial, now: Time)
      requires Valid() && Inv.Core(Abs())
      requires serial in queues
      modifies this`counter, this`lm, this`leases, this`queues, wm.Values`lease, wm.Values`closed
      ensures Valid() && fresh(lm.Values - old(lm.Values))
      ensures Model.Queue(old(Abs()), serial) != [] && Model.Queue(old(Abs()), serial)[0] in old(Abs()).wm
      ensures Abs() == Model.ServeHead(old(Abs()), serial, now)
    {
      hide *;
      ghost var st := Abs();
      QueueFacts(serial);
      var q := queues[serial];
      ServeScanStart(st, serial, Ids(q), now);
      ServeScanEnd(st, serial, now);
      var l := StartLease(serial, q[0], now);
      var remaining := ServeRest(q, l, now, st);
      PutQueue(serial, remaining);
    }

    /** The new lease, handed to the head itself. */
    method StartLease(serial: Serial, head: Waiter, now: Time) returns (l: Lease)
      requires Valid() && Known(wm, head) && !head.closed
      requires Model.FreshId(Abs()) !in Abs().lm
      modifies this`counter, this`lm, this`leases, head`lease, head`closed
      ensures Valid() && fresh(l) && lm == old(lm)[l.id := l] && l.id == Model.FreshId(old(Abs()))
      ensures l.serial == serial && l.session == head.session && KnownLease(lm, l)
      ensures Abs() == Serving(old(Abs()), serial, old(head.Rec()), [head.id], if head.command then 1 else 0, now)
    {
      hide *;
      ghost var st := Abs();
      StartFacts(head);
      ServingOne(st, serial, head.Rec(), head.id, if head.command then 1 else 0, now);
      l := AddLease(Model.QueueLease(config, serial, head.Rec(), if head.command then 1 else 0, now));
      Hand(head, l);
    }

    lemma StartFacts(head: Waiter)
      requires Valid()
      ensures Abs().config == config && head.Rec().session == head.session
    {
    }

    lemma Absent(serial: Serial, now: Time)
      requires Valid() && serial !in queues
      ensures Model.GrantNext(Abs(), serial, now) == Abs()
    {
    }

    lemma Stored(serial: Serial)
      requires Valid()
      ensures serial in queues <==> serial in Abs().queues
      ensures serial in queues ==> Model.Queue(Abs(), serial) == Ids(queues[serial])
      ensures serial !in queues ==> Model.Queue(Abs(), serial) == []
      ensures serial in leases <==> serial in Abs().leases
    {
    }

    /** grantNextLocked. */
    method GrantNext(serial: Serial, now: Time)
      requires Valid() && Inv.Core(Abs()) && Inv.WorkingBut(Abs(), {serial}) && Inv.Vacant(Abs(), serial)
      modifies this`waiters, this`counter, this`lm, this`leases, this`queues, wm.Values
      ensures Valid() && fresh(lm.Values - old(lm.Values))
      ensures Abs() == Model.GrantNext(old(Abs()), serial, now)
    {
      hide *;
      ghost var st := Abs();
      Inv.GrantNextSplit(st, serial, now);
      if serial !in queues {
        Absent(serial, now);
        return;
      }
      Inv.DropStaleKeeps(st, serial, now);
      DropStale(serial, now);
      Stored(serial);
      if serial in queues {
        QueueFacts(serial);
        ServeHead(serial, now);
      }
    }

    /** b.saveStateLocked: the leases of the table, in whatever order they come. */
    method SaveState()
      requires Valid() && Inv.LeasesWell(Abs().leases, Abs().lm)
      modifies this`disk
      ensures Valid()
      ensures Abs() == Model.Save(old(Abs()))
    {
      hide *;
      LeasedSerials();
      NamesOf(lm, wm);
      var saved := Snapshot(leases, lm);
      SavedIs(saved);
      SetDisk(saved);
    }

    method SetDisk(saved: map<Id, LeaseRec>)
      requires Valid()
      modifies this`disk
      ensures Valid()
      ensures Abs() == old(Abs()).(disk := saved)
    {
      hide Named, LeasesKnown, QueuesKnown, RegistryKnown, LeaseTable, QueueTable, LeaseView, WaiterView;
      disk := saved;
    }

    lemma LeasedSerials()
      requires Valid() && Inv.LeasesWell(Abs().leases, Abs().lm)
      ensures forall s :: s in leases ==> leases[s].serial == s
      ensures LeasesKnown(lm, leases) && Named(lm, wm)
    {
      assert forall s :: s in leases ==> s in Abs().leases;
    }

    lemma SavedIs(saved: map<Id, LeaseRec>)
      requires Valid()
      requires forall id :: id in saved <==> id in lm && lm[id].serial in leases && leases[lm[id].serial] == lm[id]
      requires forall id :: id in saved && id in lm ==> saved[id] == lm[id].Rec()
      ensures Model.Save(Abs()) == Abs().(disk := saved)
    {
    }

    /** grantNextLocked, then saveStateLocked. */
    method HandOver(serial: Serial, now: Time)
      requires Valid() && Inv.Core(Abs()) && Inv.WorkingBut(Abs(), {serial}) && Inv.Vacant(Abs(), serial)
      modifies this`waiters, this`counter, this`lm, this`leases, this`queues, this`disk, wm.Values
      ensures Valid() && fresh(lm.Values - old(lm.Values))
      ensures Abs() == Model.Save(Model.GrantNext(old(Abs()), serial, now))
    {
      hide *;
      Inv.GrantNextKeeps(Abs(), serial, now);
      GrantNext(serial, now);
      Inv.CoreLeases(Abs());
      SaveState();
    }

    /** delete(b.leases, serial). */
    method TakeBack(serial: Serial)
      requires Valid()
      modifies this`leases
      ensures Valid()
      ensures Abs() == old(Abs()).(leases := old(Abs()).leases - {serial})
    {
      hide QueuesKnown, RegistryKnown, GrantsKnown, QueueTable, WaiterView, LeaseView;
      leases := leases - {serial};
      assert LeaseTable(leases) == old(LeaseTable(leases)) - {serial};
    }

    /** Mark serial as in cleanup, start its pass, and save. */
    method StartCleanup(serial: Serial, ghost id: Id)
      requires Valid() && Inv.LeasesWell(Abs().leases, Abs().lm)
      modifies this`cleaning, this`passes, this`jobs, this`disk
      ensures Valid()
      ensures var st := old(Abs());
              Abs() == Model.Save(st.(cleaning := st.cleaning[serial := id], jobs := st.jobs + {id}))
    {
      hide *;
      MarkCleaning(serial, id);
      SaveState();
    }

    method MarkCleaning(serial: Serial, ghost id: Id)
      requires Valid()
      modifies this`cleaning, this`passes, this`jobs
      ensures Valid()
      ensures var st := old(Abs());
              Abs() == st.(cleaning := st.cleaning[serial := id], jobs := st.jobs + {id})
    {
      hide QueuesKnown, RegistryKnown, GrantsKnown, LeasesKnown, Named, QueueTable, WaiterView, LeaseView, LeaseTable;
      cleaning := cleaning + {serial};
      passes := passes[serial := id];
      jobs := jobs + {id};
      assert passes.Keys == cleaning;
    }

    lemma LeaseFacts(serial: Serial)
      requires Valid() && Inv.LeasesWell(Abs().leases, Abs().lm) && serial in leases
      ensures var l := leases[serial];
              && KnownLease(lm, l) && l in lm.Values
              && l.serial == serial
              && Model.Leased(Abs(), serial)
              && Abs().leases[serial] == l.id
              && Model.LeaseOn(Abs(), serial) == l.Rec()
              && l.Rec().session == l.session && l.Rec().baseline == l.baseline
              && Abs().cleaning.Keys == cleaning && Abs().config == config
    {
      LeasedSerials();
    }

    /** expireLocked, when the device is cleaned first. */
    method ExpireToCleanup(l: Lease, now: Time)
      requires Valid() && Inv.Core(Abs()) && Inv.WorkingBut(Abs(), {})
      requires l.serial in leases && leases[l.serial] == l
      requires config.cleanup && |l.baseline| > 0 && l.serial !in cleaning
      modifies this`leases, this`cleaning, this`passes, this`jobs, this`disk
      ensures Valid()
      ensures Model.Leased(old(Abs()), l.serial) && Abs() == Model.Expire(old(Abs()), l.serial, now)
    {
      hide *;
      LeaseKept(l.serial);
      Inv.ExpireSplit(Abs(), l.serial, now);
      TakeBack(l.serial);
      StartCleanup(l.serial, l.id);
    }

    /** expireLocked, when the next session gets the device at once. */
    method ExpireToNext(l: Lease, now: Time)
      requires Valid() && Inv.Core(Abs()) && Inv.WorkingBut(Abs(), {})
      requires l.serial in leases && leases[l.serial] == l
      requires !(config.cleanup && |l.baseline| > 0 && l.serial !in cleaning)
      modifies this`waiters, this`counter, this`lm, this`leases, this`queues, this`disk, wm.Values
      ensures Valid() && fresh(lm.Values - old(lm.Values))
      ensures Model.Leased(old(Abs()), l.serial) && Abs() == Model.Expire(old(Abs()), l.serial, now)
    {
      hide *;
      LeaseKept(l.serial);
      Inv.ExpireSplit(Abs(), l.serial, now);
      TakeBack(l.serial);
      HandOver(l.serial, now);
    }

    lemma LeaseKept(serial: Serial)
      requires Valid() && Inv.Core(Abs()) && serial in leases
      ensures var l := leases[serial];
              && l.serial == serial && Model.Leased(Abs(), serial) && Abs().leases[serial] == l.id
              && Model.LeaseOn(Abs(), serial).baseline == l.baseline
              && Abs().cleaning.Keys == cleaning && Abs().config == config
    {
      Inv.CoreLeases(Abs());
      LeaseFacts(serial);
      hide Valid, Abs, Inv.Core;
    }

    /** expireLocked. */
    method Expire(l: Lease, now: Time)
      requires Valid() && Inv.Core(Abs()) && Inv.WorkingBut(Abs(), {})
      requires l.serial in leases && leases[l.serial] == l
      modifies this, wm.Values
      ensures Valid() && fresh(lm.Values - old(lm.Values)) && wm == old(wm)
      ensures Model.Leased(old(Abs()), l.serial) && Abs() == Model.Expire(old(Abs()), l.serial, now)
      ensures Inv.Inv(Abs())
    {
      hide *;
      LeaseKept(l.serial);
      Inv.ExpireKeeps(Abs(), l.serial, now);
      if config.cleanup && |l.baseline| > 0 && l.serial !in cleaning {
        ExpireToCleanup(l, now);
      } else {
        ExpireToNext(l, now);
      }
    }

    // ---- acquiring ----

    method NewWaiter(req: AcquireReq, now: Time, idle: nat) returns (wt: Waiter)
      requires Valid() && Model.FreshId(Abs()) !in Abs().wm
      modifies this`counter, this`wm
      ensures Valid() && fresh(wt) && wt.id == Model.FreshId(old(Abs())) && wm == old(wm)[wt.id := wt] && Known(wm, wt)
      ensures var st := old(Abs());
              Abs() == st.(counter := st.counter + 1,
                           wm := st.wm[wt.id := WaiterRec(req.serial, req.session, req.holder, req.command,
                                                          idle, now, now, false, None)])
    {
      hide AllKnown, QueueTable, LeaseTable, Named, LeasesKnown, GrantsKnown, QueuesKnown, RegistryKnown, WaiterView,
          LeaseView;
      ViewKeys(lm, wm);
      counter := counter + 1;
      wt := new Waiter(Id(pid, counter), req, now, idle);
      MoreWaiters(lm, wt, queues, wm, waiters);
      OneMoreWaiter(wm, wt);
      wm := wm[wt.id := wt];
    }

    /** b.waiters[wt.ID] = wt. */
    method Register(wt: Waiter)
      requires Valid() && Known(wm, wt)
      modifies this`waiters
      ensures Valid()
      ensures Abs() == old(Abs()).(registry := old(Abs()).registry + {wt.id})
    {
      hide AllKnown, QueueTable, LeaseTable, LeasesKnown, GrantsKnown, QueuesKnown, LeaseView, WaiterView;
      waiters := waiters[wt.id := wt];
      assert waiters.Keys == old(waiters.Keys) + {wt.id};
    }

    method AddWaiter(req: AcquireReq, now: Time, idle: nat) returns (wt: Waiter)
      requires Valid() && Model.FreshId(Abs()) !in Abs().wm
      modifies this`counter, this`wm, this`waiters
      ensures Valid() && fresh(wt) && wt.id == Model.FreshId(old(Abs())) && wm == old(wm)[wt.id := wt] && Known(wm, wt)
      ensures var st := old(Abs());
              Abs() == st.(counter := st.counter + 1, registry := st.registry + {wt.id},
                           wm := st.wm[wt.id := WaiterRec(req.serial, req.session, req.holder, req.command,
                                                          idle, now, now, false, None)])
    {
      hide *;
      wt := NewWaiter(req, now, idle);
      Register(wt);
    }

    lemma FreshFacts()
      requires Valid() && Inv.Core(Abs())
      ensures Model.FreshId(Abs()) !in Abs().wm && Model.FreshId(Abs()) !in Abs().lm
      ensures Inv.LeasesWell(Abs().leases, Abs().lm)
      ensures Abs().config == config && Abs().cleaning.Keys == cleaning
    {
    }

    lemma QueueKnown(serial: Serial)
      requires Valid()
      ensures serial in queues ==> AllKnown(wm, queues[serial])
      ensures Model.Queue(Abs(), serial) == if serial in queues then Ids(queues[serial]) else []
    {
    }

    /** The two enqueue branches of acquireLocked. */
    method Enqueue(req: AcquireReq, now: Time, idle: nat) returns (wt: Waiter)
      requires Valid() && Inv.Core(Abs())
      modifies this`counter, this`wm, this`waiters, this`queues
      ensures Valid() && fresh(wt) && wt.id == Model.FreshId(old(Abs())) && wm == old(wm)[wt.id := wt]
      ensures Abs() == Model.Enqueue(old(Abs()), req, now, idle)
    {
      hide *;
      FreshFacts();
      EnqueueIs(Abs(), req, now, idle);
      wt := AddWaiter(req, now, idle);
      QueueKnown(req.serial);
      var q := if req.serial in queues then queues[req.serial] else [];
      EmptyIds(wm);
      AppendKnown(wm, q, wt);
      AppendIds(q, wt);
      PutQueue(req.serial, q + [wt]);
    }

    lemma GrantFacts(req: AcquireReq, now: Time, idle: nat)
      requires Valid() && Inv.Inv(Abs()) && req.serial !in leases && req.serial !in cleaning
      ensures var id := Model.FreshId(Abs());
              var r := Model.NewLease(config, req, now, idle);
              var st := Abs();
              var st1 := st.(counter := st.counter + 1, lm := st.lm[id := r], leases := st.leases[r.serial := id]);
              && id !in st.lm && r.serial == req.serial
              && Model.Grant(st, req, now, idle) == Model.Save(st1)
              && Inv.LeasesWell(st1.leases, st1.lm)
    {
    }

    /** grantLocked. */
    method Grant(req: AcquireReq, now: Time, idle: nat) returns (l: Lease)
      requires Valid() && Inv.Inv(Abs()) && req.serial !in leases && req.serial !in cleaning
      modifies this`counter, this`lm, this`leases, this`disk
      ensures Valid() && fresh(l) && l.id == Model.FreshId(old(Abs())) && lm == old(lm)[l.id := l]
      ensures l.serial == req.serial
      ensures Abs() == Model.Grant(old(Abs()), req, now, idle)
    {
      hide *;
      GrantFacts(req, now, idle);
      l := AddLease(Model.NewLease(config, req, now, idle));
      SaveState();
    }

    /** Only the lease object l changed. */
    twostate lemma Touched(l: Lease)
      requires old(Valid()) && KnownLease(lm, l)
      requires unchanged(this) && (forall x :: x in lm.Values && x != l ==> unchanged(x))
      requires forall w :: w in wm.Values ==> unchanged(w)
      ensures Valid()
      ensures Abs() == Model.SetLease(old(Abs()), l.id, l.Rec())
    {
      hide LeasesKnown, QueuesKnown, RegistryKnown, LeaseTable, QueueTable;
      forall id | id in lm
        ensures lm[id].Rec() == if id == l.id then l.Rec() else old(lm[id].Rec())
      {
        assert lm[id] in lm.Values;
      }
      assert LeaseView(lm) == old(LeaseView(lm))[l.id := l.Rec()];
      assert WaiterView(wm) == old(WaiterView(wm));
    }

    method RenewLease(l: Lease, req: AcquireReq, now: Time, idle: nat)
      requires Valid() && KnownLease(lm, l)
      modifies l
      ensures Valid()
      ensures Abs() == Model.SetLease(old(Abs()), l.id, Model.Renewed(config, old(l.Rec()), req, now, idle))
    {
      hide *;
      l.Renew(config, req, now, idle);
      Touched(l);
    }

    /** acquireLocked: exactly one of the results is non-null. */
    method Acquire(req: AcquireReq, now: Time, idle: nat) returns (l: Lease?, wt: Waiter?)
      requires Valid() && Inv.Inv(Abs())
      modifies this, lm.Values
      ensures Valid() && Inv.Inv(Abs())
      ensures (l == null) != (wt == null)
      ensures (Abs(), if l != null then Model.Granted(l.id) else Model.Queued(wt.id))
           == Model.Acquire(old(Abs()), req, now, idle)
      ensures wt != null ==> Known(wm, wt)
      ensures Extends(old(wm), wm) && fresh(wm.Values - old(wm.Values)) && fresh(lm.Values - old(lm.Values))
    {
      hide *;
      ghost var st := Abs();
      ExtendsSame(wm);
      AcquireFacts(req.serial);
      Inv.AcquireKeeps(st, req, now, idle);
      AcquireSplit(st, req, now, idle);
      l, wt := null, null;
      FreshNames();
      if req.serial in cleaning {
        wt := Enqueue(req, now, idle);
        ExtendsMore(old(wm), wt);
        return;
      }
      if req.serial in leases && leases[req.serial].session == req.session {
        l := leases[req.serial];
        RenewLease(l, req, now, idle);
        return;
      }
      if req.serial !in leases {
        l := Grant(req, now, idle);
        return;
      }
      wt := Enqueue(req, now, idle);
      ExtendsMore(old(wm), wt);
    }

    lemma FreshNames()
      requires Valid() && Inv.Inv(Abs())
      ensures Model.FreshId(Abs()) !in wm && Model.FreshId(Abs()) !in lm
    {
      assert !Model.Issued(Abs(), Model.FreshId(Abs()));
      assert Abs().wm.Keys == wm.Keys && Abs().lm.Keys == lm.Keys;
    }

    lemma AcquireFacts(serial: Serial)
      requires Valid() && Inv.Inv(Abs())
      ensures Inv.Core(Abs())
      ensures Abs().config == config && Abs().cleaning.Keys == cleaning
      ensures Abs().leases.Keys == leases.Keys
      ensures serial in leases ==>
                && Model.Leased(Abs(), serial)
                && leases[serial] in lm.Values && KnownLease(lm, leases[serial])
                && Abs().leases[serial] == leases[serial].id
                && Abs().lm[leases[serial].id] == leases[serial].Rec()
                && Model.LeaseOn(Abs(), serial) == leases[serial].Rec()
                && leases[serial].Rec().session == leases[serial].session
      ensures serial !in leases ==> !Model.Leased(Abs(), serial)
    {
    }

    // ---- upkeep ----

    lemma IdFacts(id: Id)
      requires Valid() && Inv.Inv(Abs())
      ensures Inv.Core(Abs()) && Inv.WorkingBut(Abs(), {})
      ensures forall s :: s in leases && leases[s].id == id ==>
                leases[s].serial == s && Model.Live(Abs(), id) && Abs().lm[id] == leases[s].Rec()
                && KnownLease(lm, leases[s]) && leases[s] in lm.Values
      ensures Model.Live(Abs(), id) ==> exists s :: s in leases && leases[s].id == id
      ensures leases.Keys == Abs().leases.Keys
    {
      LeasedSerials();
      if Model.Live(Abs(), id) {
        var s := Abs().lm[id].serial;
        assert s in leases && leases[s].id == id;
      }
    }

    /** leaseByIDLocked. */
    method LeaseById(id: Id) returns (l: Lease?)
      requires Valid() && Inv.Inv(Abs())
      ensures l == null <==> !Model.Live(Abs(), id)
      ensures l != null ==>
                && l.id == id && l.serial in leases && leases[l.serial] == l
                && KnownLease(lm, l) && l in lm.Values && Abs().lm[id] == l.Rec()
    {
      hide *;
      IdFacts(id);
      var todo := leases.Keys;
      while todo != {}
        invariant todo <= leases.Keys
        invariant forall s :: s in leases && leases[s].id == id ==> s in todo
      {
        var s :| s in todo;
        if leases[s].id == id {
          return leases[s];
        }
        todo := todo - {s};
      }
      l := null;
    }

    /** handleHeartbeat and TouchLease (ended false), handleEnd and EndLeaseCommand (ended true). */
    method Beat(id: Id, now: Time, ended: bool)
      requires Valid() && Inv.Inv(Abs())
      modifies lm.Values
      ensures Valid() && Inv.Inv(Abs())
      ensures Abs() == if ended then Model.EndCommand(old(Abs()), id, now) else Model.Heartbeat(old(Abs()), id, now)
    {
      hide *;
      BeatIs(Abs(), id, now);
      var l := LeaseById(id);
      if l != null {
        l.Beat(now, ended);
        Touched(l);
      }
    }

    /** captureBaseline, once the package list is in. */
    method StoreBaseline(id: Id, pkgs: seq<string>)
      requires Valid() && Inv.Inv(Abs())
      modifies lm.Values, this`disk
      ensures Valid() && Inv.Inv(Abs())
      ensures Abs() == Model.StoreBaseline(old(Abs()), id, pkgs)
    {
      hide *;
      ghost var st := Abs();
      Inv.StoreBaselineKeeps(st, id, pkgs);
      BaselineIs(st, id, pkgs);
      var l := LeaseById(id);
      if l != null {
        SetBaseline(l, pkgs);
        SaveState();
      }
    }

    method SetBaseline(l: Lease, pkgs: seq<string>)
      requires Valid() && KnownLease(lm, l)
      modifies l
      ensures Valid()
      ensures Abs() == Model.SetLease(old(Abs()), l.id, old(l.Rec()).(baseline := pkgs))
    {
      l.baseline := pkgs;
      Touched(l);
    }

    // ---- waiting ----

    /** Only the waiter object w changed, and not its lease pointer. */
    twostate lemma WaiterTouched(w: Waiter)
      requires old(Valid()) && Known(wm, w) && w.lease == old(w.lease)
      requires unchanged(this) && (forall x :: x in wm.Values && x != w ==> unchanged(x))
      requires forall l :: l in lm.Values ==> unchanged(l)
      ensures Valid()
      ensures Abs() == old(Abs()).(wm := old(Abs()).wm[w.id := w.Rec()])
    {
      hide LeasesKnown, QueuesKnown, RegistryKnown, LeaseTable, QueueTable;
      forall id | id in wm
        ensures wm[id].Rec() == if id == w.id then w.Rec() else old(wm[id].Rec())
        ensures wm[id].lease == old(wm[id].lease)
      {
        assert wm[id] in wm.Values;
      }
      assert WaiterView(wm) == old(WaiterView(wm))[w.id := w.Rec()];
      assert LeaseView(lm) == old(LeaseView(lm));
    }

    /** wt.LastPoll = now: waitLocal's ticker, and handleWait giving up for this poll. */
    method KeepFresh(wt: Waiter, now: Time)
      requires Valid() && Inv.Inv(Abs()) && Known(wm, wt)
      modifies wt`lastPoll
      ensures Valid() && Inv.Inv(Abs())
      ensures Abs() == Model.SetPoll(old(Abs()), wt.id, now)
    {
      Resolve(wt);
      Inv.SetPollKeeps(Abs(), wt.id, now);
      hide Valid, Inv.Inv, LeasesKnown, QueuesKnown, RegistryKnown, GrantsKnown, LeaseTable, QueueTable, LeaseView,
          WaiterView, Named;
      wt.lastPoll := now;
      WaiterTouched(wt);
    }

    /** The waiter picks its lease up: the lease, if any, is claimed, and the waiter leaves the registry. */
    method PickUp(wt: Waiter)
      requires Valid() && Known(wm, wt)
      modifies lm.Values, this`waiters
      ensures Valid()
      ensures wt.id in old(Abs()).wm
      ensures Abs() == Model.Claim(old(Abs()), wt.id).(registry := old(Abs()).registry - {wt.id})
    {
      PickUpFacts(wt);
      hide Valid, Abs, Known, KnownLease, Model.Claim;
      if wt.lease != null {
        ClaimLease(wt.lease);
      }
      Unregister(wt.id);
    }

    lemma PickUpFacts(wt: Waiter)
      requires Valid() && Known(wm, wt)
      ensures wt.id in Abs().wm
      ensures wt.lease == null ==> Model.Claim(Abs(), wt.id) == Abs()
      ensures wt.lease != null ==>
                && KnownLease(lm, wt.lease) && wt.lease in lm.Values
                && Model.Claim(Abs(), wt.id) == Model.SetLease(Abs(), wt.lease.id, wt.lease.Rec().(claimed := true))
    {
    }

    method ClaimLease(l: Lease)
      requires Valid() && KnownLease(lm, l)
      modifies l`claimed
      ensures Valid()
      ensures Abs() == Model.SetLease(old(Abs()), l.id, old(l.Rec()).(claimed := true))
    {
      l.claimed := true;
      Touched(l);
    }

    /** delete(b.waiters, id). */
    method Unregister(id: Id)
      requires Valid()
      modifies this`waiters
      ensures Valid()
      ensures Abs() == old(Abs()).(registry := old(Abs()).registry - {id})
    {
      hide AllKnown, QueueTable, LeaseTable, LeasesKnown, GrantsKnown, QueuesKnown, LeaseView, WaiterView;
      waiters := waiters - {id};
      assert waiters.Keys == old(waiters.Keys) - {id};
    }

    /** handleWait and waitLocal, once the waiter's channel is closed; a null result means it was dropped. */
    method Wake(wt: Waiter) returns (l: Lease?)
      requires Valid() && Inv.Inv(Abs()) && Known(wm, wt) && wt.closed
      modifies lm.Values, this`waiters
      ensures Valid() && Inv.Inv(Abs())
      ensures Abs() == Model.Wake(old(Abs()), wt.id) && l == wt.lease
    {
      Resolve(wt);
      Inv.WakeKeeps(Abs(), wt.id);
      WakeIs(Abs(), wt.id);
      hide *;
      PickUp(wt);
      l := wt.lease;
    }

    /** handleWait up to its first unlock: unknown, granted, or a channel to wait on. */
    method Poll(id: Id, now: Time) returns (wt: Waiter?, l: Lease?)
      requires Valid() && Inv.Inv(Abs())
      modifies wm.Values, lm.Values, this`waiters
      ensures Valid() && Inv.Inv(Abs())
      ensures Abs() == Model.Poll(old(Abs()), id, now)
      ensures wt == null <==> id !in old(Abs()).registry
      ensures wt != null ==> wt.id == id && l == wt.lease
    {
      hide *;
      PollFacts(id, now);
      if id !in waiters {
        return null, null;
      }
      wt := waiters[id];
      l := wt.lease;
      KeepFresh(wt, now);
      if l != null {
        PickUp(wt);
      }
    }

    lemma PollFacts(id: Id, now: Time)
      requires Valid() && Inv.Inv(Abs())
      ensures Inv.Inv(Model.Poll(Abs(), id, now))
      ensures id in waiters <==> id in Abs().registry
      ensures id !in waiters ==> Model.Poll(Abs(), id, now) == Abs()
      ensures id in waiters ==>
                && waiters[id].id == id && Known(wm, waiters[id]) && waiters[id] in wm.Values
                && id in Abs().wm
                && var st1 := Model.SetPoll(Abs(), id, now);
                   && id in st1.wm
                   && Model.Poll(Abs(), id, now) ==
                      if waiters[id].lease == null then st1
                      else Model.Claim(st1, id).(registry := st1.registry - {id})
    {
      Inv.PollKeeps(Abs(), id, now);
      if id in waiters {
        Resolve(waiters[id]);
      }
    }

    // ---- giving up, releasing ----

    method CutOut(wt: Waiter)
      requires Valid() && Inv.Inv(Abs()) && Known(wm, wt)
      modifies this`queues
      ensures Valid()
      ensures Abs() == old(Abs()).(queues := Model.SetQueue(old(Abs()).queues, wt.serial,
                                               Filter(x => x != wt.id, Model.Queue(old(Abs()), wt.serial))))
    {
      hide *;
      CutFacts(wt.serial);
      var q := if wt.serial in queues then queues[wt.serial] else [];
      var r := Without(q, wt, wm);
      PutQueue(wt.serial, r);
    }

    lemma CutFacts(serial: Serial)
      requires Valid() && Inv.Inv(Abs())
      ensures var q := if serial in queues then queues[serial] else [];
              AllKnown(wm, q) && Distinct(Ids(q)) && Ids(q) == Model.Queue(Abs(), serial)
    {
      QueueKnown(serial);
      EmptyIds(wm);
      assert serial in queues ==> Inv.QueueWell(Ids(queues[serial]), Abs().registry, Abs().wm, serial);
    }

    /** dropWaiter. */
    method DropWaiter(wt: Waiter, now: Time)
      requires Valid() && Inv.Inv(Abs()) && Known(wm, wt)
      modifies this, wm.Values
      ensures Valid() && Inv.Inv(Abs()) && wm == old(wm) && fresh(lm.Values - old(lm.Values))
      ensures Abs() == Model.Drop(old(Abs()), wt.id, now)
    {
      hide *;
      DropFacts(wt, now);
      LeaveQueue(wt);
      if wt.lease != null && wt.serial in leases && leases[wt.serial] == wt.lease {
        Expire(wt.lease, now);
      }
    }

    /** dropWaiter up to its check for a lease granted meanwhile. */
    method LeaveQueue(wt: Waiter)
      requires Valid() && Inv.Inv(Abs()) && Known(wm, wt)
      modifies this`queues, this`waiters
      ensures Valid()
      ensures Abs() == Dropping(old(Abs()), wt.id, wt.serial)
    {
      hide *;
      ghost var st := Abs();
      DroppingIs(st, wt.id, wt.serial);
      CutOut(wt);
      Unregister(wt.id);
    }

    lemma DropFacts(wt: Waiter, now: Time)
      requires Valid() && Inv.Inv(Abs()) && Known(wm, wt)
      ensures var st1 := Dropping(Abs(), wt.id, wt.serial);
              && Inv.Inv(Model.Drop(Abs(), wt.id, now))
              && (if wt.lease != null && wt.serial in leases && leases[wt.serial] == wt.lease
                  then wt.lease.serial == wt.serial && Model.Leased(st1, wt.serial)
                       && Inv.Core(st1) && Inv.WorkingBut(st1, {})
                       && Model.Drop(Abs(), wt.id, now) == Model.Expire(st1, wt.serial, now)
                  else Model.Drop(Abs(), wt.id, now) == st1)
    {
      Inv.DropKeeps(Abs(), wt.id, now);
      Resolve(wt);
      AcquireFacts(wt.serial);
      LeasedSerials();
      DropSplit(Abs(), wt.id, wt.serial, now);
      if wt.lease != null && wt.serial in leases {
        OneName(lm, wt.lease, leases[wt.serial]);
      }
    }

    /** The lease handleRelease is about: by ID if one is given, else by serial. */
    method LookUp(req: Model.ReleaseReq) returns (l: Lease?)
      requires Valid() && Inv.Inv(Abs())
      ensures l == null <==> Model.ReleaseTarget(Abs(), req).None?
      ensures l != null ==>
                && Model.ReleaseTarget(Abs(), req) == Some(l.serial)
                && l.serial in leases && leases[l.serial] == l
                && Model.Leased(Abs(), l.serial) && Model.LeaseOn(Abs(), l.serial).session == l.session
    {
      hide *;
      ReleaseSplit(Abs(), req, 0);
      AcquireFacts(req.serial);
      LeasedHere(req.serial);
      l := null;
      if req.lease.Some? {
        l := LeaseById(req.lease.value);
      } else if req.serial != "" && req.serial in leases {
        l := leases[req.serial];
      }
      if l != null {
        AcquireFacts(l.serial);
        ReleaseRec(l);
      }
    }

    lemma Refusal(st: Model.State, req: Model.ReleaseReq)
      requires Inv.Inv(st)
      ensures Model.ReleaseTarget(st, req).None? || Model.MayRelease(st, req) <==>
                (req.lease.None? && req.serial != "" && Model.Leased(st, req.serial) ==>
                   req.force || Model.LeaseOn(st, req.serial).session == req.session)
    {
    }

    /** handleRelease; the answer is whether the device is free of that lease now. */
    method Release(req: Model.ReleaseReq, now: Time) returns (released: bool)
      requires Valid() && Inv.Inv(Abs())
      modifies this, wm.Values
      ensures Valid() && Inv.Inv(Abs()) && wm == old(wm) && fresh(lm.Values - old(lm.Values))
      ensures Abs() == Model.Release(old(Abs()), req, now)
      ensures released <==>
                (req.lease.None? && req.serial != "" && Model.Leased(old(Abs()), req.serial) ==>
                   req.force || Model.LeaseOn(old(Abs()), req.serial).session == req.session)
    {
      hide *;
      ReleaseSplit(Abs(), req, now);
      Refusal(Abs(), req);
      InvCore();
      var l := LookUp(req);
      if l == null {
        return true;
      }
      if !req.force && req.lease.None? && l.session != req.session {
        return false;
      }
      Expire(l, now);
      released := true;
    }

    lemma LeasedHere(serial: Serial)
      requires Valid() && Inv.Inv(Abs())
      ensures serial in leases ==> leases[serial].serial == serial
    {
      LeasedSerials();
    }

    lemma ReleaseRec(l: Lease)
      requires KnownLease(lm, l)
      ensures l.id in Abs().lm && Abs().lm[l.id].session == l.session && Abs().lm[l.id].serial == l.serial
    {
    }

    lemma InvCore()
      requires Inv.Inv(Abs())
      ensures Inv.Core(Abs()) && Inv.WorkingBut(Abs(), {})
    {
    }

    // ---- the reaper ----

    method DisownLease(l: Lease, now: Time)
      requires Valid() && KnownLease(lm, l)
      modifies l
      ensures Valid()
      ensures Abs() == Model.SetLease(old(Abs()), l.id, Model.Disowned(old(l.Rec()), now))
      ensures l.Rec() == Model.Disowned(old(l.Rec()), now)
    {
      hide *;
      l.Disown(now);
      Touched(l);
    }

    /** The body of the reaper's first loop, for the lease of serial. */
    method Visit(serial: Serial, now: Time, t: Time)
      requires Valid() && Inv.Inv(Abs()) && serial in leases
      modifies this, lm.Values, wm.Values
      ensures Valid() && Inv.Inv(Abs()) && wm == old(wm) && fresh(lm.Values - old(lm.Values))
      ensures Abs() == Model.Visit(old(Abs()), serial, now, t)
    {
      hide *;
      AcquireFacts(serial);
      LeasedHere(serial);
      Inv.VisitSplit(Abs(), serial, now, t);
      var l := leases[serial];
      RecFields(l);
      if !l.claimed && now - l.acquiredAt > UNCLAIMED_GRACE {
        InvCore();
        Expire(l, t);
      } else {
        VisitClaimed(l, now, t);
      }
    }

    /** The rest of the body, for a lease whose owner showed up or still may. */
    method VisitClaimed(l: Lease, now: Time, t: Time)
      requires Valid() && Inv.Inv(Abs()) && l.serial in leases && leases[l.serial] == l
      requires KnownLease(lm, l) && l in lm.Values
      requires Inv.Inv(Model.SetLease(Abs(), l.id, Model.Disowned(l.Rec(), now)))
      modifies this, lm.Values, wm.Values
      ensures Valid() && Inv.Inv(Abs()) && wm == old(wm) && fresh(lm.Values - old(lm.Values))
      ensures var st1 := Model.SetLease(old(Abs()), l.id, Model.Disowned(old(l.Rec()), now));
              Model.Leased(st1, l.serial) &&
              Abs() == if Model.Overdue(Model.Disowned(old(l.Rec()), now), now) then Model.Expire(st1, l.serial, t)
                  else st1
    {
      hide *;
      DisownLease(l, now);
      AcquireFacts(l.serial);
      RecFields(l);
      var overdue := if l.explicit then l.running == 0 && now > l.expiresAt
                     else l.running == 0 && now - l.lastActive > l.idleTTL;
      if overdue {
        InvCore();
        Expire(l, t);
      }
    }

    lemma RecFields(l: Lease)
      ensures l.Rec().claimed == l.claimed && l.Rec().acquiredAt == l.acquiredAt && l.Rec().explicit == l.explicit
      ensures l.Rec().running == l.running && l.Rec().expiresAt == l.expiresAt
      ensures l.Rec().lastActive == l.lastActive && l.Rec().idleTTL == l.idleTTL
      ensures forall now :: Model.Unclaimed(l.Rec(), now) <==> !l.claimed && now - l.acquiredAt > UNCLAIMED_GRACE
      ensures forall now :: Model.Overdue(l.Rec(), now) <==>
                (if l.explicit then l.running == 0 && now > l.expiresAt
                 else l.running == 0 && now - l.lastActive > l.idleTTL)
    {
    }

    lemma Tabled()
      requires Valid()
      ensures leases.Keys == Abs().leases.Keys
    {
    }

    /** The reaper's first loop: every lease in the table at its start is met, unless it has gone by then. */
    method VisitAll(now: Time, clock: map<Serial, Time>) returns (ghost order: seq<Serial>)
      requires Valid() && Inv.Inv(Abs())
      modifies this, lm.Values, wm.Values
      ensures Valid() && Inv.Inv(Abs()) && wm == old(wm)
      ensures Abs() == Model.VisitAll(old(Abs()), order, now, clock)
      ensures forall s :: s in old(Abs()).leases ==> s in order
    {
      hide *;
      ghost var st := Abs();
      Tabled();
      VisitStart(st, now, clock);
      order := [];
      var todo := leases.Keys;
      while todo != {}
        invariant Valid() && Inv.Inv(Abs()) && wm == old(wm) && fresh(lm.Values - old(lm.Values))
        invariant Abs() == Model.VisitAll(st, order, now, clock)
        invariant forall s :: s in st.leases ==> s in todo || s in order
      {
        var s :| s in todo;
        todo := todo - {s};
        VisitMore(st, order, s, now, clock);
        order := order + [s];
        VisitIfLeased(s, now, Model.Reading(clock, s, now));
      }
    }

    method VisitIfLeased(serial: Serial, now: Time, t: Time)
      requires Valid() && Inv.Inv(Abs())
      modifies this, lm.Values, wm.Values
      ensures Valid() && Inv.Inv(Abs()) && wm == old(wm) && fresh(lm.Values - old(lm.Values))
      ensures Abs() == Model.Visit(old(Abs()), serial, now, t)
    {
      hide *;
      AcquireFacts(serial);
      Inv.VisitSplit(Abs(), serial, now, t);
      if serial in leases {
        Visit(serial, now, t);
      }
    }

    /** The reaper's second loop: granted waiters that stopped polling leave the registry. */
    method Collect(now: Time)
      requires Valid() && Inv.Inv(Abs())
      modifies this`waiters
      ensures Valid() && Inv.Inv(Abs())
      ensures Abs() == Model.Collect(old(Abs()), now)
    {
      hide *;
      Inv.CollectKeeps(Abs(), now);
      CollectFacts(now);
      var kept := Uncollected(waiters, now);
      SetRegistry(kept);
    }

    method SetRegistry(kept: map<Id, Waiter>)
      requires Valid() && RegistryKnown(wm, kept)
      modifies this`waiters
      ensures Valid()
      ensures Abs() == old(Abs()).(registry := kept.Keys)
    {
      hide AllKnown, LeasesKnown, QueuesKnown, GrantsKnown, LeaseTable, QueueTable, LeaseView, WaiterView;
      waiters := kept;
    }

    lemma CollectFacts(now: Time)
      requires Valid() && Inv.Inv(Abs())
      ensures var kept := Kept(waiters, now);
              RegistryKnown(wm, kept) && Model.Collect(Abs(), now) == Abs().(registry := kept.Keys)
    {
    }

    /** One tick of the reaper. */
    method Reap(now: Time, clock: map<Serial, Time>) returns (ghost order: seq<Serial>)
      requires Valid() && Inv.Inv(Abs())
      modifies this, lm.Values, wm.Values
      ensures Valid() && Inv.Inv(Abs())
      ensures Abs() == Model.Tick(old(Abs()), order, now, clock)
      ensures forall s :: s in old(Abs()).leases ==> s in order
    {
      order := VisitAll(now, clock);
      Collect(now);
    }

    // ---- cleanup passes ----

    /** runCleanup's last critical section. */
    method FinishCleanup(l: Lease, now: Time)
      requires Valid() && Inv.Inv(Abs()) && KnownLease(lm, l) && l.id in jobs
      modifies this, wm.Values
      ensures Valid() && Inv.Inv(Abs())
      ensures Abs() == Model.FinishCleanup(old(Abs()), l.id, now)
    {
      hide *;
      FinishFacts(l, now);
      StopCleaning(l.serial, l.id);
      HandOver(l.serial, now);
    }

    method StopCleaning(serial: Serial, ghost id: Id)
      requires Valid()
      modifies this`cleaning, this`passes, this`jobs
      ensures Valid()
      ensures var st := old(Abs()); Abs() == st.(cleaning := st.cleaning - {serial}, jobs := st.jobs - {id})
    {
      hide QueuesKnown, RegistryKnown, GrantsKnown, LeasesKnown, Named, QueueTable, WaiterView, LeaseView, LeaseTable;
      cleaning := cleaning - {serial};
      passes := passes - {serial};
      jobs := jobs - {id};
      assert passes.Keys == cleaning;
    }

    lemma FinishFacts(l: Lease, now: Time)
      requires Valid() && Inv.Inv(Abs()) && KnownLease(lm, l) && l.id in jobs
      ensures var st1 := Abs().(cleaning := Abs().cleaning - {l.serial}, jobs := Abs().jobs - {l.id});
              && Inv.Core(st1) && Inv.WorkingBut(st1, {l.serial}) && Inv.Vacant(st1, l.serial)
              && Inv.Inv(Model.FinishCleanup(Abs(), l.id, now))
              && Model.FinishCleanup(Abs(), l.id, now) == Model.Save(Model.GrantNext(st1, l.serial, now))
    {
      ResolveLease(l);
      Inv.FinishSplit(Abs(), l.id, l.serial, now);
    }

    // ---- acquire-any ----

    /** The first lease of session that a scan of the table meets. */
    method FindHeld(session: Session) returns (l: Lease?)
      requires Valid() && Inv.Inv(Abs())
      ensures l == null ==> forall s :: !Model.HeldBy(Abs(), s, session)
      ensures l != null ==>
                && Model.HeldBy(Abs(), l.serial, session)
                && KnownLease(lm, l) && l in lm.Values
                && Abs().leases[l.serial] == l.id && Model.LeaseOn(Abs(), l.serial) == l.Rec()
    {
      hide *;
      HeldFacts(session);
      var todo := leases.Keys;
      while todo != {}
        invariant todo <= leases.Keys
        invariant forall s :: Model.HeldBy(Abs(), s, session) ==> s in todo
      {
        var s :| s in todo;
        if leases[s].session == session {
          return leases[s];
        }
        todo := todo - {s};
      }
      l := null;
    }

    lemma HeldFacts(session: Session)
      requires Valid() && Inv.Inv(Abs())
      ensures forall s :: Model.HeldBy(Abs(), s, session) <==> s in leases && leases[s].session == session
      ensures forall s :: s in leases ==>
                && leases[s].serial == s
                && KnownLease(lm, leases[s]) && leases[s] in lm.Values
                && Model.Leased(Abs(), s)
                && Abs().leases[s] == leases[s].id && Model.LeaseOn(Abs(), s) == leases[s].Rec()
    {
    }

    /** handleAcquireAny, given the device listing. */
    method AcquireAny(req: AcquireAnyReq, devs: seq<DeviceLine>, now: Time, idle: nat)
      returns (l: Lease?, ghost first: Serial)
      requires Valid() && Inv.Inv(Abs())
      modifies this, lm.Values
      ensures Valid() && Inv.Inv(Abs()) && wm == old(wm) && fresh(lm.Values - old(lm.Values))
      ensures Abs() == Model.AcquireAny(old(Abs()), req, devs, first, now, idle)
      ensures l != null ==> Model.HeldBy(Abs(), l.serial, req.session) && Abs().leases[l.serial] == l.id
      ensures l == null ==> Abs() == old(Abs()) && forall s :: !Model.HeldBy(Abs(), s, req.session)
    {
      hide *;
      l := FindHeld(req.session);
      if l != null {
        first := l.serial;
        FreshFactsAny();
        AnyHeld(Abs(), req, devs, first, now, idle);
        SetTable(Abs(), l.id, Model.Stuck(config, l.Rec(), req, now));
        StickLease(l, req, now);
        return;
      }
      first := "";
      l := AcquireFree(req, devs, first, now, idle);
    }

    /** The second half of handleAcquireAny: a free device for a session that holds none. */
    method AcquireFree(req: AcquireAnyReq, devs: seq<DeviceLine>, ghost first: Serial, now: Time, idle: nat)
      returns (l: Lease?)
      requires Valid() && Inv.Inv(Abs()) && forall s :: !Model.HeldBy(Abs(), s, req.session)
      modifies this`counter, this`lm, this`leases, this`disk
      ensures Valid() && Inv.Inv(Abs()) && fresh(lm.Values - old(lm.Values))
      ensures Abs() == Model.AcquireAny(old(Abs()), req, devs, first, now, idle)
      ensures l != null ==> Model.HeldBy(Abs(), l.serial, req.session) && Abs().leases[l.serial] == l.id
      ensures l == null ==> Abs() == old(Abs()) && forall s :: !Model.HeldBy(Abs(), s, req.session)
    {
      hide *;
      Tabled();
      FreshFactsAny();
      AnyFree(Abs(), req, devs, first, now, idle);
      l := null;
      var pick, busy, denied := SelectAcquireAny(devs, leases.Keys, cleaning, config.denySerials, req.usb,
          req.emulator);
      if pick.Some? {
        GrantTable(Abs(), Model.AnyReq(req, pick.value), now, idle);
        l := Grant(Model.AnyReq(req, pick.value), now, idle);
      }
    }

    lemma GrantTable(st: Model.State, req: AcquireReq, now: Time, idle: nat)
      ensures Model.Grant(st, req, now, idle).leases == st.leases[req.serial := Model.FreshId(st)]
    {
    }

    lemma SetTable(st: Model.State, id: Id, r: LeaseRec)
      ensures Model.SetLease(st, id, r).leases == st.leases
    {
    }

    lemma FreshFactsAny()
      requires Valid()
      ensures Abs().config == config && Abs().cleaning.Keys == cleaning
    {
    }

    method StickLease(l: Lease, req: AcquireAnyReq, now: Time)
      requires Valid() && KnownLease(lm, l)
      modifies l
      ensures Valid()
      ensures Abs() == Model.SetLease(old(Abs()), l.id, Model.Stuck(config, old(l.Rec()), req, now))
    {
      hide *;
      l.Stick(config, req, now);
      Touched(l);
    }

    /** reloadConfigIfChanged, once a changed configuration has been read. */
    method Reload(config: Config)
      requires Valid() && Inv.Inv(Abs())
      modifies this`config
      ensures Valid() && Inv.Inv(Abs())
      ensures Abs() == old(Abs()).(config := config)
    {
      hide *;
      Inv.ReloadKeeps(Abs(), config);
      SetConfig(config);
    }

    method SetConfig(config: Config)
      requires Valid()
      modifies this`config
      ensures Valid()
      ensures Abs() == old(Abs()).(config := config)
    {
      this.config := config;
    }

    // ---- starting up ----

    /** A daemon before loadState; saved is the state file it finds. */
    constructor (pid: nat, config: Config, saved: map<Id, LeaseRec>, ghost pids: set<nat>)
      ensures Valid()
      ensures Abs() == Model.State(pid, pids, 0, config, map[], map[], map[], map[], {}, map[], {}, saved)
      ensures lm == map[] && wm == map[]
    {
      this.pid, this.config, this.pids := pid, config, pids;
      counter, disk := 0, saved;
      leases, queues, waiters, cleaning := map[], map[], map[], {};
      lm, wm, passes, jobs := map[], map[], map[], {};
    }

    /** One iteration of loadState: a persisted lease comes back. */
    method RestoreLease(id: Id, r: LeaseRec)
      requires Valid() && id !in lm
      modifies this`lm, this`leases
      ensures Valid()
      ensures Abs() == old(Abs()).(lm := old(Abs()).lm[id := r], leases := old(Abs()).leases[r.serial := id])
    {
      hide AllKnown, QueueTable, LeaseTable, Named, LeasesKnown, GrantsKnown, QueuesKnown, RegistryKnown;
      var l := new Lease(id, r);
      MoreLeases(lm, l, leases, wm);
      lm := lm[id := l];
      assert LeaseView(lm) == old(LeaseView(lm))[id := r];
      assert WaiterView(wm) == old(WaiterView(wm));
      assert l.serial == r.serial && KnownLease(lm, l);
      PutLease(l);
    }

    /** loadState, in a new daemon that takes over from the state `before`. */
    method LoadState(ghost before: Model.State, now: Time)
      requires Valid() && Inv.Inv(before) && pid !in before.pids
      requires Abs() == Restoring(before, pid, {}, now)
      modifies this`lm, this`leases
      ensures Valid() && Inv.Inv(Abs())
      ensures Abs() == Model.Restart(before, pid, now)
    {
      hide *;
      DiskFacts(before, now);
      Inv.RestartKeeps(before, pid, now);
      var todo := disk.Keys;
      ghost var done := {};
      while todo != {}
        invariant done !! todo && done + todo == disk.Keys
        invariant Valid() && disk == before.disk
        invariant Abs() == Restoring(before, pid, done, now)
      {
        var id :| id in todo;
        RestoringMore(before, pid, done, id, now);
        NotYet(before, id, done, now);
        RestoreLease(id, Model.Restored(disk[id], now));
        todo := todo - {id};
        done := done + {id};
      }
      RestoringAll(before, pid, done, now);
    }

    lemma DiskFacts(before: Model.State, now: Time)
      requires Abs() == Restoring(before, pid, {}, now)
      ensures disk == before.disk
    {
    }

    lemma NotYet(before: Model.State, id: Id, done: set<Id>, now: Time)
      requires Abs() == Restoring(before, pid, done, now) && id !in done
      ensures id !in lm
    {
      assert LeaseView(lm).Keys == lm.Keys;
      assert Abs().lm.Keys == lm.Keys;
    }
  }
}
