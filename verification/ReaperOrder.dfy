/**
 * A reaper tick meets the lease table in whatever order map iteration takes, and may meet a serial again when a
 * hand-off has just put it back.  Neither makes a difference, except to the numbers of the new leases.
 */
module ReaperOrder {
  import opened Basics
  import opened Records
  import opened BrokerModel
  import opened BrokerInvariant
  import opened DeviceMachine
  import opened Handoffs
  import opened Wakeups
  import opened Commands
  import opened Recovery

  /** Everything the broker knows about one device: its machine, its waiters, and which of them are registered. */
  datatype Local = Local(device: Device, waiters: map<Id, WaiterRec>, registered: set<Id>)

  ghost function At(st: State, x: Serial): Local
    requires Readable(st, x)
  {
    Local(View(st, x), WaitersAt(st.wm, x), set id | id in st.registry && id in st.wm && st.wm[id].serial == x)
  }

  function WaitersAt(wm: map<Id, WaiterRec>, x: Serial): map<Id, WaiterRec> {
    map id | id in wm && wm[id].serial == x :: wm[id]
  }

  // ---- one visit, seen from its own device ----

  /** The session a hand-off of q serves. */
  function NextSession(q: seq<Entry>, now: Time): Option<Session> {
    var alive := Filter(StillPolling(now), q);
    if alive == [] then None else Some(alive[0].w.session)
  }

  function AfterHandoff(q: seq<Entry>, now: Time, lease: Id, id: Id, w: WaiterRec): WaiterRec {
    if !Has(q, id) then w
    else if StaleAt(w, now) then w.(closed := true)
    else if NextSession(q, now) == Some(w.session) then w.(closed := true, lease := Some(lease))
    else w
  }

  function HandWaiters(q: seq<Entry>, now: Time, lease: Id, waiters: map<Id, WaiterRec>): map<Id, WaiterRec> {
    map id | id in waiters :: AfterHandoff(q, now, lease, id, waiters[id])
  }

  function StillThere(q: seq<Entry>, now: Time, waiters: map<Id, WaiterRec>, registered: set<Id>): set<Id> {
    set id | id in registered && !(id in waiters && Has(q, id) && StaleAt(waiters[id], now))
  }

  /** A visit, as an operation on its device's part of the broker. */
  function LocalVisit(p: Local, env: Env, now: Time, t: Time): Local {
    var op := Inspect(now, t);
    if HandsOver(p.device, op, env) then
      Local(Step(p.device, op, env),
            HandWaiters(QueueOf(p.device), t, env.nextId, p.waiters),
            StillThere(QueueOf(p.device), t, p.waiters, p.registered))
    else Local(Step(p.device, op, env), p.waiters, p.registered)
  }

  lemma HasEntry(wm: map<Id, WaiterRec>, q: seq<Id>, id: Id)
    requires forall x :: x in q ==> x in wm
    ensures Has(Entries(wm, q), id) <==> id in q
  {
    assert forall i :: 0 <= i < |q| ==> Entries(wm, q)[i].id == q[i];
  }

  lemma HeadSession(st: State, s: Serial, now: Time)
    requires Core(st) && Readable(st, s)
    ensures var st1 := DropStale(st, s, now);
            && (Queue(st1, s) == [] <==> NextSession(Entries(st.wm, Queue(st, s)), now).None?)
            && (Queue(st1, s) != [] ==>
                  && Queue(st1, s)[0] in st1.wm
                  && NextSession(Entries(st.wm, Queue(st, s)), now) == Some(st1.wm[Queue(st1, s)[0]].session))
  {
    hide Core, Filter, DropStale;
    DropRefines(st, s, now);
    var st1 := DropStale(st, s, now);
    assert |Entries(st1.wm, Queue(st1, s))| == |Queue(st1, s)|;
    assert Queue(st1, s) != [] ==> Queue(st1, s)[0] in Queue(st1, s);
  }

  lemma DropWaiters(st: State, s: Serial, now: Time)
    requires forall id :: id in Queue(st, s) ==> Waits(st.registry, st.wm, s, id)
    ensures var st1 := DropStale(st, s, now);
            && st1.wm.Keys == st.wm.Keys && FreshId(st1) == FreshId(st)
            && (forall id :: id in st.wm ==>
                  st1.wm[id] == if id in Queue(st, s) && StaleAt(st.wm[id], now) then st.wm[id].(closed := true)
                      else st.wm[id])
            && (forall id :: id in Queue(st1, s) <==> id in st.wm && id in Queue(st, s) && !StaleAt(st.wm[id], now))
            && (forall id :: id in st1.registry <==>
                  id in st.registry && !(id in st.wm && id in Queue(st, s) && StaleAt(st.wm[id], now)))
  {
  }

  ghost predicate Outcomes(st: State, st': State, q: seq<Id>, now: Time, lease: Id, next: Option<Session>) {
    && st'.wm.Keys == st.wm.Keys
    && (forall id :: id in st.wm ==>
          st'.wm[id] == if id !in q then st.wm[id]
                        else if StaleAt(st.wm[id], now) then st.wm[id].(closed := true)
                        else if next == Some(st.wm[id].session) then st.wm[id].(closed := true, lease := Some(lease))
                        else st.wm[id])
    && (forall id :: id in st'.registry <==> id in st.registry && !(id in st.wm && id in q && StaleAt(st.wm[id], now)))
  }

  lemma HandoffOutcomes(st: State, s: Serial, now: Time)
    requires Core(st) && Readable(st, s)
    ensures Outcomes(st, GrantNext(st, s, now), Queue(st, s), now, FreshId(st),
        NextSession(Entries(st.wm, Queue(st, s)), now))
  {
    hide Core, NextSession, Entries, GrantNext, DropStale, ServeHead, Filter, Waits, Queue, StaleAt, FreshId;
    QueueWaits(st, s);
    DropWaiters(st, s, now);
    GrantNextSplit(st, s, now);
    HeadSession(st, s, now);
    var st1 := DropStale(st, s, now);
    if Queue(st1, s) != [] {
      Served(st1, s, now);
    }
  }

  /** What a hand-off of s does to every waiter there is. */
  lemma HandoffWaiters(st: State, s: Serial, now: Time)
    requires Core(st) && Readable(st, s)
    ensures var st' := GrantNext(st, s, now);
            var q := Entries(st.wm, Queue(st, s));
            && st'.wm.Keys == st.wm.Keys
            && (forall id :: id in st.wm ==> st'.wm[id] == AfterHandoff(q, now, FreshId(st), id, st.wm[id]))
            && st'.registry == StillThere(q, now, st.wm, st.registry)
  {
    hide Core, NextSession, Entries, Has, GrantNext, StaleAt, Queue;
    HandoffOutcomes(st, s, now);
    forall id
      ensures Has(Entries(st.wm, Queue(st, s)), id) <==> id in Queue(st, s)
    {
      HasEntry(st.wm, Queue(st, s), id);
    }
  }

  /** The waiters and the registry after a hand-over of s, or the same as before. */
  ghost predicate HandedAt(st: State, st': State, s: Serial, now: Time)
    requires Readable(st, s)
  {
    var q := Entries(st.wm, Queue(st, s));
    && st'.wm == HandWaiters(q, now, FreshId(st), st.wm)
    && st'.registry == StillThere(q, now, st.wm, st.registry)
  }

  lemma HandoffHanded(st: State, s: Serial, now: Time)
    requires Core(st) && Readable(st, s)
    ensures HandedAt(st, GrantNext(st, s, now), s, now)
  {
    HandoffWaiters(st, s, now);
    hide Core, GrantNext, Entries, AfterHandoff, StillThere;
  }

  lemma HandedFrame(st: State, st1: State, st2: State, st': State, s: Serial, now: Time)
    requires Readable(st, s) && Readable(st1, s) && HandedAt(st1, st2, s, now)
    requires st1.wm == st.wm && st1.registry == st.registry && Queue(st1, s) == Queue(st, s)
        && FreshId(st1) == FreshId(st)
    requires st'.wm == st2.wm && st'.registry == st2.registry
    ensures HandedAt(st, st', s, now)
  {
  }

  lemma ExpireWaiters(st: State, s: Serial, now: Time)
    requires Core(st) && WorkingBut(st, {}) && Leased(st, s) && Readable(st, s)
    ensures var st' := Expire(st, s, now);
            if st.config.cleanup && LeaseOn(st, s).baseline != [] then st'.wm == st.wm && st'.registry == st.registry
            else HandedAt(st, st', s, now)
  {
    ExpireSplit(st, s, now);
    CoreUncleaned(st, s);
    var st1 := st.(leases := st.leases - {s});
    hide Core, WorkingBut, GrantNext, Expire, HandedAt;
    if !(st.config.cleanup && LeaseOn(st, s).baseline != []) {
      HandoffHanded(st1, s, now);
      HandedFrame(st, st1, GrantNext(st1, s, now), Expire(st, s, now), s, now);
    }
  }

  lemma CoreUncleaned(st: State, s: Serial)
    requires Core(st) && Leased(st, s)
    ensures s !in st.cleaning
  {
  }

  lemma VisitWaiters(st: State, s: Serial, now: Time, t: Time)
    requires Inv(st) && Readable(st, s)
    ensures var st' := Visit(st, s, now, t);
            if HandsOver(View(st, s), Inspect(now, t), EnvAt(st, s)) then HandedAt(st, st', s, t)
            else st'.wm == st.wm && st'.registry == st.registry
  {
    hide Inv, Core, WorkingBut, Expire, Visit, View, Unclaimed, Overdue, Disowned, HandedAt, HandsOver, SetLease,
        Readable, EnvAt;
    VisitSplit(st, s, now, t);
    HandsAt(st, s, now, t);
    if Leased(st, s) {
      var l := LeaseOn(st, s);
      var st1 := SetLease(st, st.leases[s], Disowned(l, now));
      InvParts(st);
      SetLeaseParts(st, s, Disowned(l, now));
      DisownedTables(st, s, Disowned(l, now));
      if Unclaimed(l, now) {
        ExpireWaiters(st, s, t);
      } else if Overdue(Disowned(l, now), now) {
        InvParts(st1);
        ReadableNow(st1, s);
        ExpireWaiters(st1, s, t);
        if !(st.config.cleanup && l.baseline != []) {
          HandedAgain(st, st1, Expire(st1, s, t), s, t);
        }
      }
    }
  }

  lemma DisownedTables(st: State, s: Serial, l: LeaseRec)
    requires Leased(st, s)
    ensures var st1 := SetLease(st, st.leases[s], l);
            st1.registry == st.registry && st1.config == st.config && FreshId(st1) == FreshId(st)
  {
  }

  /** When a visit hands the device over. */
  lemma HandsAt(st: State, s: Serial, now: Time, t: Time)
    requires Inv(st) && Readable(st, s)
    ensures HandsOver(View(st, s), Inspect(now, t), EnvAt(st, s)) <==>
              Leased(st, s) && var l := LeaseOn(st, s);
              !(st.config.cleanup && l.baseline != []) && (Unclaimed(l, now) || Overdue(Disowned(l, now), now))
    ensures Leased(st, s) ==> Disowned(LeaseOn(st, s), now).baseline == LeaseOn(st, s).baseline
  {
  }

  lemma HandedAgain(st: State, st1: State, st': State, s: Serial, t: Time)
    requires Readable(st, s) && Readable(st1, s)
    requires st1.wm == st.wm && st1.registry == st.registry && Queue(st1, s) == Queue(st, s)
        && FreshId(st1) == FreshId(st)
    ensures HandedAt(st1, st', s, t) ==> HandedAt(st, st', s, t)
  {
  }

  lemma HandedHere(st: State, st': State, s: Serial, now: Time)
    requires Readable(st, s) && HandedAt(st, st', s, now)
    ensures var q := Entries(st.wm, Queue(st, s));
            && WaitersAt(st'.wm, s) == HandWaiters(q, now, FreshId(st), WaitersAt(st.wm, s))
            && (set id | id in st'.registry && id in st'.wm && st'.wm[id].serial == s)
               == StillThere(q, now, WaitersAt(st.wm, s),
                             set id | id in st.registry && id in st.wm && st.wm[id].serial == s)
  {
  }

  lemma HandedThere(st: State, st': State, s: Serial, x: Serial, now: Time)
    requires Readable(st, s) && HandedAt(st, st', s, now) && x != s
    requires forall id :: id in Queue(st, s) ==> Waits(st.registry, st.wm, s, id)
    ensures WaitersAt(st'.wm, x) == WaitersAt(st.wm, x)
    ensures (set id | id in st'.registry && id in st'.wm && st'.wm[id].serial == x)
            == set id | id in st.registry && id in st.wm && st.wm[id].serial == x
  {
    forall id
      ensures Has(Entries(st.wm, Queue(st, s)), id) <==> id in Queue(st, s)
    {
      HasEntry(st.wm, Queue(st, s), id);
    }
    hide Entries, Has, NextSession, StaleAt;
  }

  /** A visit changes its own device's part of the broker as LocalVisit says, and no other part. */
  lemma VisitAt(st: State, s: Serial, now: Time, t: Time, x: Serial)
    requires Inv(st)
    ensures var st' := Visit(st, s, now, t);
            && Readable(st, x) && Readable(st', x)
            && At(st', x) == if x == s then LocalVisit(At(st, x), EnvAt(st, x), now, t) else At(st, x)
  {
    hide Inv, Next, Visit, Step, View, HandsOver, HandedAt, Entries, WaitersAt, HandWaiters, StillThere;
    Refines(st, Visiting(s, now, t), x);
    VisitIsNext(st, s, now, t);
    InvParts(st);
    ReadableNow(st, s);
    VisitWaiters(st, s, now, t);
    var st' := Visit(st, s, now, t);
    QueueSeen(st, s);
    StepStay(View(st, x), EnvAt(st, x));
    if HandsOver(View(st, s), Inspect(now, t), EnvAt(st, s)) {
      if x == s {
        HandedHere(st, st', s, t);
      } else {
        HandedThere(st, st', s, x, t);
      }
    }
  }

  lemma StepStay(d: Device, env: Env)
    ensures Step(d, Stay, env) == d
  {
  }

  lemma QueueSeen(st: State, s: Serial)
    requires Readable(st, s)
    ensures !View(st, s).Free? ==> QueueOf(View(st, s)) == Entries(st.wm, Queue(st, s))
    ensures forall now: Time, t: Time :: View(st, s).Free? ==> !HandsOver(View(st, s), Inspect(now, t), EnvAt(st, s))
  {
  }

  // ---- visiting again ----

  /** A tick at `now` has nothing to do here. */
  predicate Settled(d: Device, now: Time) {
    d.Held? ==> !Unclaimed(d.lease, now) && Disowned(d.lease, now) == d.lease && !Overdue(d.lease, now)
  }

  /** After one visit there is nothing more to do: in particular, a lease granted at or after `now` survives. */
  lemma VisitSettles(p: Local, env: Env, now: Time, t: Time)
    requires t >= now
    ensures Settled(LocalVisit(p, env, now, t).device, now)
  {
  }

  lemma SettledStays(p: Local, env: Env, now: Time, t: Time)
    requires Settled(p.device, now)
    ensures LocalVisit(p, env, now, t) == p
  {
  }

  // ---- up to the numbers of leases ----

  /** A waiter's lease: none, the one that holds the device now, or an earlier one. */
  datatype Grantee = Ungranted | OfHolder | Earlier(id: Id)

  function GranteeOf(d: Device, lease: Option<Id>): Grantee {
    match lease
    case None => Ungranted
    case Some(id) => if d.Held? && d.id == id then OfHolder else Earlier(id)
  }

  /** A device's part of the broker, with the holder's ID left out. */
  datatype Unnumbered = Unnumbered(device: Device, waiters: map<Id, (WaiterRec, Grantee)>, registered: set<Id>)

  function Nameless(d: Device): Device {
    if d.Held? then d.(id := Id(0, 0)) else d
  }

  function WithoutNumbers(p: Local): Unnumbered {
    Unnumbered(Nameless(p.device),
               map id | id in p.waiters :: Unnumber(p.device, p.waiters[id]),
               p.registered)
  }

  /** No waiter refers to the lease ID n, nor does the device. */
  ghost predicate Unused(p: Local, n: Id) {
    && (p.device.Held? ==> p.device.id != n)
    && (forall id :: id in p.waiters ==> p.waiters[id].lease != Some(n))
  }

  lemma StepRenamed(d: Device, op: Op, env1: Env, env2: Env)
    requires op.Inspect? && env1.config == env2.config && env1.serial == env2.serial
    requires d.Held? ==> d.id != env1.nextId && d.id != env2.nextId
    ensures HandsOver(d, op, env1) == HandsOver(d, op, env2)
    ensures Nameless(Step(d, op, env1)) == Nameless(Step(d, op, env2))
    ensures Step(d, op, env1).Held? && !HandsOver(d, op, env1) ==> d.Held? && Step(d, op, env1).id == d.id
    ensures Step(d, op, env1).Held? && HandsOver(d, op, env1) ==> Step(d, op, env1).id == env1.nextId
    ensures HandsOver(d, op, env1) && Step(d, op, env1).Free? ==> NextSession(QueueOf(d), op.t).None?
  {
  }

  function Unnumber(d: Device, w: WaiterRec): (WaiterRec, Grantee) {
    (w.(lease := None), GranteeOf(d, w.lease))
  }

  /** A waiter that was not served refers to the same earlier lease either way; one that was served, to the holder. */
  lemma HandedRenamed(d1: Device, d2: Device, q: seq<Entry>, t: Time, n1: Id, n2: Id, id: Id, w: WaiterRec)
    requires d1.Held? == d2.Held? && (d1.Held? ==> d1.id == n1 && d2.id == n2)
    requires !d1.Held? ==> NextSession(q, t).None?
    requires w.lease != Some(n1) && w.lease != Some(n2)
    ensures Unnumber(d1, AfterHandoff(q, t, n1, id, w)) == Unnumber(d2, AfterHandoff(q, t, n2, id, w))
  {
  }

  lemma WaiterRenamed(d: Device, op: Op, env1: Env, env2: Env, id: Id, w: WaiterRec)
    requires op.Inspect? && env1.config == env2.config && env1.serial == env2.serial
    requires d.Held? ==> d.id != env1.nextId && d.id != env2.nextId
    requires w.lease != Some(env1.nextId) && w.lease != Some(env2.nextId)
    ensures HandsOver(d, op, env1) ==>
              Unnumber(Step(d, op, env1), AfterHandoff(QueueOf(d), op.t, env1.nextId, id, w))
              == Unnumber(Step(d, op, env2), AfterHandoff(QueueOf(d), op.t, env2.nextId, id, w))
    ensures !HandsOver(d, op, env1) ==> Unnumber(Step(d, op, env1), w) == Unnumber(Step(d, op, env2), w)
  {
    hide Step, HandsOver, NextSession, Nameless, AfterHandoff, QueueOf;
    StepRenamed(d, op, env1, env2);
    StepRenamed(d, op, env2, env1);
    NamelessShape(Step(d, op, env1), Step(d, op, env2));
    if HandsOver(d, op, env1) {
      HandsNotClean(d, op, env1);
      HandedRenamed(Step(d, op, env1), Step(d, op, env2), QueueOf(d), op.t, env1.nextId, env2.nextId, id, w);
    }
  }

  lemma HandsNotClean(d: Device, op: Op, env: Env)
    requires HandsOver(d, op, env) && op.Inspect?
    ensures Step(d, op, env).Held? || Step(d, op, env).Free?
  {
  }

  /** The next unused ID only ever appears as a number. */
  lemma VisitRenamed(p: Local, env1: Env, env2: Env, now: Time, t: Time)
    requires env1.config == env2.config && env1.serial == env2.serial
    requires Unused(p, env1.nextId) && Unused(p, env2.nextId)
    ensures WithoutNumbers(LocalVisit(p, env1, now, t)) == WithoutNumbers(LocalVisit(p, env2, now, t))
  {
    hide Step, HandsOver, AfterHandoff, Nameless, StillThere, Unnumber;
    var op := Inspect(now, t);
    StepRenamed(p.device, op, env1, env2);
    forall id | id in p.waiters
      ensures HandsOver(p.device, op, env1) ==>
                Unnumber(Step(p.device, op, env1), AfterHandoff(QueueOf(p.device), t, env1.nextId, id, p.waiters[id]))
                == Unnumber(Step(p.device, op, env2),
                    AfterHandoff(QueueOf(p.device), t, env2.nextId, id, p.waiters[id]))
      ensures !HandsOver(p.device, op, env1) ==>
                Unnumber(Step(p.device, op, env1), p.waiters[id]) == Unnumber(Step(p.device, op, env2), p.waiters[id])
    {
      WaiterRenamed(p.device, op, env1, env2, id, p.waiters[id]);
    }
  }

  lemma NamelessShape(d1: Device, d2: Device)
    requires Nameless(d1) == Nameless(d2)
    ensures d1.Held? == d2.Held? && d1.Free? == d2.Free?
  {
  }

  // ---- whole ticks ----

  lemma {:induction false} TickKeeps(st: State, order: seq<Serial>, now: Time, clock: map<Serial, Time>)
    requires Inv(st)
    ensures Inv(VisitAll(st, order, now, clock)) && VisitAll(st, order, now, clock).config == st.config
  {
    if order != [] {
      var front := order[..|order| - 1];
      var s := order[|order| - 1];
      TickKeeps(st, front, now, clock);
      VisitKeeps(VisitAll(st, front, now, clock), s, now, Reading(clock, s, now));
      VisitConfig(VisitAll(st, front, now, clock), s, now, Reading(clock, s, now));
    }
  }

  lemma VisitConfig(st: State, s: Serial, now: Time, t: Time)
    ensures Visit(st, s, now, t).config == st.config
  {
    if Leased(st, s) {
      ExpireConfig(st, s, t);
      ExpireConfig(SetLease(st, st.leases[s], Disowned(LeaseOn(st, s), now)), s, t);
    }
    hide Expire;
  }

  lemma ExpireConfig(st: State, s: Serial, now: Time)
    requires Leased(st, s)
    ensures Expire(st, s, now).config == st.config
  {
  }

  lemma FreshUnusedAt(st: State, x: Serial)
    requires Inv(st)
    ensures Readable(st, x) && Unused(At(st, x), FreshId(st))
  {
  }

  lemma UnusedSince(st: State, st': State, x: Serial)
    requires Inv(st) && Readable(st, x) && Readable(st', x) && Inv(st') && At(st', x) == At(st, x)
    ensures Unused(At(st, x), FreshId(st'))
  {
  }

  /**
   * A tick does to each device what a single visit does to it, however often and in whatever order the table's serials
   * come up; and nothing to the devices it does not meet.
   */
  lemma {:induction false} TickIsOneVisit(st: State, order: seq<Serial>, now: Time, clock: map<Serial, Time>, x: Serial)
    requires Inv(st)
    ensures var st' := VisitAll(st, order, now, clock);
            var once := Visit(st, x, now, Reading(clock, x, now));
            && Readable(st, x) && Readable(st', x) && Readable(once, x)
            && (x !in order ==> At(st', x) == At(st, x))
            && (x in order ==> WithoutNumbers(At(st', x)) == WithoutNumbers(At(once, x)))
            && (x in order ==> Settled(At(st', x).device, now))
  {
    hide Inv, Visit, WithoutNumbers, Settled, Unused, LocalVisit, Readable, At;
    VisitAt(st, x, now, Reading(clock, x, now), x);
    if order != [] {
      var front := order[..|order| - 1];
      var s := order[|order| - 1];
      var mid := VisitAll(st, front, now, clock);
      var t := Reading(clock, s, now);
      TickIsOneVisit(st, front, now, clock, x);
      TickKeeps(st, front, now, clock);
      VisitAt(mid, s, now, t, x);
      if s == x {
        VisitSettles(At(mid, x), EnvAt(mid, x), now, t);
        if x in front {
          SettledStays(At(mid, x), EnvAt(mid, x), now, t);
        } else {
          UnusedSince(st, mid, x);
          FreshUnusedAt(st, x);
          VisitRenamed(At(st, x), EnvAt(mid, x), EnvAt(st, x), now, t);
        }
      }
    }
  }

  /** The tick meets every lease that was in the table. */
  ghost predicate Meets(st: State, order: seq<Serial>) {
    forall s :: s in st.leases ==> s in order
  }

  lemma UnleasedVisit(st: State, order: seq<Serial>, now: Time, clock: map<Serial, Time>, x: Serial)
    requires Inv(st) && Meets(st, order)
    ensures var st' := VisitAll(st, order, now, clock);
            var once := Visit(st, x, now, Reading(clock, x, now));
            && Readable(st', x) && Readable(once, x)
            && WithoutNumbers(At(st', x)) == WithoutNumbers(At(once, x))
  {
    TickIsOneVisit(st, order, now, clock, x);
    if x !in order {
      VisitAt(st, x, now, Reading(clock, x, now), x);
      assert Visit(st, x, now, Reading(clock, x, now)) == st;
    }
  }

  /**
   * Confluence: any two orders in which a tick meets the leases of the table, with or without meeting some of them
   * again, leave every device with the same lease, queue and cleanup, the same waiters and the same registry, up
   * to the numbers of the leases granted in the tick.
   */
  lemma OrderDoesNotMatter(st: State, order1: seq<Serial>, order2: seq<Serial>, now: Time, clock: map<Serial, Time>,
      x: Serial)
    requires Inv(st) && Meets(st, order1) && Meets(st, order2)
    ensures var st1 := VisitAll(st, order1, now, clock);
            var st2 := VisitAll(st, order2, now, clock);
            && Readable(st1, x) && Readable(st2, x)
            && WithoutNumbers(At(st1, x)) == WithoutNumbers(At(st2, x))
  {
    hide Inv, VisitAll, Visit, WithoutNumbers, At;
    UnleasedVisit(st, order1, now, clock, x);
    UnleasedVisit(st, order2, now, clock, x);
  }

  // ---- the same, in the broker's own tables ----

  /** The same tables but for the numbers of leases; the snapshots agree on who owns what. */
  ghost predicate SameTables(st1: State, st2: State) {
    && SameLeases(st1, st2)
    && st1.queues == st2.queues && st1.cleaning == st2.cleaning && st1.jobs == st2.jobs && st1.registry == st2.registry
    && SameWaiters(st1, st2)
    && OwnersOnDisk(st1, st1) && OwnersOnDisk(st2, st2) && OwnersOnDisk(st1, st2)
  }

  ghost predicate SameLeases(st1: State, st2: State) {
    && (forall s :: s in st1.leases <==> s in st2.leases)
    && (forall s :: s in st1.leases ==> Leased(st1, s) && Leased(st2, s) && LeaseOn(st1, s) == LeaseOn(st2, s))
  }

  ghost predicate SameWaiters(st1: State, st2: State) {
    && st1.wm.Keys == st2.wm.Keys
    && (forall id :: id in st1.wm && id in st2.wm ==> SameWaiter(st1, st2, st1.wm[id], st2.wm[id]))
  }

  /** The snapshot of st1 names exactly the leases of its table, each with the owner it has in st2. */
  ghost predicate OwnersOnDisk(st1: State, st2: State) {
    && (forall s :: s in st1.leases && Leased(st2, s) ==>
          st1.leases[s] in st1.disk && SameOwner(st1.disk[st1.leases[s]], LeaseOn(st2, s)))
    && (forall id :: id in st1.disk ==> st1.disk[id].serial in st1.leases && st1.leases[st1.disk[id].serial] == id)
  }

  /** Whose lease a waiter has. */
  function GranteeIn(st: State, w: WaiterRec): Grantee {
    match w.lease
    case None => Ungranted
    case Some(id) => if w.serial in st.leases && st.leases[w.serial] == id then OfHolder else Earlier(id)
  }

  /** Two waiters with the same lease: none, the one that holds their device, or the same earlier one. */
  ghost predicate SameWaiter(st1: State, st2: State, w1: WaiterRec, w2: WaiterRec) {
    w1.(lease := None) == w2.(lease := None) && GranteeIn(st1, w1) == GranteeIn(st2, w2)
  }

  lemma EntriesTell(wm1: map<Id, WaiterRec>, q1: seq<Id>, wm2: map<Id, WaiterRec>, q2: seq<Id>)
    requires (forall id :: id in q1 ==> id in wm1) && (forall id :: id in q2 ==> id in wm2)
    requires Entries(wm1, q1) == Entries(wm2, q2)
    ensures q1 == q2
  {
    var e1, e2 := Entries(wm1, q1), Entries(wm2, q2);
    assert |q1| == |e1| && |q2| == |e2|;
    forall i | 0 <= i < |q1|
      ensures q1[i] == q2[i]
    {
      assert e1[i] == e2[i];
    }
  }

  lemma ViewTells(st1: State, st2: State, x: Serial)
    requires Inv(st1) && Inv(st2) && Readable(st1, x) && Readable(st2, x)
    requires Nameless(View(st1, x)) == Nameless(View(st2, x))
    ensures x in st1.leases <==> x in st2.leases
    ensures x in st1.leases ==> Leased(st1, x) && Leased(st2, x) && LeaseOn(st1, x) == LeaseOn(st2, x)
    ensures x in st1.cleaning <==> x in st2.cleaning
    ensures x in st1.cleaning ==> st1.cleaning[x] == st2.cleaning[x]
    ensures Queue(st1, x) == Queue(st2, x)
  {
    LeaseNames(st1, x);
    LeaseNames(st2, x);
    QueueNamed(st1, x);
    QueueNamed(st2, x);
    QueueSeen(st1, x);
    QueueSeen(st2, x);
    if !View(st1, x).Free? && !View(st2, x).Free? {
      hide Inv, Entries;
      EntriesTell(st1.wm, Queue(st1, x), st2.wm, Queue(st2, x));
    }
  }

  lemma HolderTells(st: State, x: Serial, w: WaiterRec)
    requires Inv(st) && Readable(st, x) && w.serial == x
    ensures GranteeOf(View(st, x), w.lease) == GranteeIn(st, w)
  {
    LeaseNames(st, x);
    hide Inv, Entries;
  }

  lemma WaiterTells(st1: State, st2: State, x: Serial, id: Id)
    requires Inv(st1) && Inv(st2)
    requires Readable(st1, x) && Readable(st2, x) && WithoutNumbers(At(st1, x)) == WithoutNumbers(At(st2, x))
    requires id in st1.wm && st1.wm[id].serial == x
    ensures id in st2.wm && SameWaiter(st1, st2, st1.wm[id], st2.wm[id])
    ensures id in st1.registry <==> id in st2.registry
  {
    hide Inv, View, Readable, GranteeOf, GranteeIn;
    var p1, p2 := At(st1, x), At(st2, x);
    assert id in WithoutNumbers(p1).waiters && id in WithoutNumbers(p2).waiters;
    assert WithoutNumbers(p1).waiters[id] == WithoutNumbers(p2).waiters[id];
    assert id in p1.registered <==> id in p2.registered;
    HolderTells(st1, x, st1.wm[id]);
    HolderTells(st2, x, st2.wm[id]);
  }

  lemma QueuesTell(st1: State, st2: State)
    requires Inv(st1) && Inv(st2) && forall x :: Queue(st1, x) == Queue(st2, x)
    ensures st1.queues == st2.queues
  {
    hide Inv;
    QueuesStored(st1);
    QueuesStored(st2);
    forall x
      ensures x in st1.queues <==> x in st2.queues
      ensures x in st1.queues ==> st1.queues[x] == st2.queues[x]
    {
      assert Queue(st1, x) == Queue(st2, x);
    }
  }

  lemma QueuesStored(st: State)
    requires Inv(st)
    ensures forall x :: x in st.queues ==> st.queues[x] != []
  {
  }

  lemma JobsTell(st1: State, st2: State)
    requires Inv(st1) && Inv(st2) && st1.cleaning == st2.cleaning
    ensures st1.jobs == st2.jobs
  {
    assert forall id :: id in st1.jobs ==> id in st1.lm && st1.cleaning[st1.lm[id].serial] == id;
    assert forall id :: id in st2.jobs ==> id in st2.lm && st2.cleaning[st2.lm[id].serial] == id;
    hide QueuesWell, RegistryWell, GrantsWell, NoSelfBlocking, SnapshotWell, LeasesWell;
  }

  lemma DisksTell(st: State)
    requires Inv(st)
    ensures OwnersOnDisk(st, st)
  {
    forall s | s in st.leases && Leased(st, s)
      ensures st.leases[s] in st.disk && SameOwner(st.disk[st.leases[s]], LeaseOn(st, s))
    {
      assert InTable(st.leases, st.lm, st.leases[s]);
    }
    forall id | id in st.disk
      ensures st.disk[id].serial in st.leases && st.leases[st.disk[id].serial] == id
    {
      assert InTable(st.leases, st.lm, id);
    }
  }

  lemma DisksAgree(st1: State, st2: State)
    requires OwnersOnDisk(st1, st1) && SameLeases(st1, st2)
    ensures OwnersOnDisk(st1, st2)
  {
  }

  lemma RegistryKnown(st: State)
    requires Inv(st)
    ensures st.registry <= st.wm.Keys
  {
  }

  ghost predicate SameDevices(st1: State, st2: State) {
    forall x :: Readable(st1, x) && Readable(st2, x) && WithoutNumbers(At(st1, x)) == WithoutNumbers(At(st2, x))
  }

  lemma TablesTell(st1: State, st2: State)
    requires Inv(st1) && Inv(st2) && SameDevices(st1, st2)
    ensures SameLeases(st1, st2) && st1.cleaning == st2.cleaning && st1.queues == st2.queues
  {
    hide Inv, WithoutNumbers, View, At, Readable;
    forall x
      ensures x in st1.leases <==> x in st2.leases
      ensures x in st1.leases ==> Leased(st1, x) && Leased(st2, x) && LeaseOn(st1, x) == LeaseOn(st2, x)
      ensures x in st1.cleaning <==> x in st2.cleaning
      ensures x in st1.cleaning ==> st1.cleaning[x] == st2.cleaning[x]
      ensures Queue(st1, x) == Queue(st2, x)
    {
      NamelessAt(st1, st2, x);
      ViewTells(st1, st2, x);
    }
    QueuesTell(st1, st2);
  }

  lemma WaitersTell(st1: State, st2: State)
    requires Inv(st1) && Inv(st2) && SameDevices(st1, st2)
    ensures SameWaiters(st1, st2) && st1.registry == st2.registry
  {
    hide Inv, WithoutNumbers, SameWaiter, View, At, Readable;
    RegistryKnown(st1);
    RegistryKnown(st2);
    forall id
      ensures id in st1.wm <==> id in st2.wm
      ensures id in st1.wm ==> SameWaiter(st1, st2, st1.wm[id], st2.wm[id])
      ensures id in st1.registry <==> id in st2.registry
    {
      if id in st1.wm {
        WaiterTells(st1, st2, st1.wm[id].serial, id);
      } else if id in st2.wm {
        WaiterTells(st2, st1, st2.wm[id].serial, id);
      }
    }
  }

  lemma DevicesTell(st1: State, st2: State)
    requires Inv(st1) && Inv(st2) && SameDevices(st1, st2)
    ensures SameTables(st1, st2)
  {
    hide Inv, SameDevices, SameLeases, SameWaiters, OwnersOnDisk;
    TablesTell(st1, st2);
    WaitersTell(st1, st2);
    JobsTell(st1, st2);
    DisksTell(st1);
    DisksTell(st2);
    DisksAgree(st1, st2);
  }

  lemma NamelessAt(st1: State, st2: State, x: Serial)
    requires Readable(st1, x) && Readable(st2, x) && WithoutNumbers(At(st1, x)) == WithoutNumbers(At(st2, x))
    ensures Nameless(View(st1, x)) == Nameless(View(st2, x))
  {
  }

  lemma CollectSame(st1: State, st2: State, now: Time)
    requires SameTables(st1, st2)
    ensures SameTables(Collect(st1, now), Collect(st2, now))
  {
    hide OwnersOnDisk, SameLeases, SameWaiters, Collect;
    CollectedSame(st1, st2, now);
    CollectedDisk(st1, st1, now);
    CollectedDisk(st2, st2, now);
    CollectedDisk(st1, st2, now);
  }

  lemma CollectedDisk(st1: State, st2: State, now: Time)
    requires OwnersOnDisk(st1, st2)
    ensures OwnersOnDisk(Collect(st1, now), Collect(st2, now))
  {
  }

  lemma CollectedSame(st1: State, st2: State, now: Time)
    requires SameLeases(st1, st2) && SameWaiters(st1, st2) && st1.registry == st2.registry
    ensures var c1, c2 := Collect(st1, now), Collect(st2, now);
            && SameLeases(c1, c2) && SameWaiters(c1, c2) && c1.registry == c2.registry
            && c1.queues == st1.queues && c1.cleaning == st1.cleaning && c1.jobs == st1.jobs
            && c2.queues == st2.queues && c2.cleaning == st2.cleaning && c2.jobs == st2.jobs
  {
  }

  /**
   * The outcome of one tick of the reaper, both loops, does not depend on the order in which map iteration yields the
   * leases, nor on whether it yields again a serial that a hand-off has put back.
   */
  lemma TickConfluent(st: State, order1: seq<Serial>, order2: seq<Serial>, now: Time, clock: map<Serial, Time>)
    requires Inv(st) && Meets(st, order1) && Meets(st, order2)
    ensures SameTables(Tick(st, order1, now, clock), Tick(st, order2, now, clock))
  {
    hide Inv, VisitAll, WithoutNumbers, At, SameTables, Collect, Readable;
    TickKeeps(st, order1, now, clock);
    TickKeeps(st, order2, now, clock);
    forall x
      ensures var st1 := VisitAll(st, order1, now, clock);
              var st2 := VisitAll(st, order2, now, clock);
              Readable(st1, x) && Readable(st2, x) && WithoutNumbers(At(st1, x)) == WithoutNumbers(At(st2, x))
    {
      OrderDoesNotMatter(st, order1, order2, now, clock, x);
    }
    assert SameDevices(VisitAll(st, order1, now, clock), VisitAll(st, order2, now, clock));
    DevicesTell(VisitAll(st, order1, now, clock), VisitAll(st, order2, now, clock));
    CollectSame(VisitAll(st, order1, now, clock), VisitAll(st, order2, now, clock), now);
  }

  // ---- a lease granted inside the tick ----

  lemma {:induction false} SettledForGood(st: State, order: seq<Serial>, more: seq<Serial>, now: Time,
                                          clock: map<Serial, Time>, x: Serial)
    requires Inv(st) && x in order
    ensures var mid := VisitAll(st, order, now, clock);
            var end := VisitAll(st, order + more, now, clock);
            Readable(mid, x) && Readable(end, x) && At(end, x) == At(mid, x)
  {
    hide Inv, Visit, Settled, LocalVisit, Readable, At;
    TickIsOneVisit(st, order, now, clock, x);
    if more == [] {
      assert order + more == order;
    } else {
      var front := more[..|more| - 1];
      var s := more[|more| - 1];
      assert (order + more)[..|order + more| - 1] == order + front;
      SettledForGood(st, order, front, now, clock, x);
      TickIsOneVisit(st, order + front, now, clock, x);
      TickKeeps(st, order + front, now, clock);
      var mid := VisitAll(st, order + front, now, clock);
      VisitAt(mid, s, now, Reading(clock, s, now), x);
      SettledStays(At(mid, x), EnvAt(mid, x), now, Reading(clock, s, now));
    }
  }

  /** A lease granted inside a tick is still there, unchanged, when the tick ends, whatever the tick still meets. */
  lemma GrantSurvivesTick(st: State, order: seq<Serial>, more: seq<Serial>, now: Time, clock: map<Serial, Time>,
      x: Serial)
    requires Inv(st)
    requires var mid := VisitAll(st, order, now, clock); Leased(mid, x) && !Issued(st, mid.leases[x])
    ensures var mid := VisitAll(st, order, now, clock);
            var end := VisitAll(st, order + more, now, clock);
            Leased(end, x) && end.leases[x] == mid.leases[x] && LeaseOn(end, x) == LeaseOn(mid, x)
  {
    hide Inv, VisitAll, Visit, Issued;
    TickKeeps(st, order, now, clock);
    TickKeeps(st, order + more, now, clock);
    TickIsOneVisit(st, order, now, clock, x);
    var mid := VisitAll(st, order, now, clock);
    ViewOfLeased(mid, x);
    if x !in order {
      HolderIssued(st, x);
    }
    SettledForGood(st, order, more, now, clock, x);
    HeldIsLive(VisitAll(st, order + more, now, clock), x);
  }
}
