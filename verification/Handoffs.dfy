/**
 * Who is served when, over whole runs: nobody is stranded, a hand-off serves exactly one
 * session, and a waiter is overtaken at most once by each session ahead of it.
 */
module Handoffs {
  import opened Basics
  import opened Records
  import opened Selection
  import opened BrokerModel
  import opened BrokerInvariant
  import opened DeviceMachine

  // ---- sessions at or ahead of a waiter ----

  predicate Has(q: seq<Entry>, wid: Id) {
    exists i :: 0 <= i < |q| && q[i].id == wid
  }

  function SessionsOf(q: seq<Entry>): set<Session> {
    set i | 0 <= i < |q| :: q[i].w.session
  }

  /** The distinct sessions in q up to and including the waiter wid. */
  function AheadOf(q: seq<Entry>, wid: Id): set<Session> {
    if q == [] then {}
    else if Has(q[..|q| - 1], wid) then AheadOf(q[..|q| - 1], wid)
    else SessionsOf(q)
  }

  ghost predicate NamedOnce(q: seq<Entry>) {
    forall i, j :: 0 <= i < j < |q| ==> q[i].id != q[j].id
  }

  lemma AheadAppend(q: seq<Entry>, e: Entry, wid: Id)
    requires Has(q, wid)
    ensures AheadOf(q + [e], wid) == AheadOf(q, wid)
  {
  }

  lemma {:induction false} AheadBounded(q: seq<Entry>, wid: Id)
    ensures AheadOf(q, wid) <= SessionsOf(q)
  {
    if q != [] {
      AheadBounded(q[..|q| - 1], wid);
    }
  }

  /** Somebody of the first entry's session is ahead of everybody. */
  lemma {:induction false} HeadIsAhead(q: seq<Entry>, wid: Id)
    requires Has(q, wid)
    ensures q[0].w.session in AheadOf(q, wid)
  {
    var front := q[..|q| - 1];
    if Has(front, wid) {
      HeadIsAhead(front, wid);
    }
  }

  lemma {:induction false} AheadFilter(f: Entry -> bool, q: seq<Entry>, wid: Id)
    requires Has(Filter(f, q), wid) && NamedOnce(q)
    ensures Has(q, wid) && AheadOf(Filter(f, q), wid) <= AheadOf(q, wid)
  {
    var front := q[..|q| - 1];
    var last := q[|q| - 1];
    var kept := Filter(f, front);
    if Has(kept, wid) {
      AheadFilter(f, front, wid);
      if f(last) {
        AheadAppend(kept, last, wid);
      }
    } else {
      assert f(last) && last.id == wid;
      assert (kept + [last])[..|kept|] == kept;
      forall x | x in SessionsOf(Filter(f, q))
        ensures x in SessionsOf(q)
      {
        var i :| 0 <= i < |Filter(f, q)| && Filter(f, q)[i].w.session == x;
        assert Filter(f, q)[i] in Filter(f, q);
        var j :| 0 <= j < |q| && q[j] == Filter(f, q)[i];
      }
    }
  }

  lemma {:induction false} AheadMap(q: seq<Entry>, other: Id, now: Time, wid: Id)
    ensures var q' := MapQueue(AfterPoll(other, now), q);
            && Has(q', wid) == Has(q, wid)
            && AheadOf(q', wid) == AheadOf(q, wid)
            && (NamedOnce(q) ==> NamedOnce(q'))
  {
    var f := AfterPoll(other, now);
    var q' := MapQueue(f, q);
    assert forall i :: 0 <= i < |q| ==> q'[i].id == q[i].id && q'[i].w.session == q[i].w.session;
    assert SessionsOf(q') == SessionsOf(q) by {
      assert forall x :: x in SessionsOf(q') <==> x in SessionsOf(q);
    }
    if q != [] {
      AheadMap(q[..|q| - 1], other, now, wid);
      assert MapQueue(f, q[..|q| - 1]) == q'[..|q| - 1];
    }
  }

  // ---- a hand-off ----

  /** A waiter that a hand-off leaves waiting has fewer sessions ahead than before. */
  lemma HandoffShrinks(q: seq<Entry>, env: Env, now: Time, wid: Id)
    requires NamedOnce(q) && Has(QueueOf(Handoff(q, env, now)), wid)
    ensures Has(q, wid)
    ensures AheadOf(QueueOf(Handoff(q, env, now)), wid) < AheadOf(q, wid)
  {
    var alive := Filter(StillPolling(now), q);
    var head := alive[0].w.session;
    var rest := Filter(SessionIsNot(head), alive);
    FilterNamed(StillPolling(now), q);
    AheadFilter(SessionIsNot(head), alive, wid);
    AheadFilter(StillPolling(now), q, wid);
    HeadIsAhead(alive, wid);
    AheadBounded(rest, wid);
    assert head !in SessionsOf(rest) by {
      forall i | 0 <= i < |rest|
        ensures rest[i].w.session != head
      {
        assert rest[i] in rest;
      }
    }
  }

  lemma {:induction false} FilterNamed(f: Entry -> bool, q: seq<Entry>)
    requires NamedOnce(q)
    ensures NamedOnce(Filter(f, q))
  {
    if q != [] {
      var front := q[..|q| - 1];
      FilterNamed(f, front);
      var kept := Filter(f, front);
      forall i | 0 <= i < |kept|
        ensures kept[i].id != q[|q| - 1].id
      {
        assert kept[i] in front;
      }
    }
  }

  /** The operation hands the device over. */
  predicate HandsOver(d: Device, op: Op, env: Env) {
    match d
    case Free => false
    case Cleaning(_, _) => op.Cleaned?
    case Held(_, l, _) =>
      && !(env.config.cleanup && l.baseline != [])
      && (op.Revoke? || (op.Inspect? && (Unclaimed(l, op.now) || Overdue(Disowned(l, op.now), op.now))))
  }

  /** Whatever happens to a device, a waiter that stays has no more sessions ahead, and fewer after a hand-off. */
  lemma StepShrinks(d: Device, op: Op, env: Env, wid: Id)
    requires NamedOnce(QueueOf(d)) && Has(QueueOf(d), wid) && Has(QueueOf(Step(d, op, env)), wid)
    ensures AheadOf(QueueOf(Step(d, op, env)), wid) <= AheadOf(QueueOf(d), wid)
    ensures HandsOver(d, op, env) ==> AheadOf(QueueOf(Step(d, op, env)), wid) < AheadOf(QueueOf(d), wid)
  {
    var q := QueueOf(d);
    match op
    case Arrive(req, now, idle) => AheadAppend(q, Newcomer(env, req, now, idle), wid);
    case PollBy(other, now) => AheadMap(q, other, now, wid);
    case Leave(other) => AheadFilter(NotNamed(other), q, wid);
    case Cleaned(now) => if d.Cleaning? { HandoffShrinks(q, env, now, wid); }
    case Revoke(now) => if HandsOver(d, op, env) { HandoffShrinks(q, env, now, wid); }
    case Inspect(now, t) => if HandsOver(d, op, env) { HandoffShrinks(q, env, t, wid); }
    case _ =>
  }

  // ---- over runs ----

  lemma QueueNamed(st: State, s: Serial)
    requires Inv(st)
    ensures Readable(st, s) && NamedOnce(QueueOf(View(st, s)))
    ensures forall wid :: Has(QueueOf(View(st, s)), wid) <==> wid in Queue(st, s)
    ensures Queue(st, s) != [] ==> !View(st, s).Free?
  {
    Readables(st, s);
    assert Queue(st, s) != [] ==> s in st.queues && (s in st.leases || s in st.cleaning);
    assert s in st.leases ==> Leased(st, s);
    var q := Queue(st, s);
    if View(st, s).Free? {
      assert q == [];
    } else {
      assert QueueOf(View(st, s)) == Entries(st.wm, q);
      assert forall i :: 0 <= i < |q| ==> Entries(st.wm, q)[i].id == q[i];
    }
  }

  /** A queue gains only newly numbered waiters. */
  lemma QueueGains(st: State, ev: Event, s: Serial, wid: Id)
    requires Inv(st) && wid in Queue(Next(st, ev), s)
    ensures wid in Queue(st, s) || !Issued(st, wid)
  {
    Refines(st, ev, s);
    QueueNamed(st, s);
    QueueNamed(Next(st, ev), s);
    var d := View(st, s);
    var op := OpAt(st, ev, s);
    hide Inv, View, OpAt, Next;
    assert !Issued(st, EnvAt(st, s).nextId);
    StepGains(d, op, EnvAt(st, s), wid);
  }

  lemma FilterHas(f: Entry -> bool, q: seq<Entry>, wid: Id)
    requires Has(Filter(f, q), wid)
    ensures Has(q, wid)
  {
    var i :| 0 <= i < |Filter(f, q)| && Filter(f, q)[i].id == wid;
    assert Filter(f, q)[i] in q;
  }

  lemma StepGains(d: Device, op: Op, env: Env, wid: Id)
    requires Has(QueueOf(Step(d, op, env)), wid)
    ensures Has(QueueOf(d), wid) || wid == env.nextId
  {
    var q := QueueOf(d);
    match op
    case Arrive(req, now, idle) =>
    case PollBy(other, now) => AheadMap(q, other, now, wid);
    case Leave(other) => FilterHas(NotNamed(other), q, wid);
    case Cleaned(now) => if d.Cleaning? { HandoffGains(q, env, now, wid); }
    case Revoke(now) => if HandsOver(d, op, env) { HandoffGains(q, env, now, wid); }
    case Inspect(now, t) => if HandsOver(d, op, env) { HandoffGains(q, env, t, wid); }
    case _ =>
  }

  lemma HandoffGains(q: seq<Entry>, env: Env, now: Time, wid: Id)
    requires Has(QueueOf(Handoff(q, env, now)), wid)
    ensures Has(q, wid)
  {
    var alive := Filter(StillPolling(now), q);
    FilterHas(SessionIsNot(alive[0].w.session), alive, wid);
    FilterHas(StillPolling(now), q, wid);
  }

  /** Identifiers stay issued. */
  lemma IssuedStays(st: State, ev: Event, id: Id)
    requires Inv(st) && Issued(st, id)
    ensures Issued(Next(st, ev), id)
  {
    CounterGrows(st, ev);
  }

  ghost predicate Later(st: State, st': State) {
    st'.pid == st.pid && st'.pids == st.pids && st.counter <= st'.counter
  }

  lemma GrantNextLater(st: State, s: Serial, now: Time)
    ensures Later(st, GrantNext(st, s, now))
  {
  }

  lemma ExpireLater(st: State, s: Serial, now: Time)
    requires Leased(st, s)
    ensures Later(st, Expire(st, s, now))
  {
  }

  /** Within one daemon the counter grows; a restart moves to a process id not used before. */
  lemma CounterGrows(st: State, ev: Event)
    ensures var st' := Next(st, ev);
            || Later(st, st')
            || (ev.Restarted? && st'.pid !in st.pids && st'.pids == st.pids + {st'.pid})
  {
    hide GrantNext, Expire, Filter, ReleaseTarget, FirstFree, StickyDevice, Save;
    match ev
    case Dropped(wid, now) => DropLater(st, wid, now);
    case Releasing(req, now) => if MayRelease(st, req) { ExpireLater(st, ReleaseTarget(st, req).value, now); }
    case CleanupFinished(id, now) =>
      if id in st.jobs && id in st.lm {
        var s := st.lm[id].serial;
        GrantNextLater(st.(cleaning := st.cleaning - {s}, jobs := st.jobs - {id}), s, now);
        SavedLater(st, GrantNext(st.(cleaning := st.cleaning - {s}, jobs := st.jobs - {id}), s, now));
      }
    case Visiting(s, now, t) =>
      if Leased(st, s) {
        ExpireLater(st, s, t);
        ExpireLater(SetLease(st, st.leases[s], Disowned(LeaseOn(st, s), now)), s, t);
      }
    case Restarted(pid, now) =>
    case Acquiring(req, now, idle) => AcquireLater(st, req, now, idle);
    case AcquiringAny(req, devs, first, now, idle) => AnyLater(st, req, devs, first, now, idle);
    case _ => QuietLater(st, ev);
  }

  lemma SavedLater(st: State, st1: State)
    requires Later(st, st1)
    ensures Later(st, Save(st1))
  {
  }

  lemma DropLater(st: State, wid: Id, now: Time)
    ensures Later(st, Drop(st, wid, now))
  {
  }

  lemma AcquireLater(st: State, req: AcquireReq, now: Time, idle: nat)
    ensures Later(st, Acquire(st, req, now, idle).0)
  {
  }

  lemma AnyLater(st: State, req: AcquireAnyReq, devs: seq<DeviceLine>, first: Serial, now: Time, idle: nat)
    ensures Later(st, AcquireAny(st, req, devs, first, now, idle))
  {
  }

  lemma QuietLater(st: State, ev: Event)
    requires ev.Polled? || ev.Woken? || ev.KeptFresh? || ev.Beat?
      || ev.CommandEnded? || ev.BaselineStored? || ev.Collecting? || ev.Reloaded?
    ensures Later(st, Next(st, ev))
  {
    hide FirstFree, StickyDevice, Queue;
  }

  /** How often the device s is handed over during a run. */
  ghost function HandoverCount(st: State, evs: seq<Event>, s: Serial): nat
    requires Inv(st)
  {
    if evs == [] then 0 else
      var front := evs[..|evs| - 1];
      RunKeeps(st, front);
      var before := Run(st, front);
      Readables(before, s);
      HandoverCount(st, front, s)
        + if HandsOver(View(before, s), OpAt(before, evs[|evs| - 1], s), EnvAt(before, s)) then 1 else 0
  }

  /** A waiter that has left a queue does not come back to it. */
  lemma {:induction false} LeftForGood(st: State, evs: seq<Event>, s: Serial, wid: Id)
    requires Inv(st) && Issued(st, wid)
    ensures Issued(Run(st, evs), wid)
    ensures wid in Queue(Run(st, evs), s) ==> wid in Queue(st, s)
  {
    if evs != [] {
      var front := evs[..|evs| - 1];
      LeftForGood(st, front, s, wid);
      RunKeeps(st, front);
      IssuedStays(Run(st, front), evs[|evs| - 1], wid);
      if wid in Queue(Run(st, evs), s) {
        QueueGains(Run(st, front), evs[|evs| - 1], s, wid);
      }
    }
  }

  /**
   * Bounded overtaking: every hand-over of a device during a run uses up one of the distinct
   * sessions at or ahead of a waiter that still waits.  A waiter with d of them is gone from its queue by the d-th
   * hand-over, whatever else arrives, polls, leaves, is released or reclaimed meanwhile.
   */
  lemma {:induction false} BoundedOvertaking(st: State, evs: seq<Event>, s: Serial, wid: Id)
    requires Inv(st) && Readable(st, s)
    requires wid in Queue(Run(st, evs), s) && Issued(st, wid)
    ensures var st' := Run(st, evs);
            && Inv(st') && Readable(st', s) && wid in Queue(st, s)
            && HandoverCount(st, evs, s) + |AheadOf(QueueOf(View(st', s)), wid)| <= |AheadOf(QueueOf(View(st, s)), wid)|
            && HandoverCount(st, evs, s) < |AheadOf(QueueOf(View(st, s)), wid)|
  {
    RunKeeps(st, evs);
    QueueNamed(Run(st, evs), s);
    HeadIsAhead(QueueOf(View(Run(st, evs), s)), wid);
    if evs != [] {
      var front := evs[..|evs| - 1];
      var ev := evs[|evs| - 1];
      var before := Run(st, front);
      RunKeeps(st, front);
      LeftForGood(st, front, s, wid);
      QueueGains(before, ev, s, wid);
      BoundedOvertaking(st, front, s, wid);
      Refines(before, ev, s);
      QueueNamed(before, s);
      hide Inv, View, OpAt, Next, Step, HandsOver, AheadOf;
      StepShrinks(View(before, s), OpAt(before, ev, s), EnvAt(before, s), wid);
      Smaller(AheadOf(QueueOf(View(Run(st, evs), s)), wid), AheadOf(QueueOf(View(before, s)), wid));
    }
  }

  lemma Smaller<T>(a: set<T>, b: set<T>)
    requires a <= b
    ensures |a| <= |b| && (a < b ==> |a| < |b|)
  {
    assert b == a + (b - a);
    if a < b {
      assert b - a != {};
    }
  }
}
