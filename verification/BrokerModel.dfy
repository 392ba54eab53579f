/**
 * The broker as a value.  lm and wm are the lease and waiter objects the daemon has
 * created, by identifier; the four tables hold references into them, as the
 * pointers in the broker's maps do.  Every critical section under the broker's mutex is
 * one function from state to state.
 */
module BrokerModel {
  import opened Basics
  import opened Records
  import opened Selection

  datatype State = State(
    pid: nat,                        // this daemon
    pids: set<nat>,                  // every daemon so far, this one included
    counter: nat,
    config: Config,
    lm: map<Id, LeaseRec>,
    wm: map<Id, WaiterRec>,
    leases: map<Serial, Id>,
    queues: map<Serial, seq<Id>>,
    registry: set<Id>,               // the waiters map
    cleaning: map<Serial, Id>,       // serials in cleanup, each with the lease its pass works for
    jobs: set<Id>,                   // running cleanup passes, by the ended lease
    disk: map<Id, LeaseRec>)         // the persisted snapshot

  datatype Reply = Granted(lease: Id) | Queued(waiter: Id)

  // ---- reading the tables ----

  function Queue(st: State, s: Serial): seq<Id> {
    if s in st.queues then st.queues[s] else []
  }

  predicate Leased(st: State, s: Serial) {
    s in st.leases && st.leases[s] in st.lm
  }

  function LeaseOn(st: State, s: Serial): LeaseRec
    requires Leased(st, s)
  {
    st.lm[st.leases[s]]
  }

  /** The lease object with this ID is in the lease table. */
  predicate InTable(leases: map<Serial, Id>, lm: map<Id, LeaseRec>, id: Id) {
    id in lm && lm[id].serial in leases && leases[lm[id].serial] == id
  }

  /** What leaseByIDLocked finds. */
  predicate Live(st: State, id: Id) {
    InTable(st.leases, st.lm, id)
  }

  function FreshId(st: State): Id {
    Id(st.pid, st.counter + 1)
  }

  /** An ID handed out by a daemon of pids, of which the current one is pid and has counted to counter. */
  predicate HandedOut(pids: set<nat>, pid: nat, counter: nat, id: Id) {
    id.pid in pids && (id.pid == pid ==> id.number <= counter)
  }

  predicate Issued(st: State, id: Id) {
    HandedOut(st.pids, st.pid, st.counter, id)
  }

  function SetLease(st: State, id: Id, l: LeaseRec): State {
    st.(lm := st.lm[id := l])
  }

  function Save(st: State): State {
    st.(disk := map id | id in st.lm && Live(st, id) :: st.lm[id])
  }

  // ---- granting ----

  /** acquireLocked's two enqueue branches. */
  function Enqueue(st: State, req: AcquireReq, now: Time, idle: nat): State {
    var id := FreshId(st);
    st.(counter := st.counter + 1,
        wm := st.wm[id := WaiterRec(req.serial, req.session, req.holder, req.command, idle, now, now, false, None)],
        queues := st.queues[req.serial := Queue(st, req.serial) + [id]],
        registry := st.registry + {id})
  }

  function NewLease(config: Config, req: AcquireReq, now: Time, idle: nat): LeaseRec {
    LeaseRec(req.serial, req.session, req.holder, req.pid, now, now, now,
             if req.command then 1 else 0, idle, req.explicit,
             if req.explicit then now + ExplicitTTL(config, req.ttlSec) else 0,
             true, [])
  }

  /** grantLocked. */
  function Grant(st: State, req: AcquireReq, now: Time, idle: nat): State {
    var id := FreshId(st);
    Save(st.(counter := st.counter + 1,
             lm := st.lm[id := NewLease(st.config, req, now, idle)],
             leases := st.leases[req.serial := id]))
  }

  /** The same-session branch of acquireLocked. */
  function Renewed(config: Config, l: LeaseRec, req: AcquireReq, now: Time, idle: nat): LeaseRec {
    l.(lastActive := now, lastBeat := now, idleTTL := idle, claimed := true,
       running := if req.command then l.running + 1 else l.running,
       explicit := l.explicit || req.explicit,
       expiresAt := if req.explicit then now + ExplicitTTL(config, req.ttlSec) else l.expiresAt)
  }

  /** acquireLocked. */
  function Acquire(st: State, req: AcquireReq, now: Time, idle: nat): (State, Reply) {
    if req.serial in st.cleaning then
      (Enqueue(st, req, now, idle), Queued(FreshId(st)))
    else if Leased(st, req.serial) then
      var id := st.leases[req.serial];
      if st.lm[id].session == req.session then
        (SetLease(st, id, Renewed(st.config, st.lm[id], req, now, idle)), Granted(id))
      else
        (Enqueue(st, req, now, idle), Queued(FreshId(st)))
    else
      (Grant(st, req, now, idle), Granted(FreshId(st)))
  }

  // ---- hand-off ----

  function Polling(wm: map<Id, WaiterRec>, now: Time): Id -> bool {
    id => id in wm && !(wm[id].lease.None? && now - wm[id].lastPoll > STALE_WAITER)
  }

  function OfSession(wm: map<Id, WaiterRec>, session: Session): Id -> bool {
    id => id in wm && wm[id].session == session
  }

  function NotOfSession(wm: map<Id, WaiterRec>, session: Session): Id -> bool {
    id => id in wm && wm[id].session != session
  }

  function IsCommand(wm: map<Id, WaiterRec>): Id -> bool {
    id => id in wm && wm[id].command
  }

  /** Closing the channels of the waiters in ids. */
  function CloseAll(wm: map<Id, WaiterRec>, ids: set<Id>): map<Id, WaiterRec> {
    map id | id in wm :: if id in ids then wm[id].(closed := true) else wm[id]
  }

  /** Handing lease to the waiters in ids and closing their channels. */
  function HandTo(wm: map<Id, WaiterRec>, ids: seq<Id>, lease: Id): map<Id, WaiterRec> {
    map id | id in wm :: if id in ids then wm[id].(closed := true, lease := Some(lease)) else wm[id]
  }

  function SetQueue(queues: map<Serial, seq<Id>>, s: Serial, q: seq<Id>): map<Serial, seq<Id>> {
    if q == [] then queues - {s} else queues[s := q]
  }

  /** The lease made for the session at the head of a queue, with `commands` commands of that session waiting. */
  function QueueLease(config: Config, s: Serial, head: WaiterRec, commands: nat, now: Time): LeaseRec {
    LeaseRec(s, head.session, head.holder, 0, now, now, now, commands,
             if head.idleTTL > 0 then head.idleTTL else config.idleTTL,
             false, 0, false, [])
  }

  /** The waiters of q whose client stopped polling. */
  function Gone(wm: map<Id, WaiterRec>, q: seq<Id>, now: Time): set<Id> {
    set id | id in q && !Polling(wm, now)(id)
  }

  /** grantNextLocked, first loop: drop the waiters that stopped polling. */
  function DropStale(st: State, s: Serial, now: Time): State {
    var gone := Gone(st.wm, Queue(st, s), now);
    st.(registry := st.registry - gone,
        wm := CloseAll(st.wm, gone),
        queues := SetQueue(st.queues, s, Filter(Polling(st.wm, now), Queue(st, s))))
  }

  /** grantNextLocked, second part: a lease for the head's session, shared by its other waiters. */
  function ServeHead(st: State, s: Serial, now: Time): State
    requires Queue(st, s) != [] && Queue(st, s)[0] in st.wm
  {
    var q := Queue(st, s);
    var head := st.wm[q[0]];
    var id := FreshId(st);
    var served := Filter(OfSession(st.wm, head.session), q);
    var commands := |Filter(IsCommand(st.wm), served)|;
    st.(counter := st.counter + 1,
        lm := st.lm[id := QueueLease(st.config, s, head, commands, now)],
        leases := st.leases[s := id],
        wm := HandTo(st.wm, served, id),
        queues := SetQueue(st.queues, s, Filter(NotOfSession(st.wm, head.session), q)))
  }

  /** grantNextLocked. */
  function GrantNext(st: State, s: Serial, now: Time): State {
    var st1 := DropStale(st, s, now);
    if Queue(st1, s) == [] then st1 else
      assert Queue(st1, s)[0] in Queue(st1, s);
      ServeHead(st1, s, now)
  }

  predicate CleansUp(st: State, s: Serial)
    requires Leased(st, s)
  {
    st.config.cleanup && LeaseOn(st, s).baseline != [] && s !in st.cleaning
  }

  /** expireLocked on the lease of s. */
  function Expire(st: State, s: Serial, now: Time): State
    requires Leased(st, s)
  {
    var st1 := st.(leases := st.leases - {s});
    if CleansUp(st, s) then
      Save(st1.(cleaning := st1.cleaning[s := st.leases[s]], jobs := st1.jobs + {st.leases[s]}))
    else
      Save(GrantNext(st1, s, now))
  }

  // ---- the other critical sections ----

  /** What handleHeartbeat and TouchLease do to a lease. */
  function Beaten(l: LeaseRec, now: Time): LeaseRec {
    l.(lastBeat := now, lastActive := now, claimed := true)
  }

  /** What handleEnd and EndLeaseCommand do to a lease. */
  function Ended(l: LeaseRec, now: Time): LeaseRec {
    Beaten(l, now).(running := if l.running > 0 then l.running - 1 else 0)
  }

  function Heartbeat(st: State, id: Id, now: Time): State {
    if Live(st, id) then SetLease(st, id, Beaten(st.lm[id], now)) else st
  }

  function EndCommand(st: State, id: Id, now: Time): State {
    if Live(st, id) then SetLease(st, id, Ended(st.lm[id], now)) else st
  }

  function Claim(st: State, wid: Id): State
    requires wid in st.wm
  {
    match st.wm[wid].lease
    case Some(id) => if id in st.lm then SetLease(st, id, st.lm[id].(claimed := true)) else st
    case None => st
  }

  function SetPoll(st: State, wid: Id, now: Time): State {
    if wid in st.wm then st.(wm := st.wm[wid := st.wm[wid].(lastPoll := now)]) else st
  }

  /** handleWait up to its first unlock. */
  function Poll(st: State, wid: Id, now: Time): State {
    if wid !in st.registry || wid !in st.wm then st else
      var st1 := SetPoll(st, wid, now);
      if st.wm[wid].lease.None? then st1 else
        Claim(st1, wid).(registry := st.registry - {wid})
  }

  /** handleWait and waitLocal once the waiter's channel is closed. */
  function Wake(st: State, wid: Id): State {
    if wid in st.wm && st.wm[wid].closed then
      Claim(st, wid).(registry := st.registry - {wid})
    else st
  }

  /** dropWaiter. */
  function Drop(st: State, wid: Id, now: Time): State {
    if wid !in st.wm then st else
      var s := st.wm[wid].serial;
      var st1 := st.(registry := st.registry - {wid},
                     queues := SetQueue(st.queues, s, Filter(x => x != wid, Queue(st, s))));
      if Leased(st, s) && st.wm[wid].lease == Some(st.leases[s]) then Expire(st1, s, now) else st1
  }

  datatype ReleaseReq = ReleaseReq(serial: Serial, lease: Option<Id>, session: Session, force: bool)

  /** The device whose lease handleRelease looks up, if it is leased. */
  function ReleaseTarget(st: State, req: ReleaseReq): Option<Serial> {
    match req.lease
    case Some(id) => if Live(st, id) then Some(st.lm[id].serial) else None
    case None => if req.serial != "" && Leased(st, req.serial) then Some(req.serial) else None
  }

  /** A request naming no lease ID must come from the owner or force. */
  predicate MayRelease(st: State, req: ReleaseReq) {
    match ReleaseTarget(st, req)
    case None => false
    case Some(s) => Leased(st, s) && (req.force || req.lease.Some? || LeaseOn(st, s).session == req.session)
  }

  /** handleRelease. */
  function Release(st: State, req: ReleaseReq, now: Time): State {
    if MayRelease(st, req) then Expire(st, ReleaseTarget(st, req).value, now) else st
  }

  predicate HeldBy(st: State, s: Serial, session: Session) {
    Leased(st, s) && LeaseOn(st, s).session == session
  }

  /** The lease handleAcquireAny's scan of the table meets first; `first` is where the scan starts. */
  ghost function StickyDevice(st: State, session: Session, first: Serial): Option<Serial> {
    if HeldBy(st, first, session) then Some(first)
    else if exists s :: s in st.leases && HeldBy(st, s, session) then
      var s :| s in st.leases && HeldBy(st, s, session); Some(s)
    else None
  }

  function AnyReq(req: AcquireAnyReq, s: Serial): AcquireReq {
    AcquireReq(s, req.session, req.holder, req.pid, req.ttlSec, true, false)
  }

  function Stuck(config: Config, l: LeaseRec, req: AcquireAnyReq, now: Time): LeaseRec {
    l.(lastActive := now, lastBeat := now, claimed := true,
       explicit := true, expiresAt := now + ExplicitTTL(config, req.ttlSec))
  }

  /** handleAcquireAny after the device listing. */
  ghost function AcquireAny(st: State, req: AcquireAnyReq, devs: seq<DeviceLine>, first: Serial, now: Time,
      idle: nat): State {
    match StickyDevice(st, req.session, first)
    case Some(s) =>
      if Leased(st, s) then SetLease(st, st.leases[s], Stuck(st.config, LeaseOn(st, s), req, now)) else st
    case None =>
      match FirstFree(devs, st.leases.Keys, st.cleaning.Keys, st.config.denySerials, req.usb, req.emulator)
      case Some(s) => Grant(st, AnyReq(req, s), now, idle)
      case None => st
  }

  /** captureBaseline, once the package list is in. */
  function StoreBaseline(st: State, id: Id, pkgs: seq<string>): State {
    if Live(st, id) then Save(SetLease(st, id, st.lm[id].(baseline := pkgs))) else st
  }

  /** runCleanup's last critical section, for the pass working for lease id. */
  function FinishCleanup(st: State, id: Id, now: Time): State {
    if id !in st.jobs || id !in st.lm then st else
      var s := st.lm[id].serial;
      Save(GrantNext(st.(cleaning := st.cleaning - {s}, jobs := st.jobs - {id}), s, now))
  }

  // ---- the reaper ----

  predicate Unclaimed(l: LeaseRec, now: Time) {
    !l.claimed && now - l.acquiredAt > UNCLAIMED_GRACE
  }

  /** The orphan check: commands whose holder fell silent stop counting. */
  function Disowned(l: LeaseRec, now: Time): LeaseRec {
    if l.running > 0 && now - l.lastBeat > ORPHAN_BEAT then l.(running := 0, lastActive := now) else l
  }

  predicate Overdue(l: LeaseRec, now: Time) {
    l.running == 0 && if l.explicit then now > l.expiresAt else now - l.lastActive > l.idleTTL
  }

  /** The tick at `now` ends the lease of s. */
  predicate EndsNow(st: State, s: Serial, now: Time) {
    Leased(st, s) && (Unclaimed(LeaseOn(st, s), now) || Overdue(Disowned(LeaseOn(st, s), now), now))
  }

  /** The reaper looking at the lease of s; now is the tick's clock reading, t the one a hand-off makes. */
  function Visit(st: State, s: Serial, now: Time, t: Time): State {
    if !Leased(st, s) then st else
      var id := st.leases[s];
      var l := st.lm[id];
      if Unclaimed(l, now) then Expire(st, s, t)
      else
        var st1 := SetLease(st, id, Disowned(l, now));
        if Overdue(Disowned(l, now), now) then Expire(st1, s, t) else st1
  }

  /** The reaper's second loop: granted waiters nobody picked up. */
  function Collect(st: State, now: Time): State {
    st.(registry := set id | id in st.registry &&
          !(id in st.wm && st.wm[id].lease.Some? && now - st.wm[id].lastPoll > STALE_WAITER))
  }

  /** The clock reading a hand-off at s makes during a tick that began at now: clocks do not run backwards. */
  function Reading(clock: map<Serial, Time>, s: Serial, now: Time): Time {
    if s in clock && clock[s] >= now then clock[s] else now
  }

  /** The reaper's first loop, meeting the table's serials in the given order. */
  function VisitAll(st: State, order: seq<Serial>, now: Time, clock: map<Serial, Time>): State {
    if order == [] then st else
      var s := order[|order| - 1];
      Visit(VisitAll(st, order[..|order| - 1], now, clock), s, now, Reading(clock, s, now))
  }

  /** One tick of the reaper. */
  function Tick(st: State, order: seq<Serial>, now: Time, clock: map<Serial, Time>): State {
    Collect(VisitAll(st, order, now, clock), now)
  }

  // ---- restart ----

  function Restored(l: LeaseRec, now: Time): LeaseRec {
    l.(running := 0, claimed := true, lastBeat := now)
  }

  ghost function OwnerOnDisk(disk: map<Id, LeaseRec>, s: Serial): Id
    requires exists id :: id in disk && disk[id].serial == s
  {
    var id :| id in disk && disk[id].serial == s; id
  }

  /** The daemon dies and a new one, with a process id not used before, runs loadState. */
  ghost function Restart(st: State, pid: nat, now: Time): State {
    if pid in st.pids then st else
      var serials := set id | id in st.disk :: st.disk[id].serial;
      st.(pid := pid, pids := st.pids + {pid}, counter := 0,
          lm := map id | id in st.disk :: Restored(st.disk[id], now),
          wm := map[],
          leases := map s | s in serials :: OwnerOnDisk(st.disk, s),
          queues := map[], registry := {}, cleaning := map[], jobs := {})
  }

  // ---- runs ----

  datatype Event =
    | Acquiring(req: AcquireReq, now: Time, idle: nat)
    | AcquiringAny(anyReq: AcquireAnyReq, devs: seq<DeviceLine>, first: Serial, now: Time, idle: nat)
    | Polled(wid: Id, now: Time)
    | Woken(wid: Id)
    | KeptFresh(wid: Id, now: Time)
    | Dropped(wid: Id, now: Time)
    | Beat(lease: Id, now: Time)
    | CommandEnded(lease: Id, now: Time)
    | Releasing(releaseReq: ReleaseReq, now: Time)
    | BaselineStored(lease: Id, pkgs: seq<string>)
    | CleanupFinished(lease: Id, now: Time)
    | Visiting(serial: Serial, now: Time, t: Time)
    | Collecting(now: Time)
    | Reloaded(config: Config)
    | Restarted(pid: nat, now: Time)

  ghost function Next(st: State, ev: Event): State {
    match ev
    case Acquiring(req, now, idle) => Acquire(st, req, now, idle).0
    case AcquiringAny(req, devs, first, now, idle) => AcquireAny(st, req, devs, first, now, idle)
    case Polled(wid, now) => Poll(st, wid, now)
    case Woken(wid) => Wake(st, wid)
    case KeptFresh(wid, now) => SetPoll(st, wid, now)
    case Dropped(wid, now) => Drop(st, wid, now)
    case Beat(id, now) => Heartbeat(st, id, now)
    case CommandEnded(id, now) => EndCommand(st, id, now)
    case Releasing(req, now) => Release(st, req, now)
    case BaselineStored(id, pkgs) => StoreBaseline(st, id, pkgs)
    case CleanupFinished(id, now) => FinishCleanup(st, id, now)
    case Visiting(s, now, t) => Visit(st, s, now, t)
    case Collecting(now) => Collect(st, now)
    case Reloaded(config) => st.(config := config)
    case Restarted(pid, now) => Restart(st, pid, now)
  }

  /** The state after a sequence of critical sections. */
  ghost function Run(st: State, evs: seq<Event>): State {
    if evs == [] then st else Next(Run(st, evs[..|evs| - 1]), evs[|evs| - 1])
  }

  /** A first daemon on a machine with no state file. */
  function Init(pid: nat, config: Config): State {
    State(pid, {pid}, 0, config, map[], map[], map[], map[], {}, map[], {}, map[])
  }
}
