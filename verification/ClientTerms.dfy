/**
 * What a client of the blocking acquire asks for is what it is given: its request is remembered while it waits, its
 * command is counted on the lease, and the lease is one of the device and session it named.
 */
module ClientTerms {
  import opened Basics
  import opened Records
  import opened BrokerModel
  import opened BrokerInvariant
  import opened DeviceMachine
  import opened Handoffs
  import opened Commands
  import opened LeaseObjects
  import opened LocalAcquire
  import opened Terms
  import opened Registry

  // ---- a client's own waiter ----

  /** Every acquire of the client asks for this request. */
  ghost predicate AsksOnly(turns: seq<Turn>, req: AcquireReq) {
    forall j :: 0 <= j < |turns| && turns[j].mine && turns[j].ev.Acquiring? ==> turns[j].ev.req == req
  }

  lemma {:induction false} ClientAsks(st: State, turns: seq<Turn>, req: AcquireReq)
    requires ClientRun(st, turns, req)
    ensures AsksOnly(turns, req)
  {
    if turns != [] {
      var front := turns[..|turns| - 1];
      ClientAsks(st, front, req);
      assert forall j :: 0 <= j < |front| ==> turns[j] == front[j];
      hide Run, Acquire;
    }
  }

  /** The waiter of a waiting client remembers the client's request. */
  ghost predicate Remembers(st: State, client: Client, req: AcquireReq) {
    client.Waiting? ==>
      && client.wid in st.wm
      && var w := st.wm[client.wid];
         w.serial == req.serial && w.session == req.session && w.holder == req.holder && w.command == req.command
  }

  lemma AskedRemembers(st: State, req: AcquireReq, now: Time, idle: nat)
    requires Inv(st)
    ensures Remembers(Acquire(st, req, now, idle).0, Advance(st, Asking, Acquiring(req, now, idle)), req)
    ensures forall wid :: Acquire(st, req, now, idle).1 == Queued(wid) ==>
              wid in Acquire(st, req, now, idle).0.wm && Acquire(st, req, now, idle).0.wm[wid].lease.None?
  {
    hide Inv, Queue, ExplicitTTL;
  }

  lemma RemembersOn(st: State, ev: Event, client: Client, req: AcquireReq)
    requires Inv(st) && !ev.Restarted? && Remembers(st, client, req)
    ensures Remembers(Next(st, ev), client, req)
  {
    hide Inv, Next;
    WaiterStep(st, ev);
  }

  lemma {:induction false} RequestRemembered(st: State, turns: seq<Turn>, req: AcquireReq)
    requires Inv(st) && ClientRun(st, turns, req)
    ensures Remembers(Run(st, Events(turns)), ClientAfter(st, turns), req)
  {
    hide Inv, Next, Remembers, Acquire;
    if turns == [] {
      NothingRemembered(st, req);
    } else {
      var front := turns[..|turns| - 1];
      var turn := turns[|turns| - 1];
      var before := Run(st, Events(front));
      assert turns == front + [turn];
      OneTurn(st, front, turn);
      RunKeeps(st, Events(front));
      RequestRemembered(st, front, req);
      RemembersOn(before, turn.ev, ClientAfter(st, front), req);
      if turn.mine {
        OwnRemembers(before, turn.ev, ClientAfter(st, front), req);
      }
    }
  }

  lemma NothingRemembered(st: State, req: AcquireReq)
    ensures Remembers(st, Asking, req)
  {
  }

  lemma OwnRemembers(st: State, ev: Event, client: Client, req: AcquireReq)
    requires Inv(st) && MayTake(st, client, req, ev) && Remembers(Next(st, ev), client, req)
    ensures Remembers(Next(st, ev), Advance(st, client, ev), req)
  {
    hide Inv, Next, Acquire;
    match ev
    case Acquiring(_, now, idle) =>
      AskedRemembers(st, req, now, idle);
      NextWakes(st, ev);
    case _ =>
  }

  // ---- the client's command is counted ----

  /** Some critical section of the run granted a command on the lease. */
  ghost predicate Counted(st: State, turns: seq<Turn>, id: Id) {
    exists h :: 0 <= h < |turns| && CommandsGranted(Run(st, Events(turns[..h])), turns[h].ev, id) > 0
  }

  lemma CountedOn(st: State, front: seq<Turn>, turn: Turn, id: Id)
    ensures Counted(st, front, id) ==> Counted(st, front + [turn], id)
    ensures CommandsGranted(Run(st, Events(front)), turn.ev, id) > 0 ==> Counted(st, front + [turn], id)
  {
    hide CommandsGranted, Run;
    var turns := front + [turn];
    assert turns[..|front|] == front && turns[|front|] == turn;
    if h :| 0 <= h < |front| && CommandsGranted(Run(st, Events(front[..h])), front[h].ev, id) > 0 {
      assert turns[..h] == front[..h] && turns[h] == front[h];
    }
  }

  /** A critical section that gives a waiting command its lease grants a command on it. */
  lemma ServedCommand(st: State, ev: Event, wid: Id, id: Id)
    requires wid in st.wm && st.wm[wid].lease.None? && st.wm[wid].command
    requires wid in Next(st, ev).wm && Next(st, ev).wm[wid].lease == Some(id)
    ensures CommandsGranted(st, ev, id) > 0
  {
    hide Next, Acquire;
    assert wid in NewlyServed(st, Next(st, ev), id);
  }

  lemma GrantedCommand(st: State, req: AcquireReq, now: Time, idle: nat, id: Id)
    requires req.command && Acquire(st, req, now, idle).1 == Granted(id)
    ensures CommandsGranted(st, Acquiring(req, now, idle), id) > 0
  {
    hide Next, Acquire, NewlyServed;
  }

  lemma CountedByOwn(st: State, ev: Event, client: Client, req: AcquireReq, id: Id)
    requires Inv(st) && MayTake(st, client, req, ev) && req.command && Remembers(st, client, req)
    requires LeaseOf(Next(st, ev), Advance(st, client, ev)) == Some(id)
    ensures LeaseOf(st, client) == Some(id) || CommandsGranted(st, ev, id) > 0
  {
    hide Inv, Next, Acquire, CommandsGranted;
    match ev
    case Acquiring(_, now, idle) =>
      AskedRemembers(st, req, now, idle);
      NextWakes(st, ev);
      if Acquire(st, req, now, idle).1 == Granted(id) {
        GrantedCommand(st, req, now, idle, id);
      }
    case KeptFresh(wid, _) => CountedByOthers(st, ev, client, req, id);
    case _ =>
  }

  lemma CountedByOthers(st: State, ev: Event, client: Client, req: AcquireReq, id: Id)
    requires Inv(st) && !ev.Restarted? && req.command && Remembers(st, client, req)
    requires LeaseOf(Next(st, ev), client) == Some(id)
    ensures LeaseOf(st, client) == Some(id) || CommandsGranted(st, ev, id) > 0
  {
    hide Inv, Next, CommandsGranted;
    WaiterStep(st, ev);
    if client.Waiting? && st.wm[client.wid].lease.None? {
      ServedCommand(st, ev, client.wid, id);
    }
  }

  /** The command of a client that has a lease, or whose waiter was handed one, was counted on that lease. */
  lemma {:induction false} CommandCounted(st: State, turns: seq<Turn>, req: AcquireReq, id: Id)
    requires Inv(st) && ClientRun(st, turns, req) && req.command
    requires LeaseOf(Run(st, Events(turns)), ClientAfter(st, turns)) == Some(id)
    ensures Counted(st, turns, id)
  {
    hide Inv, Next, Remembers, Acquire, MayTake, Advance, LeaseOf, CommandsGranted, Counted;
    if turns == [] {
      NoLeaseYet(st);
    } else {
      var front := turns[..|turns| - 1];
      var turn := turns[|turns| - 1];
      var before := Run(st, Events(front));
      var client := ClientAfter(st, front);
      assert turns == front + [turn];
      OneTurn(st, front, turn);
      RunKeeps(st, Events(front));
      RequestRemembered(st, front, req);
      if turn.mine {
        CountedByOwn(before, turn.ev, client, req, id);
      } else {
        CountedByOthers(before, turn.ev, client, req, id);
      }
      if LeaseOf(before, client) == Some(id) {
        CommandCounted(st, front, req, id);
      }
      CountedOn(st, front, turn, id);
    }
  }

  // ---- the grant ----

  lemma {:induction false} PrefixRun(st: State, turns: seq<Turn>, req: AcquireReq, k: nat)
    requires ClientRun(st, turns, req) && k <= |turns|
    ensures ClientRun(st, turns[..k], req)
  {
    if k < |turns| {
      var front := turns[..|turns| - 1];
      PrefixRun(st, front, req, k);
      assert front[..k] == turns[..k];
    } else {
      assert turns[..k] == turns;
    }
  }

  /**
   * The client's turn j gives it the lease: a claimed one of this device and session, either at once for a request of
   * this holder that is not explicit and counts as a command, or as the lease of its waiter for such a request.
   */
  ghost predicate GivenAt(st: State, turns: seq<Turn>, j: nat, lease: Id, serial: Serial, session: Session,
                          holder: string)
  {
    && j < |turns| && turns[j].mine
    && var before, after, ev := Run(st, Events(turns[..j])), Run(st, Events(turns[..j + 1])), turns[j].ev;
    && lease in after.lm && after.lm[lease].serial == serial && after.lm[lease].session == session
    && after.lm[lease].claimed
    && (|| (ev.Acquiring? && ev.req == AcquireReq(serial, session, holder, 0, 0, false, true)
            && after.lm[lease].running > 0 && Live(after, lease))
        || (ev.Woken? && ev.wid in before.wm
            && var w := before.wm[ev.wid];
               w.closed && w.lease == Some(lease) && w.serial == serial && w.session == session && w.holder == holder
               && w.command))
  }

  lemma GrantIsGiven(st: State, turns: seq<Turn>, j: nat, lease: Id, serial: Serial, session: Session, holder: string)
    requires var req := AcquireReq(serial, session, holder, 0, 0, false, true);
             Inv(st) && ClientRun(st, turns, req) && GrantedAt(st, turns, j, lease, req)
    ensures GivenAt(st, turns, j, lease, serial, session, holder)
  {
    hide Inv, Next, Acquire, MayTake;
    var req := AcquireReq(serial, session, holder, 0, 0, false, true);
    var front, turn := turns[..j], turns[j];
    var before := Run(st, Events(front));
    PrefixRun(st, turns, req, j + 1);
    PrefixRun(st, turns, req, j);
    assert turns[..j + 1] == front + [turn] && turns[..j + 1][..j] == front;
    OneTurn(st, front, turn);
    RunKeeps(st, Events(front));
    RequestRemembered(st, front, req);
    if turn.ev.Acquiring? {
      GivenAtOnce(before, turn.ev, req, lease);
    } else {
      GivenOnWaking(before, turn.ev, ClientAfter(st, front), req, lease);
    }
  }

  lemma GivenAtOnce(st: State, ev: Event, req: AcquireReq, id: Id)
    requires Inv(st) && ev.Acquiring? && Grants(st, ev, id, req) && req.command
    ensures var st' := Next(st, ev);
            && ev.req == req && Live(st', id) && st'.lm[id].serial == req.serial
            && st'.lm[id].session == req.session && st'.lm[id].claimed && st'.lm[id].running > 0
  {
    NextKeeps(st, ev);
    NextWakes(st, ev);
    GrantedNow(st, req, ev.now, ev.idle, id);
    LeaseNames(Next(st, ev), req.serial);
    hide Inv, Next, Acquire;
  }

  lemma GivenOnWaking(st: State, ev: Event, client: Client, req: AcquireReq, id: Id)
    requires Inv(st) && ev.Woken? && Grants(st, ev, id, req)
    requires MayTake(st, client, req, ev) && Remembers(st, client, req)
    ensures ev.wid in st.wm && st.wm[ev.wid].closed && st.wm[ev.wid].lease == Some(id)
    ensures var w := st.wm[ev.wid];
            w.serial == req.serial && w.session == req.session && w.holder == req.holder && w.command == req.command
    ensures var st' := Next(st, ev);
            && id in st'.lm && st'.lm[id].serial == req.serial && st'.lm[id].session == req.session
            && st'.lm[id].claimed
  {
    ClaimTerms(st, ev, id);
    WaiterHolds(st, ev.wid, id);
    hide Inv, Next;
  }

  lemma WaiterHolds(st: State, wid: Id, id: Id)
    requires Inv(st) && wid in st.wm && st.wm[wid].lease == Some(id)
    ensures id in st.lm && st.lm[id].serial == st.wm[wid].serial && st.lm[id].session == st.wm[wid].session
  {
  }
}
