/**
 * What a reaper tick leaves in the persisted snapshot.  A reset of orphaned commands changes a lease in memory only; it
 * reaches the snapshot with the next lease that ends in the same tick, if there is one.  So here the order of map
 * iteration can make a difference, and exactly when is the subject.
 */
module Snapshots {
  import opened Basics
  import opened Records
  import opened BrokerModel
  import opened BrokerInvariant
  import opened DeviceMachine
  import opened Commands
  import opened ReaperOrder
  import Reclaim

  /** The tick at `now` leaves the lease of s in place, but no longer counts its commands. */
  predicate ResetsNow(st: State, s: Serial, now: Time) {
    Leased(st, s) && !EndsNow(st, s, now) && Disowned(LeaseOn(st, s), now) != LeaseOn(st, s)
  }

  ghost predicate EndsIn(st: State, order: seq<Serial>, now: Time) {
    exists s :: s in order && EndsNow(st, s, now)
  }

  /** After the tick has met s, it ends a lease. */
  ghost predicate SavedAfter(st: State, order: seq<Serial>, now: Time, s: Serial) {
    exists i :: 0 <= i < |order| && EndsNow(st, order[i], now) && order[i] !in order[..i] && s in order[..i]
  }

  /** The record of a lease of st' in the snapshot: as it is in memory, or as it was before an unsaved reset. */
  ghost function RecordOf(st: State, order: seq<Serial>, now: Time, st': State, x: Serial): LeaseRec
    requires Leased(st', x)
  {
    if ResetsNow(st, x, now) && !SavedAfter(st, order, now, x) then LeaseOn(st, x) else LeaseOn(st', x)
  }

  ghost predicate OnRecord(st: State, order: seq<Serial>, now: Time, st': State) {
    if !EndsIn(st, order, now) then st'.disk == st.disk && st'.leases == st.leases
    else forall x :: Leased(st', x) ==>
           st'.leases[x] in st'.disk && st'.disk[st'.leases[x]] == RecordOf(st, order, now, st', x)
  }

  lemma VisitSaves(st: State, s: Serial, now: Time, t: Time)
    requires Inv(st)
    ensures if EndsNow(st, s, now) then Save(Visit(st, s, now, t)).disk == Visit(st, s, now, t).disk
            else if Leased(st, s) then
              Visit(st, s, now, t) == SetLease(st, st.leases[s], Disowned(LeaseOn(st, s), now))
            else Visit(st, s, now, t) == st
  {
    hide Inv, Expire, Save, Unclaimed, Overdue, Disowned;
    if EndsNow(st, s, now) {
      Reclaim.ExpireSaves(st, s, t);
      Reclaim.ExpireSaves(SetLease(st, st.leases[s], Disowned(LeaseOn(st, s), now)), s, t);
    }
  }

  /** A device that looks the same has the same lease. */
  lemma SameLease(st: State, st': State, x: Serial)
    requires Readable(st, x) && Readable(st', x) && At(st', x) == At(st, x)
    ensures Leased(st, x) <==> Leased(st', x)
    ensures Leased(st, x) ==> st'.leases[x] == st.leases[x] && LeaseOn(st', x) == LeaseOn(st, x)
  {
    assert View(st', x) == View(st, x);
  }

  lemma SettledLease(st: State, s: Serial, now: Time)
    requires Readable(st, s) && Settled(At(st, s).device, now)
    ensures !EndsNow(st, s, now) && (Leased(st, s) ==> Disowned(LeaseOn(st, s), now) == LeaseOn(st, s))
  {
    hide Unclaimed, Overdue, Disowned;
  }

  /** What a visit in the middle of a tick finds: the lease as it was, or nothing left to do. */
  lemma Found(st: State, front: seq<Serial>, s: Serial, now: Time, clock: map<Serial, Time>)
    requires Inv(st)
    ensures var mid := VisitAll(st, front, now, clock);
            if s in front then !EndsNow(mid, s, now) && !ResetsNow(mid, s, now)
            else && (Leased(mid, s) <==> Leased(st, s))
                 && (Leased(st, s) ==> mid.leases[s] == st.leases[s] && LeaseOn(mid, s) == LeaseOn(st, s))
  {
    hide Inv, VisitAll, Visit, At, Settled, Disowned, Unclaimed, Overdue;
    TickIsOneVisit(st, front, now, clock, s);
    if s in front {
      SettledLease(VisitAll(st, front, now, clock), s, now);
    } else {
      SameLease(st, VisitAll(st, front, now, clock), s);
    }
  }

  lemma SavedAfterMore(st: State, front: seq<Serial>, s: Serial, now: Time, x: Serial)
    ensures SavedAfter(st, front + [s], now, x)
            <==> SavedAfter(st, front, now, x) || (EndsNow(st, s, now) && s !in front && x in front)
    ensures EndsIn(st, front + [s], now) <==> EndsIn(st, front, now) || EndsNow(st, s, now)
  {
    hide EndsNow;
    var order := front + [s];
    assert forall i :: 0 <= i <= |front| ==> order[..i] == front[..i];
    assert order[..|front|] == front && order[|front|] == s;
    if SavedAfter(st, front, now, x) {
      var i :| 0 <= i < |front| && EndsNow(st, front[i], now) && front[i] !in front[..i] && x in front[..i];
      assert EndsNow(st, order[i], now) && order[i] !in order[..i] && x in order[..i];
    }
    assert forall y :: y in order <==> y in front || y == s;
  }

  lemma LeasesSaved(st: State, x: Serial)
    requires Inv(st) && Save(st).disk == st.disk && Leased(st, x)
    ensures st.leases[x] in st.disk && st.disk[st.leases[x]] == LeaseOn(st, x)
  {
    LeaseNames(st, x);
    hide Inv;
    assert Live(st, st.leases[x]);
  }

  /** A visit that ends a lease: the snapshot becomes the table. */
  lemma EndRecorded(st: State, front: seq<Serial>, s: Serial, now: Time, clock: map<Serial, Time>)
    requires Inv(st) && s !in front && EndsNow(st, s, now)
    ensures OnRecord(st, front + [s], now, VisitAll(st, front + [s], now, clock))
  {
    hide Inv, VisitAll, Visit, At, EndsNow, SavedAfter, EndsIn, Save, Disowned;
    var order := front + [s];
    var st' := VisitAll(st, order, now, clock);
    TickKeeps(st, order, now, clock);
    EndSaves(st, front, s, now, clock);
    forall x | Leased(st', x)
      ensures st'.leases[x] in st'.disk && st'.disk[st'.leases[x]] == RecordOf(st, order, now, st', x)
    {
      LeasesSaved(st', x);
      SavedAfterMore(st, front, s, now, x);
      if x !in order {
        TickIsOneVisit(st, order, now, clock, x);
        SameLease(st, st', x);
      }
    }
    SavedAfterMore(st, front, s, now, s);
  }

  lemma LastVisit(st: State, front: seq<Serial>, s: Serial, now: Time, clock: map<Serial, Time>)
    ensures VisitAll(st, front + [s], now, clock)
            == Visit(VisitAll(st, front, now, clock), s, now, Reading(clock, s, now))
  {
    hide Visit;
    assert (front + [s])[..|front|] == front;
  }

  lemma EndSaves(st: State, front: seq<Serial>, s: Serial, now: Time, clock: map<Serial, Time>)
    requires Inv(st) && s !in front && EndsNow(st, s, now)
    ensures var st' := VisitAll(st, front + [s], now, clock); Save(st').disk == st'.disk
  {
    hide Inv, VisitAll, Visit, Save, Unclaimed, Overdue, Disowned;
    TickKeeps(st, front, now, clock);
    Found(st, front, s, now, clock);
    LastVisit(st, front, s, now, clock);
    VisitSaves(VisitAll(st, front, now, clock), s, now, Reading(clock, s, now));
  }

  /** A visit that ends nothing: only the lease visited changes, by a reset, which is not recorded. */
  lemma QuietVisit(st: State, front: seq<Serial>, s: Serial, now: Time, clock: map<Serial, Time>)
    requires Inv(st) && (s in front || !EndsNow(st, s, now))
    ensures var mid := VisitAll(st, front, now, clock);
            var st' := VisitAll(st, front + [s], now, clock);
            && st'.disk == mid.disk && st'.leases == mid.leases
            && (forall x :: Leased(st', x) <==> Leased(mid, x))
            && (forall x :: Leased(mid, x) && (x != s || s in front || !ResetsNow(st, s, now)) ==>
                  LeaseOn(st', x) == LeaseOn(mid, x))
            && (s !in front && Leased(st, s) ==> Leased(mid, s) && LeaseOn(mid, s) == LeaseOn(st, s))
  {
    hide Inv, VisitAll, Visit, Unclaimed, Overdue, Disowned;
    var mid := VisitAll(st, front, now, clock);
    TickKeeps(st, front, now, clock);
    Found(st, front, s, now, clock);
    LastVisit(st, front, s, now, clock);
    VisitSaves(mid, s, now, Reading(clock, s, now));
    forall x | Leased(mid, x)
      ensures x != s && Leased(mid, s) ==> mid.leases[x] != mid.leases[s]
    {
      LeaseNames(mid, x);
      LeaseNames(mid, s);
    }
  }

  lemma QuietRecorded(st: State, front: seq<Serial>, s: Serial, now: Time, clock: map<Serial, Time>)
    requires Inv(st) && (s in front || !EndsNow(st, s, now))
    requires OnRecord(st, front, now, VisitAll(st, front, now, clock))
    ensures OnRecord(st, front + [s], now, VisitAll(st, front + [s], now, clock))
  {
    hide Inv, VisitAll, Visit, SavedAfter, EndsNow;
    var order := front + [s];
    var mid := VisitAll(st, front, now, clock);
    var st' := VisitAll(st, order, now, clock);
    QuietVisit(st, front, s, now, clock);
    SavedAfterMore(st, front, s, now, s);
    SavedSince(st, front, s, now);
    forall x | Leased(st', x) && EndsIn(st, order, now)
      ensures st'.leases[x] in st'.disk && st'.disk[st'.leases[x]] == RecordOf(st, order, now, st', x)
    {
      SavedAfterMore(st, front, s, now, x);
    }
  }

  /** The snapshot after any part of a tick, record by record. */
  lemma {:induction false} SnapshotAfter(st: State, order: seq<Serial>, now: Time, clock: map<Serial, Time>)
    requires Inv(st)
    ensures OnRecord(st, order, now, VisitAll(st, order, now, clock))
  {
    hide Inv, Visit, EndsNow, SavedAfter, EndsIn, OnRecord;
    if order == [] {
      NothingMet(st, now);
    } else {
      var front := order[..|order| - 1];
      var s := order[|order| - 1];
      assert order == front + [s];
      if s !in front && EndsNow(st, s, now) {
        EndRecorded(st, front, s, now, clock);
      } else {
        SnapshotAfter(st, front, now, clock);
        QuietRecorded(st, front, s, now, clock);
      }
    }
  }

  lemma NothingMet(st: State, now: Time)
    ensures OnRecord(st, [], now, st)
  {
  }

  /** A reset is recorded only once its lease has been met. */
  lemma SavedSince(st: State, order: seq<Serial>, s: Serial, now: Time)
    ensures SavedAfter(st, order, now, s) ==> s in order
  {
  }

  // ---- two orders ----

  /** What a snapshot says, but for the numbers of the leases. */
  function RecordsIn(disk: map<Id, LeaseRec>): set<LeaseRec> {
    set id | id in disk :: disk[id]
  }

  /** One record for each lease of the table. */
  lemma RecordsAre(st: State, order: seq<Serial>, now: Time, st': State)
    requires Inv(st) && Inv(st') && EndsIn(st, order, now) && OnRecord(st, order, now, st')
    ensures forall x :: Leased(st', x) ==>
              RecordOf(st, order, now, st', x) in RecordsIn(st'.disk) && RecordOf(st, order, now, st', x).serial == x
    ensures forall r :: r in RecordsIn(st'.disk) ==>
              Leased(st', r.serial) && r == RecordOf(st, order, now, st', r.serial)
  {
    hide Inv, EndsIn, RecordOf;
    DisksTell(st');
    forall x | Leased(st', x)
      ensures RecordOf(st, order, now, st', x) in RecordsIn(st'.disk)
      ensures RecordOf(st, order, now, st', x).serial == x
    {
      assert st'.leases[x] in st'.disk;
      RecordSerial(st, order, now, st', x);
    }
    forall r | r in RecordsIn(st'.disk)
      ensures Leased(st', r.serial) && r == RecordOf(st, order, now, st', r.serial)
    {
      var id :| id in st'.disk && st'.disk[id] == r;
      LeaseNames(st', r.serial);
    }
  }

  lemma RecordSerial(st: State, order: seq<Serial>, now: Time, st': State, x: Serial)
    requires Inv(st) && Inv(st') && Leased(st', x)
    ensures RecordOf(st, order, now, st', x).serial == x
  {
    LeaseNames(st, x);
    LeaseNames(st', x);
    hide Inv, SavedAfter;
  }

  /** A reset takes place, whatever the order. */
  lemma ResetDone(st: State, order: seq<Serial>, now: Time, clock: map<Serial, Time>, s: Serial)
    requires Inv(st) && Meets(st, order) && ResetsNow(st, s, now)
    ensures var st' := VisitAll(st, order, now, clock);
            Leased(st', s) && LeaseOn(st', s) == Disowned(LeaseOn(st, s), now)
  {
    hide Inv, VisitAll, Visit, At, WithoutNumbers, Readable, View, Unclaimed, Overdue, Disowned;
    var st' := VisitAll(st, order, now, clock);
    var t := Reading(clock, s, now);
    var once := Visit(st, s, now, t);
    TickKeeps(st, order, now, clock);
    VisitKeeps(st, s, now, t);
    UnleasedVisit(st, order, now, clock, s);
    NamelessAt(st', once, s);
    ViewTells(st', once, s);
    VisitSaves(st, s, now, t);
  }

  /** The leases of the table, and the records of those that no reset touches, do not depend on the order. */
  lemma OtherRecords(st: State, order1: seq<Serial>, order2: seq<Serial>, now: Time, clock: map<Serial, Time>)
    requires Inv(st) && Meets(st, order1) && Meets(st, order2)
    ensures SameLeases(VisitAll(st, order1, now, clock), VisitAll(st, order2, now, clock))
    ensures Inv(VisitAll(st, order1, now, clock)) && Inv(VisitAll(st, order2, now, clock))
  {
    hide Inv, VisitAll, WithoutNumbers, At, SameLeases, Readable;
    var st1, st2 := VisitAll(st, order1, now, clock), VisitAll(st, order2, now, clock);
    TickKeeps(st, order1, now, clock);
    TickKeeps(st, order2, now, clock);
    forall x
      ensures Readable(st1, x) && Readable(st2, x) && WithoutNumbers(At(st1, x)) == WithoutNumbers(At(st2, x))
    {
      OrderDoesNotMatter(st, order1, order2, now, clock, x);
    }
    assert SameDevices(st1, st2);
    TablesTell(st1, st2);
  }

  lemma EndsMet(st: State, order: seq<Serial>, now: Time, e: Serial)
    requires Meets(st, order) && EndsNow(st, e, now)
    ensures EndsIn(st, order, now)
  {
    hide Unclaimed, Overdue, Disowned;
  }

  /** Every reset is saved in both orders or in neither. */
  ghost predicate SavedAlike(st: State, order1: seq<Serial>, order2: seq<Serial>, now: Time) {
    forall s :: ResetsNow(st, s, now) ==> (SavedAfter(st, order1, now, s) <==> SavedAfter(st, order2, now, s))
  }

  lemma SomeEnds(st: State, order1: seq<Serial>, order2: seq<Serial>, now: Time, clock: map<Serial, Time>, e: Serial)
    requires Inv(st) && Meets(st, order1) && Meets(st, order2) && EndsNow(st, e, now)
    ensures var st1, st2 := VisitAll(st, order1, now, clock), VisitAll(st, order2, now, clock);
            RecordsIn(st1.disk) == RecordsIn(st2.disk) <==> SavedAlike(st, order1, order2, now)
  {
    hide Inv, VisitAll, Meets, EndsIn, OnRecord, SavedAfter, EndsNow, Disowned, RecordsIn;
    var st1, st2 := VisitAll(st, order1, now, clock), VisitAll(st, order2, now, clock);
    OtherRecords(st, order1, order2, now, clock);
    EndsMet(st, order1, now, e);
    EndsMet(st, order2, now, e);
    SnapshotAfter(st, order1, now, clock);
    SnapshotAfter(st, order2, now, clock);
    RecordsAre(st, order1, now, st1);
    RecordsAre(st, order2, now, st2);
    forall s | ResetsNow(st, s, now)
      ensures Leased(st1, s) && LeaseOn(st1, s) != LeaseOn(st, s)
    {
      ResetDone(st, order1, now, clock, s);
    }
    if SavedAlike(st, order1, order2, now) {
      assert forall x :: Leased(st1, x) ==>
          RecordOf(st, order1, now, st1, x) == RecordOf(st, order2, now, st2, x);
      assert forall r :: r in RecordsIn(st1.disk) <==> r in RecordsIn(st2.disk);
    } else {
      var s :| ResetsNow(st, s, now) && (SavedAfter(st, order1, now, s) != SavedAfter(st, order2, now, s));
      assert Leased(st1, s) && Leased(st2, s);
      var r1, r2 := RecordOf(st, order1, now, st1, s), RecordOf(st, order2, now, st2, s);
      assert r1 != r2 && r1.serial == r2.serial == s;
      assert r1 in RecordsIn(st1.disk) && r1 !in RecordsIn(st2.disk);
    }
  }

  /**
   * Two orders leave the same records in the snapshot exactly when the tick ends no lease, or every lease that it
   * resets and keeps is met before a lease that ends in both orders or in neither.
   */
  lemma SnapshotsAgree(st: State, order1: seq<Serial>, order2: seq<Serial>, now: Time, clock: map<Serial, Time>)
    requires Inv(st) && Meets(st, order1) && Meets(st, order2)
    ensures RecordsIn(Tick(st, order1, now, clock).disk) == RecordsIn(Tick(st, order2, now, clock).disk)
            <==> (!exists e :: EndsNow(st, e, now)) || SavedAlike(st, order1, order2, now)
  {
    hide Inv, VisitAll, Meets, EndsNow, SavedAlike, RecordsIn;
    if e :| EndsNow(st, e, now) {
      SomeEnds(st, order1, order2, now, clock, e);
    } else {
      SnapshotAfter(st, order1, now, clock);
      SnapshotAfter(st, order2, now, clock);
    }
  }

  lemma OrderOf(leases: set<Serial>) returns (order: seq<Serial>)
    ensures forall s :: s in order <==> s in leases
  {
    if leases == {} {
      order := [];
    } else {
      var s :| s in leases;
      var rest := OrderOf(leases - {s});
      order := [s] + rest;
    }
  }

  lemma FirstMet(order: seq<Serial>, e: Serial) returns (i: nat)
    requires e in order
    ensures i < |order| && order[i] == e && e !in order[..i]
  {
    i := 0;
    while order[i] != e
      invariant i < |order| && e !in order[..i] && e in order[i..]
      decreases |order| - i
    {
      i := i + 1;
    }
  }

  /** With a lease that ends and one that is reset and kept, there are two orders that disagree. */
  lemma OrdersDiffer(st: State, now: Time, e: Serial, s: Serial) returns (order1: seq<Serial>, order2: seq<Serial>)
    requires EndsNow(st, e, now) && ResetsNow(st, s, now)
    ensures Meets(st, order1) && Meets(st, order2) && !SavedAlike(st, order1, order2, now)
  {
    hide Unclaimed, Overdue, Disowned;
    var others := OrderOf(st.leases.Keys - {s});
    order1, order2 := [s] + others, others + [s];
    var i := FirstMet(order1, e);
    assert order1[0] == s && s in order1[..i];
    assert SavedAfter(st, order1, now, s);
    assert forall k :: 0 <= k < |order2| ==> order2[..k] == others[..k];
    assert !SavedAfter(st, order2, now, s);
    assert order1[0] == s && order1[1..] == others && order2[|others|] == s;
    assert forall x :: x in others ==> x in order1 && x in order2;
  }

  /**
   * The snapshot a tick leaves is the same for all orders exactly when it does not both end a lease and reset the
   * commands of one that it keeps.
   */
  lemma SnapshotSettled(st: State, now: Time, clock: map<Serial, Time>)
    requires Inv(st)
    ensures (forall order1, order2 :: Meets(st, order1) && Meets(st, order2) ==>
               RecordsIn(Tick(st, order1, now, clock).disk) == RecordsIn(Tick(st, order2, now, clock).disk))
            <==> !((exists e :: EndsNow(st, e, now)) && (exists s :: ResetsNow(st, s, now)))
  {
    hide Inv, Tick, Meets, EndsNow, ResetsNow, RecordsIn;
    if e, s :| EndsNow(st, e, now) && ResetsNow(st, s, now) {
      var order1, order2 := OrdersDiffer(st, now, e, s);
      SnapshotsAgree(st, order1, order2, now, clock);
    } else {
      forall order1, order2 | Meets(st, order1) && Meets(st, order2)
        ensures RecordsIn(Tick(st, order1, now, clock).disk) == RecordsIn(Tick(st, order2, now, clock).disk)
      {
        SnapshotsAgree(st, order1, order2, now, clock);
      }
    }
  }

  // ---- an instance ----

  /** With nobody waiting, a lease that ends without cleanup leaves its device free. */
  lemma ExpireIdle(st: State, s: Serial, now: Time)
    requires Leased(st, s) && !CleansUp(st, s) && s !in st.queues
    ensures Expire(st, s, now) == Save(st.(leases := st.leases - {s}))
  {
    var st1 := st.(leases := st.leases - {s});
    assert Queue(st1, s) == [];
    assert Gone(st1.wm, [], now) == {} && CloseAll(st1.wm, {}) == st1.wm;
    assert SetQueue(st1.queues, s, []) == st1.queues;
    assert DropStale(st1, s, now) == st1;
  }

  /** One lease with a silent command, and one nobody has picked up. */
  function TwoLeases(): State {
    var lm := map[Id(1, 1) := LeaseRec("a", "A", "a", 0, 0, 0, 0, 1, 600 * SECOND, false, 0, true, []),
                  Id(1, 2) := LeaseRec("b", "B", "b", 0, 0, 0, 0, 0, 600 * SECOND, false, 0, false, [])];
    State(1, {1}, 2, Config(600 * SECOND, 0, false, [], []), lm, map[], map["a" := Id(1, 1), "b" := Id(1, 2)],
          map[], {}, map[], {}, lm)
  }

  /**
   * Two orders, two snapshots: met before the lease that ends, the reset is saved, and with it the tick's time as that
   * of the last activity; met after, neither is, and a daemon that restarted now would count from the older time.
   */
  lemma SnapshotDependsOnOrder()
    ensures var st := TwoLeases();
            var now := 61 * SECOND;
            var disk1 := VisitAll(st, ["a", "b"], now, map[]).disk;
            var disk2 := VisitAll(st, ["b", "a"], now, map[]).disk;
            && Inv(st) && Meets(st, ["a", "b"]) && Meets(st, ["b", "a"])
            && Id(1, 1) in disk1 && disk1[Id(1, 1)].running == 0 && disk1[Id(1, 1)].lastActive == now
            && Id(1, 1) in disk2 && disk2[Id(1, 1)].running == 1 && disk2[Id(1, 1)].lastActive == 0
  {
    hide *;
    TwoLeasesWell();
    ResetThenSaved();
    SavedThenReset();
  }

  lemma TwoLeasesWell()
    ensures Inv(TwoLeases()) && Meets(TwoLeases(), ["a", "b"]) && Meets(TwoLeases(), ["b", "a"])
  {
    var order1, order2 := ["a", "b"], ["b", "a"];
    assert order1[0] == "a" && order1[1] == "b" && order2[0] == "b" && order2[1] == "a";
    hide Inv;
    assert Inv(TwoLeases()) by { TwoLeasesInv(); }
  }

  lemma TwoLeasesInv()
    ensures Inv(TwoLeases())
  {
  }

  lemma VisitTwo(st: State, s1: Serial, s2: Serial, now: Time)
    ensures VisitAll(st, [s1, s2], now, map[]) == Visit(Visit(st, s1, now, now), s2, now, now)
  {
    hide Visit;
    assert [s1][..0] == [] && VisitAll(st, [], now, map[]) == st;
    assert VisitAll(st, [s1], now, map[]) == Visit(st, s1, now, now);
    assert [s1, s2][..1] == [s1];
  }

  lemma ResetThenSaved()
    ensures var disk := VisitAll(TwoLeases(), ["a", "b"], 61 * SECOND, map[]).disk;
            Id(1, 1) in disk && disk[Id(1, 1)].running == 0 && disk[Id(1, 1)].lastActive == 61 * SECOND
  {
    hide Expire;
    var st := TwoLeases();
    var now := 61 * SECOND;
    VisitTwo(st, "a", "b", now);
    var sa := Visit(st, "a", now, now);
    assert sa.lm[Id(1, 1)].running == 0 && sa.leases == st.leases;
    ExpireIdle(sa, "b", now);
    hide VisitAll;
  }

  lemma SavedThenReset()
    ensures var disk := VisitAll(TwoLeases(), ["b", "a"], 61 * SECOND, map[]).disk;
            Id(1, 1) in disk && disk[Id(1, 1)].running == 1 && disk[Id(1, 1)].lastActive == 0
  {
    hide Expire;
    var st := TwoLeases();
    var now := 61 * SECOND;
    VisitTwo(st, "b", "a", now);
    ExpireIdle(st, "b", now);
    var sb := Save(st.(leases := st.leases - {"b"}));
    assert Visit(st, "b", now, now) == sb;
    hide VisitAll;
  }
}
