/**
 * The proxy watches a client's connection for its close while the client waits for a lease.  What the
 * watcher reads meanwhile must come out again, once, and in order.
 */
module Readahead {
  import opened Basics
  import opened Wire

  datatype Fault = Fine | TimedOut | Broken

  /** What the network makes of one read: how many bytes are there, and how the call ends. */
  datatype Arrival = Arrival(count: nat, fault: Fault)

  function Min(a: nat, b: nat): nat {
    if a <= b then a else b
  }

  /** How many bytes a read into a buffer of size cap takes from the stream. */
  function Taken(stream: Bytes, cap: nat, a: Arrival): nat {
    Min(Min(a.count, cap), |stream|)
  }

  /** The client's connection: the bytes it sends that nobody has read yet. */
  class ClientConn {
    var arriving: Bytes

    constructor (stream: Bytes)
      ensures arriving == stream
    {
      arriving := stream;
    }

    method Read(cap: nat, a: Arrival) returns (got: Bytes, fault: Fault)
      modifies this
      ensures fault == a.fault
      ensures got == old(arriving)[..Taken(old(arriving), cap, a)]
      ensures arriving == old(arriving)[Taken(old(arriving), cap, a)..]
    {
      var n := Taken(arriving, cap, a);
      got, arriving, fault := arriving[..n], arriving[n..], a.fault;
    }
  }

  const BUFFER: nat := 256

  /** One turn of the watcher's loop: whether it has been told to stop, and what its read meets. */
  datatype Round = Round(stopBefore: bool, deadlineFails: bool, arrival: Arrival, stopAfter: bool)

  /**
   * What the watcher has kept, what it leaves unread, what a failed read made it drop, and whether it reported the
   * client gone.
   */
  datatype Watched = Watched(kept: Bytes, left: Bytes, dropped: nat, aborted: bool)

  function Watch(rounds: seq<Round>, stream: Bytes): Watched {
    if rounds == [] || rounds[0].stopBefore then Watched([], stream, 0, false)
    else if rounds[0].deadlineFails then Watched([], stream, 0, true)
    else
      var r := rounds[0];
      var n := Taken(stream, BUFFER, r.arrival);
      if r.stopAfter then Watched(stream[..n], stream[n..], 0, false)
      else
        match r.arrival.fault
        case Broken => Watched([], stream[n..], n, true)
        case TimedOut =>
          var w := Watch(rounds[1..], stream[n..]);
          w.(dropped := w.dropped + n)
        case Fine =>
          var w := Watch(rounds[1..], stream[n..]);
          w.(kept := stream[..n] + w.kept)
  }

  /** What one round does to the rest. */
  lemma WatchStep(rounds: seq<Round>, i: nat, stream: Bytes)
    requires i < |rounds|
    ensures var v, r := Watch(rounds[i..], stream), rounds[i];
            var n := Taken(stream, BUFFER, r.arrival);
            var w := Watch(rounds[i + 1..], stream[n..]);
            && (r.stopBefore ==> v == Watched([], stream, 0, false))
            && (!r.stopBefore && r.deadlineFails ==> v == Watched([], stream, 0, true))
            && (!r.stopBefore && !r.deadlineFails ==>
                  if r.stopAfter then v == Watched(stream[..n], stream[n..], 0, false)
                  else match r.arrival.fault
                       case Broken => v == Watched([], stream[n..], n, true)
                       case TimedOut => v == w.(dropped := w.dropped + n)
                       case Fine => v == w.(kept := stream[..n] + w.kept))
  {
    hide Taken;
    assert rounds[i..][0] == rounds[i] && rounds[i..][1..] == rounds[i + 1..];
  }

  lemma NothingWatched(rounds: seq<Round>, i: nat, stream: Bytes)
    requires i == |rounds|
    ensures Watch(rounds[i..], stream) == Watched([], stream, 0, false)
  {
  }

  class ReadaheadConn {
    const conn: ClientConn
    var prefix: Bytes

    constructor (conn: ClientConn)
      ensures this.conn == conn && prefix == []
    {
      this.conn, prefix := conn, [];
    }

    /** What is still to be read through this connection. */
    ghost function Stream(): Bytes
      reads this, conn
    {
      prefix + conn.arriving
    }

    method AppendPrefix(b: Bytes)
      modifies this
      ensures prefix == old(prefix) + b
    {
      if |b| == 0 {
        return;
      }
      prefix := prefix + b;
    }

    /**
     * Read: first what the watcher read, then, as far as there is room, what the connection gives; and the connection's
     * fault, unless the prefix alone filled the buffer.
     */
    method Read(cap: nat, a: Arrival) returns (got: Bytes, fault: Fault)
      modifies this, conn
      ensures var n := Min(cap, |old(prefix)|);
              var m := Min(Min(a.count, cap - n), |old(conn.arriving)|);
              && |got| == n + m && prefix == old(prefix)[n..] && conn.arriving == old(conn.arriving)[m..]
              && fault == if old(prefix) != [] && n == cap then Fine else a.fault
      ensures |got| <= |old(Stream())|
      ensures got == old(Stream())[..|got|] && Stream() == old(Stream())[|got|..]
    {
      ghost var s := Stream();
      if |prefix| > 0 {
        var n := Min(cap, |prefix|);
        got, fault := prefix[..n], Fine;
        prefix := prefix[n..];
        if n < cap {
          var more;
          more, fault := conn.Read(cap - n, a);
          got := got + more;
        }
      } else {
        got, fault := conn.Read(cap, a);
      }
      assert got + Stream() == s;
    }

    /** run: what the watcher keeps goes to the prefix, in order. */
    method Run(rounds: seq<Round>) returns (aborted: bool)
      modifies this, conn
      ensures var w := Watch(rounds, old(conn.arriving));
              aborted == w.aborted && prefix == old(prefix) + w.kept && conn.arriving == w.left
    {
      hide Taken, Watch;
      aborted := false;
      var i := 0;
      ghost var kept: Bytes := [];
      assert rounds[0..] == rounds;
      while i < |rounds|
        invariant 0 <= i <= |rounds| && !aborted
        invariant prefix == old(prefix) + kept
        invariant var w := Watch(rounds, old(conn.arriving));
                  var v := Watch(rounds[i..], conn.arriving);
                  w.kept == kept + v.kept && w.left == v.left && w.aborted == v.aborted
      {
        ghost var before := conn.arriving;
        var r := rounds[i];
        WatchStep(rounds, i, before);
        if r.stopBefore {
          return;
        }
        if r.deadlineFails {
          aborted := true;
          return;
        }
        var buf, fault := conn.Read(BUFFER, r.arrival);
        if r.stopAfter {
          if |buf| > 0 {
            AppendPrefix(buf);
          }
          return;
        }
        if fault == TimedOut {
          i := i + 1;
          continue;
        }
        if fault == Broken {
          aborted := true;
          return;
        }
        if |buf| > 0 {
          AppendPrefix(buf);
        }
        assert kept + (buf + Watch(rounds[i + 1..], conn.arriving).kept)
            == kept + buf + Watch(rounds[i + 1..], conn.arriving).kept;
        kept := kept + buf;
        i := i + 1;
      }
      NothingWatched(rounds, i, conn.arriving);
    }

    /** The copy loop of splice, reading until a read fails or the rounds run out. */
    method CopyTo(caps: seq<nat>, arrivals: seq<Arrival>) returns (sent: Bytes)
      requires |caps| == |arrivals|
      modifies this, conn
      ensures sent + Stream() == old(Stream())
      ensures |sent| == Copied(|old(prefix)|, |old(conn.arriving)|, caps, arrivals)
    {
      hide Copied;
      sent := [];
      ghost var s := Stream();
      ghost var all := Copied(|prefix|, |conn.arriving|, caps, arrivals);
      assert caps[0..] == caps && arrivals[0..] == arrivals;
      for i := 0 to |caps|
        invariant sent + Stream() == s
        invariant |sent| + Copied(|prefix|, |conn.arriving|, caps[i..], arrivals[i..]) == all
      {
        ghost var t := Stream();
        CopiedStep(|prefix|, |conn.arriving|, caps, arrivals, i);
        var got, fault := Read(caps[i], arrivals[i]);
        assert t == got + Stream();
        sent := sent + got;
        if fault != Fine {
          return;
        }
      }
      NothingCopied(|prefix|, |conn.arriving|, caps[|caps|..], arrivals[|caps|..]);
    }
  }

  // ---- how much is copied ----

  /**
   * How many bytes reads of these sizes bring, of `held` bytes read ahead and `coming` ones that are not read yet: each
   * fills its buffer from the first, then from what has arrived; the first that fails is the last.
   */
  function Copied(held: nat, coming: nat, caps: seq<nat>, arrivals: seq<Arrival>): nat
    requires |caps| == |arrivals|
  {
    if caps == [] then 0 else
      var n := Min(caps[0], held);
      var m := Min(Min(arrivals[0].count, caps[0] - n), coming);
      n + m + if arrivals[0].fault == Fine || (held > 0 && n == caps[0])
              then Copied(held - n, coming - m, caps[1..], arrivals[1..]) else 0
  }

  lemma CopiedStep(held: nat, coming: nat, caps: seq<nat>, arrivals: seq<Arrival>, i: nat)
    requires |caps| == |arrivals| && i < |caps|
    ensures var n := Min(caps[i], held);
            var m := Min(Min(arrivals[i].count, caps[i] - n), coming);
            Copied(held, coming, caps[i..], arrivals[i..])
            == n + m + if arrivals[i].fault == Fine || (held > 0 && n == caps[i])
                       then Copied(held - n, coming - m, caps[i + 1..], arrivals[i + 1..]) else 0
  {
    assert caps[i..][0] == caps[i] && caps[i..][1..] == caps[i + 1..];
    assert arrivals[i..][0] == arrivals[i] && arrivals[i..][1..] == arrivals[i + 1..];
  }

  lemma NothingCopied(held: nat, coming: nat, caps: seq<nat>, arrivals: seq<Arrival>)
    requires |caps| == |arrivals| == 0
    ensures Copied(held, coming, caps, arrivals) == 0
  {
  }

  /** What the connection has room and bytes for, over all reads. */
  function Offered(caps: seq<nat>, arrivals: seq<Arrival>): nat
    requires |caps| == |arrivals|
  {
    if caps == [] then 0 else Min(caps[0], arrivals[0].count) + Offered(caps[1..], arrivals[1..])
  }

  predicate NoFaults(arrivals: seq<Arrival>) {
    forall i :: 0 <= i < |arrivals| ==> arrivals[i].fault == Fine
  }

  /** Reads that do not fail bring everything there is, once together they have room and bytes for it. */
  lemma {:induction false} CopiedEnough(held: nat, coming: nat, caps: seq<nat>, arrivals: seq<Arrival>)
    requires |caps| == |arrivals| && NoFaults(arrivals)
    ensures Copied(held, coming, caps, arrivals) >= Min(held + coming, Offered(caps, arrivals))
  {
    if caps != [] {
      var n := Min(caps[0], held);
      var m := Min(Min(arrivals[0].count, caps[0] - n), coming);
      CopiedEnough(held - n, coming - m, caps[1..], arrivals[1..]);
    }
  }

  /** What is kept and what is left make up the stream exactly when nothing was dropped. */
  lemma {:induction false} WatchedWhole(rounds: seq<Round>, stream: Bytes)
    ensures var w := Watch(rounds, stream);
            && |w.kept| + |w.left| + w.dropped == |stream|
            && (w.kept + w.left == stream <==> w.dropped == 0)
  {
    if rounds != [] && !rounds[0].stopBefore && !rounds[0].deadlineFails {
      var r := rounds[0];
      var n := Taken(stream, BUFFER, r.arrival);
      assert stream[..n] + stream[n..] == stream;
      if !r.stopAfter && r.arrival.fault != Broken {
        WatchedWhole(rounds[1..], stream[n..]);
        var v := Watch(rounds[1..], stream[n..]);
        assert stream[..n] + v.kept + v.left == stream[..n] + (v.kept + v.left);
        if n == 0 {
          assert stream[n..] == stream;
        }
      }
    }
  }

  // ---- when the client is reported gone ----

  /** Round i is reached, not stopped, and meets a connection that is broken. */
  ghost predicate BreaksAt(rounds: seq<Round>, i: nat) {
    && i < |rounds|
    && (forall j :: 0 <= j < i ==>
          !rounds[j].stopBefore && !rounds[j].deadlineFails && !rounds[j].stopAfter
              && rounds[j].arrival.fault != Broken)
    && !rounds[i].stopBefore
    && (rounds[i].deadlineFails || (!rounds[i].stopAfter && rounds[i].arrival.fault == Broken))
  }

  /**
   * The watcher reports the client gone exactly when it meets a broken connection before it is told to stop; a read
   * that only times out, or that stopping interrupts, is no such report.
   */
  lemma {:induction false} AbortsExactly(rounds: seq<Round>, stream: Bytes)
    ensures Watch(rounds, stream).aborted <==> exists i :: BreaksAt(rounds, i)
  {
    if rounds != [] {
      var r := rounds[0];
      if r.stopBefore || r.deadlineFails || r.stopAfter || r.arrival.fault == Broken {
        assert BreaksAt(rounds, 0) <==> Watch(rounds, stream).aborted;
      } else {
        var rest := stream[Taken(stream, BUFFER, r.arrival)..];
        AbortsExactly(rounds[1..], rest);
        if i: nat :| BreaksAt(rounds[1..], i) {
          assert rounds == [r] + rounds[1..];
          assert BreaksAt(rounds, i + 1);
        }
        if i: nat :| BreaksAt(rounds, i) {
          assert forall j :: 0 < j < |rounds| ==> rounds[j] == rounds[1..][j - 1];
          assert BreaksAt(rounds[1..], i - 1);
        }
      }
    }
  }

  // ---- when bytes are lost ----

  /** The watcher is not told to stop in this round, and its read takes place. */
  predicate Watching(r: Round) {
    !r.stopBefore && !r.deadlineFails && !r.stopAfter
  }

  /** How many of a client's `size` bytes the first i rounds take. */
  function Offset(rounds: seq<Round>, size: nat, i: nat): (n: nat)
    requires i <= |rounds|
    ensures n <= size
  {
    if i == 0 then 0 else
      var n := Offset(rounds, size, i - 1);
      n + Min(Min(rounds[i - 1].arrival.count, BUFFER), size - n)
  }

  /**
   * Round i is reached by a watcher still watching, and its read fails although it brings bytes the client has sent.
   */
  ghost predicate LosesAt(rounds: seq<Round>, size: nat, i: nat) {
    && i < |rounds|
    && (forall j :: 0 <= j < i ==> Watching(rounds[j]) && rounds[j].arrival.fault != Broken)
    && Watching(rounds[i]) && rounds[i].arrival.fault != Fine
    && rounds[i].arrival.count > 0 && Offset(rounds, size, i) < size
  }

  lemma {:induction false} OffsetTail(rounds: seq<Round>, size: nat, i: nat)
    requires i < |rounds|
    ensures var n := Min(Min(rounds[0].arrival.count, BUFFER), size);
            Offset(rounds, size, i + 1) == n + Offset(rounds[1..], size - n, i)
  {
    if i > 0 {
      OffsetTail(rounds, size, i - 1);
      assert rounds[1..][i - 1] == rounds[i];
    }
  }

  /** What the first round takes. */
  function First(rounds: seq<Round>, size: nat): (n: nat)
    requires rounds != []
    ensures n <= size
  {
    Min(Min(rounds[0].arrival.count, BUFFER), size)
  }

  /** The watcher goes on to a second round. */
  predicate GoesOn(r: Round) {
    Watching(r) && r.arrival.fault != Broken
  }

  lemma LosesTail(rounds: seq<Round>, size: nat, i: nat)
    requires rounds != []
    ensures LosesAt(rounds, size, i + 1) == (GoesOn(rounds[0]) && LosesAt(rounds[1..], size - First(rounds, size), i))
  {
    if i < |rounds| - 1 {
      OffsetTail(rounds, size, i);
      hide Offset, Watching;
      var tail := rounds[1..];
      assert forall j :: 0 <= j < |tail| ==> tail[j] == rounds[j + 1];
      if LosesAt(rounds, size, i + 1) {
        assert forall j :: 0 <= j < i ==> tail[j] == rounds[j + 1] && Watching(rounds[j + 1]);
      }
      if GoesOn(rounds[0]) && LosesAt(tail, size - First(rounds, size), i) {
        assert forall j :: 0 <= j < i + 1 ==> j == 0 || rounds[j] == tail[j - 1];
      }
    }
  }

  ghost predicate Loses(rounds: seq<Round>, size: nat) {
    exists i :: LosesAt(rounds, size, i)
  }

  lemma LosesSplit(rounds: seq<Round>, size: nat)
    requires rounds != []
    ensures Loses(rounds, size)
         == (LosesAt(rounds, size, 0) || (GoesOn(rounds[0]) && Loses(rounds[1..], size - First(rounds, size))))
  {
    hide LosesAt, GoesOn, First;
    var rest: nat := size - First(rounds, size);
    if Loses(rounds, size) && !LosesAt(rounds, size, 0) {
      var i: nat :| LosesAt(rounds, size, i);
      LosesTail(rounds, size, i - 1);
    }
    if GoesOn(rounds[0]) && Loses(rounds[1..], rest) {
      var i: nat :| LosesAt(rounds[1..], rest, i);
      LosesTail(rounds, size, i);
    }
  }

  lemma {:induction false} DropsWhenLosing(rounds: seq<Round>, stream: Bytes)
    ensures Watch(rounds, stream).dropped > 0 <==> Loses(rounds, |stream|)
  {
    if rounds != [] {
      LosesSplit(rounds, |stream|);
      var r := rounds[0];
      var n := Taken(stream, BUFFER, r.arrival);
      assert n == First(rounds, |stream|);
      assert LosesAt(rounds, |stream|, 0) == (Watching(r) && r.arrival.fault != Fine && n > 0);
      if GoesOn(r) {
        DropsWhenLosing(rounds[1..], stream[n..]);
      }
      hide LosesAt, Loses;
    }
  }

  /**
   * What the watcher keeps and what it leaves make up the client's stream exactly when no round that it reaches while
   * still watching has a read that fails and yet brings bytes the client has sent.
   */
  lemma WatcherConserves(rounds: seq<Round>, stream: Bytes)
    ensures var w := Watch(rounds, stream);
            w.kept + w.left == stream <==> !Loses(rounds, |stream|)
  {
    WatchedWhole(rounds, stream);
    DropsWhenLosing(rounds, stream);
  }

  /** A byte lost by a client that stays connected: a reader may return it along with its error, here a timeout. */
  lemma TimeoutWithByte(b: Byte)
    ensures var rounds := [Round(false, false, Arrival(1, TimedOut), false)];
            var w := Watch(rounds, [b]);
            Loses(rounds, 1) && w.kept + w.left == [] && !w.aborted
  {
    var rounds := [Round(false, false, Arrival(1, TimedOut), false)];
    assert Watch(rounds[1..], []) == Watched([], [], 0, false);
    assert LosesAt(rounds, 1, 0);
  }

  /**
   * Nothing is lost while queued: whatever the watcher reads in whatever pieces, and whatever sizes the later reads
   * have, what comes out of the connection after `stop` is the client's stream, in order, exactly when no failed read
   * of a watcher still watching brought bytes.  It all does come out, once reads that do not fail have room and bytes
   * for it.
   */
  method QueueThenCopy(client: ClientConn, rounds: seq<Round>, caps: seq<nat>, arrivals: seq<Arrival>)
    returns (sent: Bytes, unread: Bytes)
    requires |caps| == |arrivals|
    modifies client
    ensures sent + unread == old(client.arriving) <==> !Loses(rounds, |old(client.arriving)|)
    ensures var w := Watch(rounds, old(client.arriving));
            |sent| == Copied(|w.kept|, |w.left|, caps, arrivals)
    ensures NoFaults(arrivals) && Offered(caps, arrivals) >= |old(client.arriving)| ==> unread == []
  {
    hide Watch, Taken, Loses, Copied, Offered, NoFaults;
    ghost var w := Watch(rounds, client.arriving);
    WatchedWhole(rounds, client.arriving);
    if NoFaults(arrivals) {
      CopiedEnough(|w.kept|, |w.left|, caps, arrivals);
    }
    WatcherConserves(rounds, client.arriving);
    var ra := new ReadaheadConn(client);
    var aborted := ra.Run(rounds);
    assert ra.Stream() == w.kept + w.left;
    sent := ra.CopyTo(caps, arrivals);
    unread := ra.prefix + client.arriving;
  }
}
