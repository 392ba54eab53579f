/**
 * Session keys: the walk up an arbitrary process table, cyclic ones included, that names the session every lease is
 * granted to.
 */
module Sessions {
  import opened Basics

  type Pid = int

  datatype Proc = Proc(name: string, ppid: Pid)

  /** What ps says of each process; no entry where ps fails. */
  type Table = map<Pid, Proc>

  const DEPTH: nat := 25

  // ---- names ----

  predicate Contains(s: string, t: string) {
    exists i :: 0 <= i <= |s| && t <= s[i..]
  }

  /** matchesAgent and isObserverProc: the exact name, or a distinctive name inside it. */
  predicate Matches(name: string, known: seq<string>) {
    exists a :: a in known && (name == a || (|a| >= 5 && Contains(name, a)))
  }

  predicate IsEphemeral(name: string) {
    name == "adb" || name == "sh" || name == "bash" || name == "zsh"
  }

  predicate IsRoot(pid: Pid, name: string) {
    pid == 1 || name == "launchd"
  }

  // ---- keys ----

  function Digit(d: nat): char
    requires d < 10
  {
    "0123456789"[d]
  }

  function DecimalNat(n: nat): string {
    if n < 10 then [Digit(n)] else DecimalNat(n / 10) + [Digit(n % 10)]
  }

  function Decimal(n: int): string {
    if n < 0 then "-" + DecimalNat(-n) else DecimalNat(n)
  }

  /** The process a key is named after. */
  datatype Anchor = Anchor(name: string, pid: Pid, observer: bool)

  function Key(a: Anchor): string {
    a.name + "-" + Decimal(a.pid)
  }

  lemma {:induction false} DecimalNoDash(n: nat)
    ensures '-' !in DecimalNat(n)
  {
    if n >= 10 {
      DecimalNoDash(n / 10);
    }
  }

  lemma DigitInjective(a: nat, b: nat)
    requires a < 10 && b < 10 && Digit(a) == Digit(b)
    ensures a == b
  {
  }

  lemma {:induction false} DecimalInjective(a: nat, b: nat)
    requires DecimalNat(a) == DecimalNat(b)
    ensures a == b
  {
    DecimalNonEmpty(a / 10);
    DecimalNonEmpty(b / 10);
    if a < 10 || b < 10 {
      assert |DecimalNat(a)| == 1 && |DecimalNat(b)| == 1;
      DigitInjective(a, b);
    } else {
      var s, t := DecimalNat(a / 10), DecimalNat(b / 10);
      assert DecimalNat(a)[..|DecimalNat(a)| - 1] == s;
      assert DecimalNat(b)[..|DecimalNat(b)| - 1] == t;
      assert DecimalNat(a)[|DecimalNat(a)| - 1] == Digit(a % 10);
      assert DecimalNat(b)[|DecimalNat(b)| - 1] == Digit(b % 10);
      DecimalInjective(a / 10, b / 10);
      DigitInjective(a % 10, b % 10);
    }
  }

  lemma DecimalNonEmpty(n: nat)
    ensures |DecimalNat(n)| >= 1
  {
  }

  // ---- what a key says ----

  /** The number a string of digits stands for. */
  function Value(s: string): int {
    if s == "" then 0 else Value(s[..|s| - 1]) * 10 + (s[|s| - 1] as int - '0' as int)
  }

  lemma DigitValues(d: nat)
    requires d < 10
    ensures Digit(d) as int - '0' as int == d
  {
  }

  lemma {:induction false} DecimalReads(n: nat)
    ensures Value(DecimalNat(n)) == n
    ensures forall i :: 0 <= i < |DecimalNat(n)| ==> '0' <= DecimalNat(n)[i] <= '9'
    ensures n > 0 ==> DecimalNat(n)[0] != '0'
  {
    DigitValues(n % 10);
    if n >= 10 {
      DecimalReads(n / 10);
      var s := DecimalNat(n / 10);
      assert DecimalNat(n)[..|s|] == s;
    } else {
      assert [Digit(n)][..0] == "";
    }
  }

  /** A key is the name, a dash, and the pid's decimal digits, without leading zeros. */
  lemma KeyReads(a: Anchor) returns (digits: string)
    requires a.pid >= 0
    ensures Key(a) == a.name + "-" + digits
    ensures Value(digits) == a.pid && (forall i :: 0 <= i < |digits| ==> '0' <= digits[i] <= '9')
    ensures digits != "" && (a.pid > 0 ==> digits[0] != '0')
  {
    digits := Decimal(a.pid);
    DecimalReads(a.pid);
    DecimalNonEmpty(a.pid);
  }

  /** What follows the last dash is determined. */
  lemma LastDash(a: string, d: string, b: string, e: string)
    requires a + "-" + d == b + "-" + e && '-' !in d && '-' !in e
    ensures a == b && d == e
  {
    var s := a + "-" + d;
    assert s[|a|] == '-' && s[|b|] == '-';
    assert forall i :: |a| < i < |s| ==> s[i] == d[i - |a| - 1] && s[i] in d;
    assert forall i :: |b| < i < |s| ==> s[i] == e[i - |b| - 1] && s[i] in e;
    assert |a| == |b|;
    assert a == s[..|a|] && b == s[..|b|];
    assert d == s[|a| + 1..] && e == s[|b| + 1..];
  }

  /** Equal keys name the same process. */
  lemma KeyNamesProcess(a: Anchor, b: Anchor)
    requires a.pid >= 0 && b.pid >= 0 && Key(a) == Key(b)
    ensures a.pid == b.pid && a.name == b.name
  {
    DecimalNoDash(a.pid);
    DecimalNoDash(b.pid);
    LastDash(a.name, Decimal(a.pid), b.name, Decimal(b.pid));
    DecimalInjective(a.pid, b.pid);
  }

  // ---- the walks, as functions ----

  datatype Config = Config(observers: seq<string>, agents: seq<string>)

  /** One of the known names is the name, or is at least five characters long and occurs in it. */
  ghost predicate Named(name: string, known: seq<string>) {
    exists a :: a in known && (name == a || (|a| >= 5 && exists pre, post :: name == pre + a + post))
  }

  lemma MatchesExactly(name: string, known: seq<string>)
    ensures Matches(name, known) <==> Named(name, known)
  {
    forall a
      ensures Contains(name, a) <==> exists pre, post :: name == pre + a + post
    {
      if i :| 0 <= i <= |name| && a <= name[i..] {
        assert name == name[..i] + a + name[i + |a|..];
      }
      if pre, post :| name == pre + a + post {
        assert name[|pre|..] == a + post;
        assert 0 <= |pre| <= |name| && a <= name[|pre|..];
      }
    }
    hide Contains;
  }

  ghost predicate Marked(p: Proc, cfg: Config) {
    Named(p.name, cfg.observers) || Named(p.name, cfg.agents)
  }

  lemma MarkedExactly(p: Proc, cfg: Config)
    ensures Matches(p.name, cfg.observers) <==> Named(p.name, cfg.observers)
    ensures Matches(p.name, cfg.agents) <==> Named(p.name, cfg.agents)
    ensures Marked(p, cfg) <==> Matches(p.name, cfg.observers) || Matches(p.name, cfg.agents)
  {
    MatchesExactly(p.name, cfg.observers);
    MatchesExactly(p.name, cfg.agents);
    hide Matches, Named;
  }

  /** The first loop from cur, with `left` turns left. */
  function NearestMark(ps: Table, cfg: Config, cur: Pid, left: nat): Option<Anchor>
    decreases left
  {
    if left == 0 || cur <= 1 || cur !in ps then None
    else if Matches(ps[cur].name, cfg.observers) then Some(Anchor(ps[cur].name, cur, true))
    else if Matches(ps[cur].name, cfg.agents) then Some(Anchor(ps[cur].name, cur, false))
    else NearestMark(ps, cfg, ps[cur].ppid, left - 1)
  }

  /** The second loop from cur. */
  function NearestDurable(ps: Table, cur: Pid, left: nat): Option<Anchor>
    decreases left
  {
    if left == 0 || cur !in ps || IsRoot(cur, ps[cur].name) then None
    else if !IsEphemeral(ps[cur].name) then Some(Anchor(ps[cur].name, cur, false))
    else if ps[cur].ppid <= 0 || ps[cur].ppid == cur then None
    else NearestDurable(ps, ps[cur].ppid, left - 1)
  }

  /** The process that classifyPID anchors pid at. */
  function AnchorOf(ps: Table, cfg: Config, pid: Pid): Anchor {
    match NearestMark(ps, cfg, pid, DEPTH)
    case Some(a) => a
    case None =>
      match NearestDurable(ps, pid, DEPTH)
      case Some(a) => a
      case None => Anchor("pid", pid, false)
  }

  /** classifyPID. */
  method ClassifyPID(pid: Pid, ps: Table, cfg: Config) returns (session: string, observer: bool)
    ensures session == Key(AnchorOf(ps, cfg, pid)) && observer == AnchorOf(ps, cfg, pid).observer
  {
    hide Matches, Contains, Decimal, IsEphemeral, IsRoot;
    var cur := pid;
    var depth := 0;
    while depth < DEPTH && cur > 1
      invariant 0 <= depth <= DEPTH
      invariant NearestMark(ps, cfg, cur, DEPTH - depth) == NearestMark(ps, cfg, pid, DEPTH)
    {
      if cur !in ps {
        break;
      }
      var name, ppid := ps[cur].name, ps[cur].ppid;
      if Matches(name, cfg.observers) {
        return name + "-" + Decimal(cur), true;
      }
      if Matches(name, cfg.agents) {
        return name + "-" + Decimal(cur), false;
      }
      cur := ppid;
      depth := depth + 1;
    }
    assert NearestMark(ps, cfg, pid, DEPTH) == None;
    cur := pid;
    depth := 0;
    while depth < DEPTH
      invariant 0 <= depth <= DEPTH
      invariant NearestDurable(ps, cur, DEPTH - depth) == NearestDurable(ps, pid, DEPTH)
    {
      if cur !in ps {
        break;
      }
      var name, ppid := ps[cur].name, ps[cur].ppid;
      if IsRoot(cur, name) {
        return "pid-" + Decimal(pid), false;
      }
      if !IsEphemeral(name) {
        return name + "-" + Decimal(cur), false;
      }
      if ppid <= 0 || ppid == cur {
        break;
      }
      cur := ppid;
      depth := depth + 1;
    }
    return "pid-" + Decimal(pid), false;
  }

  // ---- what the walks find ----

  /** The k-th ancestor of pid, pid itself being the 0-th. */
  function Ancestor(ps: Table, pid: Pid, k: nat): Option<Pid>
    decreases k
  {
    if k == 0 then Some(pid)
    else if pid in ps then Ancestor(ps, ps[pid].ppid, k - 1)
    else None
  }

  /** The k-th ancestor exists, is a process the walk looks at, and is or is not an observer or agent. */
  ghost predicate Looked(ps: Table, cfg: Config, pid: Pid, k: nat, marked: bool) {
    && Ancestor(ps, pid, k).Some?
    && var c := Ancestor(ps, pid, k).value;
       c > 1 && c in ps && Marked(ps[c], cfg) == marked
  }

  /** The k-th ancestor is the nearest observer or agent. */
  ghost predicate NearestAt(ps: Table, cfg: Config, pid: Pid, k: nat) {
    Looked(ps, cfg, pid, k, true) && forall j :: 0 <= j < k ==> Looked(ps, cfg, pid, j, false)
  }

  lemma {:induction false} NearestMarkAt(ps: Table, cfg: Config, cur: Pid, left: nat, k: nat)
    requires NearestAt(ps, cfg, cur, k)
    ensures k < left ==>
              var c := Ancestor(ps, cur, k).value;
              NearestMark(ps, cfg, cur, left) == Some(Anchor(ps[c].name, c, Named(ps[c].name, cfg.observers)))
    ensures k >= left ==> NearestMark(ps, cfg, cur, left) == None
    decreases left
  {
    if cur in ps {
      MarkedExactly(ps[cur], cfg);
    }
    hide Matches, Named;
    if k > 0 && left > 0 {
      assert Looked(ps, cfg, cur, 0, false);
      var up := ps[cur].ppid;
      assert Ancestor(ps, cur, k) == Ancestor(ps, up, k - 1);
      forall j | 0 <= j < k - 1
        ensures Looked(ps, cfg, up, j, false)
      {
        assert Looked(ps, cfg, cur, j + 1, false);
      }
      assert Looked(ps, cfg, up, k - 1, true);
      NearestMarkAt(ps, cfg, up, left - 1, k - 1);
    }
  }

  lemma {:induction false} MarkIsNearest(ps: Table, cfg: Config, cur: Pid, left: nat) returns (k: nat)
    requires NearestMark(ps, cfg, cur, left).Some?
    ensures k < left && NearestAt(ps, cfg, cur, k)
    decreases left
  {
    MarkedExactly(ps[cur], cfg);
    hide Matches, Named;
    if Marked(ps[cur], cfg) {
      k := 0;
    } else {
      var up := ps[cur].ppid;
      var i := MarkIsNearest(ps, cfg, up, left - 1);
      k := i + 1;
      assert Ancestor(ps, cur, k) == Ancestor(ps, up, i);
      forall j | 0 <= j < k
        ensures Looked(ps, cfg, cur, j, false)
      {
        if j > 0 {
          assert Looked(ps, cfg, up, j - 1, false);
        }
      }
    }
  }

  /**
   * A process is anchored at its nearest observer or agent, itself included, exactly when there is one among its first
   * 25 ancestors with only readable, unmarked processes above pid 1 in between; it counts as an observer exactly when
   * that process matches the observer list.
   */
  lemma AnchoredAtNearest(ps: Table, cfg: Config, pid: Pid)
    ensures NearestMark(ps, cfg, pid, 25).Some? <==> exists k :: 0 <= k < 25 && NearestAt(ps, cfg, pid, k)
    ensures forall k :: 0 <= k < 25 && NearestAt(ps, cfg, pid, k) ==>
              var c := Ancestor(ps, pid, k).value;
              AnchorOf(ps, cfg, pid) == Anchor(ps[c].name, c, Named(ps[c].name, cfg.observers))
  {
    if NearestMark(ps, cfg, pid, 25).Some? {
      var k := MarkIsNearest(ps, cfg, pid, 25);
      assert NearestAt(ps, cfg, pid, k);
    }
    forall k | 0 <= k < 25 && NearestAt(ps, cfg, pid, k)
      ensures var c := Ancestor(ps, pid, k).value;
              NearestMark(ps, cfg, pid, 25) == Some(Anchor(ps[c].name, c, Named(ps[c].name, cfg.observers)))
    {
      NearestMarkAt(ps, cfg, pid, 25, k);
    }
  }

  /** Two processes whose walks meet the same nearest observer or agent belong to the same session. */
  lemma SameAgentSameSession(ps: Table, cfg: Config, pid1: Pid, k1: nat, pid2: Pid, k2: nat)
    requires k1 < 25 && NearestAt(ps, cfg, pid1, k1) && k2 < 25 && NearestAt(ps, cfg, pid2, k2)
    requires Ancestor(ps, pid1, k1) == Ancestor(ps, pid2, k2)
    ensures AnchorOf(ps, cfg, pid1) == AnchorOf(ps, cfg, pid2)
    ensures Key(AnchorOf(ps, cfg, pid1)) == Key(AnchorOf(ps, cfg, pid2))
  {
    AnchoredAtNearest(ps, cfg, pid1);
    AnchoredAtNearest(ps, cfg, pid2);
  }

  /** ... and two whose walks meet different ones never do. */
  lemma DifferentAgentsDifferentSessions(ps: Table, cfg: Config, pid1: Pid, k1: nat, pid2: Pid, k2: nat)
    requires k1 < 25 && NearestAt(ps, cfg, pid1, k1) && k2 < 25 && NearestAt(ps, cfg, pid2, k2)
    requires Ancestor(ps, pid1, k1) != Ancestor(ps, pid2, k2)
    ensures Key(AnchorOf(ps, cfg, pid1)) != Key(AnchorOf(ps, cfg, pid2))
  {
    AnchoredAtNearest(ps, cfg, pid1);
    AnchoredAtNearest(ps, cfg, pid2);
    assert Looked(ps, cfg, pid1, k1, true) && Looked(ps, cfg, pid2, k2, true);
    if Key(AnchorOf(ps, cfg, pid1)) == Key(AnchorOf(ps, cfg, pid2)) {
      KeyNamesProcess(AnchorOf(ps, cfg, pid1), AnchorOf(ps, cfg, pid2));
    }
  }

  lemma {:induction false} DurablePositive(ps: Table, cur: Pid, left: nat)
    requires NearestDurable(ps, cur, left).Some?
    ensures var a := NearestDurable(ps, cur, left).value;
            && (a.pid == cur || a.pid > 0)
            && a.pid in ps && a.name == ps[a.pid].name && !a.observer
            && !IsEphemeral(a.name) && !IsRoot(a.pid, a.name)
    decreases left
  {
    if IsEphemeral(ps[cur].name) {
      DurablePositive(ps, ps[cur].ppid, left - 1);
    }
  }

  lemma {:induction false} MarkPositive(ps: Table, cfg: Config, cur: Pid, left: nat)
    requires NearestMark(ps, cfg, cur, left).Some?
    ensures NearestMark(ps, cfg, cur, left).value.pid > 1
    decreases left
  {
    MarkedExactly(ps[cur], cfg);
    hide Matches, Named;
    if !Marked(ps[cur], cfg) {
      MarkPositive(ps, cfg, ps[cur].ppid, left - 1);
    }
  }

  /** Whatever the process table, equal session keys come from the same anchor process. */
  lemma EqualKeysEqualAnchors(ps1: Table, ps2: Table, cfg: Config, pid1: Pid, pid2: Pid)
    requires pid1 >= 0 && pid2 >= 0
    requires Key(AnchorOf(ps1, cfg, pid1)) == Key(AnchorOf(ps2, cfg, pid2))
    ensures AnchorOf(ps1, cfg, pid1).pid == AnchorOf(ps2, cfg, pid2).pid
    ensures AnchorOf(ps1, cfg, pid1).name == AnchorOf(ps2, cfg, pid2).name
  {
    AnchorNonNegative(ps1, cfg, pid1);
    AnchorNonNegative(ps2, cfg, pid2);
    KeyNamesProcess(AnchorOf(ps1, cfg, pid1), AnchorOf(ps2, cfg, pid2));
  }

  lemma AnchorNonNegative(ps: Table, cfg: Config, pid: Pid)
    requires pid >= 0
    ensures AnchorOf(ps, cfg, pid).pid >= 0
  {
    if NearestMark(ps, cfg, pid, 25).Some? {
      MarkPositive(ps, cfg, pid, 25);
    } else if NearestDurable(ps, pid, 25).Some? {
      DurablePositive(ps, pid, 25);
    }
  }

  /**
   * A command that an agent starts, directly or through shells, has the agent's session: the parent's key is the
   * child's.
   */
  lemma ChildInSession(ps: Table, cfg: Config, child: Pid, k: nat)
    requires child > 1 && child in ps && !Marked(ps[child], cfg)
    requires k + 1 < 25 && NearestAt(ps, cfg, ps[child].ppid, k)
    ensures Key(AnchorOf(ps, cfg, child)) == Key(AnchorOf(ps, cfg, ps[child].ppid))
  {
    var parent := ps[child].ppid;
    assert Ancestor(ps, child, k + 1) == Ancestor(ps, parent, k);
    forall j | 0 <= j < k + 1
      ensures Looked(ps, cfg, child, j, false)
    {
      if j > 0 {
        assert Looked(ps, cfg, parent, j - 1, false);
      }
    }
    SameAgentSameSession(ps, cfg, child, k + 1, parent, k);
  }

  // ---- without an observer or agent ----

  /** Adb clients and shells. */
  ghost const SHORT_LIVED: set<string> := {"adb", "sh", "bash", "zsh"}

  ghost predicate TopOfTree(pid: Pid, name: string) {
    pid == 1 || name == "launchd"
  }

  /** The j-th ancestor is one the fallback passes over: a shell or adb client whose parent is another process. */
  ghost predicate PassedOver(ps: Table, pid: Pid, j: nat) {
    && Ancestor(ps, pid, j).Some?
    && var c := Ancestor(ps, pid, j).value;
       c in ps && !TopOfTree(c, ps[c].name) && ps[c].name in SHORT_LIVED && ps[c].ppid > 0 && ps[c].ppid != c
  }

  /** The k-th ancestor is the nearest durable one. */
  ghost predicate DurableAt(ps: Table, pid: Pid, k: nat) {
    && Ancestor(ps, pid, k).Some?
    && (var c := Ancestor(ps, pid, k).value;
        c in ps && !TopOfTree(c, ps[c].name) && ps[c].name !in SHORT_LIVED)
    && forall j :: 0 <= j < k ==> PassedOver(ps, pid, j)
  }

  lemma {:induction false} DurableFound(ps: Table, cur: Pid, left: nat, k: nat)
    requires k < left && DurableAt(ps, cur, k)
    ensures var c := Ancestor(ps, cur, k).value;
            NearestDurable(ps, cur, left) == Some(Anchor(ps[c].name, c, false))
    decreases left
  {
    if k > 0 {
      assert PassedOver(ps, cur, 0);
      var up := ps[cur].ppid;
      assert Ancestor(ps, cur, k) == Ancestor(ps, up, k - 1);
      forall j | 0 <= j < k - 1
        ensures PassedOver(ps, up, j)
      {
        assert PassedOver(ps, cur, j + 1);
      }
      DurableFound(ps, up, left - 1, k - 1);
    }
  }

  lemma {:induction false} FoundIsDurable(ps: Table, cur: Pid, left: nat) returns (k: nat)
    requires NearestDurable(ps, cur, left).Some?
    ensures k < left && DurableAt(ps, cur, k)
    decreases left
  {
    if !IsEphemeral(ps[cur].name) {
      k := 0;
    } else {
      var up := ps[cur].ppid;
      var i := FoundIsDurable(ps, up, left - 1);
      k := i + 1;
      assert Ancestor(ps, cur, k) == Ancestor(ps, up, i);
      forall j | 0 <= j < k
        ensures PassedOver(ps, cur, j)
      {
        if j > 0 {
          assert PassedOver(ps, up, j - 1);
        }
      }
    }
  }

  /**
   * A process with no observer or agent in reach is anchored at its nearest durable ancestor within 25 steps, itself
   * included; with none of those either, at itself.
   */
  lemma FallbackAnchor(ps: Table, cfg: Config, pid: Pid)
    requires forall k :: 0 <= k < 25 ==> !NearestAt(ps, cfg, pid, k)
    ensures forall k :: 0 <= k < 25 && DurableAt(ps, pid, k) ==>
              var c := Ancestor(ps, pid, k).value; AnchorOf(ps, cfg, pid) == Anchor(ps[c].name, c, false)
    ensures (forall k :: 0 <= k < 25 ==> !DurableAt(ps, pid, k))
        ==> AnchorOf(ps, cfg, pid) == Anchor("pid", pid, false)
  {
    AnchoredAtNearest(ps, cfg, pid);
    forall k | 0 <= k < 25 && DurableAt(ps, pid, k)
      ensures var c := Ancestor(ps, pid, k).value; NearestDurable(ps, pid, 25) == Some(Anchor(ps[c].name, c, false))
    {
      DurableFound(ps, pid, 25, k);
    }
    if NearestDurable(ps, pid, 25).Some? {
      var k := FoundIsDurable(ps, pid, 25);
      assert DurableAt(ps, pid, k);
    }
  }
}
