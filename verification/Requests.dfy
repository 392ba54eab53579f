/** What clients ask the smart-socket proxy for: transports, and device services that need the lease or do not. */
module Requests {
  import opened Basics
  import opened Selection
  import opened Wire

  // ---- requests ----

  function Text(b: Bytes): string {
    seq(|b|, i requires 0 <= i < |b| => b[i] as char)
  }

  datatype Transport = Transport(serial: string, tport: bool)

  function TrimPrefix(s: string, p: string): string {
    if HasPrefix(s, p) then s[|p|..] else s
  }

  /** parseTransport. */
  function ParseTransport(req: string): Option<Transport> {
    if HasPrefix(req, "host:transport:") then Some(Transport(TrimPrefix(req, "host:transport:"), false))
    else if HasPrefix(req, "host:tport:serial:") then Some(Transport(TrimPrefix(req, "host:tport:serial:"), true))
    else if req == "host:transport-any" || req == "host:transport-usb" || req == "host:transport-local"
        then Some(Transport("", false))
    else if req == "host:tport:any" || req == "host:tport:usb" || req == "host:tport:local"
        then Some(Transport("", true))
    else None
  }

  /** Any serial can be asked for by either form, and comes back whole. */
  lemma TransportOfSerial(serial: string)
    ensures ParseTransport("host:transport:" + serial) == Some(Transport(serial, false))
    ensures ParseTransport("host:tport:serial:" + serial) == Some(Transport(serial, true))
  {
    var a, b := "host:transport:", "host:tport:serial:";
    assert (a + serial)[|a|..] == serial && (b + serial)[|b|..] == serial;
    assert HasPrefix(a + serial, a) && HasPrefix(b + serial, b);
    assert (b + serial)[6] == 'p' && a[6] == 'r';
  }

  /**
   * A transport request is one of the two forms that name a serial, or one of six that name none; and the newer
   * family, whose answer carries a transport id, is the one that begins with host:tport:.
   */
  lemma TransportExactly(req: string)
    ensures ParseTransport(req).Some? <==>
              || "host:transport:" <= req || "host:tport:serial:" <= req
              || req in {"host:transport-any", "host:transport-usb", "host:transport-local",
                         "host:tport:any", "host:tport:usb", "host:tport:local"}
    ensures ParseTransport(req).Some? ==> (ParseTransport(req).value.tport <==> "host:tport:" <= req)
    ensures ParseTransport(req).Some? && !("host:transport:" <= req) && !("host:tport:serial:" <= req) ==>
              ParseTransport(req).value.serial == ""
  {
    var a, b, c := "host:transport:", "host:tport:serial:", "host:tport:";
    assert c == b[..11];
    if a <= req {
      assert req[6] == a[6] == 'r';
      assert c[6] == 'p';
    } else if b <= req {
      assert req[..11] == b[..11];
    } else {
      assert c == "host:tport:any"[..11] && c == "host:tport:usb"[..11] && c == "host:tport:local"[..11];
      assert c[6] == 'p' && "host:transport-any"[6] == 'r';
      assert "host:transport-usb"[6] == 'r' && "host:transport-local"[6] == 'r';
    }
  }

  /** A request that names a serial is one of the two forms; the rest name none. */
  lemma SerialOfTransport(req: string)
    ensures match ParseTransport(req)
            case None => true
            case Some(t) =>
              t.serial != "" ==>
                req == (if t.tport then "host:tport:serial:" else "host:transport:") + t.serial
  {
  }

  /** The position of the first c in s, |s| when there is none. */
  function IndexOf(s: string, c: char): (i: nat)
    ensures i <= |s| && (i < |s| ==> s[i] == c) && c !in s[..i]
  {
    if s == "" then 0 else if s[0] == c then 0 else
      var i := IndexOf(s[1..], c);
      assert s[..i + 1] == [s[0]] + s[1..][..i];
      i + 1
  }

  predicate IsSpace(c: char) {
    c == ' ' || c == '\t' || c == '\n' || c == '\r' || c == 11 as char || c == 12 as char
  }

  function TrimLeft(s: string): string {
    if s != "" && IsSpace(s[0]) then TrimLeft(s[1..]) else s
  }

  function TrimRight(s: string): string {
    if s != "" && IsSpace(s[|s| - 1]) then TrimRight(s[..|s| - 1]) else s
  }

  function TrimSpace(s: string): string {
    TrimRight(TrimLeft(s))
  }

  // ---- what trimming leaves ----

  /** Only spaces, tabs, line ends, vertical tabs and form feeds. */
  ghost predicate Blank(s: string) {
    forall i :: 0 <= i < |s| ==> s[i] in {' ', '\t', '\n', '\r', 11 as char, 12 as char}
  }

  /** core is s without the blanks around it. */
  ghost predicate Core(s: string, core: string) {
    && (exists pre, post :: s == pre + core + post && Blank(pre) && Blank(post))
    && (core != "" ==> !Blank([core[0]]) && !Blank([core[|core| - 1]]))
  }

  lemma {:induction false} TrimLeftBlank(s: string) returns (pre: string)
    ensures s == pre + TrimLeft(s) && Blank(pre)
    ensures TrimLeft(s) != "" ==> !Blank([TrimLeft(s)[0]])
  {
    pre := "";
    if s != "" && IsSpace(s[0]) {
      var rest := TrimLeftBlank(s[1..]);
      pre := [s[0]] + rest;
      assert s == [s[0]] + s[1..];
    } else if s != "" {
      assert [s[0]][0] == s[0];
    }
  }

  lemma {:induction false} TrimRightBlank(s: string) returns (post: string)
    ensures s == TrimRight(s) + post && Blank(post)
    ensures TrimRight(s) != "" ==> !Blank([TrimRight(s)[|TrimRight(s)| - 1]])
  {
    post := "";
    if s != "" && IsSpace(s[|s| - 1]) {
      var rest := TrimRightBlank(s[..|s| - 1]);
      post := rest + [s[|s| - 1]];
      assert s == s[..|s| - 1] + [s[|s| - 1]];
    } else if s != "" {
      assert [s[|s| - 1]][0] == s[|s| - 1];
    }
  }

  lemma TrimIsCore(s: string)
    ensures Core(s, TrimSpace(s))
  {
    var pre := TrimLeftBlank(s);
    var t := TrimLeft(s);
    var post := TrimRightBlank(t);
    var core := TrimRight(t);
    assert s == pre + core + post;
    if core != "" {
      assert core[0] == t[0];
    }
  }

  lemma CoreParts(s: string, core: string) returns (pre: string, post: string)
    requires Core(s, core)
    ensures s == pre + core + post && Blank(pre) && Blank(post)
    ensures core != "" ==> !Blank([core[0]]) && !Blank([core[|core| - 1]])
  {
    pre, post :| s == pre + core + post && Blank(pre) && Blank(post);
  }

  /** What is left between the blanks is unique. */
  lemma CoreUnique(s: string, a: string, b: string)
    requires Core(s, a) && Core(s, b)
    ensures a == b
  {
    hide *;
    var p, q := CoreParts(s, a);
    var x, y := CoreParts(s, b);
    if a == "" {
      AllBlank(s, p, q, x, b, y);
    } else if b == "" {
      AllBlank(s, x, y, p, a, q);
    } else {
      CoreStart(s, p, a, q, x, b, y);
      CoreStart(s, x, b, y, p, a, q);
      CoreEnd(s, p, a, q, x, b, y);
      CoreEnd(s, x, b, y, p, a, q);
      SameCut(s, p, a, q, x, b, y);
    }
  }

  lemma SameCut(s: string, p: string, a: string, q: string, x: string, b: string, y: string)
    requires s == p + a + q == x + b + y && |p| == |x| && |q| == |y|
    ensures a == b
  {
    assert a == s[|p|..|s| - |q|] && b == s[|x|..|s| - |y|];
  }

  lemma AllBlank(s: string, p: string, q: string, x: string, b: string, y: string)
    requires s == p + "" + q == x + b + y && Blank(p) && Blank(q)
    ensures b == "" || Blank([b[0]])
  {
    if b != "" {
      assert s[|x|] == b[0];
      assert s[|x|] == if |x| < |p| then p[|x|] else q[|x| - |p|];
    }
  }

  lemma CoreStart(s: string, p: string, a: string, q: string, x: string, b: string, y: string)
    requires s == p + a + q == x + b + y && Blank(p) && b != ""
    ensures |x| < |p| ==> Blank([b[0]])
  {
    if |x| < |p| {
      assert s[|x|] == b[0] && s[|x|] == p[|x|];
    }
  }

  lemma CoreEnd(s: string, p: string, a: string, q: string, x: string, b: string, y: string)
    requires s == p + a + q == x + b + y && Blank(q) && b != ""
    ensures |y| < |q| ==> Blank([b[|b| - 1]])
  {
    if |y| < |q| {
      var i := |s| - |y| - 1;
      assert s[i] == b[|b| - 1] && s[i] == q[i - |p| - |a|];
    }
  }

  /** isExemptService. */
  predicate Exempt(svc: string, prefixes: seq<string>) {
    var colon := IndexOf(svc, ':');
    colon < |svc| &&
    var head := svc[..colon];
    var family := head[..IndexOf(head, ',')];
    (family == "shell" || family == "exec") &&
    var cmd := TrimSpace(svc[colon + 1..]);
    cmd != "" && exists p :: p in prefixes && HasPrefix(cmd, p)
  }

  /** A service of the family's own form: its name, options after a comma, a colon, and the command. */
  ghost predicate ShellForm(svc: string, family: string, options: string, cmd: string) {
    && (family == "shell" || family == "exec")
    && svc == family + options + ":" + cmd
    && (options == "" || options[0] == ',') && ':' !in options
  }

  lemma IndexUnique(s: string, c: char, i: nat)
    requires i < |s| && s[i] == c && c !in s[..i]
    ensures IndexOf(s, c) == i
  {
  }

  lemma IndexAbsent(s: string, c: char)
    requires c !in s
    ensures IndexOf(s, c) == |s|
  {
  }

  lemma ShellFormParts(svc: string, family: string, options: string, cmd: string)
    requires ShellForm(svc, family, options, cmd)
    ensures var colon := IndexOf(svc, ':');
            && colon < |svc| && svc[..colon] == family + options && svc[colon + 1..] == cmd
            && IndexOf(family + options, ',') == |family| && (family + options)[..|family|] == family
  {
    var head := family + options;
    assert svc[..|head|] == head && svc[|head|] == ':' && svc[|head| + 1..] == cmd;
    assert ':' !in family && ',' !in family;
    IndexUnique(svc, ':', |head|);
    assert head[..|family|] == family;
    if options == "" {
      IndexAbsent(head, ',');
    } else {
      IndexUnique(head, ',', |family|);
    }
  }

  lemma ExemptParts(svc: string, prefixes: seq<string>) returns (family: string, options: string, cmd: string)
    requires Exempt(svc, prefixes)
    ensures ShellForm(svc, family, options, cmd) && CommandListed(cmd, prefixes)
  {
    var colon := IndexOf(svc, ':');
    var head := svc[..colon];
    var comma := IndexOf(head, ',');
    family, options, cmd := head[..comma], head[comma..], svc[colon + 1..];
    assert svc == family + options + ":" + cmd;
    ListedTrimmed(cmd, prefixes);
  }

  /** Without the blanks around it, the command is not empty and starts with a listed prefix. */
  ghost predicate CommandListed(cmd: string, prefixes: seq<string>) {
    exists core, p :: Core(cmd, core) && core != "" && p in prefixes && p <= core
  }

  lemma ListedTrimmed(cmd: string, prefixes: seq<string>)
    ensures CommandListed(cmd, prefixes) <==>
              TrimSpace(cmd) != "" && exists p :: p in prefixes && HasPrefix(TrimSpace(cmd), p)
  {
    hide Core;
    TrimIsCore(cmd);
    if CommandListed(cmd, prefixes) {
      var core, p :| Core(cmd, core) && core != "" && p in prefixes && p <= core;
      CoreUnique(cmd, core, TrimSpace(cmd));
    }
  }

  /**
   * Exactly the services of shell or exec form whose command, blanks trimmed, is non-empty and starts with a listed
   * prefix.
   */
  lemma ExemptExactly(svc: string, prefixes: seq<string>)
    ensures Exempt(svc, prefixes) <==>
              exists family, options, cmd :: ShellForm(svc, family, options, cmd) && CommandListed(cmd, prefixes)
  {
    if Exempt(svc, prefixes) {
      var family, options, cmd := ExemptParts(svc, prefixes);
    } else {
      forall family, options, cmd | ShellForm(svc, family, options, cmd)
        ensures !CommandListed(cmd, prefixes)
      {
        ShellFormParts(svc, family, options, cmd);
        ListedTrimmed(cmd, prefixes);
      }
    }
  }
}
