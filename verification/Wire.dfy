/**
 * The smart-socket framing: four hexadecimal digits of length, then the message; and the relay of the server's answer
 * to a transport request.
 */
module Wire {
  import opened Basics

  type Byte = x: int | 0 <= x < 256

  type Bytes = seq<Byte>

  const MAX_FRAME: int := 0xFFFF
  const MAX_LENGTH: int := 1_048_576

  // ---- hexadecimal lengths ----

  function HexDigit(d: nat): Byte
    requires d < 16
  {
    if d < 10 then 48 + d else 87 + d
  }

  /** A strict hexadecimal digit, of either case. */
  function DigitValue(c: Byte): Option<nat> {
    if 48 <= c <= 57 then Some(c - 48)
    else if 97 <= c <= 102 then Some(c - 87)
    else if 65 <= c <= 70 then Some(c - 55)
    else None
  }

  function HexOf(n: nat): Bytes {
    if n < 16 then [HexDigit(n)] else HexOf(n / 16) + [HexDigit(n % 16)]
  }

  /** "%04x": at least four digits. */
  function Header(n: nat): Bytes {
    Zeros(if |HexOf(n)| < 4 then 4 - |HexOf(n)| else 0) + HexOf(n)
  }

  function Zeros(n: nat): Bytes {
    seq(n, i => 48)
  }

  function HexValue(s: Bytes): Option<nat> {
    if s == [] then Some(0) else
      var front := HexValue(s[..|s| - 1]);
      var last := DigitValue(s[|s| - 1]);
      if front.Some? && last.Some? then Some(front.value * 16 + last.value) else None
  }

  lemma {:induction false} HexValueOfHex(n: nat)
    ensures HexValue(HexOf(n)) == Some(n)
  {
    if n < 16 {
      assert HexOf(n)[..0] == [];
      assert HexValue(HexOf(n)[..|HexOf(n)| - 1]) == Some(0);
    } else {
      HexValueOfHex(n / 16);
      assert HexOf(n)[..|HexOf(n)| - 1] == HexOf(n / 16);
    }
  }

  lemma {:induction false} LeadingZeros(k: nat, s: Bytes)
    ensures HexValue(Zeros(k) + s) == HexValue(s)
  {
    if s == [] {
      if k == 0 {
        assert Zeros(k) + s == [];
      } else {
        LeadingZeros(k - 1, s);
        assert (Zeros(k) + s)[..k - 1] == Zeros(k - 1) + s;
      }
    } else {
      LeadingZeros(k, s[..|s| - 1]);
      assert (Zeros(k) + s)[..|Zeros(k) + s| - 1] == Zeros(k) + s[..|s| - 1];
    }
  }

  /** How many digits a length takes. */
  lemma {:induction false} HexLength(n: nat)
    ensures n < 16 ==> |HexOf(n)| == 1
    ensures n < 256 ==> |HexOf(n)| <= 2
    ensures n < 4096 ==> |HexOf(n)| <= 3
    ensures n <= MAX_FRAME <==> |HexOf(n)| <= 4
  {
    if n >= 16 {
      HexLengthShort(n / 16);
    }
  }

  lemma {:induction false} HexLengthShort(n: nat)
    ensures n < 16 ==> |HexOf(n)| == 1
    ensures n < 256 <==> |HexOf(n)| <= 2
    ensures n < 4096 <==> |HexOf(n)| <= 3
    ensures 1 <= |HexOf(n)|
  {
    if n >= 16 {
      HexLengthShort(n / 16);
      assert n < 256 <==> n / 16 < 16;
      assert n < 4096 <==> n / 16 < 256;
      assert n / 16 >= 16 ==> |HexOf(n / 16)| >= 2;
    }
  }

  /** Reading too few digits of a length gives a smaller one. */
  lemma {:induction false} PrefixValue(n: nat, k: nat)
    requires 0 < k < |HexOf(n)|
    ensures HexValue(HexOf(n)[..k]).Some? && HexValue(HexOf(n)[..k]).value < n
  {
    assert HexOf(n)[..|HexOf(n)| - 1] == HexOf(n / 16);
    if k == |HexOf(n)| - 1 {
      HexValueOfHex(n / 16);
    } else {
      PrefixValue(n / 16, k);
      assert HexOf(n)[..k] == HexOf(n / 16)[..k];
    }
  }

  // ---- messages ----

  function Encode(msg: Bytes): Bytes {
    Header(|msg|) + msg
  }

  datatype Parsed = Message(msg: Bytes, rest: Bytes) | Malformed

  /** The message at the front of a stream. */
  function Parse(s: Bytes): Parsed {
    if |s| < 4 || HexValue(s[..4]).None? then Malformed else
      var n := HexValue(s[..4]).value;
      if n > MAX_LENGTH || |s| < 4 + n then Malformed else Message(s[4..4 + n], s[4 + n..])
  }

  lemma {:induction false} HexDigits(n: nat)
    ensures forall i :: 0 <= i < |HexOf(n)| ==> 48 <= HexOf(n)[i] <= 57 || 97 <= HexOf(n)[i] <= 102
  {
    if n >= 16 {
      HexDigits(n / 16);
    }
  }

  /** A header is at least four characters, all of them digits or lower-case letters from a to f. */
  lemma HeaderDigits(n: nat)
    ensures |Header(n)| >= 4
    ensures forall i :: 0 <= i < |Header(n)| ==>
              '0' as int <= Header(n)[i] <= '9' as int || 'a' as int <= Header(n)[i] <= 'f' as int
  {
    HexDigits(n);
    hide HexOf;
    forall i | 0 <= i < |Header(n)|
      ensures 48 <= Header(n)[i] <= 57 || 97 <= Header(n)[i] <= 102
    {
      var zeros := Zeros(if |HexOf(n)| < 4 then 4 - |HexOf(n)| else 0);
      if i >= |zeros| {
        assert HexOf(n)[i - |zeros|] == Header(n)[i];
      }
    }
  }

  lemma HeaderReads(n: nat)
    requires n <= MAX_FRAME
    ensures |Header(n)| == 4 && HexValue(Header(n)) == Some(n)
  {
    HexLength(n);
    HexValueOfHex(n);
    LeadingZeros(4 - |HexOf(n)|, HexOf(n));
  }

  /**
   * Framing round trip: a message written and read back, whatever follows it on the stream, is the same message with
   * the same rest, exactly when its length fits in four digits.
   */
  lemma RoundTrip(msg: Bytes, rest: Bytes)
    ensures Parse(Encode(msg) + rest) == Message(msg, rest) <==> |msg| <= 0xFFFF
  {
    var s := Encode(msg) + rest;
    var n := |msg|;
    HexLength(n);
    if n <= MAX_FRAME {
      HeaderReads(n);
      assert s[..4] == Header(n);
      assert s[4..4 + n] == msg && s[4 + n..] == rest;
    } else {
      assert s[..4] == HexOf(n)[..4];
      PrefixValue(n, 4);
    }
  }

  /**
   * What is read from a stream is a message that can be written again, and its header and body were the front of the
   * stream.
   */
  lemma ReadIsWritable(s: Bytes)
    requires Parse(s).Message?
    ensures var m := Parse(s).msg;
            && |m| <= MAX_FRAME
            && s == s[..4] + m + Parse(s).rest
            && HexValue(s[..4]) == Some(|m|)
            && Parse(Encode(m) + Parse(s).rest) == Parse(s)
  {
    FourDigits(s[..4]);
    RoundTrip(Parse(s).msg, Parse(s).rest);
  }

  function Power16(n: nat): nat {
    if n == 0 then 1 else 16 * Power16(n - 1)
  }

  lemma {:induction false} DigitsBound(s: Bytes)
    requires HexValue(s).Some?
    ensures HexValue(s).value < Power16(|s|)
  {
    if s != [] {
      DigitsBound(s[..|s| - 1]);
    }
  }

  lemma FourDigits(s: Bytes)
    requires |s| == 4 && HexValue(s).Some?
    ensures HexValue(s).value <= MAX_FRAME
  {
    DigitsBound(s);
    assert Power16(4) == 65536;
  }

  function EncodeAll(msgs: seq<Bytes>): Bytes {
    if msgs == [] then [] else Encode(msgs[0]) + EncodeAll(msgs[1..])
  }

  datatype Batch = Batch(msgs: seq<Bytes>, rest: Bytes)

  /** The first n messages of a stream, and what follows them. */
  function ParseMany(n: nat, s: Bytes): Option<Batch> {
    if n == 0 then Some(Batch([], s)) else
      match Parse(s)
      case Malformed => None
      case Message(m, rest) =>
        match ParseMany(n - 1, rest)
        case None => None
        case Some(more) => Some(Batch([m] + more.msgs, more.rest))
  }

  /** A sequence of messages is read back message by message. */
  lemma {:induction false} RoundTripAll(msgs: seq<Bytes>, rest: Bytes)
    requires forall m :: m in msgs ==> |m| <= MAX_FRAME
    ensures ParseMany(|msgs|, EncodeAll(msgs) + rest) == Some(Batch(msgs, rest))
  {
    hide Parse, Encode;
    if msgs == [] {
      assert EncodeAll(msgs) + rest == rest;
    } else {
      var tail := EncodeAll(msgs[1..]) + rest;
      assert EncodeAll(msgs) + rest == Encode(msgs[0]) + tail by {
        hide ParseMany;
      }
      RoundTrip(msgs[0], tail);
      RoundTripAll(msgs[1..], rest);
      OneThenRest(|msgs|, EncodeAll(msgs) + rest);
      assert [msgs[0]] + msgs[1..] == msgs;
    }
  }

  lemma OneThenRest(n: nat, s: Bytes)
    requires n > 0 && Parse(s).Message? && ParseMany(n - 1, Parse(s).rest).Some?
    ensures var more := ParseMany(n - 1, Parse(s).rest).value;
            ParseMany(n, s) == Some(Batch([Parse(s).msg] + more.msgs, more.rest))
  {
  }

  // ---- connections ----

  /**
   * One side of a TCP connection: what the peer has sent and has not been read, what has been written, and whether
   * writes work.
   */
  class Conn {
    var input: Bytes
    var output: Bytes
    var writable: bool

    constructor (input: Bytes, writable: bool)
      ensures this.input == input && output == [] && this.writable == writable
    {
      this.input, this.output, this.writable := input, [], writable;
    }

    /** io.ReadFull up to the peer's end of stream. */
    method ReadFull(n: nat) returns (buf: Bytes, ok: bool)
      modifies this`input
      ensures ok <==> n <= |old(input)|
      ensures if ok then buf == old(input)[..n] && input == old(input)[n..] else buf == old(input) && input == []
    {
      if n <= |input| {
        buf, input, ok := input[..n], input[n..], true;
      } else {
        buf, input, ok := input, [], false;
      }
    }

    method Write(bytes: Bytes) returns (ok: bool)
      modifies this`output
      ensures ok == writable
      ensures output == if ok then old(output) + bytes else old(output)
    {
      ok := writable;
      if ok {
        output := output + bytes;
      }
    }

    /** readMsg. */
    method ReadMsg() returns (r: Option<Bytes>)
      modifies this`input
      ensures match Parse(old(input))
              case Message(msg, rest) => r == Some(msg) && input == rest
              case Malformed => r == None
    {
      var lenBuf, ok := ReadFull(4);
      if !ok {
        return None;
      }
      match HexValue(lenBuf) {
        case None => return None;
        case Some(n) =>
          if n > MAX_LENGTH {
            return None;
          }
          var buf;
          ghost var s := old(input);
          buf, ok := ReadFull(n);
          if !ok {
            return None;
          }
          assert s[4..4 + n] == buf && s[4 + n..] == input;
          return Some(buf);
      }
    }

    /** writeMsg. */
    method WriteMsg(msg: Bytes) returns (ok: bool)
      modifies this`output
      ensures ok == writable
      ensures output == if ok then old(output) + Encode(msg) else old(output)
    {
      ok := Write(Header(|msg|) + msg);
    }

    /** writeFail. */
    method WriteFail(msg: Bytes)
      modifies this`output
      ensures output == old(output) + if writable then Failure(msg) else []
    {
      var _ := Write(FAIL + Header(|msg|) + msg);
      assert FAIL + Header(|msg|) + msg == FAIL + (Header(|msg|) + msg);
    }
  }

  // ---- the answer to a transport request ----

  const OKAY: Bytes := [79, 75, 65, 89]

  const FAIL: Bytes := [70, 65, 73, 76]

  /** A refusal with its message. */
  function Failure(msg: Bytes): Bytes {
    FAIL + Encode(msg)
  }

  /** The stream ends inside one of the fixed-size fields of an answer. */
  predicate CutShort(s: Bytes, tport: bool) {
    || 0 < |s| < 4
    || (4 < |s| && if s[..4] == OKAY then tport && |s| < 12 else |s| < 8)
  }

  /** How long the answer at the front of s is, as far as s has it. */
  function AnswerLength(s: Bytes, tport: bool): nat {
    if |s| < 4 then 0
    else if s[..4] == OKAY then if tport && 12 <= |s| then 12 else 4
    else if |s| < 8 then 4
    else match HexValue(s[4..8])
         case None => 8
         case Some(n) => if |s| < 8 + n then |s| else 8 + n
  }

  /** The answer at the front of s, as far as s has it. */
  function Answer(s: Bytes, tport: bool): Bytes {
    var n := AnswerLength(s, tport);
    if n <= |s| then s[..n] else s
  }

  /** The server accepted the transport. */
  predicate Accepted(s: Bytes, tport: bool) {
    |s| >= 4 && s[..4] == OKAY && (tport ==> |s| >= 12)
  }

  /**
   * relayTransportStatus: the client gets exactly the answer, up to its end and no further; every byte taken from the
   * server reaches the client, unless the server's stream ends inside a fixed-size field.
   */
  method RelayTransportStatus(up: Conn, c: Conn, tport: bool) returns (ok: bool)
    requires up != c
    modifies up`input, c`output
    ensures !c.writable ==> !ok && c.output == old(c.output)
    ensures c.writable ==>
              var s := old(up.input);
              var n := AnswerLength(s, tport);
              && n <= |s| && c.output == old(c.output) + s[..n]
              && up.input == (if CutShort(s, tport) then [] else s[n..])
              && (ok <==> Accepted(s, tport))
  {
    hide HexValue, HexOf;
    var status, read := up.ReadFull(4);
    if !read {
      return false;
    }
    var sent := c.Write(status);
    if !sent {
      return false;
    }
    if status == OKAY {
      if tport {
        var id;
        id, read := up.ReadFull(8);
        if !read {
          return false;
        }
        sent := c.Write(id);
        if !sent {
          return false;
        }
      }
      return true;
    }
    FailureIs(old(up.input), tport);
    RelayFailure(up, c);
    return false;
  }

  /** How much is relayed of what follows a status other than OKAY: the length and the message, as far as they go. */
  function FailureLength(s: Bytes): nat {
    if |s| < 4 then 0
    else match HexValue(s[..4])
         case None => 4
         case Some(n) => if |s| < 4 + n then |s| else 4 + n
  }

  lemma FailureIs(s: Bytes, tport: bool)
    requires |s| >= 4 && s[..4] != OKAY
    ensures AnswerLength(s, tport) == 4 + FailureLength(s[4..]) <= |s|
    ensures s[..4] + s[4..][..FailureLength(s[4..])] == s[..AnswerLength(s, tport)]
    ensures s[4..][FailureLength(s[4..])..] == s[AnswerLength(s, tport)..]
    ensures CutShort(s, tport) <==> 4 < |s| < 8
  {
    hide HexValue;
    assert |s| >= 8 ==> s[4..][..4] == s[4..8];
  }

  /** The rest of relayTransportStatus, after a status other than OKAY has been relayed. */
  method RelayFailure(up: Conn, c: Conn)
    requires up != c && c.writable
    modifies up`input, c`output
    ensures var s := old(up.input);
            var n := FailureLength(s);
            && n <= |s| && c.output == old(c.output) + s[..n]
            && up.input == if |s| < 4 then [] else s[n..]
  {
    hide HexValue;
    var lenBuf, read := up.ReadFull(4);
    if !read {
      return;
    }
    var sent := c.Write(lenBuf);
    match HexValue(lenBuf) {
      case Some(n) =>
        FourDigits(lenBuf);
        if n > 0 && n <= MAX_LENGTH {
          var body, all := up.ReadFull(n);   // io.CopyN copies what there is
          sent := c.Write(body);
          assert old(up.input)[..4 + |body|] == lenBuf + body;
        }
      case None =>
    }
  }

  /**
   * The relay is transparent: what the client gets and what is left make up the server's stream, exactly when no field
   * was cut.
   */
  lemma RelayLosesNothing(s: Bytes, tport: bool)
    ensures AnswerLength(s, tport) <= |s|
    ensures s[..AnswerLength(s, tport)] + (if CutShort(s, tport) then [] else s[AnswerLength(s, tport)..]) == s
            <==> !CutShort(s, tport)
  {
  }

  /**
   * It stops at the end of the answer: an acceptance with its transport id, or a failure with its message; and the
   * transport is accepted in the first case only.
   */
  lemma RelayStopsAtBoundary(id: Bytes, msg: Bytes, more: Bytes)
    requires |id| == 8 && |msg| <= 0xFFFF
    ensures OKAY == ['O' as int, 'K' as int, 'A' as int, 'Y' as int]
    ensures FAIL == ['F' as int, 'A' as int, 'I' as int, 'L' as int]
    ensures Accepted(OKAY + more, false) && Accepted(OKAY + id + more, true)
    ensures |more| < 8 ==> !Accepted(OKAY + more, true)
    ensures !Accepted(Failure(msg) + more, false) && !Accepted(Failure(msg) + more, true)
    ensures AnswerLength(OKAY + more, false) == 4 && !CutShort(OKAY + more, false)
    ensures AnswerLength(OKAY + id + more, true) == 12 && !CutShort(OKAY + id + more, true)
    ensures AnswerLength(Failure(msg) + more, true) == |Failure(msg)|
        && !CutShort(Failure(msg) + more, true)
    ensures AnswerLength(Failure(msg) + more, false) == |Failure(msg)|
        && !CutShort(Failure(msg) + more, false)
  {
    HeaderReads(|msg|);
    assert (OKAY + more)[..4] == OKAY;
    assert (OKAY + id + more)[..4] == OKAY;
    var s := Failure(msg) + more;
    assert s[..4] == FAIL;
    assert s[4..8] == Header(|msg|);
    assert FAIL[0] != OKAY[0];
  }
}
