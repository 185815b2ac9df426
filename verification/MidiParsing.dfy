/** The MIDI byte parser of the MPU-401: running status, system common messages,
    system exclusive messages up to a bound, and real-time bytes that may turn up
    anywhere. */
module MidiParsing {
  import opened Wrappers

  const SYSEX_CAPACITY := 65536

  type Message = seq<int>

  function MessageLen(status: int): int {
    if 0xc0 <= status <= 0xdf || status == 0xf1 || status == 0xf3 then 2
    else if 0x80 <= status <= 0xbf || 0xe0 <= status <= 0xef || status == 0xf2 then 3
    else 1
  }

  datatype Parser = Parser(running: Option<int>, message: seq<int>, expected: int, sysex: Option<seq<int>>,
                           overflow: bool)

  function Fresh(): Parser { Parser(None, [], 0, None, false) }

  // ----- One byte ----------------------------------------------------------------

  /** The parser after a byte, and the messages it completed. */
  function Push(p: Parser, value: int): (Parser, seq<Message>) {
    if value >= 0xf8 then (p, [[value]])
    else if p.sysex.Some? && value == 0xf7 then
      (p.(sysex := None, overflow := false), if p.overflow then [] else [p.sysex.value + [value]])
    else if p.sysex.Some? && value < 0x80 then
      if |p.sysex.value| + 1 < SYSEX_CAPACITY then (p.(sysex := Some(p.sysex.value + [value])), [])
      else (p.(overflow := true), [])
    else
      var q := p.(sysex := None, overflow := if p.sysex.Some? then false else p.overflow);
      if value >= 0x80 then Start(q, value) else Data(q, value)
  }

  function Start(p: Parser, status: int): (Parser, seq<Message>) {
    var q := p.(message := [], expected := 0);
    if status <= 0xef then (q.(running := Some(status), message := [status], expected := MessageLen(status)), [])
    else if status == 0xf0 then (q.(running := None, sysex := Some([status])), [])
    else if status <= 0xf3 then (q.(running := None, message := [status], expected := MessageLen(status)), [])
    else (q.(running := None), [[status]])
  }

  function Data(p: Parser, value: int): (Parser, seq<Message>) {
    if p.expected == 0 && p.running.None? then (p, [])
    else
      var begun := if p.expected == 0 then p.(message := [p.running.value],
                                              expected := MessageLen(p.running.value)) else p;
      var message := begun.message + [value];
      if |message| != begun.expected then (begun.(message := message), [])
      else (Rearmed(begun), [message])
  }

  /** Ready for the next message, under running status if there is one. */
  function Rearmed(p: Parser): Parser {
    if p.running.Some? then p.(message := [p.running.value], expected := MessageLen(p.running.value))
    else p.(message := [], expected := 0)
  }

  /** The parser after a whole stream. */
  function After(p: Parser, bytes: seq<int>): Parser
    decreases |bytes|
  {
    if bytes == [] then p else Push(After(p, bytes[..|bytes| - 1]), bytes[|bytes| - 1]).0
  }

  /** Everything the stream completed, in order. */
  function Out(p: Parser, bytes: seq<int>): seq<Message>
    decreases |bytes|
  {
    if bytes == [] then []
    else Out(p, bytes[..|bytes| - 1]) + Push(After(p, bytes[..|bytes| - 1]), bytes[|bytes| - 1]).1
  }

  lemma OneMore(p: Parser, front: seq<int>, last: int)
    ensures After(p, front + [last]) == Push(After(p, front), last).0
    ensures Out(p, front + [last]) == Out(p, front) + Push(After(p, front), last).1
  {
    hide Push;
    assert (front + [last])[..|front|] == front;
  }

  class MidiParser {
    var running: Option<int>
    var message: seq<int>
    var expected: int
    var sysex: Option<seq<int>>
    var overflow: bool

    function View(): Parser
      reads this
    {
      Parser(running, message, expected, sysex, overflow)
    }

    constructor ()
      ensures View() == Fresh()
    {
      running, message, expected, sysex, overflow := None, [], 0, None, false;
    }

    method Reset()
      modifies this
      ensures View() == Fresh()
    {
      running, message, expected, sysex, overflow := None, [], 0, None, false;
    }

    method PushByte(value: int) returns (completed: seq<Message>)
      modifies this
      ensures (View(), completed) == Push(old(View()), value)
    {
      completed := [];
      if value >= 0xf8 {
        return [[value]];
      }
      if sysex.Some? {
        if value == 0xf7 {
          if !overflow {
            completed := [sysex.value + [value]];
          }
          sysex, overflow := None, false;
          return;
        }
        if value < 0x80 {
          if |sysex.value| + 1 < SYSEX_CAPACITY {
            sysex := Some(sysex.value + [value]);
          } else {
            overflow := true;
          }
          return;
        }
        sysex, overflow := None, false;
      }
      if value >= 0x80 {
        completed := StartStatus(value);
        return;
      }
      if expected == 0 {
        if running.None? {
          return;
        }
        message := [running.value];
        expected := MessageLen(running.value);
      }
      message := message + [value];
      if |message| == expected {
        completed := [message];
        if running.Some? {
          message := [running.value];
          expected := MessageLen(running.value);
        } else {
          message, expected := [], 0;
        }
      }
    }

    method StartStatus(status: int) returns (completed: seq<Message>)
      modifies this
      ensures (View(), completed) == Start(old(View()), status)
    {
      message, expected, completed := [], 0, [];
      if status <= 0xef {
        running, message, expected := Some(status), [status], MessageLen(status);
      } else if status == 0xf0 {
        running, sysex := None, Some([status]);
      } else if status <= 0xf3 {
        running, message, expected := None, [status], MessageLen(status);
      } else {
        running, completed := None, [[status]];
      }
    }
  }

  // ----- What it emits -----------------------------------------------------------

  predicate AllData(bytes: seq<int>) { forall k :: 0 <= k < |bytes| ==> 0 <= bytes[k] < 0x80 }

  /** A complete MIDI message of any length. */
  predicate WellFormed(m: Message) {
    && m != []
    && (if m[0] == 0xf0 then |m| >= 2 && m[|m| - 1] == 0xf7 && AllData(m[1..|m| - 1])
        else 0x80 <= m[0] <= 0xff && |m| == MessageLen(m[0]) && AllData(m[1..]))
  }

  /** What holds of the parser between bytes. */
  predicate Sound(p: Parser) {
    && (p.running.Some? ==> 0x80 <= p.running.value <= 0xef)
    && (p.expected != 0 ==>
          && p.message != [] && |p.message| < p.expected == MessageLen(p.message[0])
          && 0x80 <= p.message[0] <= 0xf3 && p.message[0] != 0xf0 && AllData(p.message[1..]))
    && (p.sysex.Some? ==>
          && 1 <= |p.sysex.value| < SYSEX_CAPACITY && p.sysex.value[0] == 0xf0 && AllData(p.sysex.value[1..]))
  }

  predicate Emits(messages: seq<Message>) {
    forall m :: m in messages ==> WellFormed(m) && |m| <= SYSEX_CAPACITY
  }

  lemma DataMore(a: seq<int>, value: int)
    requires a != [] && AllData(a[1..]) && 0 <= value < 0x80
    ensures AllData((a + [value])[1..])
  {
    assert (a + [value])[1..] == a[1..] + [value];
  }

  lemma PushSound(p: Parser, value: int)
    requires Sound(p) && 0 <= value <= 0xff
    ensures Sound(Push(p, value).0) && Emits(Push(p, value).1)
  {
    if p.sysex.Some? && value == 0xf7 {
      var m := p.sysex.value + [value];
      assert m[1..|m| - 1] == p.sysex.value[1..];
    } else if p.sysex.Some? && value < 0x80 {
      DataMore(p.sysex.value, value);
    } else if value < 0x80 {
      DataSound(p.(sysex := None, overflow := if p.sysex.Some? then false else p.overflow), value);
    }
  }

  lemma DataSound(p: Parser, value: int)
    requires Sound(p) && 0 <= value < 0x80
    ensures Sound(Data(p, value).0) && Emits(Data(p, value).1)
  {
    if p.expected != 0 || p.running.Some? {
      var begun := if p.expected == 0 then p.(message := [p.running.value],
                                              expected := MessageLen(p.running.value)) else p;
      DataMore(begun.message, value);
    }
  }

  /** On any bytes whatever, the parser emits only complete messages within the
      bound. */
  lemma {:induction false} AnyBytes(p: Parser, bytes: seq<int>)
    requires Sound(p) && forall k :: 0 <= k < |bytes| ==> 0 <= bytes[k] <= 0xff
    ensures Sound(After(p, bytes)) && Emits(Out(p, bytes))
    decreases |bytes|
  {
    hide Push, Sound, WellFormed;
    if bytes != [] {
      AnyBytes(p, bytes[..|bytes| - 1]);
      PushSound(After(p, bytes[..|bytes| - 1]), bytes[|bytes| - 1]);
    }
  }

  // ----- Real-time bytes ---------------------------------------------------------

  /** A stream without its real-time bytes, and those bytes alone. */
  function Strip(bytes: seq<int>): seq<int>
    decreases |bytes|
  {
    if bytes == [] then []
    else Strip(bytes[..|bytes| - 1]) + if bytes[|bytes| - 1] >= 0xf8 then [] else [bytes[|bytes| - 1]]
  }

  function RealTime(bytes: seq<int>): seq<Message>
    decreases |bytes|
  {
    if bytes == [] then []
    else RealTime(bytes[..|bytes| - 1]) + if bytes[|bytes| - 1] >= 0xf8 then [[bytes[|bytes| - 1]]] else []
  }

  /** The same split of the messages emitted. */
  function Ordinary(messages: seq<Message>): seq<Message>
    decreases |messages|
  {
    if messages == [] then []
    else
      var last := messages[|messages| - 1];
      Ordinary(messages[..|messages| - 1]) + if last != [] && last[0] >= 0xf8 then [] else [last]
  }

  function Timing(messages: seq<Message>): seq<Message>
    decreases |messages|
  {
    if messages == [] then []
    else
      var last := messages[|messages| - 1];
      Timing(messages[..|messages| - 1]) + if last != [] && last[0] >= 0xf8 then [last] else []
  }

  lemma SplitMore(messages: seq<Message>, next: Message)
    ensures Ordinary(messages + [next]) == Ordinary(messages) + if next != [] && next[0] >= 0xf8 then [] else [next]
    ensures Timing(messages + [next]) == Timing(messages) + if next != [] && next[0] >= 0xf8 then [next] else []
  {
    assert (messages + [next])[..|messages|] == messages;
  }

  /** An ordinary byte completes at most one message, and no real-time one. */
  lemma PushOne(p: Parser, value: int)
    requires Sound(p) && 0 <= value < 0xf8
    ensures var done := Push(p, value).1; |done| <= 1 && (done != [] ==> done[0] != [] && done[0][0] < 0xf8)
  {
  }

  /** Real-time bytes go straight through and disturb nothing: neither the parser
      nor what the other bytes add up to. */
  lemma {:induction false} RealTimeApart(p: Parser, bytes: seq<int>)
    requires Sound(p) && forall k :: 0 <= k < |bytes| ==> 0 <= bytes[k] <= 0xff
    ensures After(p, bytes) == After(p, Strip(bytes))
    ensures Ordinary(Out(p, bytes)) == Out(p, Strip(bytes))
    ensures Timing(Out(p, bytes)) == RealTime(bytes)
    decreases |bytes|
  {
    if bytes != [] {
      var front, last := bytes[..|bytes| - 1], bytes[|bytes| - 1];
      assert bytes == front + [last];
      RealTimeApart(p, front);
      AnyBytes(p, front);
      OneMore(p, front, last);
      if last >= 0xf8 {
        SplitMore(Out(p, front), [last]);
        assert Strip(bytes) == Strip(front);
      } else {
        OrdinaryByte(p, front, last);
      }
    }
  }

  lemma OrdinaryByte(p: Parser, front: seq<int>, last: int)
    requires Sound(After(p, front)) && 0 <= last < 0xf8
    requires After(p, front) == After(p, Strip(front))
    requires Ordinary(Out(p, front)) == Out(p, Strip(front)) && Timing(Out(p, front)) == RealTime(front)
    ensures var bytes := front + [last];
      && After(p, bytes) == After(p, Strip(bytes)) && Ordinary(Out(p, bytes)) == Out(p, Strip(bytes))
      && Timing(Out(p, bytes)) == RealTime(bytes)
  {
    hide Push, Sound, After, Out, Ordinary, Timing;
    var bytes := front + [last];
    assert bytes[..|front|] == front;
    assert Strip(bytes) == Strip(front) + [last] && RealTime(bytes) == RealTime(front);
    OneMore(p, front, last);
    OneMore(p, Strip(front), last);
    PushOne(After(p, front), last);
    var done, more := Out(p, front), Push(After(p, front), last).1;
    if more != [] {
      assert more == [more[0]];
      SplitMore(done, more[0]);
    } else {
      assert done + more == done && Out(p, Strip(front)) + more == Out(p, Strip(front));
    }
  }

  // ----- Encoding ------------------------------------------------------------------

  /** A message to send, with its status byte left out if running status allows. */
  datatype Sent = Sent(message: Message, short: bool)

  /** Running status after a message: channel messages set it, the rest clear it. */
  function RunningAfter(m: Message): Option<int> {
    if m != [] && 0x80 <= m[0] <= 0xef then Some(m[0]) else None
  }

  ghost predicate Sendable(s: Sent, running: Option<int>) {
    WellFormed(s.message) && s.message[0] < 0xf8 && (s.short ==> running == Some(s.message[0]))
  }

  ghost predicate Legal(list: seq<Sent>, running: Option<int>)
    decreases |list|
  {
    list == [] || (Sendable(list[0], running) && Legal(list[1..], RunningAfter(list[0].message)))
  }

  function Encode(list: seq<Sent>): seq<int> {
    if list == [] then [] else
    var m := list[0].message;
    (if list[0].short && m != [] then m[1..] else m) + Encode(list[1..])
  }

  /** What gets through: everything but system exclusive messages over the bound. */
  function Through(list: seq<Sent>): seq<Message> {
    if list == [] then []
    else (if |list[0].message| <= SYSEX_CAPACITY then [list[0].message] else []) + Through(list[1..])
  }

  /** Between messages. */
  predicate Idle(p: Parser, running: Option<int>) {
    && p.running == running && p.sysex.None? && !p.overflow && Sound(p)
    && if running.Some?
       then p.message == [running.value] && p.expected == MessageLen(running.value)
       else p.expected == 0
  }

  lemma {:induction false} Split(p: Parser, a: seq<int>, b: seq<int>)
    ensures After(p, a + b) == After(After(p, a), b)
    ensures Out(p, a + b) == Out(p, a) + Out(After(p, a), b)
    decreases |b|
  {
    hide Push;
    if b == [] {
      assert a + b == a;
    } else {
      var front, last := b[..|b| - 1], b[|b| - 1];
      Split(p, a, front);
      assert a + b == (a + front) + [last];
      OneMore(p, a + front, last);
    }
  }

  /** The data bytes of a message under way. */
  lemma {:induction false} DataRun(p: Parser, bytes: seq<int>)
    requires p.expected > 0 && p.sysex.None? && AllData(bytes) && |p.message| + |bytes| < p.expected
    ensures After(p, bytes) == p.(message := p.message + bytes) && Out(p, bytes) == []
    decreases |bytes|
  {
    if bytes == [] {
      assert p.message + bytes == p.message;
    } else {
      var front, last := bytes[..|bytes| - 1], bytes[|bytes| - 1];
      DataRun(p, front);
      assert p.message + front + [last] == p.message + bytes;
    }
  }

  lemma DataComplete(p: Parser, bytes: seq<int>)
    requires p.expected > 0 && p.sysex.None? && AllData(bytes) && bytes != [] && |p.message| + |bytes| == p.expected
    ensures After(p, bytes) == Rearmed(p) && Out(p, bytes) == [p.message + bytes]
  {
    var front, last := bytes[..|bytes| - 1], bytes[|bytes| - 1];
    DataRun(p, front);
    assert p.message + front + [last] == p.message + bytes;
  }

  /** The data bytes of a system exclusive message; past the bound they are dropped
      and the whole message with them. */
  lemma {:induction false} SysexRun(p: Parser, bytes: seq<int>)
    requires p.sysex == Some([0xf0]) && !p.overflow && AllData(bytes)
    ensures Out(p, bytes) == []
    ensures if |bytes| + 1 < SYSEX_CAPACITY then After(p, bytes) == p.(sysex := Some([0xf0] + bytes))
      else After(p, bytes) == p.(sysex := Some([0xf0] + bytes[..SYSEX_CAPACITY - 2]), overflow := true)
    decreases |bytes|
  {
    if bytes == [] {
      assert [0xf0] + bytes == [0xf0];
    } else {
      var front, last := bytes[..|bytes| - 1], bytes[|bytes| - 1];
      SysexRun(p, front);
      if |bytes| + 1 < SYSEX_CAPACITY {
        assert [0xf0] + front + [last] == [0xf0] + bytes;
      } else if |bytes| + 1 == SYSEX_CAPACITY {
        assert front == bytes[..SYSEX_CAPACITY - 2];
      } else {
        assert front[..SYSEX_CAPACITY - 2] == bytes[..SYSEX_CAPACITY - 2];
      }
    }
  }

  /** One message from between messages to between messages. */
  lemma OneMessage(p: Parser, s: Sent)
    requires Idle(p, p.running) && Sendable(s, p.running)
    ensures var bytes := Encode([s]);
      && Idle(After(p, bytes), RunningAfter(s.message)) && Out(p, bytes) == Through([s])
  {
    var m := s.message;
    assert Encode([s][1..]) == [] && Through([s][1..]) == [];
    var bytes := Encode([s]);
    if s.short {
      assert bytes == m[1..];
      DataComplete(p, bytes);
      assert p.message + bytes == m;
    } else {
      assert bytes == m;
      WholeMessage(p, m);
    }
  }

  lemma First(p: Parser, m: Message)
    requires m != []
    ensures After(p, [m[0]]) == Push(p, m[0]).0 && Out(p, [m[0]]) == Push(p, m[0]).1
    ensures After(p, m) == After(Push(p, m[0]).0, m[1..]) && Out(p, m) == Push(p, m[0]).1 + Out(Push(p, m[0]).0, m[1..])
  {
    hide Push;
    OneMore(p, [], m[0]);
    assert [] + [m[0]] == [m[0]];
    Split(p, [m[0]], m[1..]);
    assert [m[0]] + m[1..] == m;
  }

  lemma WholeSysex(p: Parser, m: Message)
    requires Idle(p, p.running) && WellFormed(m) && m[0] == 0xf0
    ensures Idle(After(p, m), None) && Out(p, m) == if |m| <= SYSEX_CAPACITY then [m] else []
  {
    hide After, Out;
    First(p, m);
    var q := Push(p, m[0]).0;
    var data := m[1..|m| - 1];
    SysexRun(q, data);
    assert m[1..] == data + [0xf7];
    OneMore(q, data, 0xf7);
    assert |m| <= SYSEX_CAPACITY ==> [0xf0] + data + [0xf7] == m;
  }

  lemma WholeShort(p: Parser, m: Message)
    requires Idle(p, p.running) && WellFormed(m) && m[0] < 0xf8 && m[0] != 0xf0
    ensures Idle(After(p, m), RunningAfter(m)) && Out(p, m) == [m]
  {
    hide After, Out;
    First(p, m);
    var q := Push(p, m[0]).0;
    var rest := m[1..];
    if MessageLen(m[0]) > 1 {
      DataComplete(q, rest);
      assert q.message + rest == m;
    } else {
      assert rest == [] && m == [m[0]];
      NothingIn(q);
    }
  }

  lemma WholeMessage(p: Parser, m: Message)
    requires Idle(p, p.running) && WellFormed(m) && m[0] < 0xf8
    ensures Idle(After(p, m), RunningAfter(m)) && Out(p, m) == if |m| <= SYSEX_CAPACITY then [m] else []
  {
    hide After, Out;
    if m[0] == 0xf0 { WholeSysex(p, m); } else { WholeShort(p, m); }
  }

  lemma NothingSent()
    ensures Encode([]) == [] && Through([]) == []
  {
  }

  lemma SentFirst(list: seq<Sent>)
    requires list != []
    ensures Encode(list) == Encode([list[0]]) + Encode(list[1..])
    ensures Through(list) == Through([list[0]]) + Through(list[1..])
  {
    assert [list[0]][1..] == [];
  }

  /** Whatever is sent, with or without running status, comes out: every message,
      in order, but for system exclusive messages over the bound. */
  lemma {:induction false} RoundTrip(p: Parser, list: seq<Sent>)
    requires Idle(p, p.running) && Legal(list, p.running)
    ensures Out(p, Encode(list)) == Through(list)
    decreases |list|
  {
    hide Push, After, Out, Sound, WellFormed, MessageLen, Encode, Through, RunningAfter;
    if list == [] {
      NothingIn(p);
      NothingSent();
    } else {
      var s, rest := list[0], list[1..];
      OneMessage(p, s);
      SentFirst(list);
      RoundTrip(After(p, Encode([s])), rest);
      Split(p, Encode([s]), Encode(rest));
    }
  }

  lemma NothingIn(p: Parser)
    ensures Out(p, []) == [] && After(p, []) == p
  {
  }

  /** With real-time bytes put in anywhere, inside messages included, the parser
      emits those messages and those bytes, each in the order sent. */
  lemma StreamRoundTrip(list: seq<Sent>, stream: seq<int>)
    requires Legal(list, None) && Strip(stream) == Encode(list)
    requires forall k :: 0 <= k < |stream| ==> 0 <= stream[k] <= 0xff
    ensures Ordinary(Out(Fresh(), stream)) == Through(list)
    ensures Timing(Out(Fresh(), stream)) == RealTime(stream)
  {
    RoundTrip(Fresh(), list);
    RealTimeApart(Fresh(), stream);
  }
}
