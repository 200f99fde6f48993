/** What `receive_user_input` (PROJECT.c:199-215) reads from the console: at
    most `room` characters, stopping at the first CR or LF (which is consumed
    but not stored) or at the first failing receive. */
module Console {
  import opened Types
  import opened Platform

  /** The message prompt, as the bytes of its ASCII text. */
  const PromptText: string := "Enter message (max 128 chars):\r\n"

  function Ascii(s: string): (r: seq<byte>)
    requires forall i :: 0 <= i < |s| ==> s[i] as int < 128
    ensures |r| == |s| && forall i :: 0 <= i < |s| ==> r[i] as int == s[i] as int
  {
    seq(|s|, i requires 0 <= i < |s| => s[i] as int as byte)
  }

  function Prompt(): seq<byte>
  {
    Ascii(PromptText)
  }

  /** A line read: the characters stored before it ended, and whether it
      ended at a failing receive (`broken`) rather than normally. */
  datatype LineRead = LineRead(chars: seq<byte>, broken: bool)

  /** The line that console reads numbered `call`, `call + 1`, ... (checked
      call indices) at input positions `pos`, `pos + 1`, ... produce when at
      most `room` characters may be stored. */
  function ReadLine(fault: nat -> bool, input: nat -> byte, call: nat, pos: nat, room: nat): (r: LineRead)
    ensures |r.chars| <= room
    decreases room
  {
    if room == 0 then LineRead([], false)
    else if fault(call) then LineRead([], true)
    else if input(pos) == CR || input(pos) == LF then LineRead([], false)
    else
      var rest := ReadLine(fault, input, call + 1, pos + 1, room - 1);
      LineRead([input(pos)] + rest.chars, rest.broken)
  }

  /** `stored` are the bytes the reads numbered `call`, `call + 1`, ... at
      input positions `pos`, `pos + 1`, ... deliver, each read succeeding and
      no byte a line terminator. */
  ghost predicate StoredFrom(fault: nat -> bool, input: nat -> byte, call: nat, pos: nat, stored: seq<byte>)
  {
    forall i {:trigger stored[i]} :: 0 <= i < |stored| ==>
      stored[i] == input(pos + i) && !fault(call + i) && stored[i] != CR && stored[i] != LF
  }

  /** One more successful read of a byte that is no terminator extends the stored bytes. */
  lemma StoredNext(fault: nat -> bool, input: nat -> byte, call: nat, pos: nat, stored: seq<byte>, c: byte)
    requires StoredFrom(fault, input, call, pos, stored)
    requires !fault(call + |stored|) && c == input(pos + |stored|) && c != CR && c != LF
    ensures StoredFrom(fault, input, call, pos, stored + [c])
  {
  }

  /** What a line read stores: character `i` is input byte `pos + i`, read by
      a receive numbered `call + i` that did not fail, and is no line terminator. */
  lemma {:induction false} ReadLineStores(fault: nat -> bool, input: nat -> byte, call: nat, pos: nat, room: nat)
    ensures StoredFrom(fault, input, call, pos, ReadLine(fault, input, call, pos, room).chars)
    decreases room
  {
    if room > 0 && !fault(call) && input(pos) != CR && input(pos) != LF {
      var r, rest := ReadLine(fault, input, call, pos, room), ReadLine(fault, input, call + 1, pos + 1, room - 1);
      ReadLineStores(fault, input, call + 1, pos + 1, room - 1);
      assert r.chars == [input(pos)] + rest.chars;
      forall i | 0 <= i < |r.chars|
        ensures r.chars[i] == input(pos + i) && !fault(call + i) && r.chars[i] != CR && r.chars[i] != LF
      {
        if i > 0 {
          assert r.chars[i] == rest.chars[i - 1];
          assert rest.chars[i - 1] == input(pos + 1 + (i - 1)) && !fault(call + 1 + (i - 1));
        }
      }
    }
  }

  /** Why a line read stops: a broken read stops at a failing receive while
      there was still room; a complete read that did not fill its room stops
      at a terminator, read by a receive that did not fail. */
  lemma {:induction false} ReadLineStops(fault: nat -> bool, input: nat -> byte, call: nat, pos: nat, room: nat)
    ensures var r := ReadLine(fault, input, call, pos, room);
      (r.broken ==> |r.chars| < room && fault(call + |r.chars|)) &&
      (!r.broken && |r.chars| < room ==>
        !fault(call + |r.chars|) && (input(pos + |r.chars|) == CR || input(pos + |r.chars|) == LF))
    decreases room
  {
    if room > 0 && !fault(call) && input(pos) != CR && input(pos) != LF {
      var r, rest := ReadLine(fault, input, call, pos, room), ReadLine(fault, input, call + 1, pos + 1, room - 1);
      ReadLineStops(fault, input, call + 1, pos + 1, room - 1);
      assert |r.chars| == 1 + |rest.chars|;
      assert call + 1 + |rest.chars| == call + |r.chars| && pos + 1 + |rest.chars| == pos + |r.chars|;
    }
  }

  /** The bytes stored after the first one were delivered by the following reads. */
  lemma StoredTail(fault: nat -> bool, input: nat -> byte, call: nat, pos: nat, stored: seq<byte>)
    requires stored != [] && StoredFrom(fault, input, call, pos, stored)
    ensures stored[0] == input(pos) && !fault(call) && stored[0] != CR && stored[0] != LF
    ensures StoredFrom(fault, input, call + 1, pos + 1, stored[1..])
  {
    assert pos + 0 == pos && call + 0 == call;
    var tail := stored[1..];
    forall i | 0 <= i < |tail|
      ensures tail[i] == input(pos + 1 + i) && !fault(call + 1 + i) && tail[i] != CR && tail[i] != LF
    {
      assert tail[i] == stored[i + 1];
    }
  }

  /** A read that succeeds with no terminator stores its byte and goes on. */
  lemma ReadLineStep(fault: nat -> bool, input: nat -> byte, call: nat, pos: nat, room: nat)
    requires room > 0 && !fault(call) && input(pos) != CR && input(pos) != LF
    ensures var r, rest := ReadLine(fault, input, call, pos, room), ReadLine(fault, input, call + 1, pos + 1, room - 1);
      r.chars == [input(pos)] + rest.chars && (r.broken <==> rest.broken)
  {
  }

  /** Reading goes on past stored characters: when the first characters of the
      input are `stored`, the line read stores them and then whatever the read
      from the following call and position, with that much less room, stores;
      and it ends the same way. */
  lemma {:induction false} ReadLineFrom(fault: nat -> bool, input: nat -> byte, call: nat, pos: nat, room: nat,
                                         stored: seq<byte>, nextCall: nat, nextPos: nat, nextRoom: nat)
    requires |stored| <= room && StoredFrom(fault, input, call, pos, stored)
    requires nextCall == call + |stored| && nextPos == pos + |stored| && nextRoom == room - |stored|
    ensures var r, rest := ReadLine(fault, input, call, pos, room), ReadLine(fault, input, nextCall, nextPos, nextRoom);
      r.chars == stored + rest.chars && (r.broken <==> rest.broken)
    decreases |stored|
  {
    if stored != [] {
      var tail := stored[1..];
      StoredTail(fault, input, call, pos, stored);
      ReadLineFrom(fault, input, call + 1, pos + 1, room - 1, tail, nextCall, nextPos, nextRoom);
      ReadLineStep(fault, input, call, pos, room);
      var rest := ReadLine(fault, input, nextCall, nextPos, nextRoom);
      assert stored == [stored[0]] + tail;
      assert [stored[0]] + (tail + rest.chars) == stored + rest.chars;
    } else {
      assert nextCall == call && nextPos == pos && nextRoom == room;
    }
  }

  /** A line read stops at the first failing receive, with what it stored before. */
  lemma LineBreaks(fault: nat -> bool, input: nat -> byte, call: nat, pos: nat, room: nat, stored: seq<byte>)
    requires |stored| < room && StoredFrom(fault, input, call, pos, stored) && fault(call + |stored|)
    ensures ReadLine(fault, input, call, pos, room) == LineRead(stored, true)
    ensures Ending(LineRead(stored, true), input, pos, room) == [ConsoleRx(0, false)]
  {
    ReadLineFrom(fault, input, call, pos, room, stored, call + |stored|, pos + |stored|, room - |stored|);
  }

  /** A line read stops at the first CR or LF, which it does not store. */
  lemma LineEnds(fault: nat -> bool, input: nat -> byte, call: nat, pos: nat, room: nat, stored: seq<byte>)
    requires |stored| < room && StoredFrom(fault, input, call, pos, stored) && !fault(call + |stored|)
    requires input(pos + |stored|) == CR || input(pos + |stored|) == LF
    ensures ReadLine(fault, input, call, pos, room) == LineRead(stored, false)
    ensures Ending(LineRead(stored, false), input, pos, room) == [ConsoleRx(input(pos + |stored|), true)]
  {
    ReadLineFrom(fault, input, call, pos, room, stored, call + |stored|, pos + |stored|, room - |stored|);
  }

  /** A line read stops once it has filled its room. */
  lemma LineFills(fault: nat -> bool, input: nat -> byte, call: nat, pos: nat, room: nat, stored: seq<byte>)
    requires |stored| == room && StoredFrom(fault, input, call, pos, stored)
    ensures ReadLine(fault, input, call, pos, room) == LineRead(stored, false)
    ensures Ending(LineRead(stored, false), input, pos, room) == []
  {
    ReadLineFrom(fault, input, call, pos, room, stored, call + |stored|, pos + |stored|, room - |stored|);
  }

  /** Console events of storing and echoing each of `cs`: the byte is received, then echoed. */
  function Echoes(cs: seq<byte>): (t: seq<Event>)
    ensures |t| == 2 * |cs|
  {
    if cs == [] then []
    else Echoes(cs[..|cs| - 1]) + [ConsoleRx(cs[|cs| - 1], true), ConsoleTx([cs[|cs| - 1]])]
  }

  /** Character `i` of the line is received as event `2 * i` and echoed as event `2 * i + 1`. */
  lemma {:induction false} EchoesAt(cs: seq<byte>, i: nat)
    requires i < |cs|
    ensures Echoes(cs)[2 * i] == ConsoleRx(cs[i], true) && Echoes(cs)[2 * i + 1] == ConsoleTx([cs[i]])
    decreases |cs|
  {
    var init := cs[..|cs| - 1];
    if i < |init| {
      EchoesAt(init, i);
      assert Echoes(cs)[2 * i] == Echoes(init)[2 * i] && Echoes(cs)[2 * i + 1] == Echoes(init)[2 * i + 1];
    }
  }

  /** Storing one more character appends its receive and its echo. */
  lemma EchoesNext(t0: seq<Event>, stored: seq<byte>, c: byte, t: seq<Event>)
    requires t == t0 + Echoes(stored) + [ConsoleRx(c, true)] + [ConsoleTx([c])]
    ensures t == t0 + Echoes(stored + [c])
  {
    assert (stored + [c])[..|stored|] == stored;
  }

  /** A buffer of `size` bytes holding the characters `stored` and zeros
      holds one more character once the first zero is overwritten. */
  lemma StoreNext(buffer: seq<byte>, stored: seq<byte>, c: byte, size: nat)
    requires |stored| < size && buffer == stored + Zeros(size - |stored|)
    ensures buffer[|stored| := c] == (stored + [c]) + Zeros(size - |stored + [c]|)
  {
    var k := |stored|;
    var updated, expected := buffer[k := c], (stored + [c]) + Zeros(size - (k + 1));
    forall i | 0 <= i < |updated|
      ensures updated[i] == expected[i]
    {
      if i > k {
        assert buffer[i] == Zeros(size - k)[i - k];
      }
    }
    assert updated == expected;
  }

  /** The console event that ends a line read, if any: the failing receive, the
      line terminator, or nothing when the line filled all of `room`. */
  function Ending(r: LineRead, input: nat -> byte, pos: nat, room: nat): seq<Event>
  {
    if r.broken then [ConsoleRx(0, false)]
    else if |r.chars| < room then [ConsoleRx(input(pos + |r.chars|), true)]
    else []
  }

  /** How many console bytes a line read takes from the input: its
      characters, and the CR or LF that ended it when it read one. A failing
      receive takes nothing, and a line that filled its room read no
      terminator. */
  function Consumed(r: LineRead, room: nat): nat
  {
    |r.chars| + (if !r.broken && |r.chars| < room then 1 else 0)
  }

  /** What receive_user_input leaves behind, starting from the checked call
      `call0`, the console position `pos0` and the trace `t0`: it returns -1
      exactly when the line broke and otherwise the length of the line, the
      buffer holds the line followed by zeros, the trace has gained the
      echoes of the line and the event that ended it, and the console
      position has moved past the bytes the read took. */
  ghost predicate LineStored(fault: nat -> bool, input: nat -> byte, call0: nat, pos0: nat, t0: seq<Event>,
                             n: int, buffer: seq<byte>, trace: seq<Event>, consolePos: nat)
  {
    var r := ReadLine(fault, input, call0, pos0, RxBufferSize - 1);
    (n == -1 <==> r.broken) && (n != -1 ==> n == |r.chars|) &&
    buffer == r.chars + Zeros(RxBufferSize - |r.chars|) &&
    trace == t0 + Echoes(r.chars) + Ending(r, input, pos0, RxBufferSize - 1) &&
    consolePos == pos0 + Consumed(r, RxBufferSize - 1)
  }

  /** The state of receive_user_input's loop once it has stored `stored`: the
      checked calls and the console position have moved on by one per stored
      byte, the bytes are what the console delivered, `buffer` holds them
      followed by zeros, and the trace has gained one receive and one echo
      per stored byte since `t0`. */
  ghost predicate Reading(fault: nat -> bool, input: nat -> byte, call0: nat, pos0: nat, t0: seq<Event>,
                          stored: seq<byte>, calls: nat, consolePos: nat, trace: seq<Event>, buffer: seq<byte>)
  {
    |stored| <= RxBufferSize - 1 && calls == call0 + |stored| && consolePos == pos0 + |stored| &&
    StoredFrom(fault, input, call0, pos0, stored) &&
    buffer == stored + Zeros(RxBufferSize - |stored|) && trace == t0 + Echoes(stored)
  }

  /** A successful receive of a byte that is no line terminator, echoed and
      stored, keeps the loop state. */
  lemma ReadingNext(fault: nat -> bool, input: nat -> byte, call0: nat, pos0: nat, t0: seq<Event>,
                    stored: seq<byte>, calls: nat, consolePos: nat, trace: seq<Event>, buffer: seq<byte>, c: byte)
    requires Reading(fault, input, call0, pos0, t0, stored, calls, consolePos, trace, buffer)
    requires |stored| < RxBufferSize - 1 && !fault(calls) && c == input(consolePos) && c != CR && c != LF
    ensures Reading(fault, input, call0, pos0, t0, stored + [c], calls + 1, consolePos + 1,
                    trace + [ConsoleRx(c, true)] + [ConsoleTx([c])], buffer[|stored| := c])
  {
    StoredNext(fault, input, call0, pos0, stored, c);
    EchoesNext(t0, stored, c, trace + [ConsoleRx(c, true)] + [ConsoleTx([c])]);
    StoreNext(buffer, stored, c, RxBufferSize);
  }

  /** A failing receive ends the read: the line is broken after `stored`. */
  lemma ReadingBreaks(fault: nat -> bool, input: nat -> byte, call0: nat, pos0: nat, t0: seq<Event>,
                      stored: seq<byte>, calls: nat, consolePos: nat, trace: seq<Event>, buffer: seq<byte>)
    requires Reading(fault, input, call0, pos0, t0, stored, calls, consolePos, trace, buffer)
    requires |stored| < RxBufferSize - 1 && fault(calls)
    ensures ReadLine(fault, input, call0, pos0, RxBufferSize - 1) == LineRead(stored, true)
    ensures LineStored(fault, input, call0, pos0, t0, -1, buffer, trace + [ConsoleRx(0, false)], consolePos)
  {
    LineBreaks(fault, input, call0, pos0, RxBufferSize - 1, stored);
  }

  /** A CR or LF ends the read: the line is complete with `stored`. */
  lemma ReadingEnds(fault: nat -> bool, input: nat -> byte, call0: nat, pos0: nat, t0: seq<Event>,
                    stored: seq<byte>, calls: nat, consolePos: nat, trace: seq<Event>, buffer: seq<byte>, c: byte)
    requires Reading(fault, input, call0, pos0, t0, stored, calls, consolePos, trace, buffer)
    requires |stored| < RxBufferSize - 1 && !fault(calls) && c == input(consolePos) && (c == CR || c == LF)
    ensures ReadLine(fault, input, call0, pos0, RxBufferSize - 1) == LineRead(stored, false)
    ensures LineStored(fault, input, call0, pos0, t0, |stored|, buffer, trace + [ConsoleRx(c, true)], consolePos + 1)
  {
    LineEnds(fault, input, call0, pos0, RxBufferSize - 1, stored);
  }

  /** A full buffer ends the read: the line is complete with `stored`. */
  lemma ReadingFills(fault: nat -> bool, input: nat -> byte, call0: nat, pos0: nat, t0: seq<Event>,
                     stored: seq<byte>, calls: nat, consolePos: nat, trace: seq<Event>, buffer: seq<byte>)
    requires Reading(fault, input, call0, pos0, t0, stored, calls, consolePos, trace, buffer)
    requires |stored| == RxBufferSize - 1
    ensures ReadLine(fault, input, call0, pos0, RxBufferSize - 1) == LineRead(stored, false)
    ensures LineStored(fault, input, call0, pos0, t0, |stored|, buffer, trace, consolePos)
  {
    LineFills(fault, input, call0, pos0, RxBufferSize - 1, stored);
  }
}
