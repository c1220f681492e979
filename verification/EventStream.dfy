/** The event stream between server and client: the writer's frames, the clients' line
    parsers (section 9.2 of the WHATWG HTML Living Standard), and what reaches a client
    when the connection is cut after any byte. */
module EventStream {
  import opened Basics

  const LF: byte := 10
  const CR: byte := 13
  const COLON: byte := 58

  // ASCII text.
  const EVENT_FIELD: bytes := [101, 118, 101, 110, 116, 58]                          // event:
  const DATA_FIELD: bytes := [100, 97, 116, 97, 58]                                  // data:
  const KEEPALIVE: bytes := [58, 32, 107, 101, 101, 112, 97, 108, 105, 118, 101]     // : keepalive
  const IDB_CHANGED: bytes := [105, 100, 98, 95, 99, 104, 97, 110, 103, 101, 100]    // idb_changed
  const LEASE_EXPIRED: bytes := [108, 101, 97, 115, 101, 95, 101, 120, 112, 105, 114, 101, 100] // lease_expired

  // --------------------------------------------------------------- the writer

  datatype Frame = Keepalive | Event(name: bytes, payload: bytes)

  function Line(text: bytes): bytes { text + [LF] }

  function RenderFrame(f: Frame): bytes {
    match f
    case Keepalive => Line(KEEPALIVE) + Line([])
    case Event(name, payload) => Line(EVENT_FIELD + [32] + name) + (Line(DATA_FIELD + [32] + payload) + Line([]))
  }

  function Render(frames: seq<Frame>): bytes {
    if frames == [] then [] else RenderFrame(frames[0]) + Render(frames[1..])
  }

  predicate Space(b: byte) { b == 32 || 9 <= b <= 13 }

  // Text that survives as the value of a field: one line, no blank or CR at its ends.
  predicate FieldText(t: bytes) {
    t != [] && LF !in t && !Space(t[0]) && t[|t| - 1] != CR
  }

  // JSON text of an object is such text: it has no line break and begins and ends with a brace.
  predicate JsonObjectText(t: bytes) {
    2 <= |t| && LF !in t && t[0] == 123 && t[|t| - 1] == 125
  }

  predicate Writable(f: Frame) {
    f.Event? ==> FieldText(f.name) && JsonObjectText(f.payload)
  }

  lemma {:induction false} RenderAppend(frames: seq<Frame>, f: Frame)
    ensures Render(frames + [f]) == Render(frames) + RenderFrame(f)
  {
    hide RenderFrame;
    if frames == [] {
      assert frames + [f] == [f];
    } else {
      RenderAppend(frames[1..], f);
      assert (frames + [f])[1..] == frames[1..] + [f];
    }
  }

  class Connection {
    var sent: bytes

    constructor ()
      ensures sent == []
    {
      sent := [];
    }

    method Write(data: bytes)
      modifies this
      ensures sent == old(sent) + data
    {
      sent := sent + data;
    }
  }

  /** The server's loop: before analysis completes it only keeps the connection alive, then
      each wait yields an event or, at the heartbeat, nothing. `early` counts the heartbeats
      of the first phase and `waits` lists what the waits of the second yield. */
  method StreamEvents(file: Connection, early: nat, waits: seq<Option<bytes>>)
    modifies file
    ensures file.sent == old(file.sent) + Render(Frames(early, waits))
  {
    hide RenderFrame, Frames;
    FramesNone();
    ghost var frames: seq<Frame> := [];
    var k := 0;
    while k < early
      invariant k <= early && frames == Frames(k, [])
      invariant file.sent == old(file.sent) + Render(frames)
    {
      FramesEarly(k);
      frames := WriteFrame(file, old(file.sent), frames, None);
      k := k + 1;
    }
    var j := 0;
    while j < |waits|
      invariant j <= |waits| && frames == Frames(early, waits[..j])
      invariant file.sent == old(file.sent) + Render(frames)
    {
      FramesWaited(early, waits, j);
      frames := WriteFrame(file, old(file.sent), frames, waits[j]);
      j := j + 1;
    }
    assert waits[..j] == waits;
  }

  // One frame; `frames` are those written since `start`.
  method WriteFrame(file: Connection, ghost start: bytes, ghost frames: seq<Frame>, wait: Option<bytes>)
    returns (ghost frames': seq<Frame>)
    requires file.sent == start + Render(frames)
    modifies file
    ensures frames' == frames + [FrameOf(wait)] && file.sent == start + Render(frames')
  {
    hide Line;
    var data := if wait.None? then Line(KEEPALIVE) + Line([])
                else Line(EVENT_FIELD + [32] + IDB_CHANGED) + (Line(DATA_FIELD + [32] + wait.value) + Line([]));
    assert data == RenderFrame(FrameOf(wait));
    hide RenderFrame;
    file.Write(data);
    RenderAppend(frames, FrameOf(wait));
    frames' := frames + [FrameOf(wait)];
    assert start + Render(frames) + data == start + (Render(frames) + data);
  }

  function FrameOf(wait: Option<bytes>): Frame {
    if wait.None? then Keepalive else Event(IDB_CHANGED, wait.value)
  }

  function Frames(early: nat, waits: seq<Option<bytes>>): seq<Frame> {
    seq(early, (k: nat) => Keepalive) + seq(|waits|, (k: nat) requires k < |waits| => FrameOf(waits[k]))
  }

  lemma FramesNone()
    ensures Frames(0, []) == []
  {
  }

  lemma FramesEarly(k: nat)
    ensures Frames(k + 1, []) == Frames(k, []) + [FrameOf(None)]
  {
  }

  lemma FramesWaited(early: nat, waits: seq<Option<bytes>>, j: nat)
    requires j < |waits|
    ensures Frames(early, waits[..j + 1]) == Frames(early, waits[..j]) + [FrameOf(waits[j])]
  {
  }

  // ----------------------------------------------------------------- one line

  // A line read takes up to and with the next line feed, or what is left.
  function LineLength(input: bytes): (n: nat)
    ensures n <= |input| && (input != [] ==> 0 < n)
  {
    if input == [] then 0 else if input[0] == LF then 1 else 1 + LineLength(input[1..])
  }

  function StripEnd(line: bytes): bytes {
    if line != [] && (line[|line| - 1] == CR || line[|line| - 1] == LF) then StripEnd(line[..|line| - 1]) else line
  }

  function StripStart(t: bytes): bytes {
    if t != [] && Space(t[0]) then StripStart(t[1..]) else t
  }

  function JoinLines(data: seq<bytes>): bytes {
    if data == [] then [] else if |data| == 1 then data[0] else data[0] + [LF] + JoinLines(data[1..])
  }

  // The event being read: its name, if any, and its data lines.
  datatype Pending = Pending(name: Option<bytes>, data: seq<bytes>)

  const NOTHING := Pending(None, [])

  // A line that is not blank.
  function Field(line: bytes, p: Pending): Pending {
    if line != [] && line[0] == COLON then p
    else if EVENT_FIELD <= line then p.(name := Some(StripStart(line[|EVENT_FIELD|..])))
    else if DATA_FIELD <= line then p.(data := p.data + [StripStart(line[|DATA_FIELD|..])])
    else p
  }

  // -------------------------------------------------------- the subscription

  // What the JSON decoder makes of a payload.
  datatype Json = Malformed | Other | Object

  datatype Scanned = Yield(payload: bytes, rest: bytes) | Closed | BadPayload(rest: bytes)

  // The next event of `input`, after which the connection ends.
  function Scan(json: bytes -> Json, input: bytes, p: Pending): (s: Scanned)
    ensures s.Yield? ==> |s.rest| < |input|
    decreases |input|
  {
    if input == [] then Closed else
    var n := LineLength(input);
    var line, rest := StripEnd(input[..n]), input[n..];
    if line != [] then Scan(json, rest, Field(line, p))
    else if p.name != Some(IDB_CHANGED) then Scan(json, rest, NOTHING)
    else if json(JoinLines(p.data)) == Object then Yield(JoinLines(p.data), rest)
    else BadPayload(rest)
  }

  class Subscription {
    var input: bytes   // what is still to arrive before the connection ends
    var closed: bool

    constructor (input: bytes)
      ensures this.input == input && !closed
    {
      this.input, closed := input, false;
    }

    method ReadLine() returns (line: bytes)
      modifies this`input
      ensures line == old(input)[..LineLength(old(input))] && input == old(input)[|line|..]
    {
      line := input[..LineLength(input)];
      input := input[|line|..];
    }

    /** The next event; anything else closes the subscription. */
    method Next(json: bytes -> Json) returns (s: Scanned)
      requires !closed
      modifies this
      ensures s == Scan(json, old(input), NOTHING)
      ensures closed == !s.Yield?
      ensures s.Yield? ==> input == s.rest
    {
      var name: Option<bytes>, data: seq<bytes> := None, [];
      while true
        invariant !closed
        invariant Scan(json, old(input), NOTHING) == Scan(json, input, Pending(name, data))
        decreases |input|
      {
        var line := ReadLine();
        if line == [] {
          closed := true;
          return Closed;
        }
        line := StripEnd(line);
        if line == [] {
          if name != Some(IDB_CHANGED) {
            name, data := None, [];
            continue;
          }
          var payload := JoinLines(data);
          if json(payload) != Object {
            closed := true;
            return BadPayload(input);
          }
          return Yield(payload, input);
        }
        if line[0] == COLON { continue; }
        if EVENT_FIELD <= line {
          name := Some(StripStart(line[|EVENT_FIELD|..]));
        } else if DATA_FIELD <= line {
          data := data + [StripStart(line[|DATA_FIELD|..])];
        }
      }
    }
  }

  // All events of `input` in order, and how the iteration ends.
  function Delivered(json: bytes -> Json, input: bytes): (seq<bytes>, Scanned)
    decreases |input|
  {
    match Scan(json, input, NOTHING)
    case Yield(payload, rest) => var (more, last) := Delivered(json, rest); ([payload] + more, last)
    case last => ([], last)
  }

  // The payloads of the frames named `name` that lie wholly in the first `n` bytes.
  function WholePayloads(frames: seq<Frame>, n: nat, name: bytes): seq<bytes> {
    if frames == [] || n < |RenderFrame(frames[0])| then []
    else
      (if frames[0].Event? && frames[0].name == name then [frames[0].payload] else [])
      + WholePayloads(frames[1..], n - |RenderFrame(frames[0])|, name)
  }

  // ------------------------------------------------------------ frame by frame

  lemma {:induction false} LineIsRead(text: bytes, rest: bytes)
    requires LF !in text
    ensures LineLength(Line(text) + rest) == |text| + 1
    ensures (Line(text) + rest)[..|text| + 1] == Line(text) && (Line(text) + rest)[|text| + 1..] == rest
  {
    if text != [] {
      assert text[0] in text;
      assert (Line(text) + rest)[1..] == Line(text[1..]) + rest;
      LineIsRead(text[1..], rest);
    }
  }

  lemma {:induction false} TornLineIsRead(text: bytes)
    requires LF !in text
    ensures LineLength(text) == |text|
  {
    if text != [] {
      assert text[0] in text;
      TornLineIsRead(text[1..]);
    }
  }

  lemma {:induction false} StripEndKeepsFront(line: bytes)
    requires line != [] && line[0] != CR && line[0] != LF
    ensures StripEnd(line) != []
  {
    if |line| > 1 && (line[|line| - 1] == CR || line[|line| - 1] == LF) { StripEndKeepsFront(line[..|line| - 1]); }
  }

  lemma StripLine(text: bytes)
    requires text == [] || (text[|text| - 1] != CR && text[|text| - 1] != LF)
    ensures StripEnd(Line(text)) == text
  {
    assert Line(text)[..|text|] == text;
  }

  // One complete line that is not blank.
  lemma FieldLineScanned(json: bytes -> Json, text: bytes, rest: bytes, p: Pending)
    requires text != [] && LF !in text && text[|text| - 1] != CR
    ensures Scan(json, Line(text) + rest, p) == Scan(json, rest, Field(text, p))
  {
    assert text[|text| - 1] in text;
    LineIsRead(text, rest);
    StripLine(text);
    hide LineLength, StripEnd, Field;
  }

  lemma BlankLineScanned(json: bytes -> Json, rest: bytes, p: Pending)
    ensures Scan(json, Line([]) + rest, p)
         == if p.name != Some(IDB_CHANGED) then Scan(json, rest, NOTHING)
            else if json(JoinLines(p.data)) == Object then Yield(JoinLines(p.data), rest)
            else BadPayload(rest)
  {
    LineIsRead([], rest);
    StripLine([]);
    hide LineLength, StripEnd, Field;
  }

  // A line cut short yields nothing.
  lemma TornLineScanned(json: bytes -> Json, text: bytes, p: Pending)
    requires LF !in text && (text != [] ==> text[0] != CR)
    ensures Scan(json, text, p) == Closed
  {
    if text != [] {
      assert text[0] in text;
      TornLineIsRead(text);
      StripEndKeepsFront(text);
      assert text[..|text|] == text && text[|text|..] == [];
    }
    hide LineLength, StripEnd, Field;
  }

  lemma EventField(name: bytes, p: Pending)
    requires FieldText(name)
    ensures Field(EVENT_FIELD + [32] + name, p) == p.(name := Some(name))
  {
    var line := EVENT_FIELD + [32] + name;
    assert line[..6] == EVENT_FIELD && line[6..] == [32] + name;
    assert StripStart([32] + name) == name by { assert ([32] + name)[1..] == name; }
  }

  lemma DataField(payload: bytes, p: Pending)
    requires JsonObjectText(payload)
    ensures Field(DATA_FIELD + [32] + payload, p) == p.(data := p.data + [payload])
  {
    var line := DATA_FIELD + [32] + payload;
    assert line[0] == 100;
    assert line[..5] == DATA_FIELD && line[5..] == [32] + payload;
    assert StripStart([32] + payload) == payload by { assert ([32] + payload)[1..] == payload; }
  }

  // What a parser has gathered when it reaches the blank line of a frame.
  function Gathered(f: Frame): Pending {
    if f.Keepalive? then NOTHING else Pending(Some(f.name), [f.payload])
  }

  lemma FrameFieldsScanned(json: bytes -> Json, f: Frame, tail: bytes)
    requires Writable(f)
    ensures Scan(json, RenderFrame(f) + tail, NOTHING) == Scan(json, Line([]) + tail, Gathered(f))
  {
    hide Scan, Field;
    match f
    case Keepalive =>
      assert RenderFrame(f) + tail == Line(KEEPALIVE) + (Line([]) + tail);
      FieldLineScanned(json, KEEPALIVE, Line([]) + tail, NOTHING);
      KeepaliveField();
    case Event(name, payload) =>
      var a, b := EVENT_FIELD + [32] + name, DATA_FIELD + [32] + payload;
      var rest := Line(b) + (Line([]) + tail);
      assert RenderFrame(f) + tail == Line(a) + rest;
      FieldLineScanned(json, a, rest, NOTHING);
      EventField(name, NOTHING);
      FieldLineScanned(json, b, Line([]) + tail, Pending(Some(name), []));
      DataField(payload, Pending(Some(name), []));
      assert [] + [payload] == [payload];
  }

  lemma KeepaliveField()
    ensures Field(KEEPALIVE, NOTHING) == NOTHING
  {
  }

  // A whole frame.
  lemma FrameScanned(json: bytes -> Json, f: Frame, tail: bytes)
    requires Writable(f)
    requires f.Event? && f.name == IDB_CHANGED ==> json(f.payload) == Object
    ensures Scan(json, RenderFrame(f) + tail, NOTHING)
         == if f.Event? && f.name == IDB_CHANGED then Yield(f.payload, tail) else Scan(json, tail, NOTHING)
  {
    FrameFieldsScanned(json, f, tail);
    BlankLineScanned(json, tail, Gathered(f));
    hide Scan;
  }

  // The text of a frame's first line and, for an event, of its second.
  function FirstText(f: Frame): bytes {
    if f.Keepalive? then KEEPALIVE else EVENT_FIELD + [32] + f.name
  }

  function SecondText(f: Frame): bytes {
    if f.Keepalive? then [] else DATA_FIELD + [32] + f.payload
  }

  lemma FrameTexts(f: Frame)
    requires Writable(f)
    ensures LF !in FirstText(f) && FirstText(f) != [] && FirstText(f)[0] != CR && FirstText(f)[|FirstText(f)| - 1] != CR
    ensures LF !in SecondText(f)
        && (f.Event? ==> SecondText(f) != [] && SecondText(f)[0] != CR && SecondText(f)[|SecondText(f)| - 1] != CR)
  {
  }

  // What is left of a frame cut short.
  lemma CutFrame(f: Frame, n: nat)
    requires n < |RenderFrame(f)|
    ensures var a, b, cut := FirstText(f), SecondText(f), RenderFrame(f)[..n];
            if n <= |a| then cut == a[..n]
            else if f.Keepalive? then cut == Line(a) + []
            else if n - |a| - 1 <= |b| then cut == Line(a) + b[..n - |a| - 1]
            else cut == Line(a) + (Line(b) + [])
  {
  }

  // A frame cut short.
  lemma TornFrameScanned(json: bytes -> Json, f: Frame, n: nat)
    requires Writable(f) && n < |RenderFrame(f)|
    ensures Scan(json, RenderFrame(f)[..n], NOTHING) == Closed
  {
    hide Scan, Field, RenderFrame, FirstText, SecondText, Line;
    var a, b := FirstText(f), SecondText(f);
    FrameTexts(f);
    CutFrame(f, n);
    if n <= |a| {
      TornLineScanned(json, a[..n], NOTHING);
    } else {
      var p, m := Field(a, NOTHING), n - |a| - 1;
      var rest := if f.Keepalive? then [] else if m <= |b| then b[..m] else Line(b) + [];
      FieldLineScanned(json, a, rest, NOTHING);
      if f.Keepalive? || m <= |b| {
        TornLineScanned(json, rest, p);
      } else {
        FieldLineScanned(json, b, [], p);
        TornLineScanned(json, [], Field(b, p));
      }
    }
  }

  /** Cut the server's stream after any byte: the client's iterator yields exactly the
      payloads of the frames wholly received, in order, and then reports the connection
      closed. It never sees a partial or merged event. */
  lemma {:induction false} PrefixIsDelivered(json: bytes -> Json, frames: seq<Frame>, n: nat)
    requires n <= |Render(frames)|
    requires forall k | 0 <= k < |frames| :: Writable(frames[k])
    requires forall k | 0 <= k < |frames| ::
        frames[k].Event? && frames[k].name == IDB_CHANGED ==> json(frames[k].payload) == Object
    ensures Delivered(json, Render(frames)[..n]) == (WholePayloads(frames, n, IDB_CHANGED), Closed)
  {
    hide Scan, RenderFrame;
    if frames == [] {
      TornLineScanned(json, [], NOTHING);
    } else {
      var f, size := frames[0], |RenderFrame(frames[0])|;
      var cut := Render(frames)[..n];
      if n < size {
        assert cut == RenderFrame(f)[..n];
        TornFrameScanned(json, f, n);
      } else {
        var tail := Render(frames[1..])[..n - size];
        assert cut == RenderFrame(f) + tail;
        FrameScanned(json, f, tail);
        PrefixIsDelivered(json, frames[1..], n - size);
        assert [] + WholePayloads(frames[1..], n - size, IDB_CHANGED) ==
            WholePayloads(frames[1..], n - size, IDB_CHANGED);
        SkipsTo(json, cut, tail);
      }
    }
  }

  lemma SkipsTo(json: bytes -> Json, input: bytes, tail: bytes)
    ensures Scan(json, input, NOTHING) == Scan(json, tail, NOTHING) ==> Delivered(json, input) == Delivered(json, tail)
  {
    hide Scan;
  }

  // The events the waits yielded.
  function Yielded(waits: seq<Option<bytes>>): seq<bytes> {
    if waits == [] then [] else (if waits[0].Some? then [waits[0].value] else []) + Yielded(waits[1..])
  }

  lemma {:induction false} WholeOfFrames(early: nat, waits: seq<Option<bytes>>, n: nat)
    requires n <= |Render(Frames(early, waits))|
    ensures var whole := WholePayloads(Frames(early, waits), n, IDB_CHANGED);
            whole <= Yielded(waits) && (n == |Render(Frames(early, waits))| ==> whole == Yielded(waits))
    decreases early + |waits|
  {
    hide RenderFrame;
    var frames := Frames(early, waits);
    if frames != [] && |RenderFrame(frames[0])| <= n {
      var m := n - |RenderFrame(frames[0])|;
      if early > 0 {
        assert frames[1..] == Frames(early - 1, waits);
        WholeOfFrames(early - 1, waits, m);
        assert [] + WholePayloads(frames[1..], m, IDB_CHANGED) == WholePayloads(frames[1..], m, IDB_CHANGED);
      } else {
        assert frames[1..] == Frames(0, waits[1..]);
        WholeOfFrames(0, waits[1..], m);
      }
    }
  }

  /** What the server's loop writes, cut anywhere: the client is handed a prefix of the
      events that the waits yielded, all of them if nothing is cut off, and nothing else. */
  lemma StreamIsDelivered(json: bytes -> Json, early: nat, waits: seq<Option<bytes>>, n: nat)
    requires n <= |Render(Frames(early, waits))|
    requires forall k | 0 <= k < |waits| && waits[k].Some? ::
        JsonObjectText(waits[k].value) && json(waits[k].value) == Object
    ensures var (events, last) := Delivered(json, Render(Frames(early, waits))[..n]);
            && events <= Yielded(waits) && last == Closed
            && (n == |Render(Frames(early, waits))| ==> events == Yielded(waits))
  {
    var frames := Frames(early, waits);
    forall k | 0 <= k < |frames|
      ensures Writable(frames[k]) && (frames[k].Event? ==> json(frames[k].payload) == Object)
    {
      assert frames[k] == if k < early then Keepalive else FrameOf(waits[k - early]);
      assert FieldText(IDB_CHANGED);
    }
    hide Render, Frames, Delivered, Writable;
    PrefixIsDelivered(json, frames, n);
    WholeOfFrames(early, waits, n);
  }

  // ---------------------------------------------------------- any event stream

  // A line of a stream, with the blanks that may stand before a value, and whether it ends
  // in CR LF.
  datatype Text =
    | Comment(text: bytes, cr: bool)
    | Named(blanks: bytes, name: bytes, cr: bool)
    | Datum(blanks: bytes, datum: bytes, cr: bool)
    | Unknown(text: bytes, cr: bool)

  function Ending(cr: bool): bytes {
    if cr then [13, 10] else [10]
  }

  function TextOf(t: Text): bytes {
    match t
    case Comment(text, _) => Ascii(":") + text
    case Named(blanks, name, _) => Ascii("event:") + blanks + name
    case Datum(blanks, datum, _) => Ascii("data:") + blanks + datum
    case Unknown(text, _) => text
  }

  function Ascii(s: string): bytes {
    seq(|s|, (k: nat) requires k < |s| => s[k] as int % 256)
  }

  predicate Starts(line: bytes, front: string) {
    Ascii(front) <= line
  }

  predicate LegalText(t: Text) {
    var line := TextOf(t);
    && line != [] && LF !in line && line[|line| - 1] != CR
    && match t
       case Comment(_, _) => true
       case Named(blanks, name, _) => Spaces(blanks) && (name == [] || !Space(name[0]))
       case Datum(blanks, datum, _) => Spaces(blanks) && (datum == [] || !Space(datum[0]))
       case Unknown(text, _) => !Starts(text, ":") && !Starts(text, "event:") && !Starts(text, "data:")
  }

  predicate Spaces(b: bytes) {
    forall k | 0 <= k < |b| :: Space(b[k])
  }

  function Lines(texts: seq<Text>): bytes {
    if texts == [] then [] else TextOf(texts[0]) + Ending(texts[0].cr) + Lines(texts[1..])
  }

  // The last name given, and the data lines in order.
  function NameOf(texts: seq<Text>, before: Option<bytes>): Option<bytes> {
    if texts == [] then before
    else NameOf(texts[1..], if texts[0].Named? then Some(texts[0].name) else before)
  }

  function DataOf(texts: seq<Text>): seq<bytes> {
    if texts == [] then [] else (if texts[0].Datum? then [texts[0].datum] else []) + DataOf(texts[1..])
  }

  lemma {:induction false} StripStartStops(blanks: bytes, value: bytes)
    requires Spaces(blanks) && (value == [] || !Space(value[0]))
    ensures StripStart(blanks + value) == value
  {
    if blanks == [] {
      assert blanks + value == value;
    } else {
      assert (blanks + value)[1..] == blanks[1..] + value;
      StripStartStops(blanks[1..], value);
    }
  }

  lemma FieldsSpelled()
    ensures Ascii(":") == [COLON] && Ascii("event:") == EVENT_FIELD && Ascii("data:") == DATA_FIELD
  {
  }

  lemma TextIsField(t: Text, p: Pending)
    requires LegalText(t)
    ensures Field(TextOf(t), p) == WithText(t, p)
  {
    FieldsSpelled();
    hide Ascii;
    var line := TextOf(t);
    match t
    case Comment(_, _) =>
    case Named(blanks, name, _) =>
      assert line == EVENT_FIELD + (blanks + name) && line[|EVENT_FIELD|..] == blanks + name;
      StripStartStops(blanks, name);
    case Datum(blanks, datum, _) =>
      assert line == DATA_FIELD + (blanks + datum) && line[|DATA_FIELD|..] == blanks + datum;
      StripStartStops(blanks, datum);
    case Unknown(_, _) =>
      assert line[0] == COLON ==> [COLON] <= line;
  }

  lemma StripOne(front: bytes, c: byte)
    requires c == CR || c == LF
    ensures StripEnd(front + [c]) == StripEnd(front)
  {
    assert (front + [c])[..|front|] == front;
  }

  lemma EndStripped(line: bytes, cr: bool)
    requires line == [] || (line[|line| - 1] != LF && line[|line| - 1] != CR)
    ensures StripEnd(line + Ending(cr)) == line
  {
    assert StripEnd(line) == line;
    hide StripEnd;
    StripOne(line, CR);
    StripOne(if cr then line + [CR] else line, LF);
    assert line + [CR] + [LF] == line + [CR, LF];
  }

  lemma EndedLine(line: bytes, cr: bool, rest: bytes)
    requires line == [] || (LF !in line && line[|line| - 1] != CR)
    ensures var input := line + Ending(cr) + rest;
            && input != [] && input[..LineLength(input)] == line + Ending(cr) && input[LineLength(input)..] == rest
    ensures StripEnd(line + Ending(cr)) == line
  {
    var input, text := line + Ending(cr) + rest, if cr then line + [CR] else line;
    assert line + Ending(cr) == Line(text);
    LineIsRead(text, rest);
    assert line != [] ==> line[|line| - 1] in line;
    EndStripped(line, cr);
    hide StripEnd, LineLength;
    assert input[..|text| + 1] == Line(text);
  }

  lemma LineScanned(json: bytes -> Json, line: bytes, cr: bool, rest: bytes, p: Pending)
    requires line == [] || (LF !in line && line[|line| - 1] != CR)
    ensures Scan(json, line + Ending(cr) + rest, p)
         == if line != [] then Scan(json, rest, Field(line, p))
            else if p.name != Some(IDB_CHANGED) then Scan(json, rest, NOTHING)
            else if json(JoinLines(p.data)) == Object then Yield(JoinLines(p.data), rest)
            else BadPayload(rest)
  {
    EndedLine(line, cr, rest);
    hide LineLength, StripEnd, Field, JoinLines, Ending;
  }

  function Gather(texts: seq<Text>, p: Pending): Pending {
    if texts == [] then p else Gather(texts[1..], WithText(texts[0], p))
  }

  lemma {:induction false} GatheredName(texts: seq<Text>, p: Pending)
    ensures Gather(texts, p).name == NameOf(texts, p.name)
  {
    if texts != [] { GatheredName(texts[1..], WithText(texts[0], p)); }
  }

  lemma {:induction false} GatheredData(texts: seq<Text>, p: Pending)
    ensures Gather(texts, p).data == p.data + DataOf(texts)
  {
    if texts != [] {
      var more := DataOf(texts[1..]);
      GatheredData(texts[1..], WithText(texts[0], p));
      if texts[0].Datum? { assert p.data + ([texts[0].datum] + more) == p.data + [texts[0].datum] + more; }
    }
  }

  lemma {:induction false} TextsScanned(json: bytes -> Json, texts: seq<Text>, tail: bytes, p: Pending)
    requires forall k | 0 <= k < |texts| :: LegalText(texts[k])
    ensures Scan(json, Lines(texts) + tail, p) == Scan(json, tail, Gather(texts, p))
  {
    hide Scan, LegalText, TextOf, Ending, WithText;
    if texts == [] {
      assert Lines(texts) + tail == tail;
    } else {
      var t, more := texts[0], texts[1..];
      TextScanned(json, t, Lines(more) + tail, p);
      TextsScanned(json, more, tail, WithText(t, p));
      LinesBegin(texts, tail);
      hide Lines;
    }
  }

  lemma LinesBegin(texts: seq<Text>, tail: bytes)
    requires texts != []
    ensures Lines(texts) + tail == TextOf(texts[0]) + Ending(texts[0].cr) + (Lines(texts[1..]) + tail)
  {
    hide TextOf, Ending;
  }

  function WithText(t: Text, p: Pending): Pending {
    match t
    case Named(_, name, _) => p.(name := Some(name))
    case Datum(_, datum, _) => p.(data := p.data + [datum])
    case _ => p
  }

  lemma TextScanned(json: bytes -> Json, t: Text, rest: bytes, p: Pending)
    requires LegalText(t)
    ensures Scan(json, TextOf(t) + Ending(t.cr) + rest, p) == Scan(json, rest, WithText(t, p))
  {
    TextIsField(t, p);
    hide TextOf, Field, Scan;
    LineScanned(json, TextOf(t), t.cr, rest, p);
  }

  /** Any block of lines, ended by a blank line: comments and unknown fields are passed over,
      the last name counts, and the data lines are joined. */
  lemma BlockIsRead(json: bytes -> Json, texts: seq<Text>, cr: bool, tail: bytes)
    requires forall k | 0 <= k < |texts| :: LegalText(texts[k])
    ensures Scan(json, Lines(texts) + (Ending(cr) + tail), NOTHING)
         == if NameOf(texts, None) != Some(Ascii("idb_changed")) then Scan(json, tail, NOTHING)
            else if json(JoinLines(DataOf(texts))) == Object then Yield(JoinLines(DataOf(texts)), tail)
            else BadPayload(tail)
  {
    NameSpelled();
    hide Scan, LegalText, Lines, NameOf, DataOf, JoinLines, Ascii, Gather, Ending;
    TextsScanned(json, texts, Ending(cr) + tail, NOTHING);
    GatheredFromNothing(texts);
    BlankScanned(json, cr, tail, Pending(NameOf(texts, None), DataOf(texts)));
  }

  lemma GatheredFromNothing(texts: seq<Text>)
    ensures Gather(texts, NOTHING) == Pending(NameOf(texts, None), DataOf(texts))
  {
    GatheredName(texts, NOTHING);
    GatheredData(texts, NOTHING);
    assert [] + DataOf(texts) == DataOf(texts);
  }

  lemma BlankScanned(json: bytes -> Json, cr: bool, rest: bytes, p: Pending)
    ensures Scan(json, Ending(cr) + rest, p)
         == if p.name != Some(IDB_CHANGED) then Scan(json, rest, NOTHING)
            else if json(JoinLines(p.data)) == Object then Yield(JoinLines(p.data), rest)
            else BadPayload(rest)
  {
    hide Scan;
    assert [] + Ending(cr) + rest == Ending(cr) + rest;
    LineScanned(json, [], cr, rest, p);
  }

  lemma NameSpelled()
    ensures Ascii("idb_changed") == IDB_CHANGED
  {
  }

  /** Data lines are joined with a line feed between each two. */
  lemma {:induction false} JoinedByLineFeeds(front: seq<bytes>, back: seq<bytes>)
    requires front != [] && back != []
    ensures JoinLines(front + back) == JoinLines(front) + [10] + JoinLines(back)
    ensures JoinLines([front[0]]) == front[0] && JoinLines([]) == []
  {
    if |front| > 1 {
      assert (front + back)[1..] == front[1..] + back;
      JoinedByLineFeeds(front[1..], back);
    } else {
      assert (front + back)[1..] == back;
    }
  }

  /** What the server writes, spelled out. */
  lemma FramesSpelled(payload: bytes)
    ensures RenderFrame(Event(IDB_CHANGED, payload))
         == Ascii("event: idb_changed") + [10] + Ascii("data: ") + payload + [10, 10]
    ensures RenderFrame(Keepalive) == Ascii(": keepalive") + [10, 10]
  {
    EventSpelled();
    DataSpelled();
    KeepaliveSpelled();
    hide Ascii;
    assert Line([]) == [10] && Line(KEEPALIVE) + Line([]) == KEEPALIVE + [10, 10];
  }

  lemma EventSpelled()
    ensures Ascii("event: idb_changed") == EVENT_FIELD + [32] + IDB_CHANGED
  {
  }

  lemma DataSpelled()
    ensures Ascii("data: ") == DATA_FIELD + [32]
  {
  }

  lemma KeepaliveSpelled()
    ensures Ascii(": keepalive") == KEEPALIVE
  {
  }

  // ------------------------------------------------------- the lease monitor

  // Whether `input` announced an expiry; `expiry` says whether a payload announces one.
  function Watch(expiry: bytes -> bool, input: bytes, p: Pending, expired: bool): bool
    decreases |input|
  {
    if input == [] then expired else
    var n := LineLength(input);
    var line, rest := StripEnd(input[..n]), input[n..];
    if line != [] then Watch(expiry, rest, Field(line, p), expired)
    else Watch(expiry, rest, NOTHING, expired || (p.name == Some(LEASE_EXPIRED) && expiry(JoinLines(p.data))))
  }

  /** The monitor's loop. It has no case for comments, and needs none: they set no field. */
  method MonitorLease(expiry: bytes -> bool, stream: bytes) returns (expired: bool)
    ensures expired == Watch(expiry, stream, NOTHING, false)
  {
    var input, name: Option<bytes>, data: seq<bytes> := stream, None, [];
    expired := false;
    while true
      invariant Watch(expiry, stream, NOTHING, false) == Watch(expiry, input, Pending(name, data), expired)
      decreases |input|
    {
      var n := LineLength(input);
      var line := input[..n];
      input := input[n..];
      if line == [] { break; }
      line := StripEnd(line);
      if line == [] {
        if name == Some(LEASE_EXPIRED) && expiry(JoinLines(data)) { expired := true; }
        name, data := None, [];
        continue;
      }
      if EVENT_FIELD <= line {
        name := Some(StripStart(line[|EVENT_FIELD|..]));
      } else if DATA_FIELD <= line {
        data := data + [StripStart(line[|DATA_FIELD|..])];
      }
    }
  }

  // The monitor reads lines as the subscription does, whatever each makes of a blank one.
  lemma FieldLineWatched(expiry: bytes -> bool, text: bytes, rest: bytes, p: Pending, expired: bool)
    requires text != [] && LF !in text && text[|text| - 1] != CR
    ensures Watch(expiry, Line(text) + rest, p, expired) == Watch(expiry, rest, Field(text, p), expired)
  {
    assert text[|text| - 1] in text;
    LineIsRead(text, rest);
    StripLine(text);
    hide LineLength, StripEnd, Field;
  }

  lemma BlankLineWatched(expiry: bytes -> bool, rest: bytes, p: Pending, expired: bool)
    ensures Watch(expiry, Line([]) + rest, p, expired)
         == Watch(expiry, rest, NOTHING, expired || (p.name == Some(LEASE_EXPIRED) && expiry(JoinLines(p.data))))
  {
    LineIsRead([], rest);
    StripLine([]);
    hide LineLength, StripEnd, Field;
  }

  lemma TornLineWatched(expiry: bytes -> bool, text: bytes, p: Pending, expired: bool)
    requires LF !in text && (text != [] ==> text[0] != CR)
    ensures Watch(expiry, text, p, expired) == expired
  {
    if text != [] {
      assert text[0] in text;
      TornLineIsRead(text);
      StripEndKeepsFront(text);
      assert text[..|text|] == text && text[|text|..] == [];
    }
    hide LineLength, StripEnd, Field;
  }

  lemma FrameWatched(expiry: bytes -> bool, f: Frame, tail: bytes, expired: bool)
    requires Writable(f)
    ensures Watch(expiry, RenderFrame(f) + tail, NOTHING, expired)
         == Watch(expiry, tail, NOTHING, expired || (f.Event? && f.name == LEASE_EXPIRED && expiry(f.payload)))
  {
    hide Watch, Field;
    match f
    case Keepalive =>
      assert RenderFrame(f) + tail == Line(KEEPALIVE) + (Line([]) + tail);
      FieldLineWatched(expiry, KEEPALIVE, Line([]) + tail, NOTHING, expired);
      KeepaliveField();
      BlankLineWatched(expiry, tail, NOTHING, expired);
    case Event(name, payload) =>
      var a, b := EVENT_FIELD + [32] + name, DATA_FIELD + [32] + payload;
      var rest := Line(b) + (Line([]) + tail);
      assert RenderFrame(f) + tail == Line(a) + rest;
      FieldLineWatched(expiry, a, rest, NOTHING, expired);
      EventField(name, NOTHING);
      FieldLineWatched(expiry, b, Line([]) + tail, Pending(Some(name), []), expired);
      DataField(payload, Pending(Some(name), []));
      assert [] + [payload] == [payload];
      BlankLineWatched(expiry, tail, Pending(Some(name), [payload]), expired);
  }

  lemma TornFrameWatched(expiry: bytes -> bool, f: Frame, n: nat, expired: bool)
    requires Writable(f) && n < |RenderFrame(f)|
    ensures Watch(expiry, RenderFrame(f)[..n], NOTHING, expired) == expired
  {
    hide Watch, Field, RenderFrame, FirstText, SecondText, Line;
    var a, b := FirstText(f), SecondText(f);
    FrameTexts(f);
    CutFrame(f, n);
    if n <= |a| {
      TornLineWatched(expiry, a[..n], NOTHING, expired);
    } else {
      var p, m := Field(a, NOTHING), n - |a| - 1;
      var rest := if f.Keepalive? then [] else if m <= |b| then b[..m] else Line(b) + [];
      FieldLineWatched(expiry, a, rest, NOTHING, expired);
      if f.Keepalive? || m <= |b| {
        TornLineWatched(expiry, rest, p, expired);
      } else {
        FieldLineWatched(expiry, b, [], p, expired);
        TornLineWatched(expiry, [], Field(b, p), expired);
      }
    }
  }

  /** Cut the lease stream after any byte: the client reports an expiry exactly when it
      wholly received a frame that announces one. */
  lemma {:induction false} ExpiryIsReported(expiry: bytes -> bool, frames: seq<Frame>, n: nat, expired: bool)
    requires n <= |Render(frames)|
    requires forall k | 0 <= k < |frames| :: Writable(frames[k])
    ensures Watch(expiry, Render(frames)[..n], NOTHING, expired)
        <==> expired || exists payload | payload in WholePayloads(frames, n, LEASE_EXPIRED) :: expiry(payload)
  {
    hide Watch, RenderFrame;
    if frames == [] {
      TornLineWatched(expiry, [], NOTHING, expired);
    } else {
      var f, size := frames[0], |RenderFrame(frames[0])|;
      var cut := Render(frames)[..n];
      if n < size {
        assert cut == RenderFrame(f)[..n];
        TornFrameWatched(expiry, f, n, expired);
      } else {
        var tail := Render(frames[1..])[..n - size];
        var now := f.Event? && f.name == LEASE_EXPIRED && expiry(f.payload);
        assert cut == RenderFrame(f) + tail;
        FrameWatched(expiry, f, tail, expired);
        ExpiryIsReported(expiry, frames[1..], n - size, expired || now);
      }
    }
  }

  lemma LineWatched(expiry: bytes -> bool, line: bytes, cr: bool, rest: bytes, p: Pending, expired: bool)
    requires line == [] || (LF !in line && line[|line| - 1] != CR)
    ensures Watch(expiry, line + Ending(cr) + rest, p, expired)
         == if line != [] then Watch(expiry, rest, Field(line, p), expired)
            else Watch(expiry, rest, NOTHING, expired || (p.name == Some(LEASE_EXPIRED) && expiry(JoinLines(p.data))))
  {
    EndedLine(line, cr, rest);
    hide LineLength, StripEnd, Field, JoinLines, Ending;
  }

  lemma {:induction false} TextsWatched(
    expiry: bytes -> bool, texts: seq<Text>, tail: bytes, p: Pending, expired: bool)
    requires forall k | 0 <= k < |texts| :: LegalText(texts[k])
    ensures Watch(expiry, Lines(texts) + tail, p, expired) == Watch(expiry, tail, Gather(texts, p), expired)
  {
    hide Watch, LegalText, TextOf, Ending, WithText;
    if texts == [] {
      assert Lines(texts) + tail == tail;
    } else {
      var t, more := texts[0], texts[1..];
      TextWatched(expiry, t, Lines(more) + tail, p, expired);
      TextsWatched(expiry, more, tail, WithText(t, p), expired);
      LinesBegin(texts, tail);
      hide Lines;
    }
  }

  lemma TextWatched(expiry: bytes -> bool, t: Text, rest: bytes, p: Pending, expired: bool)
    requires LegalText(t)
    ensures Watch(expiry, TextOf(t) + Ending(t.cr) + rest, p, expired) == Watch(expiry, rest, WithText(t, p), expired)
  {
    TextIsField(t, p);
    hide TextOf, Field, Watch;
    LineWatched(expiry, TextOf(t), t.cr, rest, p, expired);
  }

  /** The monitor reads any block of lines as the subscription does: it announces an expiry
      exactly if the last name says so and the joined data do. */
  lemma BlockIsWatched(expiry: bytes -> bool, texts: seq<Text>, cr: bool, tail: bytes, expired: bool)
    requires forall k | 0 <= k < |texts| :: LegalText(texts[k])
    ensures Watch(expiry, Lines(texts) + (Ending(cr) + tail), NOTHING, expired)
         == Watch(expiry, tail, NOTHING,
                  expired || (NameOf(texts, None) == Some(Ascii("lease_expired")) && expiry(JoinLines(DataOf(texts)))))
  {
    ExpiredSpelled();
    hide Watch, LegalText, Lines, NameOf, DataOf, JoinLines, Ascii, Gather, Ending;
    TextsWatched(expiry, texts, Ending(cr) + tail, NOTHING, expired);
    GatheredFromNothing(texts);
    BlankWatched(expiry, cr, tail, Pending(NameOf(texts, None), DataOf(texts)), expired);
  }

  lemma ExpiredSpelled()
    ensures Ascii("lease_expired") == LEASE_EXPIRED
  {
  }

  lemma BlankWatched(expiry: bytes -> bool, cr: bool, rest: bytes, p: Pending, expired: bool)
    ensures Watch(expiry, Ending(cr) + rest, p, expired)
         == Watch(expiry, rest, NOTHING, expired || (p.name == Some(LEASE_EXPIRED) && expiry(JoinLines(p.data))))
  {
    hide Watch;
    assert [] + Ending(cr) + rest == Ending(cr) + rest;
    LineWatched(expiry, [], cr, rest, p, expired);
  }
}
