/** Server-sent events: the encoder of the API, the incremental parser of the console, and their agreement. */
module Sse {
  import opened Json
  import opened Model

  datatype Frame = Frame(id: Option<string>, event: string, data: string)

  // ---- Line ends ------------------------------------------------------------------------------------

  /** Every CRLF, and every lone CR, becomes LF. */
  function Normalize(s: string): string {
    if s == "" then ""
    else if s[0] == '\r' then ['\n'] + Normalize(if |s| > 1 && s[1] == '\n' then s[2..] else s[1..])
    else [s[0]] + Normalize(s[1..])
  }

  predicate CutsCrlf(a: string, b: string) {
    a != "" && b != "" && a[|a| - 1] == '\r' && b[0] == '\n'
  }

  lemma {:induction false} PairFirst(a: string, b: string)
    requires |a| > 1 && a[0] == '\r' && a[1] == '\n'
    ensures Normalize(a) == "\n" + Normalize(a[2..]) && Normalize(a + b) == "\n" + Normalize(a[2..] + b)
    ensures CutsCrlf(a[2..], b) <==> CutsCrlf(a, b)
  {
    assert (a + b)[2..] == a[2..] + b;
  }

  lemma {:induction false} OneFirst(a: string, b: string)
    requires a != "" && a != "\r" && !(a[0] == '\r' && a[1] == '\n')
    ensures var c := if a[0] == '\r' then '\n' else a[0];
            Normalize(a) == [c] + Normalize(a[1..]) && Normalize(a + b) == [c] + Normalize(a[1..] + b)
    ensures CutsCrlf(a[1..], b) <==> CutsCrlf(a, b)
  {
    assert (a + b)[1..] == a[1..] + b;
    assert |a| == 1 ==> a == [a[0]];
  }

  lemma {:induction false} LoneCr(b: string)
    ensures Normalize("\r" + b) == "\n" + Normalize(if b != "" && b[0] == '\n' then b[1..] else b)
    ensures Normalize("\r") == "\n"
  {
    assert ("\r" + b)[1..] == b;
    assert b != "" ==> ("\r" + b)[2..] == b[1..];
    assert "\r"[1..] == "" && Normalize("") == "";
  }

  /** What cutting a text into these two pieces does to its line ends. */
  ghost predicate CutCosts(a: string, b: string) {
    && |Normalize(a)| + |Normalize(b)| == |Normalize(a + b)| + (if CutsCrlf(a, b) then 1 else 0)
    && (!CutsCrlf(a, b) ==> Normalize(a + b) == Normalize(a) + Normalize(b))
  }

  lemma {:induction false} CostsBehind(a: string, b: string, h: string, rest: string)
    requires Normalize(a) == h + Normalize(rest) && Normalize(a + b) == h + Normalize(rest + b)
    requires (CutsCrlf(rest, b) <==> CutsCrlf(a, b)) && CutCosts(rest, b)
    ensures CutCosts(a, b)
  {
    assert h + (Normalize(rest) + Normalize(b)) == h + Normalize(rest) + Normalize(b);
  }

  /** Cutting a text between CR and LF, and only there, costs one extra line end. */
  lemma {:induction false} NormalizeConcat(a: string, b: string)
    ensures |Normalize(a)| + |Normalize(b)| == |Normalize(a + b)| + (if CutsCrlf(a, b) then 1 else 0)
    ensures !CutsCrlf(a, b) ==> Normalize(a + b) == Normalize(a) + Normalize(b)
  {
    if a == "" {
      assert a + b == b;
    } else if a == "\r" {
      LoneCr(b);
    } else if a[0] == '\r' && a[1] == '\n' {
      PairFirst(a, b);
      NormalizeConcat(a[2..], b);
      CostsBehind(a, b, "\n", a[2..]);
    } else {
      OneFirst(a, b);
      NormalizeConcat(a[1..], b);
      CostsBehind(a, b, [if a[0] == '\r' then '\n' else a[0]], a[1..]);
    }
  }

  lemma {:induction false} NormalizeLf(s: string)
    requires '\r' !in s
    ensures Normalize(s) == s
  {
    if s != "" {
      NormalizeLf(s[1..]);
    }
  }

  // ---- One block ------------------------------------------------------------------------------------

  datatype Acc = Acc(id: Option<string>, event: string, data: seq<string>)

  const FRESH := Acc(None, "message", [])

  /** Index of the first colon, or the length. */
  function Colon(line: string): (i: nat)
    ensures i <= |line|
    ensures forall j :: 0 <= j < i ==> line[j] != ':'
    ensures i < |line| ==> line[i] == ':'
  {
    if line == "" || line[0] == ':' then 0 else 1 + Colon(line[1..])
  }

  function Unspaced(s: string): string {
    if s != "" && s[0] == ' ' then s[1..] else s
  }

  function Absorb(acc: Acc, line: string): Acc {
    if line == "" || line[0] == ':' then acc
    else
      var colon := Colon(line);
      var field := line[..colon];
      var value := if colon == |line| then "" else Unspaced(line[colon + 1..]);
      if field == "id" then acc.(id := Some(value))
      else if field == "event" then acc.(event := value)
      else if field == "data" then acc.(data := acc.data + [value])
      else acc
  }

  function AbsorbAll(lines: seq<string>): Acc {
    if lines == [] then FRESH else Absorb(AbsorbAll(lines[..|lines| - 1]), lines[|lines| - 1])
  }

  /** The frame of a block, if it carries anything. */
  function Emit(acc: Acc): seq<Frame> {
    if acc.data != [] || acc.id.Some? || acc.event != "message"
    then [Frame(acc.id, acc.event, Join(acc.data, '\n'))] else []
  }

  function Block(raw: string): seq<Frame> {
    Emit(AbsorbAll(Split(raw, '\n')))
  }

  // ---- What lines mean ------------------------------------------------------------------------------

  /** A comment, or a field the protocol of the stream does not know. */
  predicate Meaningless(line: string) {
    && line != "id" && line != "event" && line != "data"
    && (line == "" || line[0] == ':' || !(("id:" <= line) || ("event:" <= line) || ("data:" <= line)))
  }

  lemma {:induction false} ColonSplits(name: string, rest: string)
    requires ':' !in name
    ensures Colon(name + rest) == |name| + Colon(rest)
  {
    if name == "" {
      assert name + rest == rest;
    } else {
      ColonSplits(name[1..], rest);
      assert (name + rest)[1..] == name[1..] + rest;
      assert (name + rest)[0] == name[0];
    }
  }

  /** Comments and unknown fields say nothing, wherever they stand. */
  lemma MeaninglessIsIgnored(acc: Acc, line: string)
    requires Meaningless(line)
    ensures Absorb(acc, line) == acc
  {
    if line != "" && line[0] != ':' {
      var i := Colon(line);
      assert line[..|line|] == line;
      if i < |line| {
        assert line == line[..i] + ":" + line[i + 1..];
      }
    }
  }

  /** What a field says: id and event type are set, data gets one more line, other fields say nothing. */
  function Said(acc: Acc, name: string, value: string): Acc {
    match name
    case "id" => acc.(id := Some(value))
    case "event" => acc.(event := value)
    case "data" => acc.(data := acc.data + [value])
    case _ => acc
  }

  lemma SpacedField(acc: Acc, name: string, value: string)
    requires name != "" && ':' !in name
    ensures Absorb(acc, name + ": " + value) == Said(acc, name, value)
  {
    AbsorbField(acc, name, value);
  }

  lemma TightField(acc: Acc, name: string, value: string)
    requires name != "" && ':' !in name && (value == "" || value[0] != ' ')
    ensures Absorb(acc, name + ":" + value) == Said(acc, name, value)
  {
    TightLine(name, value);
  }

  lemma {:induction false} TightLine(name: string, value: string)
    requires ':' !in name && (value == "" || value[0] != ' ')
    ensures var line := name + ":" + value;
            Colon(line) == |name| && line[..|name|] == name && Unspaced(line[|name| + 1..]) == value
  {
    var line := name + ":" + value;
    assert line[|name|] == ':' && line[|name| + 1..] == value;
    assert forall j :: 0 <= j < |name| ==> line[j] == name[j];
  }

  lemma BareField(acc: Acc, name: string)
    requires name != "" && ':' !in name
    ensures Absorb(acc, name) == Said(acc, name, "")
  {
    ColonSplits(name, "");
    assert name + "" == name && name[..|name|] == name;
  }

  /** One space behind the colon is not part of the value, and the colon may be missing. */
  lemma FieldMeans(acc: Acc, name: string, value: string)
    requires name != "" && ':' !in name
    ensures Absorb(acc, name + ": " + value) == Said(acc, name, value)
    ensures value == "" || value[0] != ' ' ==> Absorb(acc, name + ":" + value) == Said(acc, name, value)
    ensures Absorb(acc, name) == Said(acc, name, "")
  {
    SpacedField(acc, name, value);
    if value == "" || value[0] != ' ' {
      TightField(acc, name, value);
    }
    BareField(acc, name);
  }

  function DataLines(values: seq<string>): seq<string> {
    seq(|values|, i requires 0 <= i < |values| => "data: " + values[i])
  }

  /** Reading further lines of an event. */
  function AbsorbFrom(acc: Acc, lines: seq<string>): Acc {
    if lines == [] then acc else Absorb(AbsorbFrom(acc, lines[..|lines| - 1]), lines[|lines| - 1])
  }

  lemma {:induction false} LastOfMore(xs: seq<string>, ys: seq<string>)
    requires ys != []
    ensures xs + ys[..|ys| - 1] + [ys[|ys| - 1]] == xs + ys
  {
  }

  lemma {:induction false} OneMoreData(acc: Acc, lines: seq<string>, v: string, data: seq<string>)
    requires lines != [] && lines[|lines| - 1] == "data: " + v
    requires AbsorbFrom(acc, lines[..|lines| - 1]) == acc.(data := data)
    ensures AbsorbFrom(acc, lines) == acc.(data := data + [v])
  {
    AbsorbData(acc.(data := data), v);
  }

  /** Several data lines are one text of several lines; the last id and the last event type count. */
  lemma {:induction false} DataLinesJoin(acc: Acc, lines: seq<string>, values: seq<string>)
    requires lines == DataLines(values)
    ensures AbsorbFrom(acc, lines) == acc.(data := acc.data + values)
  {
    if values == [] {
      assert acc.data + values == acc.data;
    } else {
      var n := |values| - 1;
      DataLinesJoin(acc, lines[..n], values[..n]);
      OneMoreData(acc, lines, values[n], acc.data + values[..n]);
      LastOfMore(acc.data, values);
    }
  }

  lemma {:induction false} AbsorbAllFrom(a: seq<string>, b: seq<string>)
    ensures AbsorbAll(a + b) == AbsorbFrom(AbsorbAll(a), b)
  {
    if b == [] {
      assert a + b == a;
    } else {
      assert (a + b)[..|a + b| - 1] == a + b[..|b| - 1];
      AbsorbAllFrom(a, b[..|b| - 1]);
    }
  }

  /** An event whose data has several lines arrives with its lines joined again; later ids and types replace earlier ones. */
  lemma {:induction false} MultiLineEvent(id: string, id': string, event: string, event': string, values: seq<string>)
    ensures var head := ["id: " + id, "event: " + event, "id: " + id', "event: " + event'];
            Emit(AbsorbAll(head + DataLines(values))) == [Frame(Some(id'), event', Join(values, '\n'))]
  {
    var head := ["id: " + id, "event: " + event, "id: " + id', "event: " + event'];
    AbsorbAllFrom(head, DataLines(values));
    AbsorbMore([], head[0]);
    AbsorbMore([head[0]], head[1]);
    AbsorbMore([head[0], head[1]], head[2]);
    AbsorbMore([head[0], head[1], head[2]], head[3]);
    assert [] + [head[0]] == [head[0]] && [head[0]] + [head[1]] == [head[0], head[1]];
    assert [head[0], head[1]] + [head[2]] == [head[0], head[1], head[2]];
    assert [head[0], head[1], head[2]] + [head[3]] == head;
    AbsorbId(FRESH, id);
    AbsorbEvent(FRESH.(id := Some(id)), event);
    AbsorbId(Acc(Some(id), event, []), id');
    AbsorbEvent(Acc(Some(id'), event, []), event');
    DataLinesJoin(Acc(Some(id'), event', []), DataLines(values), values);
    assert [] + values == values;
  }

  /** A block gives a frame unless it has no data, no id and the default type. */
  lemma SilentIff(acc: Acc)
    ensures Emit(acc) == [] <==> acc.data == [] && acc.id.None? && acc.event == "message"
    ensures Emit(acc) != [] ==> Emit(acc) == [Frame(acc.id, acc.event, Join(acc.data, '\n'))]
  {
  }

  // ---- The incremental parser -----------------------------------------------------------------------

  /** Index of the first blank line, or the length. */
  function Boundary(s: string): (i: nat)
    ensures i <= |s|
    ensures i < |s| ==> i + 1 < |s| && s[i] == '\n' && s[i + 1] == '\n'
  {
    if |s| < 2 then |s|
    else if s[0] == '\n' && s[1] == '\n' then 0
    else 1 + Boundary(s[1..])
  }

  /** Frames of the complete blocks of a text, and what is left over. */
  function Consume(text: string): (seq<Frame>, string)
    decreases |text|
  {
    var i := Boundary(text);
    if i == |text| then ([], text)
    else
      var (frames, rest) := Consume(text[i + 2..]);
      (Block(text[..i]) + frames, rest)
  }

  class SseParser {
    var buffer: string
    var frames: seq<Frame>  // passed to onFrame so far

    constructor ()
      ensures buffer == "" && frames == []
    {
      buffer, frames := "", [];
    }

    method ParseBlock(raw: string)
      modifies this`frames
      ensures frames == old(frames) + Block(raw)
    {
      var id, event, data := None, "message", [];
      var lines := Split(raw, '\n');
      for i := 0 to |lines|
        invariant Acc(id, event, data) == AbsorbAll(lines[..i])
      {
        var line := lines[i];
        assert lines[..i + 1][..i] == lines[..i];
        if line != "" && line[0] != ':' {
          var colon := Colon(line);
          var field := line[..colon];
          var value := if colon == |line| then "" else Unspaced(line[colon + 1..]);
          if field == "id" {
            id := Some(value);
          } else if field == "event" {
            event := value;
          } else if field == "data" {
            data := data + [value];
          }
        }
      }
      assert lines[..|lines|] == lines;
      if data != [] || id.Some? || event != "message" {
        frames := frames + [Frame(id, event, Join(data, '\n'))];
      }
    }

    method Push(chunk: string)
      modifies this
      ensures var (more, rest) := Consume(old(buffer) + Normalize(chunk));
              frames == old(frames) + more && buffer == rest
    {
      buffer := buffer + Normalize(chunk);
      ghost var text := buffer;
      ghost var done: seq<Frame> := [];
      var boundary := Boundary(buffer);
      while boundary != |buffer|
        invariant boundary == Boundary(buffer)
        invariant frames == old(frames) + done
        invariant Consume(text).0 == done + Consume(buffer).0
        invariant Consume(text).1 == Consume(buffer).1
        decreases |buffer|
      {
        var raw := buffer[..boundary];
        ConsumeBlock(buffer, boundary, buffer[boundary + 2..]);
        buffer := buffer[boundary + 2..];
        ParseBlock(raw);
        AssociateFrames(done, Block(raw), Consume(buffer).0);
        AssociateFrames(old(frames), done, Block(raw));
        done := done + Block(raw);
        boundary := Boundary(buffer);
      }
    }
  }

  lemma AssociateFrames(a: seq<Frame>, b: seq<Frame>, c: seq<Frame>)
    ensures a + b + c == a + (b + c)
  {
  }

  // ---- Chunking does not matter ---------------------------------------------------------------------

  lemma {:induction false} BoundaryStays(t: string, u: string)
    requires Boundary(t) < |t|
    ensures Boundary(t + u) == Boundary(t)
  {
    if !(t[0] == '\n' && t[1] == '\n') {
      assert (t + u)[1..] == t[1..] + u;
      BoundaryStays(t[1..], u);
    }
  }

  /** A text that starts with a complete block. */
  lemma {:induction false} ConsumeBlock(text: string, i: nat, rest: string)
    requires i == Boundary(text) < |text| && rest == text[i + 2..]
    ensures Consume(text).0 == Block(text[..i]) + Consume(rest).0 && Consume(text).1 == Consume(rest).1
  {
  }

  /** Parsing a text in two pushes is parsing it in one. */
  lemma {:induction false} ConsumeConcat(t: string, u: string)
    ensures Consume(t + u).0 == Consume(t).0 + Consume(Consume(t).1 + u).0
    ensures Consume(t + u).1 == Consume(Consume(t).1 + u).1
    decreases |t|
  {
    var i := Boundary(t);
    if i < |t| {
      var rest := t[i + 2..];
      BoundaryStays(t, u);
      assert (t + u)[i + 2..] == rest + u && (t + u)[..i] == t[..i];
      ConsumeBlock(t, i, rest);
      ConsumeBlock(t + u, i, rest + u);
      ConsumeConcat(rest, u);
    } else {
      assert Consume(t) == ([], t);
    }
  }

  function Concat(chunks: seq<string>): string {
    if chunks == [] then "" else Concat(chunks[..|chunks| - 1]) + chunks[|chunks| - 1]
  }

  /** The parser after a list of pushes: frames emitted and buffer. */
  function PushAll(chunks: seq<string>): (seq<Frame>, string) {
    if chunks == [] then ([], "")
    else
      var (f, r) := PushAll(chunks[..|chunks| - 1]);
      var (g, q) := Consume(r + Normalize(chunks[|chunks| - 1]));
      (f + g, q)
  }

  method ParseChunks(chunks: seq<string>) returns (frames: seq<Frame>, buffer: string)
    ensures (frames, buffer) == PushAll(chunks)
  {
    var parser := new SseParser();
    for i := 0 to |chunks|
      invariant (parser.frames, parser.buffer) == PushAll(chunks[..i])
      invariant fresh(parser)
    {
      assert chunks[..i + 1][..i] == chunks[..i];
      parser.Push(chunks[i]);
    }
    assert chunks[..|chunks|] == chunks;
    return parser.frames, parser.buffer;
  }

  /** No chunk boundary falls between a CR and its LF. */
  ghost predicate CleanCuts(chunks: seq<string>) {
    forall k :: 0 <= k < |chunks| ==> !CutsCrlf(Concat(chunks[..k]), chunks[k])
  }

  ghost function Normalized(chunks: seq<string>): string {
    if chunks == [] then "" else Normalized(chunks[..|chunks| - 1]) + Normalize(chunks[|chunks| - 1])
  }

  lemma CleanCutsInit(chunks: seq<string>)
    requires chunks != []
    ensures CleanCuts(chunks) <==>
              CleanCuts(chunks[..|chunks| - 1]) && !CutsCrlf(Concat(chunks[..|chunks| - 1]), chunks[|chunks| - 1])
  {
    var n := |chunks| - 1;
    forall k | 0 <= k < n
      ensures chunks[..n][..k] == chunks[..k] && chunks[..n][k] == chunks[k]
    {
    }
  }

  /** Line ends come out as in the whole text exactly when no boundary cuts a CRLF. */
  lemma {:induction false} CutsDecideLineEnds(chunks: seq<string>)
    ensures |Normalized(chunks)| >= |Normalize(Concat(chunks))|
    ensures CleanCuts(chunks) <==> Normalized(chunks) == Normalize(Concat(chunks))
  {
    if chunks != [] {
      var n := |chunks| - 1;
      CutsDecideLineEnds(chunks[..n]);
      CleanCutsInit(chunks);
      NormalizeConcat(Concat(chunks[..n]), chunks[n]);
      var x, y, z := Normalized(chunks[..n]), Normalize(Concat(chunks[..n])), Normalize(chunks[n]);
      assert (x + z)[..|x|] == x && (y + z)[..|y|] == y;
    }
  }

  lemma {:induction false} PushAllNormalized(chunks: seq<string>)
    ensures PushAll(chunks) == Consume(Normalized(chunks))
  {
    if chunks != [] {
      var n := |chunks| - 1;
      PushAllNormalized(chunks[..n]);
      ConsumeConcat(Normalized(chunks[..n]), Normalize(chunks[n]));
    }
  }

  /** With no CRLF cut, pushing chunks parses the whole text. */
  lemma {:induction false} ChunksAsWhole(chunks: seq<string>)
    requires CleanCuts(chunks)
    ensures PushAll(chunks) == Consume(Normalize(Concat(chunks)))
  {
    PushAllNormalized(chunks);
    CutsDecideLineEnds(chunks);
  }

  // ---- Round trip -----------------------------------------------------------------------------------

  datatype Item = Event(frame: Frame) | KeepAlive

  predicate OneLine(s: string) {
    '\n' !in s && '\r' !in s
  }

  /** What the stream sends: an identifier and a kind on one line each, and JSON, which has no raw line ends. */
  predicate Sendable(f: Frame) {
    OneLine(f.event) && OneLine(f.data) && (f.id.Some? ==> OneLine(f.id.value))
  }

  function Lines(item: Item): seq<string> {
    match item
    case KeepAlive => [": keep-alive"]
    case Event(f) => (if f.id.Some? then ["id: " + f.id.value] else []) + ["event: " + f.event, "data: " + f.data]
  }

  function Encode(items: seq<Item>): string {
    if items == [] then "" else Encode(items[..|items| - 1]) + Join(Lines(items[|items| - 1]), '\n') + "\n\n"
  }

  function Frames(items: seq<Item>): seq<Frame> {
    if items == [] then []
    else
      Frames(items[..|items| - 1])
      + (match items[|items| - 1] case Event(f) => [f] case KeepAlive => [])
  }

  ghost predicate AllSendable(items: seq<Item>) {
    forall i :: 0 <= i < |items| && items[i].Event? ==> Sendable(items[i].frame)
  }

  lemma AbsorbField(acc: Acc, name: string, value: string)
    requires name != "" && ':' !in name
    ensures var line := name + ": " + value;
            Colon(line) == |name| && line[..|name|] == name && Unspaced(line[|name| + 1..]) == value
  {
    var line := name + ": " + value;
    assert line[|name|] == ':' && line[|name| + 1] == ' ';
    assert forall j :: 0 <= j < |name| ==> line[j] == name[j];
    assert line[|name| + 1..] == " " + value;
    assert (" " + value)[1..] == value;
  }

  lemma AbsorbId(acc: Acc, v: string)
    ensures Absorb(acc, "id: " + v) == acc.(id := Some(v))
  {
    AbsorbField(acc, "id", v);
    assert "id: " + v == "id" + ": " + v;
  }

  lemma AbsorbEvent(acc: Acc, v: string)
    ensures Absorb(acc, "event: " + v) == acc.(event := v)
  {
    AbsorbField(acc, "event", v);
    assert "event: " + v == "event" + ": " + v;
  }

  lemma AbsorbData(acc: Acc, v: string)
    ensures Absorb(acc, "data: " + v) == acc.(data := acc.data + [v])
  {
    AbsorbField(acc, "data", v);
    assert "data: " + v == "data" + ": " + v;
  }

  lemma {:induction false} AbsorbMore(lines: seq<string>, line: string)
    ensures AbsorbAll(lines + [line]) == Absorb(AbsorbAll(lines), line)
  {
    assert (lines + [line])[..|lines|] == lines;
  }

  lemma AbsorbFrame(f: Frame)
    ensures AbsorbAll(Lines(Event(f))) == Acc(f.id, f.event, [f.data])
  {
    var e, d := "event: " + f.event, "data: " + f.data;
    var first := if f.id.Some? then ["id: " + f.id.value] else [];
    if f.id.Some? {
      AbsorbMore([], "id: " + f.id.value);
      AbsorbId(FRESH, f.id.value);
      assert [] + ["id: " + f.id.value] == first;
    }
    assert AbsorbAll(first) == FRESH.(id := f.id);
    AbsorbMore(first, e);
    AbsorbEvent(AbsorbAll(first), f.event);
    AbsorbMore(first + [e], d);
    AbsorbData(AbsorbAll(first + [e]), f.data);
    assert first + [e] + [d] == Lines(Event(f));
  }

  predicate PlainLines(lines: seq<string>) {
    lines != [] && forall k :: 0 <= k < |lines| ==> lines[k] != "" && '\n' !in lines[k]
  }

  lemma LinesArePlain(item: Item)
    requires item.Event? ==> Sendable(item.frame)
    ensures PlainLines(Lines(item))
  {
  }

  lemma BlockOfItem(item: Item)
    requires item.Event? ==> Sendable(item.frame)
    ensures Block(Join(Lines(item), '\n')) == match item case Event(f) => [f] case KeepAlive => []
  {
    LinesArePlain(item);
    SplitJoin(Lines(item), '\n');
    match item
    case Event(f) => AbsorbFrame(f);
    case KeepAlive =>
      assert Lines(item)[..0] == [];
      assert AbsorbAll(Lines(item)) == FRESH;
  }

  /** No blank line inside, none begun at either end. */
  predicate Solid(raw: string) {
    && raw != "" && raw[0] != '\n' && raw[|raw| - 1] != '\n'
    && forall i :: 0 <= i < |raw| - 1 ==> raw[i] != '\n' || raw[i + 1] != '\n'
  }

  lemma {:induction false} JoinIsSolid(lines: seq<string>)
    requires PlainLines(lines)
    ensures Solid(Join(lines, '\n'))
  {
    assert lines[0][0] in lines[0] && lines[0][|lines[0]| - 1] in lines[0];
    if |lines| == 1 {
      assert forall i :: 0 <= i < |lines[0]| ==> lines[0][i] in lines[0];
    } else {
      JoinIsSolid(lines[1..]);
      var a, b := lines[0], Join(lines[1..], '\n');
      var raw := a + ['\n'] + b;
      assert raw == Join(lines, '\n');
      forall i | 0 <= i < |raw| - 1
        ensures raw[i] != '\n' || raw[i + 1] != '\n'
      {
        if i < |a| {
          assert raw[i] == a[i] && a[i] in a;
        } else if i == |a| {
          assert raw[i + 1] == b[0];
        } else {
          assert raw[i] == b[i - |a| - 1] && raw[i + 1] == b[i - |a|];
        }
      }
    }
  }

  lemma {:induction false} BoundaryAfterSolid(raw: string, k: nat)
    requires Solid(raw) && k < |raw|
    ensures Boundary(raw[k..] + "\n\n") == |raw| - k
    decreases |raw| - k
  {
    var text := raw[k..] + "\n\n";
    if k == |raw| - 1 {
      assert text == [raw[k], '\n', '\n'];
      assert text[1..] == "\n\n" && Boundary("\n\n") == 0;
    } else {
      assert text[1..] == raw[k + 1..] + "\n\n";
      BoundaryAfterSolid(raw, k + 1);
    }
  }

  /** One encoded item is consumed whole. */
  lemma ConsumeItem(item: Item)
    requires item.Event? ==> Sendable(item.frame)
    ensures var (f, r) := Consume(Join(Lines(item), '\n') + "\n\n");
            f == (match item case Event(x) => [x] case KeepAlive => []) && r == ""
  {
    var raw := Join(Lines(item), '\n');
    var text := raw + "\n\n";
    LinesArePlain(item);
    JoinIsSolid(Lines(item));
    BoundaryAfterSolid(raw, 0);
    assert raw[0..] == raw;
    assert text[|raw| + 2..] == "" && text[..|raw|] == raw;
    ConsumeBlock(text, |raw|, "");
    BlockOfItem(item);
  }

  lemma {:induction false} ConsumeEncoded(items: seq<Item>)
    requires AllSendable(items)
    ensures Consume(Encode(items)).0 == Frames(items) && Consume(Encode(items)).1 == ""
  {
    if items != [] {
      var n := |items| - 1;
      var first, last := Encode(items[..n]), Join(Lines(items[n]), '\n') + "\n\n";
      ConsumeEncoded(items[..n]);
      ConsumeItem(items[n]);
      assert Encode(items) == first + last;
      assert Consume(first).1 + last == last;
      ConsumeConcat(first, last);
    }
  }

  lemma {:induction false} JoinKeepsOut(lines: seq<string>, c: char)
    requires c != '\n' && forall k :: 0 <= k < |lines| ==> c !in lines[k]
    ensures c !in Join(lines, '\n')
  {
    if |lines| > 1 {
      JoinKeepsOut(lines[1..], c);
    }
  }

  lemma {:induction false} EncodedHasNoCr(items: seq<Item>)
    requires AllSendable(items)
    ensures '\r' !in Encode(items)
  {
    if items != [] {
      var n := |items| - 1;
      EncodedHasNoCr(items[..n]);
      JoinKeepsOut(Lines(items[n]), '\r');
    }
  }

  lemma {:induction false} NoCrNoCuts(chunks: seq<string>)
    requires '\r' !in Concat(chunks)
    ensures CleanCuts(chunks)
  {
    if chunks != [] {
      var n := |chunks| - 1;
      assert forall c :: c in Concat(chunks[..n]) ==> c in Concat(chunks);
      NoCrNoCuts(chunks[..n]);
      CleanCutsInit(chunks);
    }
  }

  /** Whatever the stream encodes, however the text is cut, the parser gives back exactly the frames sent. */
  lemma {:induction false} RoundTrip(items: seq<Item>, chunks: seq<string>)
    requires AllSendable(items) && Concat(chunks) == Encode(items)
    ensures PushAll(chunks).0 == Frames(items) && PushAll(chunks).1 == ""
  {
    EncodedHasNoCr(items);
    NoCrNoCuts(chunks);
    ChunksAsWhole(chunks);
    NormalizeLf(Encode(items));
    ConsumeEncoded(items);
  }

  /** A connection lost at any character has delivered a prefix of the frames, never part of one. */
  lemma {:induction false} TruncatedStream(items: seq<Item>, chunks: seq<string>, lost: string)
    requires AllSendable(items) && Concat(chunks) + lost == Encode(items)
    ensures PushAll(chunks).0 <= Frames(items)
  {
    var received := Concat(chunks);
    EncodedHasNoCr(items);
    assert forall c :: c in received ==> c in Encode(items);
    NoCrNoCuts(chunks);
    ChunksAsWhole(chunks);
    NormalizeLf(received);
    ConsumeEncoded(items);
    ConsumeConcat(received, lost);
  }

  lemma {:induction false} OneLineBlock(line: string)
    requires OneLine(line) && line != ""
    ensures Consume(line + "\n\n").0 == Emit(AbsorbAll([line])) && Consume(line + "\n\n").1 == ""
  {
    var text := line + "\n\n";
    JoinIsSolid([line]);
    assert Join([line], '\n') == line;
    BoundaryAfterSolid(line, 0);
    assert line[0..] == line;
    assert text[|line| + 2..] == "" && text[..|line|] == line;
    ConsumeBlock(text, |line|, "");
    SplitJoin([line], '\n');
  }

  lemma {:induction false} TwoBlocks(e: string, d: string)
    requires OneLine(e) && OneLine(d) && e != "" && d != ""
    ensures Consume(e + "\n\n" + (d + "\n\n")).0 == Emit(AbsorbAll([e])) + Emit(AbsorbAll([d]))
  {
    OneLineBlock(e);
    OneLineBlock(d);
    ConsumeConcat(e + "\n\n", d + "\n\n");
    assert "" + (d + "\n\n") == d + "\n\n";
  }

  lemma {:induction false} NormalizeEndingCr(e: string)
    requires OneLine(e)
    ensures Normalize(e + "\r") == e + "\n"
  {
    NormalizeLf(e);
    NormalizeConcat(e, "\r");
    assert "\r"[1..] == "";
    assert Normalize("\r") == ['\n'] + "";
  }

  lemma {:induction false} NormalizeCrlf(e: string, rest: string)
    requires OneLine(e) && '\r' !in rest
    ensures Normalize(e + ("\r\n" + rest)) == e + ("\n" + rest)
  {
    var tail := "\r\n" + rest;
    NormalizeLf(e);
    NormalizeLf(rest);
    NormalizeConcat(e, tail);
    assert tail[0] == '\r' && tail[1] == '\n' && tail[2..] == rest;
  }

  /** What the parser has seen after a block whose CRLF was cut between two chunks. */
  lemma CutTexts(e: string, rest: string)
    requires OneLine(e) && '\r' !in rest
    ensures Normalized([e + "\r", "\n" + rest]) == e + "\n\n" + rest
  {
    var a, b := e + "\r", "\n" + rest;
    NormalizeEndingCr(e);
    NormalizeLf(b);
    assert [a, b][..1] == [a] && [a][..0] == [];
    assert Normalized([a]) == "" + (e + "\n");
    assert e + "\n" + b == e + "\n\n" + rest;
  }

  /** A CRLF cut between two chunks ends the block early: one frame arrives as two. */
  lemma CutCrlfBreaksFrame(event: string, data: string)
    requires OneLine(event) && OneLine(data) && event != "message"
    ensures var e, rest := "event: " + event, "data: " + data + "\n\n";
            && PushAll([e + "\r", "\n" + rest]).0 == [Frame(None, event, ""), Frame(None, "message", data)]
            && PushAll([e + ("\r\n" + rest)]).0 == [Frame(None, event, data)]
  {
    var e, d := "event: " + event, "data: " + data;
    var rest := d + "\n\n";
    CutTexts(e, rest);
    PushAllNormalized([e + "\r", "\n" + rest]);
    TwoBlocks(e, d);
    AbsorbMore([], e);
    AbsorbMore([], d);
    assert [] + [e] == [e] && [] + [d] == [d];
    AbsorbEvent(FRESH, event);
    AbsorbData(FRESH, data);
    WholeFrame(event, data);
  }

  lemma {:induction false} OneChunk(text: string)
    ensures PushAll([text]).0 == Consume(Normalize(text)).0
  {
    PushAllNormalized([text]);
    assert [text][..0] == [];
    assert Normalized([text]) == "" + Normalize(text) == Normalize(text);
  }

  lemma TwoLineText(e: string, d: string)
    ensures Join([e, d], '\n') + "\n\n" == e + ("\n" + (d + "\n\n"))
  {
    assert [e, d][1..] == [d];
    assert Join([e, d], '\n') == e + ['\n'] + d;
  }

  lemma WholeFrame(event: string, data: string)
    requires OneLine(event) && OneLine(data)
    ensures PushAll(["event: " + event + ("\r\n" + ("data: " + data + "\n\n"))]).0 == [Frame(None, event, data)]
  {
    var e, d := "event: " + event, "data: " + data;
    NormalizeCrlf(e, d + "\n\n");
    OneChunk(e + ("\r\n" + (d + "\n\n")));
    ConsumeItem(Event(Frame(None, event, data)));
    assert Lines(Event(Frame(None, event, data))) == [] + [e, d] == [e, d];
    TwoLineText(e, d);
  }
}
