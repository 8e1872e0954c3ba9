/** When cutting a stream into chunks changes the frames: exactly what a CRLF cut in two does to the event around it. */
module SseCuts {
  import opened Json
  import opened Model
  import opened Splitting
  import opened Sse

  // ---- Reading line by line -------------------------------------------------------------------------

  /** A finished line, and whether its CRLF was cut between two chunks. */
  datatype Line = Line(text: string, cut: bool)

  /** The finished lines of a text, and what follows the last line end. */
  ghost function Ended(text: string): seq<string> {
    Front(Split(text, '\n'))
  }

  ghost function Open(text: string): string {
    Last(Split(text, '\n'))
  }

  ghost function Plain(lines: seq<string>): seq<Line> {
    seq(|lines|, i requires 0 <= i < |lines| => Line(lines[i], false))
  }

  ghost function Uncut(lines: seq<Line>): seq<Line> {
    seq(|lines|, i requires 0 <= i < |lines| => Line(lines[i].text, false))
  }

  /** What a line makes of the event being read. */
  function Take(acc: Acc, line: string): Acc {
    if line == "" then FRESH else Absorb(acc, line)
  }

  /** The frames a line completes: a blank line ends the event, and so does a line end that was doubled by a cut. */
  function Completes(acc: Acc, line: Line): seq<Frame> {
    if line.text == "" then Emit(acc) else if line.cut then Emit(Absorb(acc, line.text)) else []
  }

  function After(acc: Acc, line: Line): Acc {
    if line.cut then FRESH else Take(acc, line.text)
  }

  function Read(acc: Acc, lines: seq<Line>): seq<Frame>
    decreases |lines|
  {
    if lines == [] then [] else Completes(acc, lines[0]) + Read(After(acc, lines[0]), lines[1..])
  }

  function Rest(acc: Acc, lines: seq<Line>): Acc
    decreases |lines|
  {
    if lines == [] then acc else Rest(After(acc, lines[0]), lines[1..])
  }

  lemma {:induction false} ReadConcat(acc: Acc, a: seq<Line>, b: seq<Line>)
    ensures Read(acc, a + b) == Read(acc, a) + Read(Rest(acc, a), b)
    ensures Rest(acc, a + b) == Rest(Rest(acc, a), b)
    decreases |a|
  {
    if a == [] {
      assert a + b == b;
    } else {
      assert (a + b)[1..] == a[1..] + b;
      ReadConcat(After(acc, a[0]), a[1..], b);
    }
  }

  lemma {:induction false} ReadOne(acc: Acc, line: Line)
    ensures Read(acc, [line]) == Completes(acc, line) && Rest(acc, [line]) == After(acc, line)
  {
    assert [line][1..] == [];
  }

  // ---- The parser reads line by line ----------------------------------------------------------------

  lemma {:induction false} BoundaryIsFirst(s: string, i: nat)
    requires Doubled(s, '\n', i)
    ensures Boundary(s) <= i
    decreases i
  {
    if i > 0 {
      BoundaryIsFirst(s[1..], i - 1);
    }
  }

  /** Lines of which only the first can be blank complete nothing. */
  lemma {:induction false} ReadBlock(lines: seq<string>)
    requires forall k :: 0 < k < |lines| ==> lines[k] != ""
    ensures Read(FRESH, Plain(lines)) == [] && Rest(FRESH, Plain(lines)) == AbsorbAll(lines)
  {
    if lines != [] {
      var n := |lines| - 1;
      var last := Line(lines[n], false);
      ReadBlock(lines[..n]);
      assert Plain(lines) == Plain(lines[..n]) + [last];
      ReadConcat(FRESH, Plain(lines[..n]), [last]);
      ReadOne(AbsorbAll(lines[..n]), last);
      assert n == 0 ==> AbsorbAll(lines[..n]) == FRESH;
    }
  }

  lemma {:induction false} SolidLines(raw: string)
    requires forall j: nat :: !Doubled(raw, '\n', j)
    requires raw != "" ==> raw[|raw| - 1] != '\n'
    ensures forall k :: 0 < k < |Split(raw, '\n')| ==> Split(raw, '\n')[k] != ""
  {
    InnerNotEmpty(raw, '\n');
    if raw != "" {
      LastNotEmpty(raw, '\n');
    }
  }

  /** What stands before the first blank line. */
  lemma {:induction false} BeforeBoundary(text: string, raw: string)
    requires raw == text[..Boundary(text)]
    ensures forall j: nat :: !Doubled(raw, '\n', j)
    ensures raw != "" && Boundary(text) < |text| ==> raw[|raw| - 1] != '\n'
  {
    forall j: nat
      ensures !Doubled(raw, '\n', j)
    {
      if Doubled(raw, '\n', j) {
        assert Doubled(text, '\n', j);
        BoundaryIsFirst(text, j);
      }
    }
    var i := Boundary(text);
    if 0 < i < |text| && raw[i - 1] == '\n' {
      assert Doubled(text, '\n', i - 1);
      BoundaryIsFirst(text, i - 1);
    }
  }

  /** The lines of a complete block, and those after it. */
  lemma {:induction false} BlockLines(text: string, i: nat)
    requires i == Boundary(text) < |text|
    ensures Ended(text) == Split(text[..i], '\n') + [""] + Ended(text[i + 2..])
    ensures forall k :: 0 < k < |Split(text[..i], '\n')| ==> Split(text[..i], '\n')[k] != ""
  {
    var raw, rest := text[..i], text[i + 2..];
    BeforeBoundary(text, raw);
    SolidLines(raw);
    assert text == raw + ['\n'] + ("" + ['\n'] + rest);
    SplitAt("", rest, '\n');
    SplitAt(raw, "" + ['\n'] + rest, '\n');
  }

  lemma {:induction false} OpenLines(text: string)
    requires Boundary(text) == |text|
    ensures forall k :: 0 < k < |Ended(text)| ==> Ended(text)[k] != ""
  {
    assert text[..Boundary(text)] == text;
    BeforeBoundary(text, text);
    InnerNotEmpty(text, '\n');
    assert forall k :: 0 <= k < |Ended(text)| ==> Ended(text)[k] == Split(text, '\n')[k];
  }

  lemma PlainConcat(a: seq<string>, b: seq<string>)
    ensures Plain(a + b) == Plain(a) + Plain(b)
  {
  }

  lemma {:induction false} ReadFirst(acc: Acc, line: Line, more: seq<Line>)
    ensures Read(acc, [line] + more) == Completes(acc, line) + Read(After(acc, line), more)
  {
    assert ([line] + more)[1..] == more;
  }

  lemma {:induction false} ReadBlocks(block: seq<string>, rest: seq<string>)
    requires forall k :: 0 < k < |block| ==> block[k] != ""
    ensures Read(FRESH, Plain(block) + ([Line("", false)] + Plain(rest))) == Emit(AbsorbAll(block)) + Read(FRESH, Plain(rest))
  {
    ReadBlock(block);
    ReadConcat(FRESH, Plain(block), [Line("", false)] + Plain(rest));
    ReadFirst(AbsorbAll(block), Line("", false), Plain(rest));
  }

  lemma PlainBlocks(block: seq<string>, rest: seq<string>)
    ensures Plain(block + [""] + rest) == Plain(block) + ([Line("", false)] + Plain(rest))
  {
    PlainConcat(block + [""], rest);
    PlainConcat(block, [""]);
  }

  /** The parser's frames are those its finished lines complete. */
  lemma {:induction false} ConsumeReads(text: string)
    ensures Consume(text).0 == Read(FRESH, Plain(Ended(text)))
    decreases |text|
  {
    var i := Boundary(text);
    if i == |text| {
      OpenLines(text);
      ReadBlock(Ended(text));
    } else {
      ConsumeReads(text[i + 2..]);
      ConsumeBlock(text, i, text[i + 2..]);
      BlockLines(text, i);
      PlainBlocks(Split(text[..i], '\n'), Ended(text[i + 2..]));
      ReadBlocks(Split(text[..i], '\n'), Ended(text[i + 2..]));
    }
  }

  // ---- Lines of the whole text, marked where a CRLF was cut -----------------------------------------

  ghost function MarkLast(lines: seq<Line>): seq<Line> {
    if lines == [] then lines else Front(lines) + [Line(Last(lines).text, true)]
  }

  /** The finished lines of everything received, each marked if its CRLF was cut, and the unfinished one. */
  ghost function Marked(chunks: seq<string>): (seq<Line>, string) {
    if chunks == [] then ([], "")
    else
      var n := |chunks| - 1;
      var (lines, open) := Marked(chunks[..n]);
      var cut := CutsCrlf(Concat(chunks[..n]), chunks[n]);
      var more := open + Normalize(if cut then chunks[n][1..] else chunks[n]);
      ((if cut then MarkLast(lines) else lines) + Plain(Ended(more)), Open(more))
  }

  ghost function Texts(lines: seq<Line>): seq<string> {
    seq(|lines|, i requires 0 <= i < |lines| => lines[i].text)
  }

  lemma EndedConcat(a: string, d: string)
    ensures Ended(a + d) == Ended(a) + Ended(Open(a) + d) && Open(a + d) == Open(Open(a) + d)
  {
    SplitConcat(a, d, '\n');
  }

  lemma EndedByNewline(a: string)
    requires a != "" && a[|a| - 1] == '\n'
    ensures Ended(a) != [] && Open(a) == ""
  {
    var line := a[..|a| - 1];
    assert a == line + ['\n'] + "";
    SplitAt(line, "", '\n');
  }

  lemma {:induction false} LfAfterCr(a: string)
    requires a != "" && a[|a| - 1] == '\r'
    ensures Normalize(a + ['\n']) == Normalize(a)
    ensures Normalize(a) != "" && Normalize(a)[|Normalize(a)| - 1] == '\n'
  {
    var whole := a + ['\n'];
    if |a| == 1 {
      assert whole[2..] == "" && a[1..] == "";
    } else if a[0] == '\r' && a[1] == '\n' {
      assert whole[2..] == a[2..] + ['\n'];
      LfAfterCr(a[2..]);
    } else {
      assert whole[1..] == a[1..] + ['\n'];
      LfAfterCr(a[1..]);
    }
  }

  /** Where a CRLF is cut, the LF is the part that is too much. */
  lemma {:induction false} NormalizeCut(a: string, b: string)
    requires CutsCrlf(a, b)
    ensures Normalize(a + b) == Normalize(a) + Normalize(b[1..])
    ensures Normalize(a) != "" && Normalize(a)[|Normalize(a)| - 1] == '\n'
  {
    LfAfterCr(a);
    NormalizeConcat(a + ['\n'], b[1..]);
    assert a + b == a + ['\n'] + b[1..];
  }

  lemma {:induction false} NormalizeLfFirst(b: string)
    requires b != "" && b[0] == '\n'
    ensures Normalize(b) == "\n" + Normalize(b[1..])
  {
  }

  lemma MarkLastTexts(lines: seq<Line>, more: seq<string>)
    ensures Texts(lines + Plain(more)) == Texts(lines) + more && Texts(MarkLast(lines)) == Texts(lines)
  {
  }

  /** Marking aside, these are the lines of the whole text. */
  lemma {:induction false} MarkedIsWhole(chunks: seq<string>)
    ensures Texts(Marked(chunks).0) == Ended(Normalize(Concat(chunks)))
    ensures Marked(chunks).1 == Open(Normalize(Concat(chunks)))
  {
    if chunks != [] {
      var n := |chunks| - 1;
      var a, b := Concat(chunks[..n]), chunks[n];
      MarkedIsWhole(chunks[..n]);
      var (lines, open) := Marked(chunks[..n]);
      if CutsCrlf(a, b) {
        NormalizeCut(a, b);
        EndedConcat(Normalize(a), Normalize(b[1..]));
        MarkLastTexts(MarkLast(lines), Ended(open + Normalize(b[1..])));
        MarkLastTexts(lines, []);
      } else {
        NormalizeConcat(a, b);
        EndedConcat(Normalize(a), Normalize(b));
        MarkLastTexts(lines, Ended(open + Normalize(b)));
      }
    }
  }

  /** Ending the event at the last line end is a blank line behind it. */
  lemma {:induction false} MarkIsBlank(lines: seq<Line>)
    requires lines != []
    ensures Read(FRESH, MarkLast(lines)) == Read(FRESH, lines) + Emit(Rest(FRESH, lines))
    ensures Rest(FRESH, MarkLast(lines)) == FRESH
  {
    var before := Rest(FRESH, Front(lines));
    assert lines == Front(lines) + [Last(lines)];
    ReadConcat(FRESH, Front(lines), [Last(lines)]);
    ReadConcat(FRESH, Front(lines), [Line(Last(lines).text, true)]);
    ReadOne(before, Last(lines));
    ReadOne(before, Line(Last(lines).text, true));
  }

  /** What the parser has read is what the marked lines say. */
  ghost predicate Agree(text: string, lines: seq<Line>, open: string) {
    && Read(FRESH, Plain(Ended(text))) == Read(FRESH, lines) && Rest(FRESH, Plain(Ended(text))) == Rest(FRESH, lines)
    && Open(text) == open
  }

  lemma AgreeMore(text: string, lines: seq<Line>, open: string, more: string)
    requires Agree(text, lines, open)
    ensures Agree(text + more, lines + Plain(Ended(open + more)), Open(open + more))
  {
    EndedConcat(text, more);
    PlainConcat(Ended(text), Ended(open + more));
    ReadConcat(FRESH, Plain(Ended(text)), Plain(Ended(open + more)));
    ReadConcat(FRESH, lines, Plain(Ended(open + more)));
  }

  lemma LfIsBlank(lf: string)
    requires lf == "\n"
    ensures Plain(Ended(lf)) == [Line("", false)] && Open(lf) == ""
  {
    SplitAt("", "", '\n');
    assert lf == "" + ['\n'] + "";
  }

  lemma AgreeCut(text: string, lines: seq<Line>, open: string, lf: string)
    requires Agree(text, lines, open) && open == "" && lines != [] && lf == "\n"
    ensures Agree(text + lf, MarkLast(lines), open)
  {
    AgreeMore(text, lines, open, lf);
    assert open + lf == lf;
    LfIsBlank(lf);
    ReadConcat(FRESH, lines, [Line("", false)]);
    ReadOne(Rest(FRESH, lines), Line("", false));
    MarkIsBlank(lines);
  }

  lemma {:induction false} Reassociate(a: string, b: string, c: string)
    ensures a + (b + c) == a + b + c
  {
  }

  /** A chunk whose LF belongs to a CR already received. */
  lemma AgreeAfterCut(text: string, lines: seq<Line>, open: string, lf: string, more: string)
    requires Agree(text, lines, open) && open == "" && lines != [] && lf == "\n"
    ensures Agree(text + (lf + more), MarkLast(lines) + Plain(Ended(open + more)), Open(open + more))
  {
    Reassociate(text, lf, more);
    AgreeCut(text, lines, open, lf);
    AgreeMore(text + lf, MarkLast(lines), open, more);
  }

  lemma {:induction false} CutAfterLine(chunks: seq<string>, b: string)
    requires CutsCrlf(Concat(chunks), b)
    ensures Marked(chunks).0 != [] && Marked(chunks).1 == ""
  {
    NormalizeCut(Concat(chunks), b);
    EndedByNewline(Normalize(Concat(chunks)));
    MarkedIsWhole(chunks);
  }

  lemma {:induction false} ChunksAgree(chunks: seq<string>)
    ensures Agree(Normalized(chunks), Marked(chunks).0, Marked(chunks).1)
  {
    if chunks == [] {
      assert Plain(Ended("")) == [];
    } else {
      var n := |chunks| - 1;
      ChunksAgree(chunks[..n]);
      var (lines, open) := Marked(chunks[..n]);
      if CutsCrlf(Concat(chunks[..n]), chunks[n]) {
        CutAfterLine(chunks[..n], chunks[n]);
        NormalizeLfFirst(chunks[n]);
        AgreeAfterCut(Normalized(chunks[..n]), lines, open, "\n", Normalize(chunks[n][1..]));
      } else {
        AgreeMore(Normalized(chunks[..n]), lines, open, Normalize(chunks[n]));
      }
    }
  }

  // ---- What a cut does to the event around it -------------------------------------------------------

  /** What a parser of the whole text holds after these lines. */
  ghost function Held(acc: Acc, lines: seq<Line>): Acc {
    Rest(acc, Uncut(lines))
  }

  /**
   * The event ends with nothing more said: up to its blank line, which is there, no piece between two cuts carries
   * anything, and its type is in the end the one it had.
   */
  ghost predicate Closes(event: string, piece: Acc, acc: Acc, lines: seq<Line>)
    decreases |lines|
  {
    && lines != []
    && if lines[0].text == "" then piece == FRESH && acc.event == event
       else
         var p, a := Absorb(piece, lines[0].text), Absorb(acc, lines[0].text);
         if lines[0].cut then p == FRESH && Closes(event, FRESH, a, lines[1..]) else Closes(event, p, a, lines[1..])
  }

  /** The lines after the first blank one. */
  ghost function Following(lines: seq<Line>): (rest: seq<Line>)
    ensures |rest| <= |lines|
    decreases |lines|
  {
    if lines == [] then [] else if lines[0].text == "" then lines[1..] else Following(lines[1..])
  }

  /** The cut behind line k does no harm: nothing of its event had been read, or nothing more of it is to come. */
  ghost predicate Calm(acc: Acc, lines: seq<Line>, k: nat)
    requires k < |lines|
  {
    var held := Held(acc, lines[..k + 1]);
    held == FRESH || Closes(held.event, FRESH, held, lines[k + 1..])
  }

  ghost predicate AllCalm(acc: Acc, lines: seq<Line>) {
    forall k: nat :: k < |lines| && lines[k].cut ==> Calm(acc, lines, k)
  }

  lemma EmitsUnlessFresh(acc: Acc)
    ensures |Emit(acc)| == if acc == FRESH then 0 else 1
  {
  }

  lemma {:induction false} UncutFirst(acc: Acc, lines: seq<Line>)
    requires lines != []
    ensures Read(acc, Uncut(lines)) == (if lines[0].text == "" then Emit(acc) else [])
                                       + Read(Take(acc, lines[0].text), Uncut(lines[1..]))
    ensures Held(acc, lines) == Held(Take(acc, lines[0].text), lines[1..])
  {
    assert Uncut(lines)[1..] == Uncut(lines[1..]);
  }

  /** Cuts never lose frames; early tells whether part of the current event has been passed on already. */
  lemma {:induction false} CutsAddFrames(piece: Acc, acc: Acc, lines: seq<Line>, early: bool)
    requires !early ==> piece == acc
    ensures |Read(acc, Uncut(lines))| <= |Read(piece, lines)| + (if early then 1 else 0)
    decreases |lines|
  {
    if lines != [] {
      UncutFirst(acc, lines);
      EmitsUnlessFresh(acc);
      if lines[0].text == "" {
        CutsAddFrames(FRESH, FRESH, lines[1..], false);
      } else {
        var p, a := Absorb(piece, lines[0].text), Absorb(acc, lines[0].text);
        EmitsUnlessFresh(p);
        if lines[0].cut {
          CutsAddFrames(FRESH, a, lines[1..], early || p != FRESH);
        } else {
          CutsAddFrames(p, a, lines[1..], early);
        }
      }
    }
  }

  /** The event holds what its first part held and what was read since; piece is what was read since the last cut. */
  ghost predicate Carries(first: Acc, piece: Acc, acc: Acc) {
    && acc.id == (if piece.id.Some? then piece.id else first.id) && acc.data == first.data + piece.data
    && (if piece.event != "message" then acc.event == piece.event else acc.event == first.event || acc.event == "message")
  }

  lemma CarriesOn(first: Acc, piece: Acc, acc: Acc, line: string)
    requires Carries(first, piece, acc)
    ensures Carries(first, Absorb(piece, line), Absorb(acc, line))
  {
  }

  /** At the blank line: the frames passed on are the event's own iff nothing came since and its type is the first one. */
  lemma BlankExact(first: Acc, piece: Acc, acc: Acc, cut: seq<Frame>, whole: seq<Frame>)
    requires first != FRESH && Carries(first, piece, acc) && |whole| <= |cut|
    ensures Emit(first) + (Emit(piece) + cut) == Emit(acc) + whole <==>
            piece == FRESH && acc.event == first.event && cut == whole
  {
    EmitsUnlessFresh(first);
    EmitsUnlessFresh(piece);
    EmitsUnlessFresh(acc);
    var left, right := Emit(first) + (Emit(piece) + cut), Emit(acc) + whole;
    if piece == FRESH && acc.event == first.event {
      assert acc.data == first.data;
      assert Emit(piece) + cut == cut;
    }
    if left == right {
      assert |Emit(piece)| == 0 && |Emit(acc)| == 1;
      assert left[0] == Emit(first)[0] && right[0] == Emit(acc)[0];
      assert left[1..] == cut && right[1..] == whole;
    }
  }

  /** After part of an event has been passed on, all is well iff the event closes and so do the ones that follow. */
  lemma {:induction false} LoudExact(first: Acc, piece: Acc, acc: Acc, lines: seq<Line>)
    requires first != FRESH && Carries(first, piece, acc)
    ensures Emit(first) + Read(piece, lines) == Read(acc, Uncut(lines)) <==>
            && Closes(first.event, piece, acc, lines)
            && Read(FRESH, Following(lines)) == Read(FRESH, Uncut(Following(lines)))
    decreases |lines|
  {
    EmitsUnlessFresh(first);
    if lines != [] {
      var t := lines[1..];
      UncutFirst(acc, lines);
      if lines[0].text == "" {
        CutsAddFrames(FRESH, FRESH, t, false);
        BlankExact(first, piece, acc, Read(FRESH, t), Read(FRESH, Uncut(t)));
      } else {
        var p, a := Absorb(piece, lines[0].text), Absorb(acc, lines[0].text);
        CarriesOn(first, piece, acc, lines[0].text);
        EmitsUnlessFresh(p);
        assert Read(acc, Uncut(lines)) == Read(a, Uncut(t));
        if !lines[0].cut {
          assert Read(piece, lines) == [] + Read(p, t) == Read(p, t);
          LoudExact(first, p, a, t);
        } else if p == FRESH {
          assert Read(piece, lines) == [] + Read(FRESH, t) == Read(FRESH, t);
          LoudExact(first, FRESH, a, t);
        } else {
          CutsAddFrames(FRESH, a, t, true);
        }
      }
    }
  }

  /** Where an event closes, its type is the default or the one it has now. */
  lemma {:induction false} ClosesWithType(event: string, piece: Acc, acc: Acc, lines: seq<Line>)
    requires Closes(event, piece, acc, lines)
    ensures event == "message" || (piece.event == "message" && event == acc.event)
    decreases |lines|
  {
    if lines[0].text != "" {
      var p, a := Absorb(piece, lines[0].text), Absorb(acc, lines[0].text);
      ClosesWithType(event, if lines[0].cut then FRESH else p, a, lines[1..]);
    }
  }

  lemma CalmShift(acc: Acc, lines: seq<Line>, k: nat)
    requires 0 < k < |lines|
    ensures Calm(acc, lines, k) <==> Calm(Take(acc, lines[0].text), lines[1..], k - 1)
  {
    assert lines[..k + 1][1..] == lines[1..][..k] && lines[k + 1..] == lines[1..][k..];
    UncutFirst(acc, lines[..k + 1]);
  }

  lemma AllCalmShift(acc: Acc, lines: seq<Line>)
    requires lines != []
    ensures AllCalm(acc, lines) <==> (lines[0].cut ==> Calm(acc, lines, 0)) && AllCalm(Take(acc, lines[0].text), lines[1..])
  {
    var a, t := Take(acc, lines[0].text), lines[1..];
    forall k: nat | 0 < k < |lines|
      ensures Calm(acc, lines, k) <==> Calm(a, t, k - 1)
    {
      CalmShift(acc, lines, k);
    }
    if AllCalm(acc, lines) {
      forall k: nat | k < |t| && t[k].cut
        ensures Calm(a, t, k)
      {
        assert lines[k + 1].cut && Calm(acc, lines, k + 1);
      }
    }
    if AllCalm(a, t) && (lines[0].cut ==> Calm(acc, lines, 0)) {
      forall k: nat | k < |lines| && lines[k].cut
        ensures Calm(acc, lines, k)
      {
        assert k > 0 ==> t[k - 1].cut && Calm(a, t, k - 1);
      }
    }
  }

  lemma FirstCut(acc: Acc, lines: seq<Line>)
    requires lines != []
    ensures var a := Take(acc, lines[0].text);
            Calm(acc, lines, 0) <==> a == FRESH || Closes(a.event, FRESH, a, lines[1..])
  {
    assert lines[..1] == [lines[0]] && [lines[0]][1..] == [];
    UncutFirst(acc, lines[..1]);
  }

  /** While an event closes, further cuts in it do no harm. */
  lemma {:induction false} ClosingIsCalm(first: Acc, piece: Acc, acc: Acc, lines: seq<Line>)
    requires Carries(first, piece, acc) && Closes(first.event, piece, acc, lines)
    ensures AllCalm(acc, lines) <==> AllCalm(FRESH, Following(lines))
    decreases |lines|
  {
    AllCalmShift(acc, lines);
    FirstCut(acc, lines);
    if lines[0].text != "" {
      var p, a := Absorb(piece, lines[0].text), Absorb(acc, lines[0].text);
      CarriesOn(first, piece, acc, lines[0].text);
      if lines[0].cut {
        ClosesWithType(first.event, FRESH, a, lines[1..]);
        assert a.event == first.event;
        ClosingIsCalm(first, FRESH, a, lines[1..]);
      } else {
        ClosingIsCalm(first, p, a, lines[1..]);
      }
    }
  }

  /** A line that passes on nothing of an unfinished event. */
  lemma {:induction false} QuietLine(acc: Acc, lines: seq<Line>)
    requires lines != [] && (lines[0].text != "" && lines[0].cut ==> Take(acc, lines[0].text) == FRESH)
    ensures var a, t := Take(acc, lines[0].text), lines[1..];
            && (Read(acc, lines) == Read(acc, Uncut(lines)) <==> Read(a, t) == Read(a, Uncut(t)))
            && (AllCalm(acc, lines) <==> AllCalm(a, t))
  {
    var a, t := Take(acc, lines[0].text), lines[1..];
    var done := Completes(acc, lines[0]);
    UncutFirst(acc, lines);
    AllCalmShift(acc, lines);
    FirstCut(acc, lines);
    EmitsUnlessFresh(a);
    assert Read(acc, lines) == done + Read(a, t) && Read(acc, Uncut(lines)) == done + Read(a, Uncut(t));
    assert (done + Read(a, t))[|done|..] == Read(a, t) && (done + Read(a, Uncut(t)))[|done|..] == Read(a, Uncut(t));
  }

  /** A cut behind a line of an event that has said something. */
  lemma {:induction false} LoudLine(acc: Acc, lines: seq<Line>)
    requires lines != [] && lines[0].text != "" && lines[0].cut && Take(acc, lines[0].text) != FRESH
    ensures var a, t := Take(acc, lines[0].text), lines[1..];
            && (Read(acc, lines) == Read(acc, Uncut(lines)) <==>
                  Closes(a.event, FRESH, a, t) && Read(FRESH, Following(t)) == Read(FRESH, Uncut(Following(t))))
            && (AllCalm(acc, lines) <==> Closes(a.event, FRESH, a, t) && AllCalm(FRESH, Following(t)))
  {
    var a, t := Take(acc, lines[0].text), lines[1..];
    UncutFirst(acc, lines);
    AllCalmShift(acc, lines);
    FirstCut(acc, lines);
    LoudExact(a, FRESH, a, t);
    if Closes(a.event, FRESH, a, t) {
      ClosingIsCalm(a, FRESH, a, t);
    }
    assert [] + Read(a, Uncut(t)) == Read(a, Uncut(t));
  }

  /** Reading with cuts gives the frames of the whole exactly if every cut is harmless. */
  lemma {:induction false} CutsExact(acc: Acc, lines: seq<Line>)
    ensures Read(acc, lines) == Read(acc, Uncut(lines)) <==> AllCalm(acc, lines)
    decreases |lines|
  {
    if lines == [] {
      assert Uncut(lines) == [];
    } else if lines[0].text != "" && lines[0].cut && Take(acc, lines[0].text) != FRESH {
      LoudLine(acc, lines);
      CutsExact(FRESH, Following(lines[1..]));
    } else {
      QuietLine(acc, lines);
      CutsExact(Take(acc, lines[0].text), lines[1..]);
    }
  }

  /**
   * For every stream and every way of cutting it: the frames are those of the whole text exactly if, at each cut inside
   * a CRLF, nothing of the event being read had been said, or nothing more of it follows.
   */
  lemma {:induction false} FramesSurviveCuts(chunks: seq<string>)
    ensures PushAll(chunks).0 == Consume(Normalize(Concat(chunks))).0 <==> AllCalm(FRESH, Marked(chunks).0)
    ensures Texts(Marked(chunks).0) == Ended(Normalize(Concat(chunks)))
  {
    var lines := Marked(chunks).0;
    PushAllNormalized(chunks);
    ConsumeReads(Normalized(chunks));
    ChunksAgree(chunks);
    MarkedIsWhole(chunks);
    ConsumeReads(Normalize(Concat(chunks)));
    assert Plain(Texts(lines)) == Uncut(lines);
    CutsExact(FRESH, lines);
  }
}
