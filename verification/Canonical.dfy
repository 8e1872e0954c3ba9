/** Canonical resource names: how agent-supplied text becomes comparable before any rule sees it. */
module Canonical {
  import opened Json
  import opened Model
  import opened Splitting
  import opened Tools

  datatype Reason = Empty | ControlCharacter | EscapesRoot | EmptyAfterwards

  datatype Result = Accepted(text: string) | Refused(reason: Reason)

  // ---- Path segments --------------------------------------------------------------------------------

  predicate Skipped(seg: string) {
    seg == "" || seg == "."
  }

  /** One more segment on the collapsed path: a parent cancels a name, or is kept when it leaves a relative start. */
  function Push(stack: seq<string>, seg: string, rooted: bool): seq<string> {
    if Skipped(seg) then stack
    else if seg != ".." || (stack == [] && !rooted) || (stack != [] && stack[|stack| - 1] == "..") then stack + [seg]
    else if stack != [] then stack[..|stack| - 1]
    else stack
  }

  function Collapse(segs: seq<string>, rooted: bool): seq<string> {
    if segs == [] then []
    else Push(Collapse(segs[..|segs| - 1], rooted), segs[|segs| - 1], rooted)
  }

  /** Where walking segments from a directory leads; the root is its own parent. */
  function Walk(base: seq<string>, segs: seq<string>): seq<string> {
    if segs == [] then base
    else
      var here := Walk(base, segs[..|segs| - 1]);
      var seg := segs[|segs| - 1];
      if Skipped(seg) then here
      else if seg != ".." then here + [seg]
      else if here == [] then [] else here[..|here| - 1]
  }

  /** How far below the start a walk is. */
  function Level(segs: seq<string>): int {
    if segs == [] then 0
    else
      var seg := segs[|segs| - 1];
      Level(segs[..|segs| - 1]) + (if Skipped(seg) then 0 else if seg == ".." then -1 else 1)
  }

  predicate Name(seg: string) {
    !Skipped(seg) && seg != ".."
  }

  /** Parents first, if any, then names. */
  ghost predicate Collapsed(stack: seq<string>, ups: nat) {
    && ups <= |stack|
    && (forall i :: 0 <= i < ups ==> stack[i] == "..")
    && (forall i :: ups <= i < |stack| ==> Name(stack[i]))
  }

  /** One more segment adds a parent in front, drops a name, adds one, or is skipped. */
  lemma PushShape(stack: seq<string>, seg: string, rooted: bool, ups: nat) returns (ups': nat)
    requires Collapsed(stack, ups) && (rooted ==> ups == 0)
    ensures Collapsed(Push(stack, seg, rooted), ups') && (rooted ==> ups' == 0)
    ensures ups <= ups' && (ups' > ups ==> ups == |stack|)
    ensures !rooted ==> |Push(stack, seg, rooted)| - 2 * ups'
                        == |stack| - 2 * ups + (if Skipped(seg) then 0 else if seg == ".." then -1 else 1)
  {
    ups' := if seg == ".." && ups == |stack| && !rooted then ups + 1 else ups;
  }

  lemma {:induction false} CollapseShape(segs: seq<string>, rooted: bool) returns (ups: nat)
    ensures Collapsed(Collapse(segs, rooted), ups)
    ensures rooted ==> ups == 0
    ensures !rooted ==> Level(segs) == |Collapse(segs, rooted)| - 2 * ups
    ensures !rooted ==> (ups > 0 <==> exists k :: 0 <= k <= |segs| && Level(segs[..k]) < 0)
  {
    if segs == [] {
      ups := 0;
    } else {
      var n := |segs| - 1;
      var before := CollapseShape(segs[..n], rooted);
      ups := PushShape(Collapse(segs[..n], rooted), segs[n], rooted, before);
      assert segs[..n + 1] == segs;
      assert forall k :: 0 <= k <= n ==> segs[..n][..k] == segs[..k];
    }
  }

  /** Collapsing keeps the location: from any directory for a relative path, from the root for an absolute one. */
  lemma {:induction false} CollapseKeepsLocation(base: seq<string>, segs: seq<string>, rooted: bool)
    requires rooted ==> base == []
    ensures Walk(base, Collapse(segs, rooted)) == Walk(base, segs)
  {
    if segs != [] {
      var n := |segs| - 1;
      CollapseKeepsLocation(base, segs[..n], rooted);
      var ups := CollapseShape(segs[..n], rooted);
      var stack := Collapse(segs[..n], rooted);
      var pushed := stack + [segs[n]];
      assert pushed[..|stack|] == stack;
      if Collapse(segs, rooted) == pushed {
      } else if !Skipped(segs[n]) && stack != [] {
        var here := Walk(base, stack[..|stack| - 1]);
        assert Walk(base, stack) == here + [stack[|stack| - 1]];
        assert (here + [stack[|stack| - 1]])[..|here|] == here;
      }
    }
  }

  lemma {:induction false} NamesWalkThemselves(names: seq<string>, rooted: bool)
    requires forall i :: 0 <= i < |names| ==> Name(names[i])
    ensures Walk([], names) == names
    ensures Collapse(names, rooted) == names
  {
    if names != [] {
      var n := |names| - 1;
      NamesWalkThemselves(names[..n], rooted);
      assert Name(names[n]);
      assert names == names[..n] + [names[n]];
    }
  }

  // ---- Text -----------------------------------------------------------------------------------------

  function StripLeft(s: string, c: char): string {
    if s != "" && s[0] == c then StripLeft(s[1..], c) else s
  }

  function StripRight(s: string, c: char): (t: string)
    ensures t <= s && (t != "" ==> t[|t| - 1] != c)
    ensures forall i :: |t| <= i < |s| ==> s[i] == c
  {
    if s != "" && s[|s| - 1] == c then StripRight(s[..|s| - 1], c) else s
  }

  predicate PartAt(s: string, part: string, i: int) {
    0 <= i <= |s| - |part| && s[i..i + |part|] == part
  }

  predicate Contains(s: string, part: string) {
    exists i :: 0 <= i <= |s| - |part| && PartAt(s, part, i)
  }

  function Slashed(v: string): string {
    seq(|v|, i requires 0 <= i < |v| => if v[i] == '\\' then '/' else v[i])
  }

  predicate Control(c: char) {
    c as int < 32 || c as int == 127
  }

  predicate HasControl(v: string) {
    exists i :: 0 <= i < |v| && Control(v[i])
  }

  predicate Rooted(v: string) {
    v != "" && v[0] == '/'
  }

  /** POSIX keeps exactly two leading slashes and merges any other number into one. */
  function Slashes(v: string): string {
    if !Rooted(v) then ""
    else if "//" <= v && !("///" <= v) then "//"
    else "/"
  }

  function Components(v: string): seq<string> {
    Collapse(Split(v, '/'), Rooted(v))
  }

  function NormPath(v: string): string {
    var path := Slashes(v) + Join(Components(v), '/');
    if path == "" then "." else path
  }

  predicate Escapes(norm: string) {
    norm == ".." || "../" <= norm || Contains(norm, "/../")
  }

  /** A collapsed path with one leading slash at most. */
  function Folded(norm: string): string {
    if "//" <= norm then "/" + StripLeft(norm, '/') else norm
  }

  function Finish(v: string): Result {
    var t := StripRight(v, '.');
    if t == "" then Refused(EmptyAfterwards) else Accepted(t)
  }

  /** Everything after compatibility normalisation, stripping and lower-casing. */
  function Core(v: string): Result {
    if v == "" then Refused(Empty)
    else if HasControl(v) then Refused(ControlCharacter)
    else if '/' !in v then Finish(v)
    else if Escapes(NormPath(v)) then Refused(EscapesRoot)
    else Finish(Folded(NormPath(v)))
  }

  function CanonicalOf(prep: string -> string, value: string): Result {
    Core(Slashed(prep(value)))
  }

  /** Refuse as early as possible, then rewrite in place. */
  method CanonicalResource(prep: string -> string, value: string) returns (r: Result)
    ensures r == CanonicalOf(prep, value)
  {
    var v := Slashed(prep(value));
    if v == "" {
      return Refused(Empty);
    }
    var k := 0;
    while k < |v|
      invariant 0 <= k <= |v|
      invariant forall i :: 0 <= i < k ==> !Control(v[i])
    {
      if Control(v[k]) {
        return Refused(ControlCharacter);
      }
      k := k + 1;
    }
    if '/' in v {
      var norm := NormPath(v);
      if Escapes(norm) {
        return Refused(EscapesRoot);
      }
      v := norm;
      if "//" <= v {
        v := "/" + StripLeft(v, '/');
      }
    }
    v := StripRight(v, '.');
    if v == "" {
      return Refused(EmptyAfterwards);
    }
    return Accepted(v);
  }

  // ---- Inner parents --------------------------------------------------------------------------------

  /** A parent segment inside the text is a parent among its segments. */
  lemma {:induction false} InnerParent(s: string)
    requires Contains(s, "/../")
    ensures ".." in Split(s, '/')
  {
    var i :| 0 <= i <= |s| - 4 && PartAt(s, "/../", i);
    var a, b := s[..i], s[i + 4..];
    assert s == s[..i] + s[i..i + 4] + s[i + 4..];
    assert "/../" + b == ['/'] + (".." + ['/'] + b);
    assert s == a + ['/'] + (".." + ['/'] + b);
    SplitAt(a, ".." + ['/'] + b, '/');
    SplitAt("..", b, '/');
    NoSeparator("..", '/');
  }

  // ---- What collapsing does to the text -------------------------------------------------------------

  lemma {:induction false} CollapseMembers(segs: seq<string>, rooted: bool)
    ensures forall seg :: seg in Collapse(segs, rooted) ==> seg in segs && !Skipped(seg)
  {
    if segs != [] {
      CollapseMembers(segs[..|segs| - 1], rooted);
    }
  }

  /** Components are real segments: not empty, not ".", and free of separators. */
  lemma {:induction false} ComponentsClean(v: string)
    ensures forall seg :: seg in Components(v) ==> seg in Split(v, '/') && !Skipped(seg) && '/' !in seg
  {
    CollapseMembers(Split(v, '/'), Rooted(v));
  }

  /** The collapsed path with at most one leading slash. */
  ghost function Spelled(rooted: bool, names: seq<string>): string {
    if rooted then "/" + Join(names, '/') else if names == [] then "." else Join(names, '/')
  }

  ghost function Segments(rooted: bool, names: seq<string>): seq<string> {
    if rooted then [""] + (if names == [] then [""] else names)
    else if names == [] then ["."]
    else names
  }

  lemma SplitSpelled(rooted: bool, names: seq<string>)
    requires forall seg :: seg in names ==> '/' !in seg
    ensures Split(Spelled(rooted, names), '/') == Segments(rooted, names)
  {
    if names != [] {
      forall k, i | 0 <= k < |names| && 0 <= i < |names[k]|
        ensures names[k][i] != '/'
      {
        assert names[k] in names;
      }
      SplitJoin(names, '/');
    } else {
      NoSeparator(".", '/');
    }
    if rooted {
      SplitAt("", Join(names, '/'), '/');
      assert "" + ['/'] + Join(names, '/') == Spelled(rooted, names);
    }
  }

  lemma {:induction false} JoinStart(names: seq<string>)
    requires forall seg :: seg in names ==> seg != "" && '/' !in seg
    requires names != []
    ensures Join(names, '/') != "" && Join(names, '/')[0] != '/'
  {
    assert names[0] in names;
  }

  lemma TwoSlashesFold(j: string)
    requires j != "" ==> j[0] != '/'
    ensures Folded("//" + j) == "/" + j && Folded("/" + j) == "/" + j && Folded(j) == j
  {
    var one, two := "/" + j, "//" + j;
    assert two[1..] == one && one[1..] == j;
    assert StripLeft(j, '/') == j;
    assert StripLeft(one, '/') == j;
    assert StripLeft(two, '/') == j;
    assert j != "" ==> one[1] == j[0];
  }

  lemma {:induction false} TwoSlashes(s: string)
    ensures "//" <= s <==> |s| >= 2 && s[0] == '/' && s[1] == '/'
  {
  }

  /** Exactly two leading slashes survive path normalisation, as POSIX has it. */
  lemma {:induction false} LeadingSlashes(v: string)
    ensures "//" <= NormPath(v) <==> "//" <= v && !("///" <= v)
    ensures NormPath(v)[0] == '/' <==> v != "" && v[0] == '/'
  {
    var c, rest := Components(v), Join(Components(v), '/');
    ComponentsClean(v);
    if c != [] {
      JoinStart(c);
    }
    assert rest != "" ==> rest[0] != '/';
    var t := NormPath(v);
    TwoSlashes(t);
    TwoSlashes(v);
    assert t == if Rooted(v) || rest != "" then Slashes(v) + rest else ".";
  }

  lemma FoldedIsSpelled(v: string)
    ensures Folded(NormPath(v)) == Spelled(Rooted(v), Components(v))
    ensures NormPath(v) == Spelled(Rooted(v), Components(v)) || (Rooted(v) && NormPath(v) == "/" + Spelled(true, Components(v)))
  {
    var c := Components(v);
    ComponentsClean(v);
    if c != [] {
      JoinStart(c);
    }
    TwoSlashesFold(Join(c, '/'));
    TwoSlashesFold(".");
    assert "//" + Join(c, '/') == "/" + ("/" + Join(c, '/'));
    assert "" + Join(c, '/') == Join(c, '/');
  }

  lemma ParentsComeFirst(v: string)
    ensures Rooted(v) ==> ".." !in Components(v)
    ensures ".." in Components(v) ==> Components(v)[0] == ".."
  {
    var ups := CollapseShape(Split(v, '/'), Rooted(v));
    var c := Components(v);
    if ".." in c {
      var i :| 0 <= i < |c| && c[i] == "..";
      assert !Name(c[i]);
    }
  }

  lemma {:induction false} SlashInFront(t: string)
    ensures Split("/" + t, '/') == [""] + Split(t, '/')
  {
    SplitStep("/" + t, '/');
    assert ("/" + t)[1..] == t;
  }

  /** The segments of a collapsed path's text are its components, behind the empty ones of leading slashes. */
  lemma ParentIsComponent(v: string)
    requires ".." in Split(NormPath(v), '/')
    ensures ".." in Components(v)
  {
    ComponentsClean(v);
    FoldedIsSpelled(v);
    SplitSpelled(Rooted(v), Components(v));
    SlashInFront(Spelled(Rooted(v), Components(v)));
    ParentInSegments(Rooted(v), Components(v));
  }

  lemma ParentInSegments(rooted: bool, names: seq<string>)
    ensures ".." in Segments(rooted, names) || ".." in [""] + Segments(rooted, names) ==> ".." in names
  {
  }

  lemma EscapingLeads(v: string)
    requires Escapes(NormPath(v))
    ensures !Rooted(v) && Components(v) != [] && Components(v)[0] == ".."
  {
    ParentInside(NormPath(v));
    ParentIsComponent(v);
    ParentsComeFirst(v);
  }

  lemma LeadingEscapes(v: string)
    requires !Rooted(v) && Components(v) != [] && Components(v)[0] == ".."
    ensures Escapes(NormPath(v))
  {
    var c := Components(v);
    assert NormPath(v) == Join(c, '/');
    if |c| > 1 {
      assert Join(c, '/') == ".." + ['/'] + Join(c[1..], '/');
    }
  }

  /** The text test for escaping paths finds exactly a leading parent. */
  lemma EscapesIffLeadingParent(v: string)
    ensures Escapes(NormPath(v)) <==> !Rooted(v) && Components(v) != [] && Components(v)[0] == ".."
  {
    if Escapes(NormPath(v)) {
      EscapingLeads(v);
    } else if !Rooted(v) && Components(v) != [] && Components(v)[0] == ".." {
      LeadingEscapes(v);
    }
  }

  lemma {:induction false} ParentInside(norm: string)
    requires Escapes(norm)
    ensures ".." in Split(norm, '/')
  {
    NoSeparator("..", '/');
    if "../" <= norm {
      assert norm == ".." + ['/'] + norm[3..];
      SplitAt("..", norm[3..], '/');
    } else if Contains(norm, "/../") {
      InnerParent(norm);
    }
  }

  // ---- What callers may rely on ---------------------------------------------------------------------

  /** A relative path is refused for escaping exactly when some prefix of its segments walks above the start. */
  lemma {:induction false} EscapesIffAboveStart(v: string)
    requires v != "" && !HasControl(v)
    ensures Core(v) == Refused(EscapesRoot) <==>
            '/' in v && !Rooted(v) && exists k :: 0 <= k <= |Split(v, '/')| && Level(Split(v, '/')[..k]) < 0
  {
    EscapesIffLeadingParent(v);
    var ups := CollapseShape(Split(v, '/'), Rooted(v));
    var c := Components(v);
    if !Rooted(v) && c != [] && ups == 0 {
      assert Name(c[0]);
    }
  }

  lemma DotsAreNothing(dots: string)
    requires forall i :: 0 <= i < |dots| ==> dots[i] == '.'
    ensures Finish(dots) == Refused(EmptyAfterwards)
  {
    assert "" + dots == dots;
    StripOnlyDots("", dots);
  }

  lemma OneSegment(seg: string)
    ensures Walk([], [seg]) == if Name(seg) then [seg] else []
  {
    assert [seg][..0] == [];
  }

  /** Text without a slash is its only segment. */
  lemma {:induction false} PlainIsLocation(v: string)
    requires v != "" && '/' !in v
    ensures Finish(v) == Finish(Spelled(false, Walk([], Split(v, '/'))))
  {
    NoSeparator(v, '/');
    OneSegment(v);
    if !Name(v) {
      DotsAreNothing(v);
      DotsAreNothing(".");
    }
  }

  /** A name that is not refused for escaping depends only on where it leads, and on whether it starts at the root. */
  lemma {:induction false} NameIsLocation(v: string)
    requires v != "" && !HasControl(v) && Core(v) != Refused(EscapesRoot)
    ensures Core(v) == Finish(Spelled(Rooted(v), Walk([], Split(v, '/'))))
  {
    if '/' in v {
      ComponentsAreLocation(v);
      FoldedIsSpelled(v);
    } else {
      PlainIsLocation(v);
    }
  }

  /** Spellings leading to the same place are given the same name, or refused alike. */
  lemma {:induction false} SameLocationSameName(v: string, w: string)
    requires v != "" && w != "" && !HasControl(v) && !HasControl(w) && Rooted(v) == Rooted(w)
    requires Core(v) != Refused(EscapesRoot) && Core(w) != Refused(EscapesRoot)
    requires Walk([], Split(v, '/')) == Walk([], Split(w, '/'))
    ensures Core(v) == Core(w)
  {
    NameIsLocation(v);
    NameIsLocation(w);
  }

  /** Without a leading parent, the components are where the walk leads. */
  lemma {:induction false} ComponentsAreLocation(v: string)
    requires !Escapes(NormPath(v))
    ensures Components(v) == Walk([], Split(v, '/'))
    ensures forall i :: 0 <= i < |Components(v)| ==> Name(Components(v)[i])
  {
    EscapesIffLeadingParent(v);
    CollapseKeepsLocation([], Split(v, '/'), Rooted(v));
    var ups := CollapseShape(Split(v, '/'), Rooted(v));
    NamesWalkThemselves(Components(v), Rooted(v));
  }

  ghost predicate Names(names: seq<string>) {
    forall seg :: seg in names ==> Name(seg) && '/' !in seg
  }

  /** What becomes of a path that does not escape. */
  lemma CoreOfPath(v: string)
    requires '/' in v && !HasControl(v) && ".." !in Components(v)
    ensures Core(v) == Finish(Spelled(Rooted(v), Components(v)))
  {
    FoldedIsSpelled(v);
    EscapesIffLeadingParent(v);
    assert Components(v) != [] ==> Components(v)[0] in Components(v);
  }

  lemma CoreOfAccepted(v: string)
    requires Core(v).Accepted? && '/' in v
    ensures Core(v) == Finish(Spelled(Rooted(v), Components(v))) && Names(Components(v))
  {
    FoldedIsSpelled(v);
    ComponentsAreLocation(v);
    ComponentsClean(v);
  }

  // ---- What an accepted name looks like -------------------------------------------------------------

  /** No dot segments and no empty segment inside. */
  ghost predicate CleanSegments(segs: seq<string>) {
    && (forall k :: 0 <= k < |segs| ==> segs[k] != "." && segs[k] != "..")
    && (forall k :: 0 < k < |segs| - 1 ==> segs[k] != "")
  }

  /** Dropping trailing dots touches the last segment only, and leaves it without a trailing dot. */
  lemma {:induction false} StripSegments(w: string)
    ensures var t := StripRight(w, '.');
            var parts, more := Split(t, '/'), Split(w, '/');
            && |parts| == |more| && Front(parts) == Front(more) && Last(parts) == StripRight(Last(more), '.')
            && Last(parts) <= Last(more)
  {
    var t := StripRight(w, '.');
    var dots := w[|t|..];
    assert w == t + dots;
    SplitTail(t, dots, '/');
    var last := Last(Split(t, '/'));
    LastPartEnds(t);
    StripOnlyDots(last, dots);
  }

  lemma {:induction false} StripOnlyDots(last: string, dots: string)
    requires last != "" ==> last[|last| - 1] != '.'
    requires forall i :: 0 <= i < |dots| ==> dots[i] == '.'
    ensures StripRight(last + dots, '.') == last
    decreases |dots|
  {
    if dots == "" {
      assert last + dots == last;
    } else {
      var fewer := dots[..|dots| - 1];
      StripOnlyDots(last, fewer);
      assert (last + dots)[..|last + dots| - 1] == last + fewer;
    }
  }

  lemma {:induction false} LastPartEnds(t: string)
    ensures var last := Last(Split(t, '/'));
            |last| <= |t| && (last != "" ==> last[|last| - 1] == t[|t| - 1])
  {
    if t != "" {
      LastPartEnds(t[1..]);
      SplitStep(t, '/');
      var rest := Split(t[1..], '/');
      if |rest| == 1 && t[0] != '/' {
        JoinSplit(t[1..], '/');
        assert rest[0] == t[1..];
        assert Split(t, '/') == [[t[0]] + t[1..]];
      } else {
        assert Last(Split(t, '/')) == Last(rest);
      }
    }
  }

  lemma NamesAreClean(rooted: bool, names: seq<string>)
    requires forall i :: 0 <= i < |names| ==> Name(names[i])
    ensures var segs := Segments(rooted, names); segs == ["."] || CleanSegments(segs)
  {
  }

  lemma SegmentsClean(v: string)
    requires !Escapes(NormPath(v))
    ensures var segs := Segments(Rooted(v), Components(v)); segs == ["."] || CleanSegments(segs)
  {
    ComponentsAreLocation(v);
    NamesAreClean(Rooted(v), Components(v));
  }

  lemma StrippedClean(more: seq<string>, parts: seq<string>)
    requires |parts| == |more| > 0 && Front(parts) == Front(more) && Last(parts) == StripRight(Last(more), '.')
    requires CleanSegments(more)
    ensures CleanSegments(parts)
  {
    assert forall k :: 0 <= k < |parts| - 1 ==> parts[k] == Front(parts)[k] == Front(more)[k] == more[k];
  }

  lemma {:induction false} EmptyInside(a: string, b: string)
    ensures !CleanSegments(Split(a + "//" + b, '/'))
  {
    var segs := Split(a + "//" + b, '/');
    assert a + "//" + b == a + ['/'] + ("" + ['/'] + b);
    SplitAt("", b, '/');
    SplitAt(a, "" + ['/'] + b, '/');
    var k := |Split(a, '/')|;
    assert 0 < k < |segs| - 1 && segs[k] == "";
  }

  /** Text without empty inner segments has no double slash. */
  lemma {:induction false} NoDoubleSlash(t: string)
    requires CleanSegments(Split(t, '/'))
    ensures !Contains(t, "//")
  {
    forall i | 0 <= i <= |t| - 2
      ensures !PartAt(t, "//", i)
    {
      EmptyInside(t[..i], t[i + 2..]);
      assert t == t[..i] + t[i..i + 2] + t[i + 2..];
    }
  }

  lemma StrippedSegments(rooted: bool, names: seq<string>)
    requires forall seg :: seg in names ==> '/' !in seg
    ensures var parts, segs := Split(StripRight(Spelled(rooted, names), '.'), '/'), Segments(rooted, names);
            && |parts| == |segs| && Front(parts) == Front(segs) && Last(parts) == StripRight(Last(segs), '.')
  {
    SplitSpelled(rooted, names);
    StripSegments(Spelled(rooted, names));
  }

  /** The segments of an accepted path are its components, the last one without trailing dots. */
  lemma PathSegments(v: string)
    requires Core(v).Accepted? && '/' in v
    ensures var parts, segs := Split(Core(v).text, '/'), Segments(Rooted(v), Components(v));
            && |parts| == |segs| && Front(parts) == Front(segs) && Last(parts) == StripRight(Last(segs), '.')
  {
    CoreOfAccepted(v);
    StrippedSegments(Rooted(v), Components(v));
  }

  lemma AcceptedSegments(v: string)
    requires Core(v).Accepted?
    ensures CleanSegments(Split(Core(v).text, '/'))
  {
    var t := Core(v).text;
    if '/' !in v {
      NoSeparator(t, '/');
    } else {
      var segs := Segments(Rooted(v), Components(v));
      PathSegments(v);
      SegmentsClean(v);
      if segs != ["."] {
        StrippedClean(segs, Split(t, '/'));
      }
    }
  }

  /** Not empty, no dot segment, no double slash, no trailing dot. */
  ghost predicate CleanPath(t: string) {
    && t != "" && t[|t| - 1] != '.' && !Contains(t, "//")
    && forall seg :: seg in Split(t, '/') ==> seg != "." && seg != ".."
  }

  lemma AcceptedIsClean(v: string)
    requires Core(v).Accepted?
    ensures CleanPath(Core(v).text)
  {
    AcceptedSegments(v);
    NoDoubleSlash(Core(v).text);
  }

  // ---- Canonicalising twice -------------------------------------------------------------------------

  lemma SpelledChars(rooted: bool, names: seq<string>, c: char)
    requires c in Spelled(rooted, names) && c != '/' && c != '.'
    ensures exists k :: 0 <= k < |names| && c in names[k]
  {
    var j := Join(names, '/');
    assert c in j;
    JoinChars(names, '/', c);
  }

  /** Apart from separators, an accepted name is made of characters of the text it came from. */
  lemma CoreChars(v: string, c: char)
    requires Core(v).Accepted? && c in Core(v).text && c != '/' && c != '.'
    ensures c in v
  {
    if '/' in v {
      CoreOfAccepted(v);
      var names := Components(v);
      assert c in Spelled(Rooted(v), names);
      SpelledChars(Rooted(v), names, c);
      var k :| 0 <= k < |names| && c in names[k];
      ComponentChars(v, k, c);
    }
  }

  lemma NoNewControl(v: string)
    requires Core(v).Accepted?
    ensures !HasControl(Core(v).text)
  {
    forall c | c in Core(v).text
      ensures !Control(c)
    {
      if Control(c) {
        CoreChars(v, c);
      }
    }
  }

  lemma ComponentChars(v: string, k: nat, c: char)
    requires k < |Components(v)| && c in Components(v)[k]
    ensures c in v
  {
    CollapseMembers(Split(v, '/'), Rooted(v));
    assert Components(v)[k] in Components(v);
    var i :| 0 <= i < |Split(v, '/')| && Split(v, '/')[i] == Components(v)[k];
    SplitChars(v, '/', i, c);
  }

  lemma {:induction false} CollapseLeadingEmpty(segs: seq<string>, rooted: bool)
    ensures Collapse([""] + segs, rooted) == Collapse(segs, rooted)
  {
    var more := [""] + segs;
    if segs == [] {
      assert more[..0] == [];
    } else {
      CollapseLeadingEmpty(segs[..|segs| - 1], rooted);
      assert more[..|more| - 1] == [""] + segs[..|segs| - 1];
    }
  }

  lemma {:induction false} SpelledStart(rooted: bool, names: seq<string>)
    requires Names(names)
    ensures Rooted(Spelled(rooted, names)) == rooted
    ensures Collapse(Segments(rooted, names), rooted) == names
  {
    if names != [] {
      JoinStart(names);
      NamesWalkThemselves(names, rooted);
    } else {
      assert [""][..0] == [] && ["."][..0] == [];
    }
    if rooted {
      CollapseLeadingEmpty(if names == [] then [""] else names, rooted);
    }
  }

  /** A spelled-out path only loses trailing dots. */
  lemma SpelledAgain(rooted: bool, names: seq<string>)
    requires Names(names)
    requires var t := Spelled(rooted, names); '/' in t && !HasControl(t)
    ensures Core(Spelled(rooted, names)) == Finish(Spelled(rooted, names))
  {
    var t := Spelled(rooted, names);
    SpelledStart(rooted, names);
    SplitSpelled(rooted, names);
    CoreOfPath(t);
  }

  /** A slash behind it is dropped. */
  lemma SlashIsDropped(rooted: bool, names: seq<string>)
    requires Names(names) && names != [] && !HasControl(Spelled(rooted, names) + "/")
    ensures Core(Spelled(rooted, names) + "/") == Finish(Spelled(rooted, names))
  {
    var s := Spelled(rooted, names);
    var t := s + ['/'] + "";
    assert t == s + "/";
    SpelledStart(rooted, names);
    SplitSpelled(rooted, names);
    SplitAt(s, "", '/');
    assert (Segments(rooted, names) + [""])[..|Segments(rooted, names)|] == Segments(rooted, names);
    assert Components(t) == names;
    CoreOfPath(t);
  }

  lemma {:induction false} JoinSnoc(parts: seq<string>, last: string, sep: char)
    requires parts != []
    ensures Join(parts + [last], sep) == Join(parts, sep) + [sep] + last
  {
    if |parts| > 1 {
      JoinSnoc(parts[1..], last, sep);
      assert (parts + [last])[1..] == parts[1..] + [last];
    } else {
      assert (parts + [last])[1..] == [last];
    }
  }

  /** The last of several components is nothing but dots. */
  ghost predicate DottedTail(v: string) {
    '/' in v && |Components(v)| >= 2 && StripRight(Last(Components(v)), '.') == ""
  }

  lemma {:induction false} StripTail(p: string, last: string)
    requires p != "" ==> p[|p| - 1] != '.'
    ensures StripRight(p + last, '.') == p + StripRight(last, '.')
    decreases |last|
  {
    var s := p + last;
    if last == "" {
      assert s == p;
    } else {
      var shorter := last[..|last| - 1];
      assert s[|s| - 1] == last[|last| - 1] && s[..|s| - 1] == p + shorter;
      if last[|last| - 1] == '.' {
        StripTail(p, shorter);
      }
    }
  }

  lemma SpelledSnoc(rooted: bool, names: seq<string>, last: string)
    requires names != []
    ensures Spelled(rooted, names + [last]) == Spelled(rooted, names) + "/" + last
  {
    JoinSnoc(names, last, '/');
  }

  lemma {:induction false} StrippedIsName(last: string)
    requires '/' !in last && StripRight(last, '.') != ""
    ensures Name(StripRight(last, '.')) && '/' !in StripRight(last, '.')
  {
  }

  /** A path of several names: its canonical text, and what a second pass makes of it. */
  lemma {:induction false} LongPathAgain(rooted: bool, front: seq<string>, last: string)
    requires Names(front) && front != [] && '/' !in last
    requires var t := StripRight(Spelled(rooted, front + [last]), '.'); t != "" && !HasControl(t)
    ensures var t := StripRight(Spelled(rooted, front + [last]), '.');
            Core(t) == Accepted(t) <==> StripRight(last, '.') != ""
  {
    var p := Spelled(rooted, front) + "/";
    SpelledSnoc(rooted, front, last);
    StripTail(p, last);
    var rest := StripRight(last, '.');
    if rest == "" {
      assert p + rest == p;
      SlashIsDropped(rooted, front);
      assert |Spelled(rooted, front)| < |p|;
    } else {
      StrippedIsName(last);
      SpelledSnoc(rooted, front, rest);
      assert p[|p| - 1] in p + rest;
      SpelledAgain(rooted, front + [rest]);
    }
  }

  /** A path of at most one name is stable. */
  lemma {:induction false} ShortPathAgain(rooted: bool, name: string)
    requires '/' !in name
    requires var t := StripRight((if rooted then "/" else "") + name, '.'); t != "" && !HasControl(t)
    ensures var t := StripRight((if rooted then "/" else "") + name, '.');
            Core(t) == Accepted(t)
  {
    StripTail(if rooted then "/" else "", name);
    var rest := StripRight(name, '.');
    if rooted {
      if rest == "" {
        SpelledAgain(true, []);
      } else {
        StrippedIsName(name);
        SpelledAgain(true, [rest]);
      }
    }
  }

  lemma PathAgain(rooted: bool, names: seq<string>, t: string)
    requires Names(names) && t == StripRight(Spelled(rooted, names), '.') && t != "" && !HasControl(t)
    ensures Core(t) == Accepted(t) <==> !(|names| >= 2 && StripRight(Last(names), '.') == "")
  {
    if |names| >= 2 {
      assert names == Front(names) + [Last(names)];
      LongPathAgain(rooted, Front(names), Last(names));
    } else if |names| == 1 {
      assert "" + names[0] == names[0];
      ShortPathAgain(rooted, names[0]);
    } else {
      ShortPathAgain(rooted, if rooted then "" else ".");
    }
  }

  lemma PlainAgain(v: string)
    requires Core(v).Accepted? && '/' !in v
    ensures Core(Core(v).text) == Accepted(Core(v).text)
  {
    NoNewControl(v);
  }

  /** Canonicalising an accepted name again changes it exactly when its path ended in a segment of dots. */
  lemma StableIffNoDottedTail(v: string)
    requires Core(v).Accepted?
    ensures Core(Core(v).text) == Accepted(Core(v).text) <==> !DottedTail(v)
  {
    if '/' in v {
      NoNewControl(v);
      CoreOfAccepted(v);
      PathAgain(Rooted(v), Components(v), Core(v).text);
    } else {
      PlainAgain(v);
    }
  }

  lemma DottedPath(rooted: bool, front: seq<string>, dots: string)
    requires Names(front) && front != [] && |dots| >= 3 && forall i :: 0 <= i < |dots| ==> dots[i] == '.'
    requires !HasControl(Spelled(rooted, front))
    ensures var t := Spelled(rooted, front) + "/" + dots; Core(t) == Finish(t)
  {
    SpelledSnoc(rooted, front, dots);
    assert Name(dots) && '/' !in dots;
    assert Spelled(rooted, front + [dots])[|Spelled(rooted, front)|] == '/';
    SpelledAgain(rooted, front + [dots]);
  }

  lemma DotsAreStripped(p: string, dots: string)
    requires forall i :: 0 <= i < |dots| ==> dots[i] == '.'
    ensures Finish(p + "/" + dots) == Accepted(p + "/")
  {
    assert (p + "/")[|p|] == '/';
    StripOnlyDots(p + "/", dots);
  }

  /** So a path ending in three or more dots first becomes a path with a trailing slash, and then one without. */
  lemma DotsThenSlash(rooted: bool, front: seq<string>, dots: string)
    requires Names(front) && front != [] && |dots| >= 3 && forall i :: 0 <= i < |dots| ==> dots[i] == '.'
    requires !HasControl(Spelled(rooted, front))
    ensures var p := Spelled(rooted, front);
            Core(p + "/" + dots) == Accepted(p + "/") && Core(p + "/") == Finish(p)
  {
    SlashIsDropped(rooted, front);
    DottedPath(rooted, front, dots);
    DotsAreStripped(Spelled(rooted, front), dots);
  }

  /** The whole function: if normalisation leaves the accepted name alone, only a tail of dots makes it change again. */
  lemma CanonicalTwice(prep: string -> string, value: string)
    requires CanonicalOf(prep, value).Accepted?
    requires prep(CanonicalOf(prep, value).text) == CanonicalOf(prep, value).text
    ensures var r := CanonicalOf(prep, value);
            CanonicalOf(prep, r.text) == r <==> !DottedTail(Slashed(prep(value)))
  {
    var v := Slashed(prep(value));
    var t := Core(v).text;
    if '\\' in t {
      CoreChars(v, '\\');
    }
    assert Slashed(t) == t;
    StableIffNoDottedTail(v);
  }

  // ---- The resource of every action -----------------------------------------------------------------

  /** The library the tools call, with this canonicalisation in it. */
  function LibraryOf(prep: string -> string, blank: string -> bool): Library {
    Library((value: string) => match CanonicalOf(prep, value) case Accepted(t) => Some(t) case Refused(_) => None, blank)
  }

  /** A clean path of printable characters, separated by slashes alone. */
  ghost predicate CleanName(t: string) {
    CleanPath(t) && forall i :: 0 <= i < |t| ==> t[i] != '\\' && t[i] as int >= 32 && t[i] as int != 127
  }

  /** Whatever is accepted is clean. */
  lemma CanonicalIsClean(prep: string -> string, value: string)
    requires CanonicalOf(prep, value).Accepted?
    ensures CleanName(CanonicalOf(prep, value).text)
  {
    var v := Slashed(prep(value));
    var t := Core(v).text;
    AcceptedIsClean(v);
    NoNewControl(v);
    forall i | 0 <= i < |t|
      ensures t[i] != '\\' && !Control(t[i])
    {
      if t[i] == '\\' {
        CoreChars(v, '\\');
      }
    }
  }

  lemma CanonIsClean(prep: string -> string, blank: string -> bool)
    ensures forall raw :: LibraryOf(prep, blank).canon(raw).Some? ==> CleanName(LibraryOf(prep, blank).canon(raw).value)
  {
    forall raw | LibraryOf(prep, blank).canon(raw).Some?
      ensures CleanName(LibraryOf(prep, blank).canon(raw).value)
    {
      CanonicalIsClean(prep, raw);
    }
  }

  lemma BuiltByCanon(lib: Library, req: Request)
    requires Build(lib, req).Some?
    ensures exists raw :: lib.canon(raw) == Some(Build(lib, req).value.resource)
  {
    var raw := match req
      case Transfer(args) => args["to"].s
      case Complete(_) => "llm"
      case Plain(_, target, _) => target.value;
    assert lib.canon(raw) == Some(Build(lib, req).value.resource);
  }

  /** Whatever the agent sends, the action that is judged and executed names a clean resource. */
  lemma ActionsNameCleanResources(prep: string -> string, blank: string -> bool, req: Request)
    requires Build(LibraryOf(prep, blank), req).Some?
    ensures CleanName(Build(LibraryOf(prep, blank), req).value.resource)
  {
    var lib := LibraryOf(prep, blank);
    BuiltByCanon(lib, req);
    CanonIsClean(prep, blank);
  }
}
