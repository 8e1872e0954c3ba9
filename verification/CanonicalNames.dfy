/** Canonical names as callers see them: what is refused, why, and which spellings are alike. */
module CanonicalNames {
  import opened Json
  import opened Model
  import opened Splitting
  import opened Canonical

  predicate Separator(c: char) {
    c == '/' || c == '\\'
  }

  /** The segments of a text, separated by slashes of either kind. */
  ghost function Parts(s: string): (parts: seq<string>)
    ensures parts != []
  {
    if s == "" then [""]
    else if Separator(s[0]) then [""] + Parts(s[1..])
    else [[s[0]] + Parts(s[1..])[0]] + Parts(s[1..])[1..]
  }

  lemma {:induction false} PartsAreSegments(s: string)
    ensures Split(Slashed(s), '/') == Parts(s)
  {
    if s != "" {
      PartsAreSegments(s[1..]);
      assert Slashed(s)[1..] == Slashed(s[1..]);
    }
  }

  /** The same text but for which slashes are used. */
  ghost predicate Alike(s: string, t: string) {
    |s| == |t| && forall i :: 0 <= i < |s| ==> s[i] == t[i] || (Separator(s[i]) && Separator(t[i]))
  }

  /** Slashes and backslashes are the same to the canonical name. */
  lemma SlashesAreAlike(prep: string -> string, v: string, w: string)
    requires Alike(prep(v), prep(w))
    ensures CanonicalOf(prep, v) == CanonicalOf(prep, w)
  {
    assert Slashed(prep(v)) == Slashed(prep(w));
  }

  // ---- What is refused ------------------------------------------------------------------------------

  predicate Unprintable(c: char) {
    c as int < 32 || c as int == 127
  }

  /** A relative path, some prefix of which walks above its start. */
  ghost predicate Climbs(s: string) {
    && (exists i :: 0 <= i < |s| && Separator(s[i])) && s != "" && !Separator(s[0])
    && exists k :: 0 <= k <= |Parts(s)| && Level(Parts(s)[..k]) < 0
  }

  /** Where the path leads, from its start or from the root. */
  ghost function Place(s: string): seq<string> {
    Walk([], Parts(s))
  }

  predicate OnlyDots(seg: string) {
    forall i :: 0 <= i < |seg| ==> seg[i] == '.'
  }

  /** Nothing but dots is left of the name. */
  ghost predicate Nowhere(s: string) {
    (s != "" ==> !Separator(s[0])) && (Place(s) == [] || (|Place(s)| == 1 && OnlyDots(Place(s)[0])))
  }

  lemma SlashedSlashes(s: string)
    ensures '/' in Slashed(s) <==> exists i :: 0 <= i < |s| && Separator(s[i])
    ensures Rooted(Slashed(s)) <==> s != "" && Separator(s[0])
  {
    var t := Slashed(s);
    if i :| 0 <= i < |s| && Separator(s[i]) {
      assert t[i] == '/';
    }
  }

  lemma SlashedControl(s: string)
    ensures HasControl(Slashed(s)) <==> exists i :: 0 <= i < |s| && Unprintable(s[i])
  {
    var t := Slashed(s);
    if i :| 0 <= i < |s| && Unprintable(s[i]) {
      assert Control(t[i]);
    }
    if i :| 0 <= i < |t| && Control(t[i]) {
      assert Unprintable(s[i]);
    }
  }

  /** A path is refused for escaping exactly if it climbs above its start; either slash separates. */
  lemma EscapesIffClimbs(prep: string -> string, value: string)
    requires prep(value) != "" && forall i :: 0 <= i < |prep(value)| ==> !Unprintable(prep(value)[i])
    ensures CanonicalOf(prep, value) == Refused(EscapesRoot) <==> Climbs(prep(value))
  {
    var s := prep(value);
    SlashedSlashes(s);
    SlashedControl(s);
    PartsAreSegments(s);
    EscapesIffAboveStart(Slashed(s));
  }

  lemma DotsOrNot(v: string)
    ensures Finish(v).Refused? <==> OnlyDots(v)
    ensures Finish(v).Refused? ==> Finish(v) == Refused(EmptyAfterwards)
  {
    if OnlyDots(v) {
      DotsAreNothing(v);
    }
  }

  lemma SpelledDots(rooted: bool, names: seq<string>)
    ensures OnlyDots(Spelled(rooted, names)) <==> !rooted && (names == [] || (|names| == 1 && OnlyDots(names[0])))
  {
    var t := Spelled(rooted, names);
    if rooted {
      assert t[0] == '/';
    } else if |names| > 1 {
      assert t == names[0] + ['/'] + Join(names[1..], '/');
      assert t[|names[0]|] == '/';
    }
  }

  /** Every refusal has one of four reasons, and each reason its text. */
  lemma RefusedIff(prep: string -> string, value: string)
    ensures var s, r := prep(value), CanonicalOf(prep, value);
            && (r == Refused(Empty) <==> s == "")
            && (r == Refused(ControlCharacter) <==> exists i :: 0 <= i < |s| && Unprintable(s[i]))
            && (s != "" && (forall i :: 0 <= i < |s| ==> !Unprintable(s[i])) ==>
                  && (r == Refused(EscapesRoot) <==> Climbs(s))
                  && (r == Refused(EmptyAfterwards) <==> !Climbs(s) && Nowhere(s)))
  {
    var s := prep(value);
    SlashedControl(s);
    assert Slashed(s) == "" <==> s == "";
    if s != "" && forall i :: 0 <= i < |s| ==> !Unprintable(s[i]) {
      EscapesIffClimbs(prep, value);
      if !Climbs(s) {
        PlaceIsName(prep, value);
        DotsOrNot(Spelled(Separator(s[0]), Place(s)));
        SpelledDots(Separator(s[0]), Place(s));
      }
    }
  }

  /** What is not refused early is named after where it leads. */
  lemma PlaceIsName(prep: string -> string, value: string)
    requires var s := prep(value); s != "" && (forall i :: 0 <= i < |s| ==> !Unprintable(s[i])) && !Climbs(s)
    ensures CanonicalOf(prep, value) == Finish(Spelled(Separator(prep(value)[0]), Place(prep(value))))
  {
    var s := prep(value);
    EscapesIffClimbs(prep, value);
    SlashedControl(s);
    SlashedSlashes(s);
    PartsAreSegments(s);
    NameIsLocation(Slashed(s));
  }

  /** The canonical name is the place spelled out, without the dots at its end. */
  lemma NameSpellsPlace(prep: string -> string, value: string)
    requires CanonicalOf(prep, value).Accepted?
    ensures var s, t := prep(value), CanonicalOf(prep, value).text;
            var full := (if Separator(s[0]) then "/" else "") + Join(Place(s), '/');
            && t <= full && (forall i :: |t| <= i < |full| ==> full[i] == '.') && t[|t| - 1] != '.'
  {
    var s := prep(value);
    RefusedIff(prep, value);
    PlaceIsName(prep, value);
    assert "" + Join(Place(s), '/') == Join(Place(s), '/');
  }
}
