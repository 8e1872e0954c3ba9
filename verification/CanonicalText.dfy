/** The canonical text as a JSON reader sees it: what its strings and numbers stand for, and how it is laid out. */
module CanonicalText {
  import opened Json
  import Model
  import opened CanonicalJson

  // ---- Strings --------------------------------------------------------------------------------------

  /** A character in UTF-16 (section 2.1 of RFC 2781). */
  function CodeUnits(c: char): seq<nat> {
    if c as int < 0x10000 then [c as int]
    else [0xD800 + (c as int - 0x10000) / 0x400, 0xDC00 + (c as int - 0x10000) % 0x400]
  }

  function Utf16(s: string): seq<nat> {
    if s == "" then [] else CodeUnits(s[0]) + Utf16(s[1..])
  }

  /** The value of a hexadecimal digit in lower case. */
  function HexValue(c: char): Model.Option<nat> {
    if '0' <= c <= '9' then Model.Some(c as int - '0' as int)
    else if 'a' <= c <= 'f' then Model.Some(10 + c as int - 'a' as int)
    else Model.None
  }

  /** The value of the digits from the front to the end. */
  function HexNumber(s: string): Model.Option<nat> {
    if s == "" then Model.Some(0)
    else
      var front, last := HexNumber(s[..|s| - 1]), HexValue(s[|s| - 1]);
      if front.None? || last.None? then Model.None else Model.Some(16 * front.value + last.value)
  }

  /** The character an escape with a single letter stands for (section 7 of RFC 8259). */
  function Letter(c: char): Model.Option<nat> {
    match c
    case '"' => Model.Some(0x22)
    case '\\' => Model.Some(0x5C)
    case '/' => Model.Some(0x2F)
    case 'b' => Model.Some(0x08)
    case 'f' => Model.Some(0x0C)
    case 'n' => Model.Some(0x0A)
    case 'r' => Model.Some(0x0D)
    case 't' => Model.Some(0x09)
    case _ => Model.None
  }

  function Put(unit: Model.Option<nat>, rest: Model.Option<(seq<nat>, string)>): Model.Option<(seq<nat>, string)> {
    if unit.None? || rest.None? then Model.None else Model.Some(([unit.value] + rest.value.0, rest.value.1))
  }

  /** The code units a quoted text stands for, behind its opening quote, and what follows the closing one. */
  function ReadString(t: string): Model.Option<(seq<nat>, string)>
    decreases |t|
  {
    if t == "" then Model.None
    else if t[0] == '"' then Model.Some(([], t[1..]))
    else if t[0] != '\\' then Put(Model.Some(t[0] as int), ReadString(t[1..]))
    else if |t| >= 6 && t[1] == 'u' then Put(HexNumber(t[2..6]), ReadString(t[6..]))
    else if |t| >= 2 then Put(Letter(t[1]), ReadString(t[2..]))
    else Model.None
  }

  lemma HexReads(n: nat)
    requires n < 16
    ensures HexValue(Hex(n)) == Model.Some(n)
  {
  }

  lemma {:induction false} HexSnoc(s: string, n: nat)
    requires n < 16
    ensures HexNumber(s + [Hex(n)]) == if HexNumber(s).None? then Model.None else Model.Some(16 * HexNumber(s).value + n)
  {
    HexReads(n);
    assert (s + [Hex(n)])[..|s|] == s;
  }

  lemma Hex4Reads(n: nat)
    requires n < 65536
    ensures HexNumber(Hex4(n)) == Model.Some(n)
  {
    var a, b, c, d := n / 16 / 16 / 16, n / 16 / 16 % 16, n / 16 % 16, n % 16;
    HexSnoc("", a);
    HexSnoc("" + [Hex(a)], b);
    HexSnoc("" + [Hex(a)] + [Hex(b)], c);
    HexSnoc("" + [Hex(a)] + [Hex(b)] + [Hex(c)], d);
    assert Hex4(n) == "" + [Hex(a)] + [Hex(b)] + [Hex(c)] + [Hex(d)];
    LastDigit(n / 16 / 16);
    LastDigit(n / 16);
    LastDigit(n);
  }

  lemma {:induction false} UnitReads(n: nat, x: string)
    requires n < 65536
    ensures ReadString(Unit(n) + x) == Put(Model.Some(n), ReadString(x))
  {
    var t := Unit(n) + x;
    Hex4Reads(n);
    assert t[2..6] == Hex4(n) && t[6..] == x;
  }

  function PutAll(units: seq<nat>, rest: Model.Option<(seq<nat>, string)>): Model.Option<(seq<nat>, string)> {
    if rest.None? then Model.None else Model.Some((units + rest.value.0, rest.value.1))
  }

  lemma {:induction false} LetterReads(c: char, x: string)
    requires !Verbatim(c) && Short(c) != ""
    ensures ReadString("\\" + Short(c) + x) == Put(Model.Some(c as int), ReadString(x))
  {
    var t := "\\" + Short(c) + x;
    assert t[2..] == x && t[0] == '\\' && t[1] == Short(c)[0];
  }

  lemma {:induction false} PairReads(c: char, x: string)
    requires Astral(c)
    ensures ReadString(Unit(High(c)) + Unit(Low(c)) + x) == PutAll(CodeUnits(c), ReadString(x))
  {
    UnitReads(Low(c), x);
    UnitReads(High(c), Unit(Low(c)) + x);
    assert Unit(High(c)) + Unit(Low(c)) + x == Unit(High(c)) + (Unit(Low(c)) + x);
    if ReadString(x).Some? {
      assert [High(c)] + ([Low(c)] + ReadString(x).value.0) == CodeUnits(c) + ReadString(x).value.0;
    }
  }

  lemma {:induction false} EscapedReads(c: char, x: string)
    ensures ReadString(Escaped(c) + x) == PutAll(CodeUnits(c), ReadString(x))
  {
    if Verbatim(c) {
      assert ([c] + x)[1..] == x;
    } else if Short(c) != "" {
      LetterReads(c, x);
    } else if Astral(c) {
      PairReads(c, x);
    } else {
      UnitReads(c as int, x);
    }
  }

  /** A reader gets every string back, in UTF-16, and knows where it ends. */
  lemma {:induction false} StringReadsBack(s: string, x: string)
    ensures Quoted(s, x)[0] == '"' && ReadString(Quoted(s, x)[1..]) == Model.Some((Utf16(s), x))
  {
    assert Quoted(s, x)[1..] == Inside(s, x);
    if s == "" {
      assert Inside(s, x)[1..] == x;
    } else {
      StringReadsBack(s[1..], x);
      assert Quoted(s[1..], x)[1..] == Inside(s[1..], x);
      EscapedReads(s[0], Inside(s[1..], x));
    }
  }

  /** Printable ASCII stands for itself but for quote and backslash; where there is a letter to escape with, it is used. */
  lemma EscapesAreShortest(c: char)
    ensures forall i :: 0 <= i < |Escaped(c)| ==> ' ' <= Escaped(c)[i] <= '~'
    ensures |Escaped(c)| == if 0x20 <= c as int <= 0x7E && c != '"' && c != '\\' then 1
                            else if c in {'"', '\\', '\n', '\r', '\t', 8 as char, 12 as char} then 2
                            else if c as int < 0x10000 then 6
                            else 12
  {
  }

  // ---- Integers -------------------------------------------------------------------------------------

  function DecimalValue(s: string): int {
    if s == "" then 0 else 10 * DecimalValue(s[..|s| - 1]) + (s[|s| - 1] as int - '0' as int)
  }

  lemma {:induction false} DigitsRead(n: nat)
    ensures DecimalValue(Digits(n)) == n && (Digits(n)[0] == '0' ==> n == 0)
  {
    if n >= 10 {
      DigitsRead(n / 10);
      assert Digits(n)[..|Digits(n)| - 1] == Digits(n / 10);
    } else {
      assert Digits(n)[..0] == "";
    }
  }

  /** An integer is written in decimal, with a minus sign if it is negative, and without leading zeros. */
  lemma IntegerReadsBack(i: int)
    ensures var t := IntText(i);
            && (if t[0] == '-' then -DecimalValue(t[1..]) else DecimalValue(t)) == i
            && (t[0] == '0' ==> i == 0) && (t[0] == '-' ==> |t| > 1 && t[1] != '0')
  {
    DigitsRead(if i < 0 then -i else i);
    if i < 0 {
      assert IntText(i)[1..] == Digits(-i);
    }
  }

  // ---- Layout ---------------------------------------------------------------------------------------

  lemma {:induction false} InsideAppends(s: string, x: string)
    ensures Inside(s, x) == Inside(s, "") + x
  {
    if s != "" {
      InsideAppends(s[1..], x);
      assert Escaped(s[0]) + (Inside(s[1..], "") + x) == Escaped(s[0]) + Inside(s[1..], "") + x;
    }
  }

  /** A quoted string in front of more text is the quoted string, then the text. */
  lemma QuotedAppends(s: string, x: string)
    ensures Quoted(s, x) == Quoted(s, "") + x
  {
    InsideAppends(s, x);
  }

  lemma {:induction false} TextAppends(fl: Floats, j: Json, x: string)
    ensures Text(fl, j, x) == Text(fl, j, "") + x
    decreases j, 1, 0, 0
  {
    match j
    case Str(s) => QuotedAppends(s, x);
    case Arr(_) => ElementsAppend(fl, j, 0, x);
    case Obj(fields) => MembersAppend(fl, j, Sorted(fields.Keys), 0, x);
    case _ =>
  }

  function Comma(i: nat): string {
    if i > 0 then "," else ""
  }

  lemma AppendedLast(a: string, b: string, c: string, x: string)
    ensures a + b + (c + x) == a + b + c + x
  {
  }

  lemma {:induction false} FirstElement(fl: Floats, j: Json, i: nat, x: string)
    requires j.Arr? && i < |j.elems|
    ensures Elements(fl, j, i, x) == Comma(i) + Canonical(fl, j.elems[i]) + Elements(fl, j, i + 1, x)
    decreases j, 0, |j.elems| - i, 0
  {
    var value, rest := j.elems[i], Elements(fl, j, i + 1, x);
    assert Elements(fl, j, i, x) == Comma(i) + Text(fl, value, rest);
    TextAppends(fl, value, rest);
    assert Comma(i) + (Text(fl, value, "") + rest) == Comma(i) + Text(fl, value, "") + rest;
  }

  lemma {:induction false} ElementsAppend(fl: Floats, j: Json, i: nat, x: string)
    requires j.Arr? && i <= |j.elems|
    ensures Elements(fl, j, i, x) == Elements(fl, j, i, "") + x
    decreases j, 0, |j.elems| - i, 1
  {
    if i < |j.elems| {
      FirstElement(fl, j, i, x);
      FirstElement(fl, j, i, "");
      ElementsAppend(fl, j, i + 1, x);
      AppendedLast(Comma(i), Canonical(fl, j.elems[i]), Elements(fl, j, i + 1, ""), x);
    }
  }

  /** One member's text: the key between quotes, a colon, the value. */
  ghost function Pair(fl: Floats, key: string, value: Json): string {
    Quoted(key, "") + ":" + Canonical(fl, value)
  }

  lemma MemberStep(fl: Floats, j: Json, ks: seq<string>, i: nat, x: string)
    requires j.Obj? && i < |ks| && forall k :: k in ks ==> k in j.fields
    ensures Members(fl, j, ks, i, x) == Comma(i) + Quoted(ks[i], [':'] + Text(fl, j.fields[ks[i]], Members(fl, j, ks, i + 1, x)))
  {
  }

  lemma PairFirst(a: string, q: string, v: string, rest: string)
    ensures a + (q + ([':'] + (v + rest))) == a + (q + ":" + v) + rest
  {
  }

  lemma {:induction false} FirstMember(fl: Floats, j: Json, ks: seq<string>, i: nat, x: string)
    requires j.Obj? && i < |ks| && forall k :: k in ks ==> k in j.fields
    ensures Members(fl, j, ks, i, x) == Comma(i) + Pair(fl, ks[i], j.fields[ks[i]]) + Members(fl, j, ks, i + 1, x)
    decreases j, 0, |ks| - i, 0
  {
    var value, rest := j.fields[ks[i]], Members(fl, j, ks, i + 1, x);
    MemberStep(fl, j, ks, i, x);
    TextAppends(fl, value, rest);
    QuotedAppends(ks[i], [':'] + Text(fl, value, rest));
    PairFirst(Comma(i), Quoted(ks[i], ""), Text(fl, value, ""), rest);
  }

  lemma {:induction false} MembersAppend(fl: Floats, j: Json, ks: seq<string>, i: nat, x: string)
    requires j.Obj? && i <= |ks| && forall k :: k in ks ==> k in j.fields
    ensures Members(fl, j, ks, i, x) == Members(fl, j, ks, i, "") + x
    decreases j, 0, |ks| - i, 1
  {
    if i < |ks| {
      FirstMember(fl, j, ks, i, x);
      FirstMember(fl, j, ks, i, "");
      MembersAppend(fl, j, ks, i + 1, x);
      AppendedLast(Comma(i), Pair(fl, ks[i], j.fields[ks[i]]), Members(fl, j, ks, i + 1, ""), x);
    }
  }

  ghost function Texts(fl: Floats, elems: seq<Json>): seq<string> {
    seq(|elems|, i requires 0 <= i < |elems| => Canonical(fl, elems[i]))
  }

  /** The texts from one position on, joined. */
  function Tail(texts: seq<string>, i: nat): string
    requires i <= |texts|
  {
    Join(texts[i..], ',')
  }

  lemma TailStep(texts: seq<string>, i: nat)
    requires i < |texts|
    ensures Tail(texts, i) == texts[i] + (if i + 1 < |texts| then "," + Tail(texts, i + 1) else "")
  {
    assert texts[i..][1..] == texts[i + 1..];
  }

  /** Text made piece by piece: each piece after its comma, and the bracket last. */
  ghost predicate Laid(pieces: seq<string>, rests: nat -> string, end: string) {
    && rests(|pieces|) == end
    && forall i: nat :: i < |pieces| ==> rests(i) == Comma(i) + pieces[i] + rests(i + 1)
  }

  lemma Regroup(a: string, b: string, c: string, d: string)
    ensures a + b + (c + d) == a + (b + c) + d
  {
  }

  lemma {:induction false} LaidIsJoined(pieces: seq<string>, rests: nat -> string, end: string, i: nat)
    requires Laid(pieces, rests, end) && i < |pieces|
    ensures rests(i) == Comma(i) + Tail(pieces, i) + end
    decreases |pieces| - i
  {
    TailStep(pieces, i);
    if i + 1 < |pieces| {
      LaidIsJoined(pieces, rests, end, i + 1);
      Regroup(Comma(i), pieces[i], "," + Tail(pieces, i + 1), end);
    }
  }

  ghost function ElementsFrom(fl: Floats, j: Json): nat -> string
    requires j.Arr?
  {
    (i: nat) => if i <= |j.elems| then Elements(fl, j, i, "") else ""
  }

  /** An array is the texts of its elements between brackets, with commas and no space. */
  lemma ArrayText(fl: Floats, elems: seq<Json>)
    ensures Canonical(fl, Arr(elems)) == "[" + Join(Texts(fl, elems), ',') + "]"
  {
    var j, texts := Arr(elems), Texts(fl, elems);
    forall i: nat | i < |elems|
      ensures ElementsFrom(fl, j)(i) == Comma(i) + texts[i] + ElementsFrom(fl, j)(i + 1)
    {
      FirstElement(fl, j, i, "");
    }
    assert Laid(texts, ElementsFrom(fl, j), "]");
    JoinedOrNothing(texts, ElementsFrom(fl, j), "]");
  }

  lemma {:induction false} JoinedOrNothing(pieces: seq<string>, rests: nat -> string, end: string)
    requires Laid(pieces, rests, end)
    ensures rests(0) == Join(pieces, ',') + end
  {
    if pieces != [] {
      LaidIsJoined(pieces, rests, end, 0);
      assert pieces[0..] == pieces;
    }
  }

  ghost function Pairs(fl: Floats, fields: map<string, Json>, ks: seq<string>): seq<string>
    requires forall k :: k in ks ==> k in fields
  {
    seq(|ks|, i requires 0 <= i < |ks| => Pair(fl, ks[i], fields[ks[i]]))
  }

  ghost function MembersFrom(fl: Floats, j: Json, ks: seq<string>): nat -> string
    requires j.Obj? && forall k :: k in ks ==> k in j.fields
  {
    (i: nat) => if i <= |ks| then Members(fl, j, ks, i, "") else ""
  }

  lemma MembersLaid(fl: Floats, j: Json, ks: seq<string>)
    requires j.Obj? && forall k :: k in ks ==> k in j.fields
    ensures Laid(Pairs(fl, j.fields, ks), MembersFrom(fl, j, ks), "}")
  {
    var pairs := Pairs(fl, j.fields, ks);
    forall i: nat | i < |ks|
      ensures MembersFrom(fl, j, ks)(i) == Comma(i) + pairs[i] + MembersFrom(fl, j, ks)(i + 1)
    {
      FirstMember(fl, j, ks, i, "");
    }
    assert MembersFrom(fl, j, ks)(|ks|) == "}";
  }

  /** An object is its keys in order, each with its value, between braces, with commas and colons and no space. */
  lemma ObjectText(fl: Floats, fields: map<string, Json>)
    ensures Canonical(fl, Obj(fields)) == "{" + Join(Pairs(fl, fields, Sorted(fields.Keys)), ',') + "}"
  {
    var j, ks := Obj(fields), Sorted(fields.Keys);
    MembersLaid(fl, j, ks);
    JoinedOrNothing(Pairs(fl, fields, ks), MembersFrom(fl, j, ks), "}");
    assert Canonical(fl, j) == "{" + MembersFrom(fl, j, ks)(0);
  }

  /** The other values: three words, numbers, and strings between quotes. */
  lemma ScalarText(fl: Floats, j: Json)
    ensures j == Null ==> Canonical(fl, j) == "null"
    ensures j == Bool(true) ==> Canonical(fl, j) == "true"
    ensures j == Bool(false) ==> Canonical(fl, j) == "false"
    ensures j.Int? ==> Canonical(fl, j) == IntText(j.i)
    ensures j.Num? ==> Canonical(fl, j) == fl.repr(j.n)
    ensures j.Str? ==> Canonical(fl, j) == Quoted(j.s, "")
  {
    assert j.Int? ==> IntText(j.i) + "" == IntText(j.i);
    assert j.Num? ==> fl.repr(j.n) + "" == fl.repr(j.n);
  }

  /** Keys are ordered by the code points where they first differ; a beginning comes before what it begins. */
  lemma {:induction false} OrderOfKeys(a: string, b: string)
    ensures Before(a, b) <==> a <= b || exists i :: 0 <= i < |a| && i < |b| && a[..i] == b[..i] && a[i] < b[i]
  {
    if a != "" && b != "" && a[0] == b[0] {
      OrderOfKeys(a[1..], b[1..]);
      if i :| 0 <= i < |a[1..]| && i < |b[1..]| && a[1..][..i] == b[1..][..i] && a[1..][i] < b[1..][i] {
        assert a[..i + 1] == [a[0]] + a[1..][..i] && b[..i + 1] == [b[0]] + b[1..][..i];
        assert a[i + 1] < b[i + 1];
      }
      if i :| 0 <= i < |a| && i < |b| && a[..i] == b[..i] && a[i] < b[i] {
        assert a[1..][..i - 1] == a[..i][1..] && b[1..][..i - 1] == b[..i][1..];
        assert a[1..][i - 1] < b[1..][i - 1];
      }
    } else if a != "" && b != "" && a[0] < b[0] {
      assert a[..0] == b[..0];
    }
  }
}
