/** The canonical JSON text of a value, and why no two values share one. */
module CanonicalJson {
  import opened Json

  // ---- Strings --------------------------------------------------------------------------------------

  function Hex(n: nat): char
    requires n < 16
  {
    if n < 10 then (48 + n) as char else (87 + n) as char
  }

  function Hex4(n: nat): string
    requires n < 65536
  {
    [Hex(n / 16 / 16 / 16), Hex(n / 16 / 16 % 16), Hex(n / 16 % 16), Hex(n % 16)]
  }

  function Unit(n: nat): string
    requires n < 65536
  {
    "\\u" + Hex4(n)
  }

  predicate Astral(c: char) {
    c as int >= 65536
  }

  function High(c: char): nat
    requires Astral(c)
  {
    55296 + (c as int - 65536) / 1024
  }

  function Low(c: char): nat
    requires Astral(c)
  {
    56320 + (c as int - 65536) % 1024
  }

  predicate Verbatim(c: char) {
    ' ' <= c <= '~' && c != '"' && c != '\\'
  }

  /** Two-character escapes. */
  function Short(c: char): (s: string)
    ensures |s| <= 1 && (s != "" ==> s[0] != 'u')
  {
    if c == '"' || c == '\\' then [c]
    else if c == '\n' then "n"
    else if c == '\r' then "r"
    else if c == '\t' then "t"
    else if c as int == 8 then "b"
    else if c as int == 12 then "f"
    else ""
  }

  /** Everything outside printable ASCII is escaped, astral characters as a surrogate pair. */
  function Escaped(c: char): string {
    if Verbatim(c) then [c]
    else if Short(c) != "" then "\\" + Short(c)
    else if Astral(c) then Unit(High(c)) + Unit(Low(c))
    else Unit(c as int)
  }

  /** The rest of a quoted string with the closing quote, in front of more text. */
  function Inside(s: string, x: string): string {
    if s == "" then ['"'] + x else Escaped(s[0]) + Inside(s[1..], x)
  }

  function Quoted(s: string, x: string): string {
    ['"'] + Inside(s, x)
  }

  lemma HexInjective(m: nat, n: nat)
    requires m < 16 && n < 16 && Hex(m) == Hex(n)
    ensures m == n
  {
  }

  lemma LastDigit(n: nat)
    ensures n == 16 * (n / 16) + n % 16
  {
  }

  lemma DigitsTell(m: nat, n: nat)
    requires m / 16 / 16 / 16 == n / 16 / 16 / 16 && m / 16 / 16 % 16 == n / 16 / 16 % 16
    requires m / 16 % 16 == n / 16 % 16 && m % 16 == n % 16
    ensures m == n
  {
    LastDigit(m / 16 / 16);
    LastDigit(n / 16 / 16);
    LastDigit(m / 16);
    LastDigit(n / 16);
    LastDigit(m);
    LastDigit(n);
  }

  lemma UnitInjective(m: nat, x: string, n: nat, y: string)
    requires m < 65536 && n < 65536 && Unit(m) + x == Unit(n) + y
    ensures m == n && x == y
  {
    var s, t := Unit(m) + x, Unit(n) + y;
    assert s[2] == Hex(m / 16 / 16 / 16) && t[2] == Hex(n / 16 / 16 / 16);
    assert s[3] == Hex(m / 16 / 16 % 16) && t[3] == Hex(n / 16 / 16 % 16);
    assert s[4] == Hex(m / 16 % 16) && t[4] == Hex(n / 16 % 16);
    assert s[5] == Hex(m % 16) && t[5] == Hex(n % 16);
    HexInjective(m / 16 / 16 / 16, n / 16 / 16 / 16);
    HexInjective(m / 16 / 16 % 16, n / 16 / 16 % 16);
    HexInjective(m / 16 % 16, n / 16 % 16);
    HexInjective(m % 16, n % 16);
    DigitsTell(m, n);
    assert x == s[6..] && y == t[6..];
  }

  /** Characters that are written as code units: which unit comes first, and what follows it. */
  function First(c: char): nat {
    if Astral(c) then High(c) else c as int
  }

  function After(c: char): string {
    if Astral(c) then Unit(Low(c)) else ""
  }

  /** A first unit in the surrogate range announces a second; together the units tell the character. */
  lemma UnitsTell(c: char, d: char)
    requires First(c) == First(d)
    ensures Astral(c) <==> Astral(d)
    ensures !Astral(c) ==> c == d
    ensures Astral(c) && Low(c) == Low(d) ==> c == d
  {
    assert Astral(c) <==> 55296 <= First(c) <= 56319;
    assert Astral(d) <==> 55296 <= First(d) <= 56319;
    if Astral(c) {
      var m, n := c as int - 65536, d as int - 65536;
      assert m == 1024 * (m / 1024) + m % 1024 && n == 1024 * (n / 1024) + n % 1024;
    }
  }

  predicate Units(c: char) {
    !Verbatim(c) && Short(c) == ""
  }

  lemma EscapedUnits(c: char, x: string)
    requires Units(c)
    ensures Escaped(c) + x == Unit(First(c)) + (After(c) + x)
  {
  }

  lemma UnitsUnique(c: char, x: string, d: char, y: string)
    requires Units(c) && Units(d) && Escaped(c) + x == Escaped(d) + y
    ensures c == d && x == y
  {
    EscapedUnits(c, x);
    EscapedUnits(d, y);
    UnitInjective(First(c), After(c) + x, First(d), After(d) + y);
    UnitsTell(c, d);
    if Astral(c) {
      UnitInjective(Low(c), x, Low(d), y);
    } else {
      assert After(c) + x == x && After(d) + y == y;
    }
  }

  lemma EscapedStart(c: char, x: string)
    ensures var s := Escaped(c) + x;
            && s != "" && s[0] != '"'
            && (s[0] != '\\' <==> Verbatim(c))
            && (!Verbatim(c) ==> |s| > 1 && (s[1] == 'u' <==> Short(c) == ""))
  {
  }

  /** No escape is the beginning of another: the first character of escaped text can be told. */
  lemma EscapedUnique(c: char, x: string, d: char, y: string)
    requires Escaped(c) + x == Escaped(d) + y
    ensures c == d && x == y
  {
    var s, t := Escaped(c) + x, Escaped(d) + y;
    EscapedStart(c, x);
    EscapedStart(d, y);
    if Verbatim(c) {
      assert s[0] == c && t[0] == d && x == s[1..] && y == t[1..];
    } else if Short(c) == "" {
      UnitsUnique(c, x, d, y);
    } else {
      assert s[1] == Short(c)[0] && t[1] == Short(d)[0] && x == s[2..] && y == t[2..];
    }
  }

  /** Quoted text tells where it ends, and what it quotes. */
  lemma {:induction false} InsideUnique(s: string, x: string, t: string, y: string)
    requires Inside(s, x) == Inside(t, y)
    ensures s == t && x == y
    decreases |s|
  {
    if s != "" {
      EscapedStart(s[0], Inside(s[1..], x));
    }
    if t != "" {
      EscapedStart(t[0], Inside(t[1..], y));
    }
    if s == "" {
      assert x == Inside(s, x)[1..];
      assert t == "" ==> y == Inside(t, y)[1..];
    } else if t != "" {
      EscapedUnique(s[0], Inside(s[1..], x), t[0], Inside(t[1..], y));
      InsideUnique(s[1..], x, t[1..], y);
    }
  }

  lemma QuotedUnique(s: string, x: string, t: string, y: string)
    requires Quoted(s, x) == Quoted(t, y)
    ensures s == t && x == y
  {
    assert Inside(s, x) == Quoted(s, x)[1..] && Inside(t, y) == Quoted(t, y)[1..];
    InsideUnique(s, x, t, y);
  }

  // ---- Numbers --------------------------------------------------------------------------------------

  predicate NumberChar(c: char) {
    '0' <= c <= '9' || c == '-' || c == '+' || c == '.' || c == 'e'
  }

  predicate NumberText(s: string) {
    s != "" && forall i :: 0 <= i < |s| ==> NumberChar(s[i])
  }

  function Digits(n: nat): (s: string)
    ensures |s| > 0 && forall i :: 0 <= i < |s| ==> '0' <= s[i] <= '9'
  {
    if n < 10 then [(48 + n) as char] else Digits(n / 10) + [(48 + n % 10) as char]
  }

  function IntText(i: int): string {
    if i < 0 then "-" + Digits(-i) else Digits(i)
  }

  lemma {:induction false} DigitsInjective(m: nat, n: nat)
    requires Digits(m) == Digits(n)
    ensures m == n
  {
    var s, t := Digits(m), Digits(n);
    assert s[|s| - 1] as int == 48 + m % 10 && t[|t| - 1] as int == 48 + n % 10;
    if m >= 10 && n >= 10 {
      assert s[..|s| - 1] == Digits(m / 10) && t[..|t| - 1] == Digits(n / 10);
      DigitsInjective(m / 10, n / 10);
    } else {
      assert m >= 10 ==> |s| >= 2;
      assert n >= 10 ==> |t| >= 2;
    }
  }

  lemma IntTextInjective(i: int, j: int)
    requires IntText(i) == IntText(j)
    ensures i == j
  {
    var s, t := IntText(i), IntText(j);
    assert (i < 0 <==> s[0] == '-') && (j < 0 <==> t[0] == '-');
    if i < 0 {
      assert Digits(-i) == s[1..] && Digits(-j) == t[1..];
      DigitsInjective(-i, -j);
    } else {
      DigitsInjective(i, j);
    }
  }

  /** What may follow a value: nothing, or a separator. */
  predicate Ends(x: string) {
    x == "" || x[0] == ',' || x[0] == ']' || x[0] == '}'
  }

  lemma NumberEnds(s: string, x: string, t: string, y: string)
    requires NumberText(s) && NumberText(t) && Ends(x) && Ends(y) && s + x == t + y
    ensures s == t && x == y
  {
    var w := s + x;
    assert x != "" ==> w[|s|] == x[0];
    assert y != "" ==> w[|t|] == y[0];
    assert forall i :: 0 <= i < |s| ==> w[i] == s[i];
    assert forall i :: 0 <= i < |t| ==> w[i] == t[i];
    assert |s| == |t|;
    assert s == w[..|s|] && t == w[..|t|] && x == w[|s|..] && y == w[|t|..];
  }

  // ---- Values ---------------------------------------------------------------------------------------

  /** The floats there are, and their shortest decimal text. */
  datatype Floats = Floats(isFloat: real -> bool, repr: real -> string)

  /** Distinct floats are written differently, and never like an integer. */
  ghost predicate Faithful(fl: Floats) {
    && (forall r :: fl.isFloat(r) ==> NumberText(fl.repr(r)) && ('.' in fl.repr(r) || 'e' in fl.repr(r)))
    && (forall r, q :: fl.isFloat(r) && fl.isFloat(q) && fl.repr(r) == fl.repr(q) ==> r == q)
  }

  /** Order of code points, the shorter first. */
  predicate Before(a: string, b: string) {
    a == "" || (b != "" && (a[0] < b[0] || (a[0] == b[0] && Before(a[1..], b[1..]))))
  }

  lemma {:induction false} BeforeTotal(a: string, b: string)
    ensures Before(a, b) || Before(b, a)
  {
    if a != "" && b != "" && a[0] == b[0] {
      BeforeTotal(a[1..], b[1..]);
    }
  }

  lemma {:induction false} BeforeTransitive(a: string, b: string, c: string)
    requires Before(a, b) && Before(b, c)
    ensures Before(a, c)
  {
    if a != "" && a[0] == b[0] && b[0] == c[0] {
      BeforeTransitive(a[1..], b[1..], c[1..]);
    }
  }

  ghost predicate Least(k: string, keys: set<string>) {
    k in keys && forall j :: j in keys ==> Before(k, j)
  }

  lemma {:induction false} LeastOfMore(m: string, rest: set<string>, x: string)
    requires Least(m, rest)
    ensures Least(if Before(x, m) then x else m, rest + {x})
  {
    BeforeTotal(x, m);
    BeforeTotal(x, x);
    if Before(x, m) {
      forall j | j in rest
        ensures Before(x, j)
      {
        BeforeTransitive(x, m, j);
      }
    }
  }

  lemma {:induction false} LeastExists(keys: set<string>)
    requires keys != {}
    ensures exists k :: Least(k, keys)
  {
    var x :| x in keys;
    var rest := keys - {x};
    assert keys == rest + {x};
    if rest == {} {
      BeforeTotal(x, x);
      assert Least(x, keys);
    } else {
      LeastExists(rest);
      var m :| Least(m, rest);
      LeastOfMore(m, rest, x);
    }
  }

  /** The keys in order. */
  ghost function Sorted(keys: set<string>): (ks: seq<string>)
    ensures forall k :: k in ks <==> k in keys
    ensures forall i, j :: 0 <= i < j < |ks| ==> Before(ks[i], ks[j]) && ks[i] != ks[j]
  {
    if keys == {} then []
    else
      LeastExists(keys);
      var k :| Least(k, keys);
      var rest := Sorted(keys - {k});
      assert forall i :: 0 <= i < |rest| ==> rest[i] in rest;
      [k] + rest
  }

  /** The text of a value in front of more text. */
  ghost function Text(fl: Floats, j: Json, x: string): string
    decreases j, 1, 0
  {
    match j
    case Null => "null" + x
    case Bool(b) => (if b then "true" else "false") + x
    case Int(i) => IntText(i) + x
    case Num(n) => fl.repr(n) + x
    case Str(s) => Quoted(s, x)
    case Arr(elems) => ['['] + Elements(fl, j, 0, x)
    case Obj(fields) => ['{'] + Members(fl, j, Sorted(fields.Keys), 0, x)
  }

  ghost function Elements(fl: Floats, j: Json, i: nat, x: string): string
    requires j.Arr? && i <= |j.elems|
    decreases j, 0, |j.elems| - i
  {
    if i == |j.elems| then [']'] + x
    else (if i > 0 then [','] else []) + Text(fl, j.elems[i], Elements(fl, j, i + 1, x))
  }

  ghost function Members(fl: Floats, j: Json, ks: seq<string>, i: nat, x: string): string
    requires j.Obj? && i <= |ks| && forall k :: k in ks ==> k in j.fields
    decreases j, 0, |ks| - i
  {
    if i == |ks| then ['}'] + x
    else
      (if i > 0 then [','] else []) + Quoted(ks[i], [':'] + Text(fl, j.fields[ks[i]], Members(fl, j, ks, i + 1, x)))
  }

  /** All numbers in the value that are not integers are floats. */
  ghost predicate Printable(fl: Floats, j: Json) {
    match j
    case Num(n) => fl.isFloat(n)
    case Arr(elems) => forall i :: 0 <= i < |elems| ==> Printable(fl, elems[i])
    case Obj(fields) => forall k :: k in fields ==> Printable(fl, fields[k])
    case _ => true
  }

  // ---- No two values share a text -------------------------------------------------------------------

  /** The first character tells the kind of a value. */
  lemma {:induction false} TextStart(fl: Floats, j: Json, x: string)
    requires Faithful(fl) && Printable(fl, j)
    ensures var t := Text(fl, j, x);
            && t != "" && t[0] != ',' && t[0] != ']' && t[0] != '}'
            && (t[0] == 'n' <==> j.Null?)
            && (t[0] == 't' <==> j == Bool(true)) && (t[0] == 'f' <==> j == Bool(false))
            && (NumberChar(t[0]) <==> IsNum(j))
            && (t[0] == '"' <==> j.Str?) && (t[0] == '[' <==> j.Arr?) && (t[0] == '{' <==> j.Obj?)
  {
    var t := Text(fl, j, x);
    match j
    case Null => assert t[0] == 'n';
    case Bool(b) => assert t[0] == if b then 't' else 'f';
    case Int(i) => assert t[0] == IntText(i)[0];
    case Num(n) => assert t[0] == fl.repr(n)[0];
    case Str(s) => assert t[0] == '"';
    case Arr(_) => assert t[0] == '[';
    case Obj(_) => assert t[0] == '{';
  }

  lemma {:induction false} NumbersUnique(fl: Floats, a: Json, x: string, b: Json, y: string)
    requires Faithful(fl) && Printable(fl, a) && Printable(fl, b) && Ends(x) && Ends(y)
    requires IsNum(a) && IsNum(b) && Text(fl, a, x) == Text(fl, b, y)
    ensures a == b && x == y
  {
    var s := if a.Int? then IntText(a.i) else fl.repr(a.n);
    var t := if b.Int? then IntText(b.i) else fl.repr(b.n);
    NumberEnds(s, x, t, y);
    assert a.Int? ==> '.' !in s && 'e' !in s;
    assert b.Int? ==> '.' !in t && 'e' !in t;
    if a.Int? && b.Int? {
      IntTextInjective(a.i, b.i);
    }
  }

  /** Equal text means equal values, and equal text behind them. */
  lemma {:induction false} TextUnique(fl: Floats, a: Json, x: string, b: Json, y: string)
    requires Faithful(fl) && Printable(fl, a) && Printable(fl, b) && Ends(x) && Ends(y)
    requires Text(fl, a, x) == Text(fl, b, y)
    ensures a == b && x == y
    decreases a, 1, 0
  {
    TextStart(fl, a, x);
    TextStart(fl, b, y);
    var t := Text(fl, a, x);
    if IsNum(a) {
      NumbersUnique(fl, a, x, b, y);
    } else if a.Str? {
      QuotedUnique(a.s, x, b.s, y);
    } else if a.Arr? {
      assert Elements(fl, a, 0, x) == t[1..] == Elements(fl, b, 0, y);
      ElementsUnique(fl, a, 0, x, b, y);
    } else if a.Obj? {
      var ks, ls := Sorted(a.fields.Keys), Sorted(b.fields.Keys);
      assert Members(fl, a, ks, 0, x) == t[1..] == Members(fl, b, ls, 0, y);
      MembersUnique(fl, a, ks, 0, x, b, ls, y);
      SameFields(a.fields, ks, b.fields, ls);
    } else {
      var n := if a == Bool(false) then 5 else 4;
      assert x == t[n..] == y;
    }
  }

  lemma SameFields(f: map<string, Json>, ks: seq<string>, g: map<string, Json>, ls: seq<string>)
    requires forall k :: k in ks <==> k in f
    requires forall k :: k in ls <==> k in g
    requires |ks| == |ls| && forall i :: 0 <= i < |ks| ==> ks[i] == ls[i] && f[ks[i]] == g[ls[i]]
    ensures f == g
  {
    assert ks == ls;
    forall k | k in f
      ensures f[k] == g[k]
    {
      var i :| 0 <= i < |ks| && ks[i] == k;
    }
  }

  lemma {:induction false} ElementsUnique(fl: Floats, a: Json, i: nat, x: string, b: Json, y: string)
    requires Faithful(fl) && Printable(fl, a) && Printable(fl, b) && Ends(x) && Ends(y)
    requires a.Arr? && b.Arr? && i <= |a.elems| && i <= |b.elems|
    requires Elements(fl, a, i, x) == Elements(fl, b, i, y)
    ensures |a.elems| == |b.elems| && x == y && forall k :: i <= k < |a.elems| ==> a.elems[k] == b.elems[k]
    decreases a, 0, |a.elems| - i
  {
    var t := Elements(fl, a, i, x);
    var comma := if i > 0 then 1 else 0;
    if i < |a.elems| {
      TextStart(fl, a.elems[i], Elements(fl, a, i + 1, x));
      assert Text(fl, a.elems[i], Elements(fl, a, i + 1, x)) == t[comma..];
    }
    if i < |b.elems| {
      TextStart(fl, b.elems[i], Elements(fl, b, i + 1, y));
      assert Text(fl, b.elems[i], Elements(fl, b, i + 1, y)) == t[comma..];
    }
    if i < |a.elems| && i < |b.elems| {
      TextUnique(fl, a.elems[i], Elements(fl, a, i + 1, x), b.elems[i], Elements(fl, b, i + 1, y));
      ElementsUnique(fl, a, i + 1, x, b, y);
    } else if i == |a.elems| && i == |b.elems| {
      assert x == t[1..] == y;
    }
  }

  ghost function ValueAt(fl: Floats, j: Json, ks: seq<string>, i: nat, x: string): string
    requires j.Obj? && i < |ks| && forall k :: k in ks ==> k in j.fields
  {
    Text(fl, j.fields[ks[i]], Members(fl, j, ks, i + 1, x))
  }

  lemma {:induction false} MembersStart(fl: Floats, j: Json, ks: seq<string>, i: nat, x: string)
    requires j.Obj? && i <= |ks| && forall k :: k in ks ==> k in j.fields
    ensures var t := Members(fl, j, ks, i, x);
            && t != "" && t[0] == (if i == |ks| then '}' else if i > 0 then ',' else '"')
            && (i == |ks| ==> t[1..] == x)
            && (i < |ks| ==> t[if i > 0 then 1 else 0..] == Quoted(ks[i], [':'] + ValueAt(fl, j, ks, i, x)))
  {
  }

  lemma MemberUnique(k: string, u: string, l: string, v: string)
    requires Quoted(k, [':'] + u) == Quoted(l, [':'] + v)
    ensures k == l && u == v
  {
    QuotedUnique(k, [':'] + u, l, [':'] + v);
    assert u == ([':'] + u)[1..] && v == ([':'] + v)[1..];
  }

  lemma {:induction false} MembersUnique(
      fl: Floats, a: Json, ks: seq<string>, i: nat, x: string, b: Json, ls: seq<string>, y: string)
    requires Faithful(fl) && Printable(fl, a) && Printable(fl, b) && Ends(x) && Ends(y)
    requires a.Obj? && b.Obj? && i <= |ks| && i <= |ls|
    requires (forall k :: k in ks ==> k in a.fields) && (forall k :: k in ls ==> k in b.fields)
    requires Members(fl, a, ks, i, x) == Members(fl, b, ls, i, y)
    ensures |ks| == |ls| && x == y
    ensures forall k :: i <= k < |ks| ==> ks[k] == ls[k] && a.fields[ks[k]] == b.fields[ls[k]]
    decreases a, 0, |ks| - i
  {
    MembersStart(fl, a, ks, i, x);
    MembersStart(fl, b, ls, i, y);
    if i < |ks| {
      var p, q := Members(fl, a, ks, i + 1, x), Members(fl, b, ls, i + 1, y);
      MemberUnique(ks[i], ValueAt(fl, a, ks, i, x), ls[i], ValueAt(fl, b, ls, i, y));
      MembersStart(fl, a, ks, i + 1, x);
      MembersStart(fl, b, ls, i + 1, y);
      TextUnique(fl, a.fields[ks[i]], p, b.fields[ls[i]], q);
      MembersUnique(fl, a, ks, i + 1, x, b, ls, y);
    }
  }

  /** The canonical text of a value. */
  ghost function Canonical(fl: Floats, j: Json): string {
    Text(fl, j, "")
  }

  /** Canonical JSON is injective on the values the harness writes. */
  lemma {:induction false} CanonicalIsInjective(fl: Floats, a: Json, b: Json)
    requires Faithful(fl) && Printable(fl, a) && Printable(fl, b)
    ensures Canonical(fl, a) == Canonical(fl, b) <==> a == b
  {
    if Canonical(fl, a) == Canonical(fl, b) {
      TextUnique(fl, a, "", b, "");
    }
  }

  // ---- Nesting --------------------------------------------------------------------------------------

  /** Values nested too deeply are refused. */
  predicate Allowed(j: Json, depth: nat)
    decreases j
  {
    && depth <= 16
    && (j.Arr? ==> forall i :: 0 <= i < |j.elems| ==> Allowed(j.elems[i], depth + 1))
    && (j.Obj? ==> forall k :: k in j.fields ==> Allowed(j.fields[k], depth + 1))
  }

  /** Something lies n containers deep inside the value. */
  ghost predicate Deep(j: Json, n: nat)
    decreases n
  {
    || n == 0
    || (j.Arr? && exists i :: 0 <= i < |j.elems| && Deep(j.elems[i], n - 1))
    || (j.Obj? && exists k :: k in j.fields && Deep(j.fields[k], n - 1))
  }

  lemma {:induction false} AllowedIsShallow(j: Json, depth: nat, n: nat)
    requires Allowed(j, depth) && Deep(j, n)
    ensures depth + n <= 16
    decreases n
  {
    if n > 0 {
      if j.Arr? {
        var i :| 0 <= i < |j.elems| && Deep(j.elems[i], n - 1);
        AllowedIsShallow(j.elems[i], depth + 1, n - 1);
      } else {
        var k :| k in j.fields && Deep(j.fields[k], n - 1);
        AllowedIsShallow(j.fields[k], depth + 1, n - 1);
      }
    }
  }

  lemma {:induction false} RefusedIsDeep(j: Json, depth: nat) returns (n: nat)
    requires !Allowed(j, depth)
    ensures Deep(j, n) && depth + n > 16
    decreases j
  {
    n := 0;
    if depth <= 16 {
      if j.Arr? {
        var i :| 0 <= i < |j.elems| && !Allowed(j.elems[i], depth + 1);
        n := RefusedIsDeep(j.elems[i], depth + 1);
      } else {
        var k :| k in j.fields && !Allowed(j.fields[k], depth + 1);
        n := RefusedIsDeep(j.fields[k], depth + 1);
      }
      n := n + 1;
    }
  }

  /** What holds something n deep holds something at every lesser depth. */
  lemma {:induction false} DeepDownwards(j: Json, n: nat, m: nat)
    requires Deep(j, n) && m <= n
    ensures Deep(j, m)
    decreases n
  {
    if m > 0 {
      if j.Arr? {
        var i :| 0 <= i < |j.elems| && Deep(j.elems[i], n - 1);
        DeepDownwards(j.elems[i], n - 1, m - 1);
      } else {
        var k :| k in j.fields && Deep(j.fields[k], n - 1);
        DeepDownwards(j.fields[k], n - 1, m - 1);
      }
    }
  }

  /** A value is allowed iff nothing in it lies more than sixteen containers deep. */
  lemma {:induction false} AllowedIffShallow(j: Json)
    ensures Allowed(j, 0) <==> !Deep(j, 17)
  {
    if Allowed(j, 0) {
      if Deep(j, 17) {
        AllowedIsShallow(j, 0, 17);
      }
    } else {
      var n := RefusedIsDeep(j, 0);
      DeepDownwards(j, n, 17);
    }
  }
}
