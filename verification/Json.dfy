/** JSON-like values as the policy engine sees them: policy literals, action parameters, namespaces. */
module Json {

  datatype Json =
    | Null
    | Bool(b: bool)
    | Int(i: int)
    | Num(n: real)
    | Str(s: string)
    | Arr(elems: seq<Json>)
    | Obj(fields: map<string, Json>)

  /** Python equality compares numbers by value, and counts True as 1 and False as 0, at every depth. */
  function Plain(j: Json): Json {
    match j
    case Bool(b) => Num(if b then 1.0 else 0.0)
    case Int(i) => Num(i as real)
    case Arr(elems) => Arr(seq(|elems|, i requires 0 <= i < |elems| => Plain(elems[i])))
    case Obj(fields) => Obj(map k | k in fields :: Plain(fields[k]))
    case _ => j
  }

  predicate Equal(a: Json, b: Json) {
    Plain(a) == Plain(b)
  }

  /** int or float, but not bool. */
  predicate IsNum(j: Json) {
    j.Int? || j.Num?
  }

  function Number(j: Json): real
    requires IsNum(j)
  {
    if j.Int? then j.i as real else j.n
  }

  /** Python's bool(value). */
  predicate Truthy(j: Json) {
    match j
    case Null => false
    case Bool(b) => b
    case Int(i) => i != 0
    case Num(n) => n != 0.0
    case Str(s) => s != ""
    case Arr(elems) => elems != []
    case Obj(fields) => fields != map[]
  }

  /** The text between separators: Python's str.split(sep), never empty. */
  function Split(s: string, sep: char): (parts: seq<string>)
    ensures parts != []
    ensures forall k, i :: 0 <= k < |parts| && 0 <= i < |parts[k]| ==> parts[k][i] != sep
  {
    if s == "" then [""]
    else
      var rest := Split(s[1..], sep);
      if s[0] == sep then [""] + rest
      else [[s[0]] + rest[0]] + rest[1..]
  }

  /** sep.join(parts). */
  function Join(parts: seq<string>, sep: char): string {
    if parts == [] then ""
    else if |parts| == 1 then parts[0]
    else parts[0] + [sep] + Join(parts[1..], sep)
  }

  /** Splitting then joining gives the text back. */
  lemma {:induction false} JoinSplit(s: string, sep: char)
    ensures Join(Split(s, sep), sep) == s
  {
    if s != "" {
      JoinSplit(s[1..], sep);
      var rest := Split(s[1..], sep);
      var parts := Split(s, sep);
      if s[0] == sep {
        assert parts[1..] == rest;
      } else {
        assert parts[0] == [s[0]] + rest[0] && parts[1..] == rest[1..];
        if |rest| > 1 {
          assert [s[0]] + rest[0] + [sep] + Join(rest[1..], sep) == [s[0]] + (rest[0] + [sep] + Join(rest[1..], sep));
        }
        assert [s[0]] + s[1..] == s;
      }
    }
  }

  /** Joining separator-free parts then splitting gives the parts back. */
  lemma {:induction false} SplitJoin(parts: seq<string>, sep: char)
    requires parts != []
    requires forall k, i :: 0 <= k < |parts| && 0 <= i < |parts[k]| ==> parts[k][i] != sep
    ensures Split(Join(parts, sep), sep) == parts
    decreases |parts|, |parts[0]|
  {
    var text := Join(parts, sep);
    if parts[0] == "" {
      if |parts| > 1 {
        assert text == [sep] + Join(parts[1..], sep);
        assert text[1..] == Join(parts[1..], sep);
        SplitJoin(parts[1..], sep);
        assert parts == [""] + parts[1..];
      }
    } else {
      var shorter := [parts[0][1..]] + parts[1..];
      assert shorter[1..] == parts[1..];
      assert text == [parts[0][0]] + Join(shorter, sep);
      assert text[1..] == Join(shorter, sep);
      SplitJoin(shorter, sep);
      assert parts[0] == [parts[0][0]] + shorter[0];
      assert parts == [parts[0]] + shorter[1..];
    }
  }
}
