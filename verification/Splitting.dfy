/** How splitting text at a separator behaves when text is put together. */
module Splitting {
  import opened Json

  /** One character in front of split text. */
  ghost function Before(c: char, sep: char, rest: seq<string>): seq<string>
    requires rest != []
  {
    if c == sep then [""] + rest else [[c] + rest[0]] + rest[1..]
  }

  lemma BeforeAppend(c: char, sep: char, rest: seq<string>, more: seq<string>)
    requires rest != []
    ensures Before(c, sep, rest + more) == Before(c, sep, rest) + more
  {
    assert (rest + more)[1..] == rest[1..] + more;
  }

  lemma {:induction false} SplitStep(s: string, sep: char)
    requires s != ""
    ensures Split(s, sep) == Before(s[0], sep, Split(s[1..], sep))
  {
  }

  lemma {:induction false} SplitAt(a: string, b: string, sep: char)
    ensures Split(a + [sep] + b, sep) == Split(a, sep) + Split(b, sep)
  {
    var whole := a + [sep] + b;
    SplitStep(whole, sep);
    if a == "" {
      assert whole[1..] == b;
    } else {
      SplitAt(a[1..], b, sep);
      SplitStep(a, sep);
      assert whole[1..] == a[1..] + [sep] + b;
      BeforeAppend(a[0], sep, Split(a[1..], sep), Split(b, sep));
    }
  }

  lemma {:induction false} NoSeparator(d: string, sep: char)
    requires sep !in d
    ensures Split(d, sep) == [d]
  {
    if d != "" {
      NoSeparator(d[1..], sep);
      assert [d[0]] + d[1..] == d;
    }
  }

  /** The parts before the last, and the last. */
  ghost function Front<T>(s: seq<T>): seq<T>
    requires s != []
  {
    s[..|s| - 1]
  }

  ghost function Last<T>(s: seq<T>): T
    requires s != []
  {
    s[|s| - 1]
  }

  lemma {:induction false} SplitChars(s: string, sep: char, k: nat, c: char)
    requires k < |Split(s, sep)| && c in Split(s, sep)[k]
    ensures c in s
  {
    if s != "" {
      SplitStep(s, sep);
      var rest := Split(s[1..], sep);
      if s[0] == sep {
        SplitChars(s[1..], sep, k - 1, c);
      } else if k > 0 || c in rest[0] {
        SplitChars(s[1..], sep, k, c);
      }
    }
  }

  lemma {:induction false} JoinChars(parts: seq<string>, sep: char, c: char)
    requires c in Join(parts, sep)
    ensures c == sep || exists k :: 0 <= k < |parts| && c in parts[k]
  {
    if |parts| > 1 && c !in parts[0] && c != sep {
      JoinChars(parts[1..], sep, c);
      var k :| 0 <= k < |parts[1..]| && c in parts[1..][k];
      assert c in parts[k + 1];
    }
  }

  lemma BeforeFront(c: char, sep: char, rest: seq<string>, more: seq<string>)
    requires |rest| > 1 && more != []
    ensures Before(c, sep, Front(rest) + more) == Front(Before(c, sep, rest)) + more
    ensures Last(Before(c, sep, rest)) == Last(rest)
  {
    BeforeAppend(c, sep, Front(rest), more);
    BeforeAppend(c, sep, Front(rest), [Last(rest)]);
    assert rest == Front(rest) + [Last(rest)];
  }

  lemma {:induction false} ConcatStep(c: char, sep: char, rest: seq<string>, d: string)
    requires rest != []
    ensures Before(c, sep, Front(rest) + Split(Last(rest) + d, sep))
         == Front(Before(c, sep, rest)) + Split(Last(Before(c, sep, rest)) + d, sep)
  {
    if |rest| > 1 {
      BeforeFront(c, sep, rest, Split(Last(rest) + d, sep));
    } else {
      var more := rest[0] + d;
      assert Front(rest) + Split(more, sep) == Split(more, sep);
      if c != sep {
        assert [c] + rest[0] + d == [c] + more;
        assert ([c] + more)[1..] == more;
        SplitStep([c] + more, sep);
      }
    }
  }

  /** Appended text continues the last part. */
  lemma {:induction false} SplitConcat(a: string, d: string, sep: char)
    ensures Split(a + d, sep) == Front(Split(a, sep)) + Split(Last(Split(a, sep)) + d, sep)
  {
    if a == "" {
      assert a + d == d && "" + d == d;
    } else {
      SplitConcat(a[1..], d, sep);
      assert (a + d)[1..] == a[1..] + d;
      SplitStep(a + d, sep);
      SplitStep(a, sep);
      ConcatStep(a[0], sep, Split(a[1..], sep), d);
    }
  }

  /** Text without the separator extends the last part. */
  lemma {:induction false} SplitTail(a: string, d: string, sep: char)
    requires sep !in d
    ensures Split(a + d, sep) == Front(Split(a, sep)) + [Last(Split(a, sep)) + d]
  {
    SplitConcat(a, d, sep);
    NoSeparator(Last(Split(a, sep)) + d, sep);
  }

  predicate Doubled(s: string, sep: char, i: nat) {
    i + 1 < |s| && s[i] == sep && s[i + 1] == sep
  }

  lemma InnerStep(c: char, sep: char, rest: seq<string>)
    requires rest != [] && forall k :: 0 < k < |rest| - 1 ==> rest[k] != ""
    requires c == sep && rest[0] == "" ==> |rest| == 1
    ensures var parts := Before(c, sep, rest); forall k :: 0 < k < |parts| - 1 ==> parts[k] != ""
  {
  }

  /** With no two separators in a row, only the first and the last part can be empty. */
  lemma {:induction false} InnerNotEmpty(s: string, sep: char)
    requires forall i: nat :: !Doubled(s, sep, i)
    ensures var parts := Split(s, sep);
            && (parts[0] == "" && |parts| > 1 ==> s[0] == sep)
            && (forall k :: 0 < k < |parts| - 1 ==> parts[k] != "")
  {
    if s != "" {
      forall i: nat
        ensures !Doubled(s[1..], sep, i)
      {
        assert !Doubled(s, sep, i + 1);
      }
      InnerNotEmpty(s[1..], sep);
      SplitStep(s, sep);
      assert !Doubled(s, sep, 0);
      InnerStep(s[0], sep, Split(s[1..], sep));
    }
  }

  /** Text that ends in something else than a separator has a last part. */
  lemma {:induction false} LastNotEmpty(s: string, sep: char)
    requires s != "" && s[|s| - 1] != sep
    ensures Last(Split(s, sep)) != ""
  {
    SplitStep(s, sep);
    if |s| > 1 {
      LastNotEmpty(s[1..], sep);
    }
  }
}
