/** The `str` operations `nav` uses: ASCII lower-casing (standing in for
    `str.lower`), `startswith`, `split`, `join`, `rpartition` and `str(int)`,
    plus a substring predicate used to state properties. */
module Text {

  function LowerChar(c: char): char {
    if 'A' <= c <= 'Z' then (c as int + 32) as char else c
  }

  /** `s.lower()`, restricted to ASCII letters. */
  function Lower(s: string): (r: string)
    ensures |r| == |s|
    decreases |s|
  {
    if |s| == 0 then "" else [LowerChar(s[0])] + Lower(s[1..])
  }

  lemma {:induction false} LowerAt(s: string, i: nat)
    requires i < |s|
    ensures Lower(s)[i] == LowerChar(s[i])
    decreases |s|
  {
    if i > 0 {
      LowerAt(s[1..], i - 1);
    }
  }

  /** Lower-casing never introduces a character that is not a letter. */
  lemma LowerKeepsAbsent(s: string, c: char)
    requires c !in s
    requires !('a' <= c <= 'z')
    ensures c !in Lower(s)
  {
    forall i | 0 <= i < |s|
      ensures Lower(s)[i] != c
    {
      assert s[i] != c;
      LowerAt(s, i);
    }
  }

  predicate StartsWith(s: string, prefix: string) {
    |prefix| <= |s| && s[..|prefix|] == prefix
  }

  predicate EndsWith(s: string, suffix: string) {
    |suffix| <= |s| && s[|s| - |suffix|..] == suffix
  }

  /** `t` occurs somewhere in `s` (Python's `t in s`). */
  predicate Contains(s: string, t: string)
    decreases |s|
  {
    StartsWith(s, t) || (|s| > 0 && Contains(s[1..], t))
  }

  lemma {:induction false} ContainsInfix(a: string, t: string, b: string)
    ensures Contains(a + t + b, t)
    decreases |a|
  {
    if |a| == 0 {
      assert a + t + b == t + b;
      assert (t + b)[..|t|] == t;
    } else {
      assert (a + t + b)[1..] == a[1..] + t + b;
      ContainsInfix(a[1..], t, b);
    }
  }

  lemma {:induction false} ContainsGrows(s: string, t: string, a: string, b: string)
    requires Contains(s, t)
    ensures Contains(a + s + b, t)
    decreases |s|, |a|
  {
    if |a| > 0 {
      assert (a + s + b)[1..] == a[1..] + s + b;
      ContainsGrows(s, t, a[1..], b);
    } else if StartsWith(s, t) {
      assert a + s + b == t + (s[|t|..] + b) by {
        assert s == t + s[|t|..];
      }
      ContainsInfix([], t, s[|t|..] + b);
      assert [] + t + (s[|t|..] + b) == a + s + b;
    } else {
      assert |s| > 0 && Contains(s[1..], t);
      ContainsGrows(s[1..], t, a + [s[0]], b);
      assert a + [s[0]] + s[1..] + b == a + s + b by {
        assert [s[0]] + s[1..] == s;
      }
    }
  }

  /** `s.split(c)` for a one-character separator: always at least one part. */
  function Split(s: string, c: char): (r: seq<string>)
    ensures |r| >= 1
    decreases |s|
  {
    if |s| == 0 then [""]
    else
      var rest := Split(s[1..], c);
      if s[0] == c then [""] + rest else [[s[0]] + rest[0]] + rest[1..]
  }

  lemma {:induction false} SplitWithout(s: string, c: char)
    requires c !in s
    ensures Split(s, c) == [s]
    decreases |s|
  {
    if |s| > 0 {
      SplitWithout(s[1..], c);
      assert [s[0]] + s[1..] == s;
    }
  }

  /** Splitting at a separator splits both sides independently. */
  lemma {:induction false} SplitAround(a: string, c: char, b: string)
    ensures Split(a + [c] + b, c) == Split(a, c) + Split(b, c)
    decreases |a|
  {
    if |a| == 0 {
      assert (a + [c] + b)[1..] == b;
    } else {
      assert (a + [c] + b)[1..] == a[1..] + [c] + b;
      SplitAround(a[1..], c, b);
    }
  }

  /** Splitting stops at the first separator. */
  lemma SplitAtFirst(a: string, c: char, b: string)
    requires c !in a
    ensures Split(a + [c] + b, c) == [a] + Split(b, c)
  {
    SplitAround(a, c, b);
    SplitWithout(a, c);
  }

  /** `s.split(c)` has a second part exactly when `c` occurs in `s`. */
  lemma {:induction false} SplitHasSecondPart(s: string, c: char)
    ensures |Split(s, c)| >= 2 <==> c in s
    decreases |s|
  {
    if |s| > 0 {
      SplitHasSecondPart(s[1..], c);
      assert c in s <==> s[0] == c || c in s[1..];
    }
  }

  /** `sep.join(parts)`. */
  function Join(sep: string, parts: seq<string>): string
    decreases |parts|
  {
    if |parts| == 0 then ""
    else if |parts| == 1 then parts[0]
    else parts[0] + sep + Join(sep, parts[1..])
  }

  /** Joining on a character that no part contains and splitting on it again
      gives the parts back. */
  lemma {:induction false} SplitJoin(parts: seq<string>, c: char)
    requires |parts| >= 1
    requires forall i :: 0 <= i < |parts| ==> c !in parts[i]
    ensures Split(Join([c], parts), c) == parts
    decreases |parts|
  {
    if |parts| == 1 {
      SplitWithout(parts[0], c);
    } else {
      SplitJoin(parts[1..], c);
      SplitAtFirst(parts[0], c, Join([c], parts[1..]));
      assert [parts[0]] + parts[1..] == parts;
    }
  }

  /** Every joined part occurs in the joined string. */
  lemma {:induction false} JoinContains(sep: string, parts: seq<string>, i: nat)
    requires i < |parts|
    ensures Contains(Join(sep, parts), parts[i])
    decreases |parts|
  {
    if |parts| == 1 {
      ContainsInfix([], parts[0], []);
      assert [] + parts[0] + [] == parts[0];
    } else if i == 0 {
      ContainsInfix([], parts[0], sep + Join(sep, parts[1..]));
      assert [] + parts[0] + (sep + Join(sep, parts[1..])) == Join(sep, parts);
    } else {
      JoinContains(sep, parts[1..], i - 1);
      ContainsGrows(Join(sep, parts[1..]), parts[i], parts[0] + sep, []);
      assert parts[0] + sep + Join(sep, parts[1..]) + [] == Join(sep, parts);
    }
  }

  /** Joining one more part appends the separator and that part. */
  lemma {:induction false} JoinSnoc(sep: string, parts: seq<string>, last: string)
    requires |parts| >= 1
    ensures Join(sep, parts + [last]) == Join(sep, parts) + sep + last
    decreases |parts|
  {
    if |parts| > 1 {
      assert (parts + [last])[1..] == parts[1..] + [last];
      JoinSnoc(sep, parts[1..], last);
    }
  }

  /** `s.rpartition(c)[2]`: what follows the last `c`, or all of `s` when there is none. */
  function AfterLast(s: string, c: char): (r: string)
    ensures |r| <= |s|
    decreases |s|
  {
    if |s| == 0 then ""
    else if s[|s| - 1] == c then ""
    else AfterLast(s[..|s| - 1], c) + [s[|s| - 1]]
  }

  /** The result is the longest suffix of `s` free of `c`: it has no `c`, and
      either it is all of `s` or a `c` stands just before it. */
  lemma {:induction false} AfterLastIsLongestSuffix(s: string, c: char)
    ensures var r := AfterLast(s, c);
      && s == s[..|s| - |r|] + r
      && c !in r
      && (|r| < |s| ==> s[|s| - |r| - 1] == c)
    decreases |s|
  {
    if |s| > 0 && s[|s| - 1] != c {
      var s', x := s[..|s| - 1], s[|s| - 1];
      AfterLastIsLongestSuffix(s', c);
      var r' := AfterLast(s', c);
      var r := r' + [x];
      assert AfterLast(s, c) == r;
      var k := |s'| - |r'|;
      assert |s| - |r| == k;
      assert s == s' + [x];
      assert s[..k] == s'[..k];
      assert s == s'[..k] + r' + [x];
      assert c !in r;
      if |r| < |s| {
        assert s[k - 1] == s'[k - 1];
      }
    }
  }

  lemma {:induction false} AfterLastWithout(s: string, c: char)
    requires c !in s
    ensures AfterLast(s, c) == s
    decreases |s|
  {
    if |s| > 0 {
      AfterLastWithout(s[..|s| - 1], c);
      assert s[..|s| - 1] + [s[|s| - 1]] == s;
    }
  }

  /** What follows the last separator does not depend on what precedes it. */
  lemma {:induction false} AfterLastOfJoined(a: string, c: char, b: string)
    requires c !in b
    ensures AfterLast(a + [c] + b, c) == b
    decreases |b|
  {
    var s := a + [c] + b;
    if |b| == 0 {
      assert s[|s| - 1] == c;
    } else {
      var b', last := b[..|b| - 1], b[|b| - 1];
      assert s[|s| - 1] == last && last != c;
      assert s[..|s| - 1] == a + [c] + b';
      assert AfterLast(s, c) == AfterLast(a + [c] + b', c) + [last];
      AfterLastOfJoined(a, c, b');
      assert b' + [last] == b;
    }
  }

  function DigitChar(d: nat): char
    requires d < 10
  {
    "0123456789"[d]
  }

  function NatToString(n: nat): (r: string)
    ensures |r| >= 1
  {
    if n < 10 then [DigitChar(n)] else NatToString(n / 10) + [DigitChar(n % 10)]
  }

  /** `str(n)` for a Python int. */
  function IntToString(n: int): string {
    if n < 0 then "-" + NatToString(-n) else NatToString(n)
  }
}
