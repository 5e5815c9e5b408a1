/**
 * Character-level string operations with Python's meaning: `str.strip`,
 * `str.lower` (on ASCII letters), `startswith`/`endswith`, substring search,
 * and an ordered search `a.*b.*c` standing for the simple regular expressions
 * the editor uses on category keys.
 */
module Text {

  /** The characters for which Python's `str.isspace` holds (what a bare `strip()` removes). */
  const Whitespace: set<char> := {
    ' ', '\t', '\n', '\U{0B}', '\U{0C}', '\r', '\U{1C}', '\U{1D}', '\U{1E}', '\U{1F}',
    '\U{85}', '\U{A0}', '\U{1680}',
    '\U{2000}', '\U{2001}', '\U{2002}', '\U{2003}', '\U{2004}', '\U{2005}',
    '\U{2006}', '\U{2007}', '\U{2008}', '\U{2009}', '\U{200A}',
    '\U{2028}', '\U{2029}', '\U{202F}', '\U{205F}', '\U{3000}'
  }

  /** `s.lstrip(cs)`: the suffix left after dropping the longest prefix of characters in `cs`. */
  function StripLeft(s: string, cs: set<char>): (r: string)
    ensures |r| <= |s| && r == s[|s| - |r|..]
    ensures r == [] || r[0] !in cs
    ensures forall i :: 0 <= i < |s| - |r| ==> s[i] in cs
    decreases |s|
  {
    if s != [] && s[0] in cs then StripLeft(s[1..], cs) else s
  }

  /** `s.rstrip(cs)`: the prefix left after dropping the longest suffix of characters in `cs`. */
  function StripRight(s: string, cs: set<char>): (r: string)
    ensures |r| <= |s| && r == s[..|r|]
    ensures r == [] || r[|r| - 1] !in cs
    ensures forall i :: |r| <= i < |s| ==> s[i] in cs
    decreases |s|
  {
    if s != [] && s[|s| - 1] in cs then StripRight(s[..|s| - 1], cs) else s
  }

  /** `s.strip(cs)`. */
  function Strip(s: string, cs: set<char>): (r: string)
    ensures |r| <= |s|
    ensures r == [] || (r[0] !in cs && r[|r| - 1] !in cs)
  {
    StripRight(StripLeft(s, cs), cs)
  }

  /**
   * `s.strip()` with no argument, peeling one whitespace character at a time
   * (`TrimIsStrip` shows it agrees with `Strip`).
   */
  function Trim(s: string): string
    decreases |s|
  {
    if s != [] && s[0] in Whitespace then Trim(s[1..])
    else if s != [] && s[|s| - 1] in Whitespace then Trim(s[..|s| - 1])
    else s
  }

  /** Neither end of `s` is a character of `cs`. */
  predicate IsStripped(s: string, cs: set<char>)
  {
    s == [] || (s[0] !in cs && s[|s| - 1] !in cs)
  }

  /** `s` has no leading or trailing whitespace: `s.strip() == s`. */
  predicate IsTrimmed(s: string)
  {
    Trim(s) == s
  }

  lemma {:induction false} TrimIsTrimmed(s: string)
    ensures IsStripped(Trim(s), Whitespace)
    decreases |s|
  {
    if s != [] && s[0] in Whitespace {
      TrimIsTrimmed(s[1..]);
    } else if s != [] && s[|s| - 1] in Whitespace {
      TrimIsTrimmed(s[..|s| - 1]);
    }
  }

  /** Trimming an already trimmed string changes nothing. */
  lemma TrimTwice(s: string)
    ensures Trim(Trim(s)) == Trim(s)
  {
    TrimIsTrimmed(s);
  }

  /** The recursive `Trim` removes exactly what `strip()` removes. */
  lemma {:induction false} TrimIsStrip(s: string)
    ensures Trim(s) == Strip(s, Whitespace)
    decreases |s|
  {
    if s != [] && s[0] in Whitespace {
      TrimIsStrip(s[1..]);
    } else if s != [] && s[|s| - 1] in Whitespace {
      TrimIsStrip(s[..|s| - 1]);
      assert StripLeft(s, Whitespace) == s;
      assert StripLeft(s[..|s| - 1], Whitespace) == s[..|s| - 1];
    }
  }

  function LowerChar(c: char): char
  {
    if 'A' <= c <= 'Z' then (c as int + 32) as char else c
  }

  /** `s.lower()` on ASCII letters; other characters are kept. */
  function Lower(s: string): (r: string)
    ensures |r| == |s|
    ensures forall i :: 0 <= i < |s| ==> r[i] == LowerChar(s[i])
  {
    seq(|s|, i requires 0 <= i < |s| => LowerChar(s[i]))
  }

  predicate StartsWith(s: string, p: string)
    decreases |p|
  {
    p == [] || (s != [] && s[0] == p[0] && StartsWith(s[1..], p[1..]))
  }

  predicate EndsWith(s: string, p: string)
  {
    |p| <= |s| && s[|s| - |p|..] == p
  }

  /** `p in s` for strings: some suffix of `s` starts with `p`. */
  predicate Contains(s: string, p: string)
    decreases |s|
  {
    StartsWith(s, p) || (s != [] && Contains(s[1..], p))
  }

  /**
   * The regular expression `ps[0].*ps[1].*...` searched anywhere in `s`
   * (for strings without line breaks, where `.` matches every character).
   */
  predicate InOrder(s: string, ps: seq<string>)
    decreases |ps|, |s|
  {
    ps == []
    || (StartsWith(s, ps[0]) && |ps[0]| <= |s| && InOrder(s[|ps[0]|..], ps[1..]))
    || (s != [] && InOrder(s[1..], ps))
  }

  lemma {:induction false} StartsWithPrefix(s: string, p: string)
    requires StartsWith(s, p)
    ensures |p| <= |s| && s[..|p|] == p
    decreases |p|
  {
    if p != [] {
      StartsWithPrefix(s[1..], p[1..]);
    }
  }

  lemma {:induction false} ContainsChar(s: string, p: string, c: char)
    requires Contains(s, p) && c in p
    ensures c in s
    decreases |s|
  {
    if StartsWith(s, p) {
      StartsWithPrefix(s, p);
      assert c in s[..|p|];
    } else {
      ContainsChar(s[1..], p, c);
    }
  }

  /** A pattern that cannot start inside `a` is found in `a + b` only inside `b`. */
  lemma {:induction false} ContainsSkip(a: string, b: string, p: string)
    requires p != [] && p[0] !in a
    requires Contains(a + b, p)
    ensures Contains(b, p)
    decreases |a|
  {
    if a == [] {
      assert a + b == b;
    } else {
      assert (a + b)[0] == a[0];
      assert !StartsWith(a + b, p);
      assert (a + b)[1..] == a[1..] + b;
      ContainsSkip(a[1..], b, p);
    }
  }

  /** A pattern whose first character occurs only at the head of `s` can only match there. */
  lemma {:induction false} ContainsOnlyAtHead(s: string, p: string)
    requires p != [] && s != [] && p[0] !in s[1..]
    requires Contains(s, p)
    ensures StartsWith(s, p)
  {
    if !StartsWith(s, p) {
      ContainsChar(s[1..], p, p[0]);
    }
  }

  /** Every piece of an ordered search is itself contained in the string. */
  lemma {:induction false} InOrderContains(s: string, ps: seq<string>, j: nat)
    requires InOrder(s, ps) && j < |ps|
    ensures Contains(s, ps[j])
    decreases |ps|, |s|
  {
    if StartsWith(s, ps[0]) && |ps[0]| <= |s| && InOrder(s[|ps[0]|..], ps[1..]) {
      if j == 0 {
        assert Contains(s, ps[0]);
      } else {
        InOrderContains(s[|ps[0]|..], ps[1..], j - 1);
        SuffixContains(s, |ps[0]|, ps[j]);
      }
    } else {
      InOrderContains(s[1..], ps, j);
    }
  }

  lemma {:induction false} SuffixContains(s: string, k: nat, p: string)
    requires k <= |s| && Contains(s[k..], p)
    ensures Contains(s, p)
    decreases k
  {
    if k > 0 {
      assert s[1..][k - 1..] == s[k..];
      SuffixContains(s[1..], k - 1, p);
    }
  }

  /** A pattern holding a character that `s` lacks is not contained in `s`. */
  lemma NotContains(s: string, p: string, c: char)
    requires c in p && c !in s
    ensures !Contains(s, p)
  {
    if Contains(s, p) {
      ContainsChar(s, p, c);
    }
  }

  /** An ordered search one of whose pieces holds a character that `s` lacks fails. */
  lemma NotInOrder(s: string, ps: seq<string>, j: nat, c: char)
    requires j < |ps| && c in ps[j] && c !in s
    ensures !InOrder(s, ps)
  {
    if InOrder(s, ps) {
      InOrderContains(s, ps, j);
      ContainsChar(s, ps[j], c);
    }
  }

  lemma {:induction false} PrefixStartsWith(s: string, p: string)
    requires |p| <= |s| && s[..|p|] == p
    ensures StartsWith(s, p)
    decreases |p|
  {
    if p != [] {
      assert s[1..][..|p| - 1] == p[1..];
      PrefixStartsWith(s[1..], p[1..]);
    }
  }

  lemma {:induction false} ContainsInOrder(s: string, p: string)
    requires Contains(s, p)
    ensures InOrder(s, [p])
    decreases |s|
  {
    if StartsWith(s, p) {
      StartsWithPrefix(s, p);
      assert [p][1..] == [];
    } else {
      ContainsInOrder(s[1..], p);
    }
  }

  /**
   * A pattern whose first character occurs in `a + b` only at the head of
   * `b`, and which `b` does not start with, does not occur in `a + b`.
   */
  lemma NotContainsPastHead(a: string, b: string, p: string)
    requires p != [] && b != [] && p[0] !in a && p[0] !in b[1..]
    requires !StartsWith(b, p)
    ensures !Contains(a + b, p)
  {
    if Contains(a + b, p) {
      ContainsSkip(a, b, p);
      ContainsOnlyAtHead(b, p);
    }
  }

  /** `a.*b` matches text that starts with `a` and holds `b` further on. */
  lemma InOrderPair(s: string, a: string, b: string, k: nat)
    requires |a| + k + |b| <= |s| && s[..|a|] == a && s[|a| + k..|a| + k + |b|] == b
    ensures InOrder(s, [a, b])
  {
    PrefixStartsWith(s, a);
    var t := s[|a|..];
    assert t[k..][..|b|] == b;
    PrefixStartsWith(t[k..], b);
    SuffixContains(t, k, b);
    ContainsInOrder(t, b);
    assert [a, b][1..] == [b];
  }

  /** Text in front of a match does not undo it. */
  lemma {:induction false} InOrderPrepend(x: string, s: string, ps: seq<string>)
    requires InOrder(s, ps)
    ensures InOrder(x + s, ps)
    decreases |x|
  {
    if x == [] {
      assert x + s == s;
    } else {
      assert (x + s)[1..] == x[1..] + s;
      InOrderPrepend(x[1..], s, ps);
    }
  }

  /** Putting the first piece in front of a match of the others matches them all. */
  lemma InOrderStartWith(p: string, s: string, ps: seq<string>)
    requires InOrder(s, ps)
    ensures InOrder(p + s, [p] + ps)
  {
    assert (p + s)[..|p|] == p;
    PrefixStartsWith(p + s, p);
    assert (p + s)[|p|..] == s;
    assert ([p] + ps)[0] == p && ([p] + ps)[1..] == ps;
  }

  /** Lower-casing neither creates nor removes whitespace. */
  lemma LowerCharWhitespace(c: char)
    ensures (LowerChar(c) in Whitespace) == (c in Whitespace)
  {
  }

  /** Lower-casing and stripping commute: `s.strip().lower() == s.lower().strip()`. */
  lemma {:induction false} LowerTrim(s: string)
    ensures Lower(Trim(s)) == Trim(Lower(s))
    decreases |s|
  {
    if s != [] {
      LowerCharWhitespace(s[0]);
      LowerCharWhitespace(s[|s| - 1]);
      if s[0] in Whitespace {
        assert Lower(s)[1..] == Lower(s[1..]);
        LowerTrim(s[1..]);
      } else if s[|s| - 1] in Whitespace {
        assert Lower(s)[..|s| - 1] == Lower(s[..|s| - 1]);
        LowerTrim(s[..|s| - 1]);
      }
    }
  }

  /** Stripping never brings in a character. */
  lemma {:induction false} TrimKeepsOut(s: string, c: char)
    ensures c !in s ==> c !in Trim(s)
    decreases |s|
  {
    if s != [] && s[0] in Whitespace {
      assert c !in s ==> c !in s[1..];
      TrimKeepsOut(s[1..], c);
    } else if s != [] && s[|s| - 1] in Whitespace {
      assert c !in s ==> c !in s[..|s| - 1];
      TrimKeepsOut(s[..|s| - 1], c);
    }
  }

  /** `s.split(sep)` for a set of one-character separators (an empty string gives `[""]`). */
  function SplitOn(s: string, seps: set<char>): (r: seq<string>)
    ensures |r| >= 1
    decreases |s|
  {
    if s == [] then [""]
    else
      var rest := SplitOn(s[1..], seps);
      if s[0] in seps then [""] + rest else [[s[0]] + rest[0]] + rest[1..]
  }
}
