/**
 * `normalize_guideline_category_key`: a free-form heading becomes a slug of
 * lower-case letters, digits and single underscores, and the slug is then
 * mapped onto one of the canonical guideline categories by the first of a
 * list of patterns that matches it.
 */
module CategoryKeys {
  import opened Text
  import opened JsonValues

  predicate IsAlnum(c: char)
  {
    'a' <= c <= 'z' || '0' <= c <= '9'
  }

  predicate IsSlugChar(c: char)
  {
    IsAlnum(c) || c == '_'
  }

  /** The letters and digits of `s`, in order. */
  function Alnums(s: string): string
    decreases |s|
  {
    if s == [] then [] else (if IsAlnum(s[0]) then [s[0]] else []) + Alnums(s[1..])
  }

  lemma {:induction false} AlnumsAppend(a: string, b: string)
    ensures Alnums(a + b) == Alnums(a) + Alnums(b)
    decreases |a|
  {
    if a == [] {
      assert a + b == b;
    } else {
      var head := if IsAlnum(a[0]) then [a[0]] else [];
      assert (a + b)[0] == a[0] && (a + b)[1..] == a[1..] + b;
      assert Alnums(a + b) == head + Alnums(a[1..] + b);
      assert Alnums(a) == head + Alnums(a[1..]);
      AlnumsAppend(a[1..], b);
      assert head + (Alnums(a[1..]) + Alnums(b)) == (head + Alnums(a[1..])) + Alnums(b);
    }
  }

  lemma {:induction false} AlnumsNone(s: string)
    requires forall i :: 0 <= i < |s| ==> !IsAlnum(s[i])
    ensures Alnums(s) == []
    decreases |s|
  {
    if s != [] {
      AlnumsNone(s[1..]);
    }
  }

  /** `re.sub(r"^[^a-z0-9]+", "", s)`: drops the leading run of characters outside `[a-z0-9]`. */
  function DropNonAlnumPrefix(s: string): (r: string)
    ensures |r| <= |s| && r == s[|s| - |r|..]
    ensures r == [] || IsAlnum(r[0])
    ensures s != [] && !IsAlnum(s[0]) ==> |r| < |s|
    decreases |s|
  {
    if s != [] && !IsAlnum(s[0]) then
      DropNonAlnumPrefix(s[1..])
    else s
  }

  /** Only characters other than letters and digits are dropped, so every letter and digit is kept. */
  lemma {:induction false} DropKeepsAlnums(s: string)
    ensures forall i :: 0 <= i < |s| - |DropNonAlnumPrefix(s)| ==> !IsAlnum(s[i])
    ensures Alnums(DropNonAlnumPrefix(s)) == Alnums(s)
    decreases |s|
  {
    if s != [] && !IsAlnum(s[0]) {
      var r := DropNonAlnumPrefix(s[1..]);
      assert DropNonAlnumPrefix(s) == r;
      DropKeepsAlnums(s[1..]);
      assert Alnums(s) == [] + Alnums(s[1..]);
      forall i | 0 < i < |s| - |r| ensures !IsAlnum(s[i]) {
        assert s[i] == s[1..][i - 1];
      }
    }
  }

  /** `s.replace("&", "and")` */
  function ReplaceAmp(s: string): (r: string)
    ensures '&' !in r
    ensures '&' !in s ==> r == s
    ensures |s| == 1 && s[0] == '&' ==> r == "and"
    ensures s != [] && s[0] != '&' ==> r != [] && r[0] == s[0]
    decreases |s|
  {
    if s == [] then []
    else
      var r := (if s[0] == '&' then "and" else [s[0]]) + ReplaceAmp(s[1..]);
      assert '&' !in s ==> '&' !in s[1..] && s == [s[0]] + s[1..];
      r
  }

  /** The replacement works piece by piece: together with the clauses above it fixes every output. */
  lemma {:induction false} ReplaceAmpAppend(a: string, b: string)
    ensures ReplaceAmp(a + b) == ReplaceAmp(a) + ReplaceAmp(b)
    decreases |a|
  {
    if a == [] {
      assert a + b == b;
    } else {
      assert (a + b)[0] == a[0] && (a + b)[1..] == a[1..] + b;
      ReplaceAmpAppend(a[1..], b);
    }
  }

  /**
   * Text made only of `[a-z0-9_]` in which every `_` is followed by a
   * character other than `_`, or ends the text.
   */
  predicate CollapseBody(s: string)
    decreases |s|
  {
    s == [] || (IsSlugChar(s[0]) && (s[0] == '_' ==> |s| == 1 || s[1] != '_') && CollapseBody(s[1..]))
  }

  /** `re.sub(r"[^a-z0-9]+", "_", s)`: every maximal run of other characters becomes one `_`. */
  function Collapse(s: string): (r: string)
    ensures CollapseBody(r)
    ensures s != [] && IsAlnum(s[0]) ==> r != [] && r[0] == s[0]
    decreases |s|
  {
    if s == [] then []
    else if IsAlnum(s[0]) then [s[0]] + Collapse(s[1..])
    else "_" + Collapse(DropNonAlnumPrefix(s))
  }

  /** Collapsing keeps every letter and digit, in order: only runs of other characters change. */
  lemma {:induction false} CollapseKeepsAlnums(s: string)
    ensures Alnums(Collapse(s)) == Alnums(s)
    ensures |Collapse(s)| <= |s| && (Collapse(s) == [] <==> s == [])
    decreases |s|
  {
    if s != [] {
      if IsAlnum(s[0]) {
        var t := Collapse(s[1..]);
        assert ([s[0]] + t)[0] == s[0] && ([s[0]] + t)[1..] == t;
        CollapseKeepsAlnums(s[1..]);
      } else {
        var d := DropNonAlnumPrefix(s);
        var t := Collapse(d);
        assert ("_" + t)[0] == '_' && ("_" + t)[1..] == t;
        CollapseKeepsAlnums(d);
        DropKeepsAlnums(s);
      }
    }
  }

  /** A run of characters outside `[a-z0-9]` in front of a letter or digit (or the end) is dropped whole. */
  lemma {:induction false} DropRun(sep: string, b: string)
    requires forall i :: 0 <= i < |sep| ==> !IsAlnum(sep[i])
    requires b == [] || IsAlnum(b[0])
    ensures DropNonAlnumPrefix(sep + b) == b
    decreases |sep|
  {
    if sep == [] {
      assert sep + b == b;
    } else {
      assert (sep + b)[0] == sep[0] && (sep + b)[1..] == sep[1..] + b;
      DropRun(sep[1..], b);
    }
  }

  /**
   * Where the underscores go: a word, then a maximal run of other characters,
   * then the rest, becomes the word, one `_`, and the collapsed rest.
   */
  lemma CollapseSeparates(w: string, sep: string, t: string)
    requires IsWord(w)
    requires sep != [] && forall i :: 0 <= i < |sep| ==> !IsAlnum(sep[i])
    requires t == [] || IsAlnum(t[0])
    ensures Collapse(w + sep + t) == w + "_" + Collapse(t)
  {
    var u := sep + t;
    var c := Collapse(t);
    assert Collapse(u) == "_" + c by {
      assert u[0] == sep[0];
      DropRun(sep, t);
      assert Collapse(u) == "_" + Collapse(DropNonAlnumPrefix(u));
    }
    assert Collapse(w + u) == w + ("_" + c) by {
      CollapseWordPrefix(w, u);
    }
    assert w + sep + t == w + u;
    assert w + ("_" + c) == w + "_" + c;
  }

  /** A non-empty slug that starts and ends with a letter or digit. */
  predicate IsSlug(s: string)
  {
    s != [] && IsAlnum(s[0]) && IsAlnum(s[|s| - 1]) && CollapseBody(s)
  }

  /** The substitutions applied to the lower-cased heading, ending with `.strip("_")`. */
  function SlugOf(key: string): (r: string)
    ensures r == [] || IsSlug(r)
  {
    var c := Collapse(ReplaceAmp(DropNonAlnumPrefix(key)));
    StripShape(c);
    Strip(c, {'_'})
  }

  /** The slug computed from a heading before it is classified. */
  function Slug(rt: Runtime, heading: string): (r: string)
    ensures r == [] || IsSlug(r)
  {
    SlugOf(Lower(Trim(rt.nfkc(heading))))
  }

  const Important := "important"
  const SendToCs := "send_to_cs"

  /** The categories the patterns map headings onto. */
  predicate IsCanonical(c: string)
  {
    c == Important || c == SendToCs || c == "escalate" || c == "tone" || c == "templates"
    || c == "dos_and_donts" || c == "drive_to_purchase" || c == "promo_and_exclusions"
  }

  /**
   * The patterns of `normalize_guideline_category_key`, first match wins.
   * `a.*b` is `InOrder(key, [a, b])` (a slug has no line breaks), and
   * `^escalate$|^escalation$|escalat` matches exactly when `escalat` occurs.
   */
  function Classify(key: string): (r: string)
    ensures r != ""
    ensures r == key || IsCanonical(r)
  {
    if InOrder(key, ["send", "cs"]) then "send_to_cs"
    else if Contains(key, "escalat") then "escalate"
    else if key == "tone" then "tone"
    else if Contains(key, "template") then "templates"
    else if InOrder(key, ["do", "and", "don"]) || Contains(key, "dos_and_donts")
            || Contains(key, "don_ts") || Contains(key, "donts") then "dos_and_donts"
    else if InOrder(key, ["drive", "purchase"]) then "drive_to_purchase"
    else if Contains(key, "promo") then "promo_and_exclusions"
    else if key == "" then "important"
    else key
  }

  /**
   * What `normalize_guideline_category_key(heading)` returns: never empty;
   * "important" for a blank heading; otherwise a canonical category or the
   * heading's own slug.
   */
  function CategoryKey(rt: Runtime, heading: string): (r: string)
    ensures r != ""
    ensures Trim(heading) == "" ==> r == Important
    ensures IsCanonical(r) || (r == Slug(rt, heading) && IsSlug(r))
  {
    if Trim(heading) == "" then Important else Classify(Slug(rt, heading))
  }

  // ---------------------------------------------------------------------------
  // The shape of a slug

  lemma {:induction false} CollapseBodyChars(s: string)
    requires CollapseBody(s)
    ensures forall i :: 0 <= i < |s| ==> IsSlugChar(s[i])
    decreases |s|
  {
    if s != [] {
      CollapseBodyChars(s[1..]);
      forall i | 0 <= i < |s| ensures IsSlugChar(s[i]) {
        if i > 0 {
          assert s[i] == s[1..][i - 1];
        }
      }
    }
  }

  lemma {:induction false} CollapseBodySuffix(s: string, k: nat)
    requires CollapseBody(s) && k <= |s|
    ensures CollapseBody(s[k..])
    decreases k
  {
    if k > 0 {
      assert s[1..][k - 1..] == s[k..];
      CollapseBodySuffix(s[1..], k - 1);
    }
  }

  lemma {:induction false} CollapseBodyPrefix(s: string, k: nat)
    requires CollapseBody(s) && k <= |s|
    ensures CollapseBody(s[..k])
    decreases |s|
  {
    if k > 0 {
      CollapseBodyPrefix(s[1..], k - 1);
      assert s[..k][1..] == s[1..][..k - 1];
    }
  }

  /** Stripping the underscores off collapsed text leaves an empty text or a slug. */
  lemma StripLeftShape(c: string)
    requires CollapseBody(c)
    ensures CollapseBody(StripLeft(c, {'_'}))
    ensures StripLeft(c, {'_'}) == [] || IsAlnum(StripLeft(c, {'_'})[0])
  {
    var left := StripLeft(c, {'_'});
    CollapseBodySuffix(c, |c| - |left|);
  }

  lemma StripRightShape(left: string)
    requires CollapseBody(left) && (left == [] || IsAlnum(left[0]))
    ensures StripRight(left, {'_'}) == [] || IsSlug(StripRight(left, {'_'}))
  {
    var r := StripRight(left, {'_'});
    CollapseBodyPrefix(left, |r|);
    if r != [] {
      assert r[0] == left[0];
      CollapseBodyChars(r);
      assert IsSlugChar(r[|r| - 1]);
    }
  }

  lemma StripShape(c: string)
    requires CollapseBody(c)
    ensures Strip(c, {'_'}) == [] || IsSlug(Strip(c, {'_'}))
  {
    StripLeftShape(c);
    StripRightShape(StripLeft(c, {'_'}));
  }

  // ---------------------------------------------------------------------------
  // A slug is its own slug

  lemma {:induction false} SlugCharsAscii(s: string)
    requires CollapseBody(s)
    ensures IsAscii(s) && Lower(s) == s
  {
    CollapseBodyChars(s);
  }

  lemma {:induction false} ReplaceAmpOfSlug(s: string)
    requires CollapseBody(s)
    ensures ReplaceAmp(s) == s
    decreases |s|
  {
    if s != [] {
      ReplaceAmpOfSlug(s[1..]);
    }
  }

  lemma {:induction false} CollapseOfSlug(s: string)
    requires CollapseBody(s) && (s == [] || s[|s| - 1] != '_')
    ensures Collapse(s) == s
    decreases |s|
  {
    if s != [] {
      CollapseOfSlug(s[1..]);
      if s[0] == '_' {
        assert IsAlnum(s[1]);
        assert DropNonAlnumPrefix(s) == s[1..];
      }
      assert s == [s[0]] + s[1..];
    }
  }

  lemma TrimOfSlug(s: string)
    requires IsSlug(s)
    ensures Trim(s) == s
  {
    assert s[0] !in Whitespace;
    assert s[|s| - 1] !in Whitespace;
  }

  lemma StripOfSlug(s: string)
    requires IsSlug(s)
    ensures Strip(s, {'_'}) == s
  {
    assert StripLeft(s, {'_'}) == s;
    assert StripRight(s, {'_'}) == s;
  }

  /** With an NFKC that keeps ASCII text, a slug is its own slug. */
  lemma SlugOfSlug(rt: Runtime, s: string)
    requires KeepsAscii(rt) && IsSlug(s)
    ensures Slug(rt, s) == s
  {
    SlugCharsAscii(s);
    assert rt.nfkc(s) == s;
    TrimOfSlug(s);
    assert Lower(Trim(rt.nfkc(s))) == s;
    assert DropNonAlnumPrefix(s) == s;
    ReplaceAmpOfSlug(s);
    CollapseOfSlug(s);
    StripOfSlug(s);
  }

  // ---------------------------------------------------------------------------
  // Letters, digits and words survive the slug

  lemma StripLeftAlnums(c: string)
    ensures Alnums(StripLeft(c, {'_'})) == Alnums(c)
  {
    var left := StripLeft(c, {'_'});
    var k := |c| - |left|;
    assert c == c[..k] + left;
    AlnumsAppend(c[..k], left);
    assert forall i :: 0 <= i < k ==> c[..k][i] == '_';
    AlnumsNone(c[..k]);
  }

  lemma StripRightAlnums(left: string)
    ensures Alnums(StripRight(left, {'_'})) == Alnums(left)
  {
    var r := StripRight(left, {'_'});
    assert left == r + left[|r|..];
    AlnumsAppend(r, left[|r|..]);
    assert forall i :: 0 <= i < |left| - |r| ==> left[|r|..][i] == '_';
    AlnumsNone(left[|r|..]);
  }

  /** Dropping the underscores at the ends keeps every letter and digit. */
  lemma StripAlnums(c: string)
    ensures Alnums(Strip(c, {'_'})) == Alnums(c)
  {
    StripLeftAlnums(c);
    StripRightAlnums(StripLeft(c, {'_'}));
  }

  /**
   * The slug keeps the letters and digits of the key, in order, once a
   * leading run of other characters is gone and `&` is spelled "and"; for a
   * key without `&`, exactly the key's letters and digits.
   */
  lemma SlugOfKeepsAlnums(key: string)
    ensures Alnums(SlugOf(key)) == Alnums(ReplaceAmp(DropNonAlnumPrefix(key)))
    ensures '&' !in key ==> Alnums(SlugOf(key)) == Alnums(key)
  {
    var d := DropNonAlnumPrefix(key);
    var c := Collapse(ReplaceAmp(d));
    StripAlnums(c);
    CollapseKeepsAlnums(ReplaceAmp(d));
    DropKeepsAlnums(key);
    assert '&' !in key ==> '&' !in d;
  }

  /** The slug of a heading without `&` keeps exactly the letters and digits of the lower-cased, normalised heading. */
  lemma SlugKeepsAlnums(rt: Runtime, heading: string)
    ensures '&' !in rt.nfkc(heading) ==> Alnums(Slug(rt, heading)) == Alnums(Lower(rt.nfkc(heading)))
  {
    var t := rt.nfkc(heading);
    LowerTrim(t);
    AlnumsTrim(Lower(t));
    TrimKeepsOut(Lower(t), '&');
    assert '&' !in t ==> '&' !in Lower(t);
    SlugOfKeepsAlnums(Lower(Trim(t)));
  }

  /** Whitespace is neither a letter nor a digit, so stripping it keeps them all. */
  lemma {:induction false} AlnumsTrim(t: string)
    ensures Alnums(Trim(t)) == Alnums(t)
    decreases |t|
  {
    if t != [] && t[0] in Whitespace {
      assert Trim(t) == Trim(t[1..]);
      assert Alnums(t) == [] + Alnums(t[1..]);
      AlnumsTrim(t[1..]);
    } else if t != [] && t[|t| - 1] in Whitespace {
      var init := t[..|t| - 1];
      assert Trim(t) == Trim(init);
      assert t == init + [t[|t| - 1]];
      AlnumsAppend(init, [t[|t| - 1]]);
      assert Alnums([t[|t| - 1]]) == [];
      AlnumsTrim(init);
    }
  }

  /** A word: a non-empty run of letters and digits, as the category patterns are. */
  predicate IsWord(p: string)
  {
    p != [] && forall i :: 0 <= i < |p| ==> IsAlnum(p[i])
  }

  predicate Words(ps: seq<string>)
  {
    forall j :: 0 <= j < |ps| ==> IsWord(ps[j])
  }

  /** Characters other than letters and digits in front of a match of words are not part of it. */
  lemma {:induction false} InOrderSkip(s: string, k: nat, ps: seq<string>)
    requires Words(ps) && k <= |s| && InOrder(s, ps)
    requires forall i :: 0 <= i < k ==> !IsAlnum(s[i])
    ensures InOrder(s[k..], ps)
    decreases k
  {
    if k == 0 {
      assert s[k..] == s;
    } else if ps != [] {
      assert IsAlnum(ps[0][0]);
      assert !StartsWith(s, ps[0]);
      assert forall i :: 0 <= i < k - 1 ==> s[1..][i] == s[i + 1];
      InOrderSkip(s[1..], k - 1, ps);
      assert s[1..][k - 1..] == s[k..];
    }
  }

  /** Characters other than letters and digits behind a match of words are not part of it. */
  lemma {:induction false} InOrderTruncate(s: string, k: nat, ps: seq<string>)
    requires Words(ps) && k <= |s| && InOrder(s, ps)
    requires forall i :: k <= i < |s| ==> !IsAlnum(s[i])
    ensures InOrder(s[..k], ps)
    decreases |s|
  {
    if ps != [] {
      var p := ps[0];
      assert IsWord(p);
      if k == 0 {
        InOrderSkip(s, |s|, ps);
        assert false;
      } else if StartsWith(s, p) && |p| <= |s| && InOrder(s[|p|..], ps[1..]) {
        StartsWithPrefix(s, p);
        assert s[|p| - 1] == p[|p| - 1];
        assert forall i :: k - |p| <= i < |s| - |p| ==> s[|p|..][i] == s[i + |p|];
        InOrderTruncate(s[|p|..], k - |p|, ps[1..]);
        assert s[..k][|p|..] == s[|p|..][..k - |p|];
        assert s[..k][..|p|] == p;
        PrefixStartsWith(s[..k], p);
      } else {
        assert forall i :: k - 1 <= i < |s| - 1 ==> s[1..][i] == s[i + 1];
        InOrderTruncate(s[1..], k - 1, ps);
        assert s[..k][1..] == s[1..][..k - 1];
      }
    }
  }

  lemma {:induction false} ReplaceAmpKeepsWords(s: string, ps: seq<string>)
    requires Words(ps) && InOrder(s, ps)
    ensures InOrder(ReplaceAmp(s), ps)
    decreases |s|
  {
    if ps != [] {
      var p := ps[0];
      assert IsWord(p);
      if StartsWith(s, p) && |p| <= |s| && InOrder(s[|p|..], ps[1..]) {
        StartsWithPrefix(s, p);
        assert s == p + s[|p|..];
        ReplaceAmpAppend(p, s[|p|..]);
        assert '&' !in p;
        ReplaceAmpKeepsWords(s[|p|..], ps[1..]);
        InOrderStartWith(p, ReplaceAmp(s[|p|..]), ps[1..]);
        assert [p] + ps[1..] == ps;
      } else {
        ReplaceAmpKeepsWords(s[1..], ps);
        InOrderPrepend(if s[0] == '&' then "and" else [s[0]], ReplaceAmp(s[1..]), ps);
      }
    }
  }

  /** A word at the front passes through `Collapse` unchanged. */
  lemma {:induction false} CollapseWordPrefix(p: string, t: string)
    requires IsWord(p)
    ensures Collapse(p + t) == p + Collapse(t)
    decreases |p|
  {
    assert (p + t)[0] == p[0] && (p + t)[1..] == p[1..] + t;
    assert Collapse(p + t) == [p[0]] + Collapse(p[1..] + t);
    if |p| == 1 {
      assert p[1..] + t == t && p == [p[0]];
    } else {
      CollapseWordPrefix(p[1..], t);
      assert [p[0]] + (p[1..] + Collapse(t)) == ([p[0]] + p[1..]) + Collapse(t);
      assert p == [p[0]] + p[1..];
    }
  }

  lemma {:induction false} CollapseKeepsWords(s: string, ps: seq<string>)
    requires Words(ps) && InOrder(s, ps)
    ensures InOrder(Collapse(s), ps)
    decreases |s|
  {
    if ps != [] {
      var p := ps[0];
      if StartsWith(s, p) && |p| <= |s| && InOrder(s[|p|..], ps[1..]) {
        CollapseWordTurn(s, ps);
      } else if IsAlnum(s[0]) {
        CollapseAlnumTurn(s, ps);
      } else {
        CollapseRunTurn(s, ps);
      }
    }
  }

  /** The case of `CollapseKeepsWords` where a letter or digit at the front is passed over. */
  lemma {:induction false} CollapseAlnumTurn(s: string, ps: seq<string>)
    requires Words(ps) && s != [] && IsAlnum(s[0]) && InOrder(s[1..], ps)
    ensures InOrder(Collapse(s), ps)
    decreases |s|, 0
  {
    assert Collapse(s) == [s[0]] + Collapse(s[1..]);
    CollapseKeepsWords(s[1..], ps);
    InOrderPrepend([s[0]], Collapse(s[1..]), ps);
  }

  /** The case of `CollapseKeepsWords` where a run of other characters at the front becomes `_`. */
  lemma {:induction false} CollapseRunTurn(s: string, ps: seq<string>)
    requires Words(ps) && ps != [] && s != [] && !IsAlnum(s[0]) && InOrder(s, ps)
    ensures InOrder(Collapse(s), ps)
    decreases |s|, 0
  {
    var d := DropNonAlnumPrefix(s);
    var c := Collapse(d);
    assert InOrder(c, ps) by {
      DropKeepsInOrder(s, ps);
      CollapseKeepsWords(d, ps);
    }
    assert InOrder("_" + c, ps) by {
      InOrderPrepend("_", c, ps);
    }
    assert Collapse(s) == "_" + c;
  }

  /** Words survive dropping the leading run of other characters. */
  lemma DropKeepsInOrder(s: string, ps: seq<string>)
    requires Words(ps) && InOrder(s, ps)
    ensures InOrder(DropNonAlnumPrefix(s), ps)
  {
    DropKeepsAlnums(s);
    InOrderSkip(s, |s| - |DropNonAlnumPrefix(s)|, ps);
  }

  /** The case of `CollapseKeepsWords` where the first word matches at the front. */
  lemma {:induction false} CollapseWordTurn(s: string, ps: seq<string>)
    requires Words(ps) && ps != []
    requires StartsWith(s, ps[0]) && |ps[0]| <= |s| && InOrder(s[|ps[0]|..], ps[1..])
    ensures InOrder(Collapse(s), ps)
    decreases |s|, 0
  {
    var p := ps[0];
    var rest := s[|p|..];
    assert IsWord(p);
    assert s == p + rest by {
      StartsWithPrefix(s, p);
    }
    CollapseWordPrefix(p, rest);
    assert InOrder(Collapse(rest), ps[1..]) by {
      CollapseKeepsWords(rest, ps[1..]);
    }
    InOrderStartWith(p, Collapse(rest), ps[1..]);
    assert [p] + ps[1..] == ps;
  }

  lemma StripKeepsWords(c: string, ps: seq<string>)
    requires Words(ps) && InOrder(c, ps)
    ensures InOrder(Strip(c, {'_'}), ps)
  {
    var left := StripLeft(c, {'_'});
    InOrderSkip(c, |c| - |left|, ps);
    InOrderTruncate(left, |StripRight(left, {'_'})|, ps);
  }

  /** Words found in order in a lower-cased key are still found in order in its slug. */
  lemma SlugOfKeepsWords(key: string, ps: seq<string>)
    requires Words(ps) && InOrder(key, ps)
    ensures InOrder(SlugOf(key), ps)
  {
    var d := DropNonAlnumPrefix(key);
    var a := ReplaceAmp(d);
    var c := Collapse(a);
    assert InOrder(d, ps) by {
      DropKeepsAlnums(key);
      InOrderSkip(key, |key| - |d|, ps);
    }
    assert InOrder(a, ps) by {
      ReplaceAmpKeepsWords(d, ps);
    }
    assert InOrder(c, ps) by {
      CollapseKeepsWords(a, ps);
    }
    StripKeepsWords(c, ps);
    assert SlugOf(key) == Strip(c, {'_'});
  }

  lemma {:induction false} InOrderTrim(t: string, ps: seq<string>)
    requires Words(ps) && InOrder(t, ps)
    ensures InOrder(Trim(t), ps)
    decreases |t|
  {
    if t != [] && t[0] in Whitespace {
      InOrderSkip(t, 1, ps);
      InOrderTrim(t[1..], ps);
    } else if t != [] && t[|t| - 1] in Whitespace {
      InOrderTruncate(t, |t| - 1, ps);
      InOrderTrim(t[..|t| - 1], ps);
    }
  }

  /**
   * Words found in order in the lower-cased, normalised heading are found in
   * order in its slug, so the patterns built from words see them.
   */
  lemma SlugKeepsWords(rt: Runtime, heading: string, ps: seq<string>)
    requires Words(ps) && InOrder(Lower(rt.nfkc(heading)), ps)
    ensures InOrder(Lower(Trim(rt.nfkc(heading))), ps)
    ensures InOrder(Slug(rt, heading), ps)
  {
    var t := rt.nfkc(heading);
    LowerTrim(t);
    InOrderTrim(Lower(t), ps);
    SlugOfKeepsWords(Lower(Trim(t)), ps);
  }

  // ---------------------------------------------------------------------------
  // The canonical categories classify as themselves

  /** A key no pattern matches is kept as it is. */
  lemma ClassifyNoPattern(key: string)
    requires key != "" && key != "tone"
    requires !InOrder(key, ["send", "cs"]) && !Contains(key, "escalat") && !Contains(key, "template")
    requires !InOrder(key, ["do", "and", "don"]) && !Contains(key, "dos_and_donts")
    requires !Contains(key, "don_ts") && !Contains(key, "donts")
    requires !InOrder(key, ["drive", "purchase"]) && !Contains(key, "promo")
    ensures Classify(key) == key
  {
  }

  lemma ImportantMissesSendAndEscalate(c: string)
    requires c == Important
    ensures !InOrder(c, ["send", "cs"]) && !Contains(c, "escalat") && !Contains(c, "template")
  {
    assert 's' !in c;
    NotInOrder(c, ["send", "cs"], 0, 's');
    assert 'e' !in c;
    NotContains(c, "escalat", 'e');
    NotContains(c, "template", 'e');
  }

  lemma ImportantMissesD(c: string)
    requires c == Important
    ensures !InOrder(c, ["do", "and", "don"]) && !Contains(c, "dos_and_donts")
    ensures !Contains(c, "don_ts") && !Contains(c, "donts") && !InOrder(c, ["drive", "purchase"])
  {
    assert 'd' !in c;
    NotInOrder(c, ["do", "and", "don"], 0, 'd');
    NotContains(c, "dos_and_donts", 'd');
    NotContains(c, "don_ts", 'd');
    NotContains(c, "donts", 'd');
    NotInOrder(c, ["drive", "purchase"], 0, 'd');
  }

  /** The only `p` of "important" is followed by `o`, so "promo" does not occur. */
  lemma ImportantMissesPromo(c: string)
    requires c == Important
    ensures !Contains(c, "promo")
  {
    var a, b := "im", "portant";
    assert c == a + b && 'p' !in a && b[1..] == "ortant" && 'p' !in b[1..];
    assert !StartsWith(b[1..], "romo");
    NotContainsPastHead(a, b, "promo");
  }

  lemma ClassifyImportant(c: string)
    requires c == Important
    ensures Classify(c) == c
  {
    ImportantMissesSendAndEscalate(c);
    ImportantMissesD(c);
    ImportantMissesPromo(c);
    ClassifyNoPattern(c);
  }

  lemma ClassifySendToCs(c: string)
    requires c == SendToCs
    ensures Classify(c) == c
  {
    InOrderPair(c, "send", "cs", 4);
  }

  lemma ClassifyEscalate(c: string)
    requires c == "escalate"
    ensures Classify(c) == c
  {
    assert 'n' !in c;
    NotInOrder(c, ["send", "cs"], 0, 'n');
    PrefixStartsWith(c, "escalat");
  }

  lemma ClassifyTone(c: string)
    requires c == "tone"
    ensures Classify(c) == c
  {
    assert 's' !in c;
    NotInOrder(c, ["send", "cs"], 0, 's');
    NotContains(c, "escalat", 's');
  }

  lemma ClassifyTemplates(c: string)
    requires c == "templates"
    ensures Classify(c) == c
  {
    assert 'n' !in c && 'c' !in c;
    NotInOrder(c, ["send", "cs"], 0, 'n');
    NotContains(c, "escalat", 'c');
    PrefixStartsWith(c, "template");
  }

  lemma DosAndDontsMisses(c: string)
    requires c == "dos_and_donts"
    ensures !InOrder(c, ["send", "cs"]) && !Contains(c, "escalat") && !Contains(c, "template")
  {
    assert 'e' !in c;
    NotInOrder(c, ["send", "cs"], 0, 'e');
    NotContains(c, "escalat", 'e');
    NotContains(c, "template", 'e');
  }

  lemma ClassifyDosAndDonts(c: string)
    requires c == "dos_and_donts"
    ensures Classify(c) == c
  {
    DosAndDontsMisses(c);
    PrefixStartsWith(c, c);
    assert Contains(c, "dos_and_donts");
  }

  lemma DriveToPurchaseMissesEarly(c: string)
    requires c == "drive_to_purchase"
    ensures !Contains(c, "escalat") && !Contains(c, "template")
  {
    assert 'l' !in c && 'm' !in c;
    NotContains(c, "escalat", 'l');
    NotContains(c, "template", 'm');
  }

  /** "drive_to_purchase" has no `n`. */
  lemma DriveToPurchaseMisses(c: string)
    requires c == "drive_to_purchase"
    ensures !InOrder(c, ["send", "cs"]) && !InOrder(c, ["do", "and", "don"]) && !Contains(c, "dos_and_donts")
    ensures !Contains(c, "don_ts") && !Contains(c, "donts")
  {
    assert 'n' !in c;
    NotInOrder(c, ["send", "cs"], 0, 'n');
    NotInOrder(c, ["do", "and", "don"], 1, 'n');
    NotContains(c, "dos_and_donts", 'n');
    NotContains(c, "don_ts", 'n');
    NotContains(c, "donts", 'n');
  }

  lemma ClassifyDriveToPurchase(c: string)
    requires c == "drive_to_purchase"
    ensures Classify(c) == c
  {
    DriveToPurchaseMissesEarly(c);
    DriveToPurchaseMisses(c);
    InOrderPair(c, "drive", "purchase", 4);
  }

  /** "promo_and_exclusions" has its only `s`, `e` and `d` where "send", "escalat" and "don" cannot match. */
  lemma PromoMissesEarlier(c: string)
    requires c == "promo_and_exclusions"
    ensures !InOrder(c, ["send", "cs"]) && !Contains(c, "escalat")
  {
    var a, b := "promo_and_", "exclusions";
    assert c == a + b && 's' !in a && 'e' !in a && 'd' !in b && 'a' !in b;
    if InOrder(c, ["send", "cs"]) {
      InOrderContains(c, ["send", "cs"], 0);
      ContainsSkip(a, b, "send");
      ContainsChar(b, "send", 'd');
    }
    if Contains(c, "escalat") {
      ContainsSkip(a, b, "escalat");
      ContainsChar(b, "escalat", 'a');
    }
  }

  /** The only `d` of "promo_and_exclusions" is followed by `_`, so "don" does not occur. */
  lemma PromoMissesDon(c: string)
    requires c == "promo_and_exclusions"
    ensures !Contains(c, "don")
  {
    var a, b := "promo_an", "d_exclusions";
    assert c == a + b && 'd' !in a && 'd' !in b[1..];
    assert !StartsWith(b[1..], "on");
    NotContainsPastHead(a, b, "don");
  }

  lemma PromoMissesT(c: string)
    requires c == "promo_and_exclusions"
    ensures !Contains(c, "template") && !Contains(c, "dos_and_donts")
    ensures !Contains(c, "don_ts") && !Contains(c, "donts")
  {
    assert 't' !in c;
    NotContains(c, "template", 't');
    NotContains(c, "dos_and_donts", 't');
    NotContains(c, "don_ts", 't');
    NotContains(c, "donts", 't');
  }

  lemma PromoMissesDrive(c: string)
    requires c == "promo_and_exclusions"
    ensures !InOrder(c, ["drive", "purchase"])
  {
    assert 'v' !in c;
    NotInOrder(c, ["drive", "purchase"], 0, 'v');
  }

  lemma ClassifyPromo(c: string)
    requires c == "promo_and_exclusions"
    ensures Classify(c) == c
  {
    PromoMissesEarlier(c);
    PromoMissesDon(c);
    if InOrder(c, ["do", "and", "don"]) {
      InOrderContains(c, ["do", "and", "don"], 2);
    }
    PromoMissesT(c);
    PromoMissesDrive(c);
    PrefixStartsWith(c, "promo");
  }

  /** Every canonical category classifies as itself. */
  lemma ClassifyCanonical(c: string)
    requires IsCanonical(c)
    ensures Classify(c) == c
  {
    if c == Important {
      ClassifyImportant(c);
    } else if c == SendToCs {
      ClassifySendToCs(c);
    } else if c == "escalate" {
      ClassifyEscalate(c);
    } else if c == "tone" {
      ClassifyTone(c);
    } else if c == "templates" {
      ClassifyTemplates(c);
    } else if c == "dos_and_donts" {
      ClassifyDosAndDonts(c);
    } else if c == "drive_to_purchase" {
      ClassifyDriveToPurchase(c);
    } else {
      ClassifyPromo(c);
    }
  }

  /** A word of letters and digits is a slug. */
  lemma {:induction false} WordIsSlug(w: string)
    requires IsWord(w)
    ensures IsSlug(w)
    decreases |w|
  {
    if |w| > 1 {
      WordIsSlug(w[1..]);
    }
  }

  lemma {:induction false} JoinBody(a: string, b: string)
    requires CollapseBody(a) && (a == [] || a[|a| - 1] != '_')
    requires CollapseBody(b) && b != [] && b[0] != '_'
    ensures CollapseBody(a + "_" + b)
    decreases |a|
  {
    var s := a + "_" + b;
    if a == [] {
      assert s == "_" + b && s[1..] == b;
    } else {
      JoinBody(a[1..], b);
      assert s[1..] == a[1..] + "_" + b;
    }
  }

  /** Two slugs joined by one underscore make a slug. */
  lemma JoinIsSlug(a: string, b: string)
    requires IsSlug(a) && IsSlug(b)
    ensures IsSlug(a + "_" + b)
  {
    JoinBody(a, b);
  }

  lemma WordsAreSlugs(c: string)
    requires c == Important || c == "escalate" || c == "tone" || c == "templates"
    ensures IsSlug(c)
  {
    WordIsSlug(c);
  }

  /** Three words of letters and digits joined by underscores make a slug. */
  lemma ThreeWordsIsSlug(s: string, i: nat, j: nat)
    requires 0 < i && i + 1 < j && j + 1 < |s| && s[i] == '_' && s[j] == '_'
    requires forall k :: 0 <= k < |s| && k != i && k != j ==> IsAlnum(s[k])
    ensures IsSlug(s)
  {
    var w1, w2, w3 := s[..i], s[i + 1..j], s[j + 1..];
    WordIsSlug(w1);
    assert forall k :: 0 <= k < |w2| ==> w2[k] == s[i + 1 + k];
    WordIsSlug(w2);
    assert forall k :: 0 <= k < |w3| ==> w3[k] == s[j + 1 + k];
    WordIsSlug(w3);
    JoinIsSlug(w2, w3);
    assert s[i + 1..] == w2 + "_" + w3;
    JoinIsSlug(w1, s[i + 1..]);
    assert s == w1 + "_" + s[i + 1..];
  }

  lemma SendToCsIsSlug(c: string)
    requires c == SendToCs
    ensures IsSlug(c)
  {
    ThreeWordsIsSlug(c, 4, 7);
  }

  lemma DosAndDontsIsSlug(c: string)
    requires c == "dos_and_donts"
    ensures IsSlug(c)
  {
    ThreeWordsIsSlug(c, 3, 7);
  }

  lemma DriveToPurchaseIsSlug(c: string)
    requires c == "drive_to_purchase"
    ensures IsSlug(c)
  {
    ThreeWordsIsSlug(c, 5, 8);
  }

  lemma PromoIsSlug(c: string)
    requires c == "promo_and_exclusions"
    ensures IsSlug(c)
  {
    ThreeWordsIsSlug(c, 5, 9);
  }

  /** Every canonical category is a slug. */
  lemma CanonicalIsSlug(c: string)
    requires IsCanonical(c)
    ensures IsSlug(c)
  {
    if c == Important || c == "escalate" || c == "tone" || c == "templates" {
      WordsAreSlugs(c);
    } else if c == SendToCs {
      SendToCsIsSlug(c);
    } else if c == "dos_and_donts" {
      DosAndDontsIsSlug(c);
    } else if c == "drive_to_purchase" {
      DriveToPurchaseIsSlug(c);
    } else {
      PromoIsSlug(c);
    }
  }

  /** With an NFKC that keeps ASCII text, normalising a category key again gives it back. */
  lemma CategoryKeyIdempotent(rt: Runtime, heading: string)
    requires KeepsAscii(rt)
    ensures CategoryKey(rt, CategoryKey(rt, heading)) == CategoryKey(rt, heading)
  {
    var r := CategoryKey(rt, heading);
    if IsCanonical(r) {
      CanonicalIsSlug(r);
      ClassifyCanonical(r);
    }
    TrimOfSlug(r);
    SlugOfSlug(rt, r);
  }

  // ---------------------------------------------------------------------------
  // Which category a heading gets

  /**
   * The rules are tried in order and the first that matches decides: each
   * clause names a rule's category under the failure of every earlier rule.
   */
  lemma ClassifyFirstMatch(key: string)
    ensures InOrder(key, ["send", "cs"]) ==> Classify(key) == SendToCs
    ensures (!InOrder(key, ["send", "cs"]) && Contains(key, "escalat"))
            ==> Classify(key) == "escalate"
    ensures (!InOrder(key, ["send", "cs"]) && !Contains(key, "escalat") && key == "tone")
            ==> Classify(key) == "tone"
    ensures (!InOrder(key, ["send", "cs"]) && !Contains(key, "escalat") && key != "tone"
             && Contains(key, "template"))
            ==> Classify(key) == "templates"
    ensures (!InOrder(key, ["send", "cs"]) && !Contains(key, "escalat") && key != "tone"
             && !Contains(key, "template")
             && (InOrder(key, ["do", "and", "don"]) || Contains(key, "dos_and_donts")
                 || Contains(key, "don_ts") || Contains(key, "donts")))
            ==> Classify(key) == "dos_and_donts"
    ensures (!InOrder(key, ["send", "cs"]) && !Contains(key, "escalat") && key != "tone"
             && !Contains(key, "template")
             && !InOrder(key, ["do", "and", "don"]) && !Contains(key, "dos_and_donts")
             && !Contains(key, "don_ts") && !Contains(key, "donts")
             && InOrder(key, ["drive", "purchase"]))
            ==> Classify(key) == "drive_to_purchase"
    ensures (!InOrder(key, ["send", "cs"]) && !Contains(key, "escalat") && key != "tone"
             && !Contains(key, "template")
             && !InOrder(key, ["do", "and", "don"]) && !Contains(key, "dos_and_donts")
             && !Contains(key, "don_ts") && !Contains(key, "donts")
             && !InOrder(key, ["drive", "purchase"]) && Contains(key, "promo"))
            ==> Classify(key) == "promo_and_exclusions"
  {
  }

  /** "important" comes out exactly for an empty slug and for "important" itself. */
  lemma ClassifyImportantIff(key: string)
    ensures Classify(key) == Important <==> key == "" || key == Important
  {
    if key == Important {
      ClassifyImportant(key);
    }
  }

  /** The pieces of the word patterns are words. */
  lemma PatternWords()
    ensures Words(["send", "cs"]) && Words(["escalat"])
  {
    assert IsWord("send") && IsWord("cs") && IsWord("escalat");
  }

  /**
   * A heading whose lower-cased text holds "send" and later "cs" is filed
   * under "send_to_cs", whatever else it says (for ASCII headings, which NFKC
   * keeps as they are).
   */
  lemma CategoryKeySendToCs(rt: Runtime, heading: string)
    requires KeepsAscii(rt) && IsAscii(heading) && InOrder(Lower(heading), ["send", "cs"])
    ensures CategoryKey(rt, heading) == SendToCs
  {
    assert rt.nfkc(heading) == heading;
    PatternWords();
    SlugKeepsWords(rt, heading, ["send", "cs"]);
    assert Trim(heading) != "";
    assert CategoryKey(rt, heading) == Classify(Slug(rt, heading));
  }

  lemma ExampleHeadingAscii(heading: string)
    requires heading == "Send escalations to CS"
    ensures IsAscii(heading)
  {
  }

  lemma ExampleHeadingText(heading: string)
    requires heading == "Send escalations to CS"
    ensures |Lower(heading)| == 22
    ensures Lower(heading)[..4] == "send" && Lower(heading)[5..12] == "escalat" && Lower(heading)[20..] == "cs"
  {
    var low := Lower(heading);
    assert low[..4] == "send";
    assert low[5..12] == "escalat";
    assert low[20..] == "cs";
  }

  lemma ExampleHeadingMatches(low: string)
    requires |low| == 22 && low[..4] == "send" && low[5..12] == "escalat" && low[20..] == "cs"
    ensures InOrder(low, ["send", "cs"]) && InOrder(low, ["escalat"])
  {
    InOrderPair(low, "send", "cs", 16);
    assert low[5..][..7] == "escalat";
    PrefixStartsWith(low[5..], "escalat");
    SuffixContains(low, 5, "escalat");
    ContainsInOrder(low, "escalat");
  }

  /**
   * A heading holding "escalat" as well as "send" and later "cs" has both
   * rules match its slug; the earlier rule wins.
   */
  lemma SendBeforeEscalate(rt: Runtime, heading: string)
    requires KeepsAscii(rt) && IsAscii(heading)
    requires InOrder(Lower(heading), ["send", "cs"]) && InOrder(Lower(heading), ["escalat"])
    ensures InOrder(Slug(rt, heading), ["escalat"])
    ensures CategoryKey(rt, heading) == SendToCs
  {
    CategoryKeySendToCs(rt, heading);
    assert InOrder(Lower(rt.nfkc(heading)), ["escalat"]) by {
      assert rt.nfkc(heading) == heading;
    }
    PatternWords();
    SlugKeepsWords(rt, heading, ["escalat"]);
  }

  /** "Send escalations to CS" is filed under "send_to_cs", not "escalate". */
  lemma SendEscalationsToCs(rt: Runtime, heading: string)
    requires KeepsAscii(rt) && heading == "Send escalations to CS"
    ensures InOrder(Slug(rt, heading), ["escalat"])
    ensures CategoryKey(rt, heading) == SendToCs
  {
    ExampleHeadingAscii(heading);
    ExampleHeadingText(heading);
    ExampleHeadingMatches(Lower(heading));
    SendBeforeEscalate(rt, heading);
  }
}
