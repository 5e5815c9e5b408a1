/**
 * Cleaning lists of strings: `convert_to_string_array`,
 * `unique_trimmed_string_array`, `normalize_message_media` and
 * `parse_list_like_text`. Each loop of the source is a method proved equal
 * to a specification function, and the properties are lemmas about those
 * functions.
 */
module StringLists {
  import opened Text
  import opened Dicts
  import opened JsonValues

  // ---------------------------------------------------------------------------
  // convert_to_string_array

  /** The items `convert_to_string_array` walks: a list's elements, a dict's values, or the value itself. */
  function ItemsOf(v: Json): seq<Json>
  {
    match v
    case Null => []
    case Arr(xs) => xs
    case Obj(fs) => Values(fs)
    case _ => [v]
  }

  /** A cleaned item is kept unless it is blank or the text of an empty dict or list. */
  predicate Kept(t: string)
  {
    t != "" && t != "{}" && t != "[]"
  }

  /** The kept cleaned texts of `xs`, in order. */
  function KeptTexts(rt: Runtime, xs: seq<Json>): (r: seq<string>)
    ensures |r| <= |xs|
    ensures forall i :: 0 <= i < |r| ==> Kept(r[i])
    decreases |xs|
  {
    if xs == [] then []
    else
      var init := KeptTexts(rt, xs[..|xs| - 1]);
      var t := Clean(rt, xs[|xs| - 1]);
      if Kept(t) then init + [t] else init
  }

  /** What `convert_to_string_array(value)` returns. */
  function StringArray(rt: Runtime, v: Json): (r: seq<string>)
    ensures |r| <= |ItemsOf(v)|
    ensures forall i :: 0 <= i < |r| ==> Kept(r[i])
  {
    KeptTexts(rt, ItemsOf(v))
  }

  method ConvertToStringArray(rt: Runtime, v: Json) returns (out: seq<string>)
    ensures out == StringArray(rt, v)
  {
    out := [];
    if v.Null? {
      return;
    }
    var items := ItemsOf(v);
    var i := 0;
    while i < |items|
      invariant 0 <= i <= |items|
      invariant out == KeptTexts(rt, items[..i])
    {
      var text := Clean(rt, items[i]);
      assert items[..i + 1][..i] == items[..i];
      if text != "" && text != "{}" && text != "[]" {
        out := out + [text];
      }
      i := i + 1;
    }
    assert items[..|items|] == items;
    assert out == KeptTexts(rt, items);
  }

  /** Every kept text is stripped of surrounding whitespace. */
  lemma {:induction false} KeptTextsTrimmed(rt: Runtime, xs: seq<Json>)
    ensures forall i :: 0 <= i < |KeptTexts(rt, xs)| ==> IsTrimmed(KeptTexts(rt, xs)[i])
    decreases |xs|
  {
    if xs != [] {
      KeptTextsTrimmed(rt, xs[..|xs| - 1]);
      TrimTwice(NormalizeText(rt, xs[|xs| - 1]));
    }
  }

  /** `s` is its own cleaned form. */
  predicate IsClean(rt: Runtime, s: string)
  {
    CleanStr(rt, s) == s
  }

  /** Kept clean strings pass through `convert_to_string_array` unchanged. */
  lemma {:induction false} KeptTextsOfCleanStrings(rt: Runtime, xs: seq<string>)
    requires forall i :: 0 <= i < |xs| ==> Kept(xs[i]) && IsClean(rt, xs[i])
    ensures StringArray(rt, Strs(xs)) == xs
  {
    KeptTextsOfStrs(rt, Strs(xs).items, xs);
  }

  lemma {:induction false} KeptTextsOfStrs(rt: Runtime, js: seq<Json>, xs: seq<string>)
    requires |js| == |xs|
    requires forall i :: 0 <= i < |xs| ==> js[i] == Str(xs[i]) && Kept(xs[i]) && IsClean(rt, xs[i])
    ensures KeptTexts(rt, js) == xs
    decreases |xs|
  {
    if xs != [] {
      var n := |xs| - 1;
      KeptTextsOfStrs(rt, js[..n], xs[..n]);
      assert NormalizeText(rt, js[n]) == rt.nfkc(xs[n]);
      assert Clean(rt, js[n]) == xs[n];
      assert xs == xs[..n] + [xs[n]];
    }
  }

  /** Under a stable cleaning, every element of a cleaned list is itself clean. */
  lemma {:induction false} KeptTextsAreClean(rt: Runtime, xs: seq<Json>)
    requires CleanIsStable(rt)
    ensures forall i :: 0 <= i < |KeptTexts(rt, xs)| ==> IsClean(rt, KeptTexts(rt, xs)[i])
    decreases |xs|
  {
    if xs != [] {
      KeptTextsAreClean(rt, xs[..|xs| - 1]);
      var last := xs[|xs| - 1];
      if !last.Null? {
        assert Clean(rt, last) == CleanStr(rt, PyStr(last));
        assert IsClean(rt, Clean(rt, last));
      }
    }
  }

  /** `convert_to_string_array` applied to its own output gives that output again. */
  lemma StringArrayIdempotent(rt: Runtime, v: Json)
    requires CleanIsStable(rt)
    ensures StringArray(rt, Strs(StringArray(rt, v))) == StringArray(rt, v)
  {
    KeptTextsAreClean(rt, ItemsOf(v));
    KeptTextsOfCleanStrings(rt, StringArray(rt, v));
  }

  // ---------------------------------------------------------------------------
  // unique_trimmed_string_array

  /** The case-insensitive keys of a list of strings. */
  function LowerKeys(xs: seq<string>): set<string>
  {
    set i | 0 <= i < |xs| :: Lower(xs[i])
  }

  /** The case-insensitive keys of the non-blank strings of a list. */
  function NonBlankKeys(xs: seq<string>): set<string>
  {
    set i | 0 <= i < |xs| && xs[i] != "" :: Lower(xs[i])
  }

  /** `normalize_text(item).strip()` of every item. */
  function CleanAll(rt: Runtime, xs: seq<string>): (r: seq<string>)
    ensures |r| == |xs|
  {
    seq(|xs|, i requires 0 <= i < |xs| => CleanStr(rt, xs[i]))
  }

  /**
   * The de-duplicating loop of `unique_trimmed_string_array` on cleaned texts:
   * a non-blank text is kept unless a text with the same lower-cased form was
   * kept before it.
   */
  function Dedup(ys: seq<string>): (r: seq<string>)
    ensures |r| <= |ys|
    ensures forall i :: 0 <= i < |r| ==> r[i] != ""
    ensures forall i, j :: 0 <= i < j < |r| ==> Lower(r[i]) != Lower(r[j])
    decreases |ys|
  {
    if ys == [] then []
    else
      var init := Dedup(ys[..|ys| - 1]);
      var t := ys[|ys| - 1];
      if t == "" || Lower(t) in LowerKeys(init) then init
      else
        LowerKeysSnoc(init, t);
        init + [t]
  }

  lemma LowerKeysSnoc(xs: seq<string>, t: string)
    ensures LowerKeys(xs + [t]) == LowerKeys(xs) + {Lower(t)}
  {
    var ys := xs + [t];
    assert Lower(ys[|xs|]) == Lower(t);
    forall k | k in LowerKeys(xs) ensures k in LowerKeys(ys) {
      var i :| 0 <= i < |xs| && Lower(xs[i]) == k;
      assert ys[i] == xs[i];
    }
  }

  lemma NonBlankKeysSnoc(xs: seq<string>, t: string)
    ensures NonBlankKeys(xs + [t]) == NonBlankKeys(xs) + (if t != "" then {Lower(t)} else {})
  {
    var ys := xs + [t];
    forall k | k in NonBlankKeys(xs) ensures k in NonBlankKeys(ys) {
      var i :| 0 <= i < |xs| && xs[i] != "" && Lower(xs[i]) == k;
      assert ys[i] == xs[i];
    }
    if t != "" {
      assert ys[|xs|] == t;
    }
    forall k | k in NonBlankKeys(ys) ensures k in NonBlankKeys(xs) || (t != "" && k == Lower(t)) {
      var i :| 0 <= i < |ys| && ys[i] != "" && Lower(ys[i]) == k;
      if i < |xs| {
        assert ys[i] == xs[i];
      }
    }
  }

  /** The kept texts carry exactly the keys of the non-blank input texts. */
  lemma {:induction false} DedupKeys(ys: seq<string>)
    ensures LowerKeys(Dedup(ys)) == NonBlankKeys(ys)
    decreases |ys|
  {
    if ys != [] {
      var init := ys[..|ys| - 1];
      var t := ys[|ys| - 1];
      DedupKeys(init);
      assert ys == init + [t];
      NonBlankKeysSnoc(init, t);
      if t != "" && Lower(t) !in LowerKeys(Dedup(init)) {
        LowerKeysSnoc(Dedup(init), t);
      }
    }
  }

  /** What `unique_trimmed_string_array(value)` returns. */
  function UniqueTrimmed(rt: Runtime, v: Json): seq<string>
  {
    Dedup(CleanAll(rt, StringArray(rt, v)))
  }

  method UniqueTrimmedStringArray(rt: Runtime, v: Json) returns (result: seq<string>)
    ensures result == UniqueTrimmed(rt, v)
  {
    var seen: set<string> := {};
    result := [];
    var items := ConvertToStringArray(rt, v);
    ghost var cleaned := CleanAll(rt, items);
    var i := 0;
    while i < |items|
      invariant 0 <= i <= |items|
      invariant result == Dedup(cleaned[..i])
      invariant seen == LowerKeys(result)
    {
      assert cleaned[..i + 1][..i] == cleaned[..i];
      var text := CleanStr(rt, items[i]);
      assert cleaned[..i + 1][i] == text;
      if text != "" {
        var key := Lower(text);
        if key !in seen {
          seen := seen + {key};
          LowerKeysSnoc(result, text);
          result := result + [text];
        }
      }
      i := i + 1;
    }
    assert cleaned[..|items|] == cleaned;
  }

  /** `ys[j]` is non-blank and no earlier non-blank text has its key. */
  predicate IsFirstOccurrence(ys: seq<string>, j: nat)
    requires j < |ys|
  {
    ys[j] != "" && forall i :: 0 <= i < j ==> ys[i] == "" || Lower(ys[i]) != Lower(ys[j])
  }

  /** Reference definition: the texts that are first occurrences of their key, in input order. */
  function FirstOccurrences(ys: seq<string>): seq<string>
    decreases |ys|
  {
    if ys == [] then []
    else FirstOccurrences(ys[..|ys| - 1]) + (if IsFirstOccurrence(ys, |ys| - 1) then [ys[|ys| - 1]] else [])
  }

  /** The de-duplicating loop keeps exactly the first occurrence of every case-insensitive key. */
  lemma {:induction false} DedupIsFirstOccurrences(ys: seq<string>)
    ensures Dedup(ys) == FirstOccurrences(ys)
    decreases |ys|
  {
    if ys != [] {
      var init := ys[..|ys| - 1];
      var t := ys[|ys| - 1];
      DedupIsFirstOccurrences(init);
      DedupKeys(init);
      if t != "" {
        if Lower(t) in LowerKeys(Dedup(init)) {
          var i :| 0 <= i < |init| && init[i] != "" && Lower(init[i]) == Lower(t);
          assert ys[i] == init[i];
          assert !IsFirstOccurrence(ys, |ys| - 1);
        } else {
          forall i | 0 <= i < |ys| - 1 && ys[i] != ""
            ensures Lower(ys[i]) != Lower(t)
          {
            assert ys[i] == init[i];
            assert Lower(init[i]) in NonBlankKeys(init);
          }
          assert IsFirstOccurrence(ys, |ys| - 1);
        }
      }
    }
  }

  /** Every kept text is one of the input texts. */
  lemma {:induction false} DedupFromInput(ys: seq<string>)
    ensures forall i :: 0 <= i < |Dedup(ys)| ==> Dedup(ys)[i] in ys
    decreases |ys|
  {
    if ys != [] {
      var init := ys[..|ys| - 1];
      DedupFromInput(init);
      forall i | 0 <= i < |Dedup(init)| ensures Dedup(init)[i] in ys {
        assert Dedup(init)[i] in init;
      }
    }
  }

  /** A list of non-blank texts with distinct keys is left as it is. */
  lemma {:induction false} DedupOfUnique(ys: seq<string>)
    requires forall i :: 0 <= i < |ys| ==> ys[i] != ""
    requires forall i, j :: 0 <= i < j < |ys| ==> Lower(ys[i]) != Lower(ys[j])
    ensures Dedup(ys) == ys
    decreases |ys|
  {
    if ys != [] {
      var init := ys[..|ys| - 1];
      DedupOfUnique(init);
      var t := ys[|ys| - 1];
      forall k | 0 <= k < |init| ensures Lower(init[k]) != Lower(t) {
        assert init[k] == ys[k];
      }
      assert Lower(t) !in LowerKeys(init);
    }
  }

  /** Every element of `unique_trimmed_string_array`'s result is stripped of surrounding whitespace. */
  lemma UniqueTrimmedTrimmed(rt: Runtime, v: Json)
    ensures forall i :: 0 <= i < |UniqueTrimmed(rt, v)| ==> IsTrimmed(UniqueTrimmed(rt, v)[i])
  {
    var cleaned := CleanAll(rt, StringArray(rt, v));
    DedupFromInput(cleaned);
    forall i | 0 <= i < |UniqueTrimmed(rt, v)| ensures IsTrimmed(UniqueTrimmed(rt, v)[i]) {
      var k :| 0 <= k < |cleaned| && cleaned[k] == UniqueTrimmed(rt, v)[i];
      TrimTwice(rt.nfkc(StringArray(rt, v)[k]));
    }
  }

  /** Cleaning clean strings changes nothing. */
  lemma CleanAllOfClean(rt: Runtime, xs: seq<string>)
    requires forall i :: 0 <= i < |xs| ==> IsClean(rt, xs[i])
    ensures CleanAll(rt, xs) == xs
  {
  }

  /**
   * `unique_trimmed_string_array` applied to its own output gives that output
   * again, when cleaning is stable.
   */
  lemma UniqueTrimmedIdempotent(rt: Runtime, v: Json)
    requires CleanIsStable(rt)
    ensures UniqueTrimmed(rt, Strs(UniqueTrimmed(rt, v))) == UniqueTrimmed(rt, v)
  {
    var a := StringArray(rt, v);
    var u := UniqueTrimmed(rt, v);
    KeptTextsAreClean(rt, ItemsOf(v));
    CleanAllOfClean(rt, a);
    DedupFromInput(a);
    forall i | 0 <= i < |u| ensures Kept(u[i]) && IsClean(rt, u[i]) {
      assert u[i] in a;
    }
    KeptTextsOfCleanStrings(rt, u);
    CleanAllOfClean(rt, u);
    DedupOfUnique(u);
  }

  /**
   * The result of `unique_trimmed_string_array` is a selection from
   * `convert_to_string_array`'s output: every element occurs there.
   */
  lemma UniqueTrimmedFromStringArray(rt: Runtime, v: Json)
    requires CleanIsStable(rt)
    ensures forall i :: 0 <= i < |UniqueTrimmed(rt, v)| ==> UniqueTrimmed(rt, v)[i] in StringArray(rt, v)
  {
    KeptTextsAreClean(rt, ItemsOf(v));
    CleanAllOfClean(rt, StringArray(rt, v));
    DedupFromInput(StringArray(rt, v));
  }

  /** On a list of clean strings, `convert_to_string_array` keeps exactly the kept ones. */
  lemma {:induction false} KeptTextsOfCleanStrs(rt: Runtime, js: seq<Json>, xs: seq<string>)
    requires |js| == |xs|
    requires forall i :: 0 <= i < |xs| ==> js[i] == Str(xs[i]) && IsClean(rt, xs[i])
    ensures forall t :: t in KeptTexts(rt, js) ==> t in xs
    ensures forall i :: 0 <= i < |xs| && Kept(xs[i]) ==> xs[i] in KeptTexts(rt, js)
    decreases |xs|
  {
    if xs != [] {
      var n := |xs| - 1;
      KeptTextsOfCleanStrs(rt, js[..n], xs[..n]);
      assert Clean(rt, js[n]) == xs[n] by {
        assert NormalizeText(rt, js[n]) == rt.nfkc(xs[n]);
      }
      assert xs == xs[..n] + [xs[n]];
    }
  }

  /** De-duplicating a list of clean strings keeps only strings of that list. */
  lemma UniqueTrimmedOfCleanWithin(rt: Runtime, xs: seq<string>)
    requires forall i :: 0 <= i < |xs| ==> IsClean(rt, xs[i])
    ensures forall i :: 0 <= i < |UniqueTrimmed(rt, Strs(xs))| ==> UniqueTrimmed(rt, Strs(xs))[i] in xs
  {
    var a := StringArray(rt, Strs(xs));
    KeptTextsOfCleanStrs(rt, Strs(xs).items, xs);
    forall i | 0 <= i < |a| ensures IsClean(rt, a[i]) {
      assert a[i] in xs;
    }
    CleanAllOfClean(rt, a);
    DedupFromInput(a);
  }

  /** A kept clean string of the list survives de-duplication, up to case. */
  lemma UniqueTrimmedOfCleanKeeps(rt: Runtime, xs: seq<string>, t: string)
    requires forall i :: 0 <= i < |xs| ==> IsClean(rt, xs[i])
    requires t in xs && Kept(t)
    ensures Lower(t) in LowerKeys(UniqueTrimmed(rt, Strs(xs)))
  {
    var a := StringArray(rt, Strs(xs));
    KeptTextsOfCleanStrs(rt, Strs(xs).items, xs);
    var j :| 0 <= j < |xs| && xs[j] == t;
    assert t in a;
    var k :| 0 <= k < |a| && a[k] == t;
    var c := CleanAll(rt, a);
    assert c[k] == t;
    assert Lower(c[k]) in NonBlankKeys(c);
    DedupKeys(c);
  }

  // ---------------------------------------------------------------------------
  // normalize_message_media

  /** The items `normalize_message_media` walks: a list's elements or the value itself. */
  function MediaItems(media: Json): seq<Json>
  {
    match media
    case Null => []
    case Arr(xs) => xs
    case _ => [media]
  }

  /** The non-blank cleaned texts of `xs`, in order. */
  function NonBlankTexts(rt: Runtime, xs: seq<Json>): (r: seq<string>)
    ensures |r| <= |xs|
    ensures forall i :: 0 <= i < |r| ==> r[i] != ""
    decreases |xs|
  {
    if xs == [] then []
    else
      var init := NonBlankTexts(rt, xs[..|xs| - 1]);
      var t := Clean(rt, xs[|xs| - 1]);
      if t != "" then init + [t] else init
  }

  /** Text bracketed like a JSON list. */
  predicate LooksLikeList(t: string)
  {
    StartsWith(t, "[") && EndsWith(t, "]")
  }

  /** What one media item contributes: nothing, its text, or the items of the list it encodes. */
  function MediaEntry(rt: Runtime, item: Json): (r: seq<string>)
    ensures forall i :: 0 <= i < |r| ==> r[i] != ""
  {
    var text := Clean(rt, item);
    if text == "" then []
    else if LooksLikeList(text) && ParseJsonText(rt, text).Arr? then
      NonBlankTexts(rt, ParseJsonText(rt, text).items)
    else [text]
  }

  function MediaOf(rt: Runtime, xs: seq<Json>): (r: seq<string>)
    ensures forall i :: 0 <= i < |r| ==> r[i] != ""
    decreases |xs|
  {
    if xs == [] then [] else MediaOf(rt, xs[..|xs| - 1]) + MediaEntry(rt, xs[|xs| - 1])
  }

  /** What `normalize_message_media(media)` returns. */
  function MessageMedia(rt: Runtime, media: Json): (r: seq<string>)
    ensures forall i :: 0 <= i < |r| ==> r[i] != ""
  {
    MediaOf(rt, MediaItems(media))
  }

  method NormalizeMessageMedia(rt: Runtime, media: Json) returns (result: seq<string>)
    ensures result == MessageMedia(rt, media)
  {
    result := [];
    if media.Null? {
      return;
    }
    var items := MediaItems(media);
    var i := 0;
    while i < |items|
      invariant 0 <= i <= |items|
      invariant result == MediaOf(rt, items[..i])
    {
      assert items[..i + 1][..i] == items[..i];
      ghost var before := result;
      ghost var entry := MediaEntry(rt, items[i]);
      assert MediaOf(rt, items[..i + 1]) == before + entry;
      var text := Clean(rt, items[i]);
      if text != "" {
        var nested := if LooksLikeList(text) then ParseJsonText(rt, text) else Null;
        if nested.Arr? {
          assert entry == NonBlankTexts(rt, nested.items);
          var texts := NonBlankItems(rt, nested.items);
          result := result + texts;
        } else {
          assert entry == [text];
          result := result + [text];
        }
      } else {
        assert entry == [];
      }
      assert result == before + entry;
      i := i + 1;
    }
    assert items[..|items|] == items;
  }

  lemma {:induction false} NonBlankTextsTrimmed(rt: Runtime, xs: seq<Json>)
    ensures forall i :: 0 <= i < |NonBlankTexts(rt, xs)| ==> IsTrimmed(NonBlankTexts(rt, xs)[i])
    decreases |xs|
  {
    if xs != [] {
      NonBlankTextsTrimmed(rt, xs[..|xs| - 1]);
      TrimTwice(NormalizeText(rt, xs[|xs| - 1]));
    }
  }

  /** Every media reference `normalize_message_media` returns is stripped of surrounding whitespace. */
  lemma {:induction false} MediaOfTrimmed(rt: Runtime, xs: seq<Json>)
    ensures forall i :: 0 <= i < |MediaOf(rt, xs)| ==> IsTrimmed(MediaOf(rt, xs)[i])
    decreases |xs|
  {
    if xs != [] {
      MediaOfTrimmed(rt, xs[..|xs| - 1]);
      var item := xs[|xs| - 1];
      var text := Clean(rt, item);
      if text != "" && LooksLikeList(text) && ParseJsonText(rt, text).Arr? {
        NonBlankTextsTrimmed(rt, ParseJsonText(rt, text).items);
      } else {
        TrimTwice(NormalizeText(rt, item));
      }
    }
  }

  /** The inner loop of `normalize_message_media` over the items of an encoded list. */
  method NonBlankItems(rt: Runtime, xs: seq<Json>) returns (texts: seq<string>)
    ensures texts == NonBlankTexts(rt, xs)
  {
    texts := [];
    var j := 0;
    while j < |xs|
      invariant 0 <= j <= |xs|
      invariant texts == NonBlankTexts(rt, xs[..j])
    {
      assert xs[..j + 1][..j] == xs[..j];
      var nestedText := Clean(rt, xs[j]);
      if nestedText != "" {
        texts := texts + [nestedText];
      }
      j := j + 1;
    }
    assert xs[..|xs|] == xs;
  }

  /** Media items that do not encode a list pass through cleaned, in order, blanks dropped. */
  lemma {:induction false} PlainMediaPassThrough(rt: Runtime, xs: seq<Json>)
    requires forall i :: 0 <= i < |xs| ==> !LooksLikeList(Clean(rt, xs[i]))
    ensures MediaOf(rt, xs) == NonBlankTexts(rt, xs)
    decreases |xs|
  {
    if xs != [] {
      PlainMediaPassThrough(rt, xs[..|xs| - 1]);
    }
  }

  // ---------------------------------------------------------------------------
  // parse_list_like_text

  function IndexOfChar(s: string, c: char): (k: nat)
    requires c in s
    ensures k < |s| && s[k] == c && c !in s[..k]
  {
    if s[0] == c then 0 else assert c in s[1..]; 1 + IndexOfChar(s[1..], c)
  }

  /**
   * The captured texts of `re.findall(r"'([^']*)'|\"([^\"]*)\"", s)`: each
   * quote opens a group that ends at the next quote of the same kind; a quote
   * with no partner is skipped.
   */
  function QuotedGroups(s: string): seq<string>
    decreases |s|
  {
    if s == [] then []
    else if (s[0] == '\'' || s[0] == '"') && s[0] in s[1..] then
      var k := IndexOfChar(s[1..], s[0]);
      [s[1..][..k]] + QuotedGroups(s[1..][k + 1..])
    else QuotedGroups(s[1..])
  }

  /** The non-blank trimmed texts of `xs`, in order. */
  function TrimmedNonBlank(xs: seq<string>): (r: seq<string>)
    ensures forall i :: 0 <= i < |r| ==> r[i] != ""
    decreases |xs|
  {
    if xs == [] then []
    else
      var init := TrimmedNonBlank(xs[..|xs| - 1]);
      var t := Trim(xs[|xs| - 1]);
      if t != "" then init + [t] else init
  }

  const ListSeparators: set<char> := {',', '\n', '\r'}
  const QuoteOrSpace: set<char> := {' ', '"', '\''}

  /**
   * The fallback split of `parse_list_like_text`. Splitting at every separator
   * instead of at runs of separators only adds empty parts, which the filter
   * drops either way.
   */
  function SplitParts(parts: seq<string>): (r: seq<string>)
    ensures forall i :: 0 <= i < |r| ==> r[i] != ""
    decreases |parts|
  {
    if parts == [] then []
    else
      var p := Strip(parts[0], QuoteOrSpace);
      (if p != "" then [p] else []) + SplitParts(parts[1..])
  }

  /** What `parse_list_like_text(text)` returns. */
  function ListLikeText(rt: Runtime, text: string): (r: seq<string>)
    ensures CleanStr(rt, text) == "" || CleanStr(rt, text) == "[]" ==> r == []
    ensures forall i :: 0 <= i < |r| ==> r[i] != ""
  {
    var raw := CleanStr(rt, text);
    if raw == "" || raw == "[]" then []
    else
      var parsed := ParseJsonText(rt, raw);
      if !parsed.Null? then StringArray(rt, parsed)
      else
        var groups := QuotedGroups(raw);
        if groups != [] then TrimmedNonBlank(groups)
        else
          var fallback := Strip(raw, {'[', ']'});
          if fallback == "" then [] else SplitParts(SplitOn(fallback, ListSeparators))
  }

  method ParseListLikeText(rt: Runtime, text: string) returns (out: seq<string>)
    ensures out == ListLikeText(rt, text)
  {
    var raw := CleanStr(rt, text);
    if raw == "" || raw == "[]" {
      return [];
    }
    var parsed := ParseJsonText(rt, raw);
    if !parsed.Null? {
      out := ConvertToStringArray(rt, parsed);
      return;
    }
    var matches := QuotedGroups(raw);
    if matches != [] {
      out := [];
      var i := 0;
      while i < |matches|
        invariant 0 <= i <= |matches|
        invariant out == TrimmedNonBlank(matches[..i])
      {
        assert matches[..i + 1][..i] == matches[..i];
        var val := Trim(matches[i]);
        if val != "" {
          out := out + [val];
        }
        i := i + 1;
      }
      assert matches[..|matches|] == matches;
      return;
    }
    var fallback := Strip(raw, {'[', ']'});
    if fallback == "" {
      return [];
    }
    out := SplitParts(SplitOn(fallback, ListSeparators));
  }
}
