/**
 * Guideline notes: `parse_company_notes_to_categories`, which reads the
 * free-text company notes of a CSV row into categories, and
 * `normalize_scenario_notes`, which cleans the notes object a scenario
 * already carries. Both produce a dict from category keys to lists of note
 * texts; each loop of the source is a method proved equal to a fold.
 */
module Notes {
  import opened Wrappers
  import opened Text
  import opened Dicts
  import opened JsonValues
  import opened StringLists
  import opened CategoryKeys

  /** Category key to note texts, in insertion order. */
  type Categories = Dict<seq<string>>

  /** Every category has at least one note. */
  predicate NoEmptyCategory(d: Categories)
  {
    forall i :: 0 <= i < |d| ==> d[i].1 != []
  }

  /** Every key is a canonical category or a slug. */
  predicate WellKeyed(ks: seq<string>)
  {
    forall i :: 0 <= i < |ks| ==> IsCanonical(ks[i]) || IsSlug(ks[i])
  }

  /** `d.setdefault(k, []).append(t)` */
  function AppendTo(d: Categories, k: string, t: string): Categories
  {
    Put(d, k, Get(d, k, []) + [t])
  }

  // ---------------------------------------------------------------------------
  // parse_company_notes_to_categories

  /** `has_styled_math_chars`: a character of the Mathematical Alphanumeric Symbols block. */
  predicate HasStyledMathChars(t: string)
  {
    exists i :: 0 <= i < |t| && '\U{1D400}' <= t[i] <= '\U{1D7FF}'
  }

  /** A leading `•` and then a leading `-` are dropped, each with the spaces after it. */
  function BulletItem(item: string): string
  {
    var a := if item != [] && item[0] == '•' then Trim(item[1..]) else item;
    if a != [] && a[0] == '-' then Trim(a[1..]) else a
  }

  /** The text stored for a bullet: styled text is wrapped in `**`, and everything is cleaned. */
  function NoteText(rt: Runtime, item: string): string
  {
    var t := if HasStyledMathChars(item) then "**" + CleanStr(rt, item) + "**" else item;
    CleanStr(rt, t)
  }

  /** The notes read so far and the category new notes go to. */
  datatype Reading = Reading(notes: Categories, current: string)

  /** One line of the notes: blank, a `#` heading that opens a category, or a note. */
  function ReadLine(rt: Runtime, st: Reading, line: string): Reading
  {
    var item := Trim(line);
    if item == "" then st
    else if item[0] == '#' then
      var k := CategoryKey(rt, Trim(StripLeft(item, {'#'})));
      Reading(SetDefault(st.notes, k, []), k)
    else
      var b := BulletItem(item);
      if b == "" then st else Reading(AppendTo(st.notes, st.current, NoteText(rt, b)), st.current)
  }

  /** The lines read in order, from an empty "important" category. */
  function ReadLines(rt: Runtime, lines: seq<string>): Reading
    decreases |lines|
  {
    if lines == [] then Reading([(Important, [])], Important)
    else ReadLine(rt, ReadLines(rt, lines[..|lines| - 1]), lines[|lines| - 1])
  }

  /** `{k: v for k, v in d.items() if v}` */
  function NonEmpty(d: Categories): (r: Categories)
    ensures NoEmptyCategory(r)
    ensures |r| <= |d|
    ensures forall i :: 0 <= i < |r| ==> r[i] in d
    ensures forall i :: 0 <= i < |d| && d[i].1 != [] ==> d[i] in r
    decreases |d|
  {
    if d == [] then []
    else
      var init := NonEmpty(d[..|d| - 1]);
      var last := d[|d| - 1];
      assert forall i :: 0 <= i < |d| - 1 ==> d[..|d| - 1][i] == d[i];
      if last.1 != [] then init + [last] else init
  }

  /** What `parse_company_notes_to_categories(text)` returns. */
  function CompanyNotes(rt: Runtime, text: string): (r: Categories)
    ensures CleanStr(rt, text) == "" ==> r == []
    ensures NoEmptyCategory(r)
  {
    var raw := CleanStr(rt, text);
    if raw == "" then [] else NonEmpty(ReadLines(rt, SplitOn(raw, {'\n'})).notes)
  }

  /** One iteration of the line loop. */
  method ReadOne(rt: Runtime, all: Categories, current: string, line: string)
    returns (allOut: Categories, currentOut: string)
    ensures Reading(allOut, currentOut) == ReadLine(rt, Reading(all, current), line)
  {
    allOut, currentOut := all, current;
    var item := Trim(line);
    if item != "" {
      if item[0] == '#' {
        currentOut := CategoryKey(rt, Trim(StripLeft(item, {'#'})));
        allOut := SetDefault(all, currentOut, []);
      } else {
        ghost var b := BulletItem(item);
        if item[0] == '•' {
          item := Trim(item[1..]);
        }
        if item != "" && item[0] == '-' {
          item := Trim(item[1..]);
        }
        assert item == b;
        if item != "" {
          ghost var t := NoteText(rt, item);
          if HasStyledMathChars(item) {
            item := "**" + CleanStr(rt, item) + "**";
          }
          assert CleanStr(rt, item) == t;
          allOut := AppendTo(all, current, CleanStr(rt, item));
        }
      }
    }
  }

  method ParseCompanyNotesToCategories(rt: Runtime, text: string) returns (notes: Categories)
    ensures notes == CompanyNotes(rt, text)
  {
    var raw := CleanStr(rt, text);
    if raw == "" {
      return [];
    }
    var lines := SplitOn(raw, {'\n'});
    var all: Categories := [(Important, [])];
    var current := Important;
    var i := 0;
    while i < |lines|
      invariant 0 <= i <= |lines|
      invariant Reading(all, current) == ReadLines(rt, lines[..i])
    {
      assert lines[..i + 1][..i] == lines[..i];
      all, current := ReadOne(rt, all, current, lines[i]);
      i := i + 1;
    }
    assert lines[..|lines|] == lines;
    notes := NonEmpty(all);
  }

  /** The keys of the notes are distinct and well formed, and the current category is one of them. */
  predicate GoodReading(st: Reading)
  {
    DistinctKeys(st.notes) && WellKeyed(Keys(st.notes)) && Has(st.notes, st.current)
  }

  lemma ReadLineKeys(rt: Runtime, st: Reading, line: string)
    requires GoodReading(st)
    ensures GoodReading(ReadLine(rt, st, line))
  {
    var r := ReadLine(rt, st, line);
    var item := Trim(line);
    if item != "" && item[0] == '#' {
      var k := CategoryKey(rt, Trim(StripLeft(item, {'#'})));
      assert r.notes == SetDefault(st.notes, k, []);
      DistinctKeysGrow(st.notes, r.notes);
    } else {
      assert Keys(r.notes) == Keys(st.notes);
      DistinctKeysGrow(st.notes, r.notes);
    }
  }

  /** The notes read from any lines have distinct, well-formed keys. */
  lemma {:induction false} ReadLinesKeys(rt: Runtime, lines: seq<string>)
    ensures GoodReading(ReadLines(rt, lines))
    decreases |lines|
  {
    if lines == [] {
      CanonicalIsSlug(Important);
      assert Keys(ReadLines(rt, lines).notes) == [Important];
    } else {
      ReadLinesKeys(rt, lines[..|lines| - 1]);
      ReadLineKeys(rt, ReadLines(rt, lines[..|lines| - 1]), lines[|lines| - 1]);
    }
  }

  /** `{k: v for k, v in d.items() if v}` keeps distinct keys distinct. */
  lemma {:induction false} NonEmptyKeys(d: Categories)
    requires DistinctKeys(d)
    ensures DistinctKeys(NonEmpty(d))
    decreases |d|
  {
    if d != [] {
      var init := d[..|d| - 1];
      NonEmptyKeys(init);
      var last := d[|d| - 1];
      if last.1 != [] {
        var r := NonEmpty(init);
        forall i | 0 <= i < |r| ensures r[i].0 != last.0 {
          var j :| 0 <= j < |init| && init[j] == r[i];
          assert init[j] == d[j];
        }
        assert NonEmpty(d) == r + [last];
      }
    }
  }

  /**
   * The categories read from company notes: no category is empty, keys are
   * distinct, and every key is a canonical category or a slug.
   */
  lemma CompanyNotesShape(rt: Runtime, text: string)
    ensures NoEmptyCategory(CompanyNotes(rt, text))
    ensures DistinctKeys(CompanyNotes(rt, text))
    ensures WellKeyed(Keys(CompanyNotes(rt, text)))
  {
    var raw := CleanStr(rt, text);
    if raw != "" {
      var all := ReadLines(rt, SplitOn(raw, {'\n'})).notes;
      ReadLinesKeys(rt, SplitOn(raw, {'\n'}));
      NonEmptyKeys(all);
      var r := NonEmpty(all);
      forall i | 0 <= i < |r| ensures IsCanonical(Keys(r)[i]) || IsSlug(Keys(r)[i]) {
        var j :| 0 <= j < |all| && all[j] == r[i];
        assert Keys(all)[j] == r[i].0;
      }
    }
  }

  // ---------------------------------------------------------------------------
  // normalize_scenario_notes

  /**
   * `re.match(r"^\*{0,2}\s*#\s*(.+)$", txt)` on text with no whitespace at
   * either end (the only text it is applied to): the captured heading. The
   * spaces after `#` go to the greedy `\s*`, and `.` does not match a line break.
   */
  function HeadingOf(txt: string): (r: Option<string>)
    ensures r.Some? ==> r.value != [] && '\n' !in r.value
  {
    var n := if |txt| >= 2 && txt[0] == '*' && txt[1] == '*' then 2 else if txt != [] && txt[0] == '*' then 1 else 0;
    var rest := StripLeft(txt[n..], Whitespace);
    if rest == [] || rest[0] != '#' then None
    else
      var g := StripLeft(rest[1..], Whitespace);
      if g == [] || '\n' in g then None else Some(g)
  }

  /** `send\s*to\s*cs` matched at the start of `s`. */
  predicate SendToCsAt(s: string)
  {
    |s| >= 4 && s[..4] == "send"
    && var a := StripLeft(s[4..], Whitespace);
       |a| >= 2 && a[..2] == "to" && StartsWith(StripLeft(a[2..], Whitespace), "cs")
  }

  /** `send\s*to\s*cs` found anywhere in `s`. */
  predicate SearchSendToCs(s: string)
    decreases |s|
  {
    SendToCsAt(s) || (s != [] && SearchSendToCs(s[1..]))
  }

  /**
   * The case-insensitive search that moves a note from "important" to
   * "send_to_cs": it mentions sending to CS, the CS support address,
   * post-purchase matters or shipping inquiries on a current order.
   */
  predicate ForCustomerSupport(txt: string)
  {
    var t := Lower(txt);
    SearchSendToCs(t) || Contains(t, "cssupport@") || Contains(t, "post-purchase")
    || Contains(t, "shipping inquiries on a current order")
  }

  /** One item of a category: blank, a heading that opens another category, or a note filed under `key`. */
  function FileItem(rt: Runtime, d: Categories, key: string, item: string): Categories
  {
    var txt := CleanStr(rt, item);
    if txt == "" then d
    else match HeadingOf(txt)
      case Some(g) => SetDefault(d, CategoryKey(rt, g), [])
      case None => AppendTo(d, key, txt)
  }

  function FileItems(rt: Runtime, d: Categories, key: string, items: seq<string>): Categories
    decreases |items|
  {
    if items == [] then d
    else FileItem(rt, FileItems(rt, d, key, items[..|items| - 1]), key, items[|items| - 1])
  }

  /** One entry of the notes object: its key is normalised and its items filed under it. */
  function FileEntry(rt: Runtime, d: Categories, rawKey: string, rawVal: Json): Categories
  {
    var key := CategoryKey(rt, CleanStr(rt, rawKey));
    FileItems(rt, SetDefault(d, key, []), key, StringArray(rt, rawVal))
  }

  function FileEntries(rt: Runtime, entries: Dict<Json>): Categories
    decreases |entries|
  {
    if entries == [] then []
    else
      var last := entries[|entries| - 1];
      FileEntry(rt, FileEntries(rt, entries[..|entries| - 1]), last.0, last.1)
  }

  /** The categories so far and the "important" notes kept. */
  datatype Sorting = Sorting(notes: Categories, keep: seq<string>)

  /** One "important" note: moved to "send_to_cs", dropped when it is `**`, or kept. */
  function SortItem(rt: Runtime, st: Sorting, item: string): Sorting
  {
    var txt := CleanStr(rt, item);
    if ForCustomerSupport(txt) then Sorting(AppendTo(SetDefault(st.notes, SendToCs, []), SendToCs, txt), st.keep)
    else if txt == "**" then st
    else Sorting(st.notes, st.keep + [txt])
  }

  function SortItems(rt: Runtime, d: Categories, items: seq<string>): Sorting
    decreases |items|
  {
    if items == [] then Sorting(d, [])
    else SortItem(rt, SortItems(rt, d, items[..|items| - 1]), items[|items| - 1])
  }

  /** The second pass: the "important" notes are sorted, and the kept ones replace them. */
  function SortImportant(rt: Runtime, d: Categories): Categories
  {
    if Has(d, Important) then
      var st := SortItems(rt, d, Get(d, Important, []));
      Put(st.notes, Important, st.keep)
    else d
  }

  /** The last pass: each key in order, with its notes de-duplicated, when any remain. */
  function CleanKeys(rt: Runtime, d: Categories, keys: seq<string>): Categories
    decreases |keys|
  {
    if keys == [] then []
    else
      var init := CleanKeys(rt, d, keys[..|keys| - 1]);
      var k := keys[|keys| - 1];
      if !Has(d, k) then init
      else
        var arr := UniqueTrimmed(rt, Strs(Get(d, k, [])));
        if arr != [] then Put(init, k, arr) else init
  }

  /** What `normalize_scenario_notes(notes_value)` returns. */
  function ScenarioNotes(rt: Runtime, notesValue: Json): (r: Categories)
    ensures !notesValue.Obj? ==> r == []
  {
    if !notesValue.Obj? then []
    else
      var sorted := SortImportant(rt, FileEntries(rt, notesValue.fields));
      CleanKeys(rt, sorted, Keys(sorted))
  }

  /** The item loop of one notes entry; `keyOrder` mirrors the keys of `notes`. */
  method FileItemsInto(rt: Runtime, d: Categories, order: seq<string>, key: string, items: seq<string>)
    returns (notes: Categories, keyOrder: seq<string>)
    requires order == Keys(d) && Has(d, key)
    ensures notes == FileItems(rt, d, key, items) && keyOrder == Keys(notes)
  {
    notes, keyOrder := d, order;
    var i := 0;
    while i < |items|
      invariant 0 <= i <= |items|
      invariant notes == FileItems(rt, d, key, items[..i])
      invariant keyOrder == Keys(notes) && Has(notes, key)
    {
      assert items[..i + 1][..i] == items[..i];
      ghost var next := FileItem(rt, notes, key, items[i]);
      assert next == FileItems(rt, d, key, items[..i + 1]);
      var txt := CleanStr(rt, items[i]);
      if txt != "" {
        var heading := HeadingOf(txt);
        if heading.Some? {
          var moved := CategoryKey(rt, heading.value);
          if !Has(notes, moved) {
            notes := notes + [(moved, [])];
            keyOrder := keyOrder + [moved];
          }
        } else {
          notes := AppendTo(notes, key, txt);
        }
      }
      assert notes == next;
      i := i + 1;
    }
    assert items[..|items|] == items;
  }

  /** One turn of the second pass: `txt` moved to "send_to_cs", dropped, or kept. */
  method SortOne(rt: Runtime, notes: Categories, keep: seq<string>, keyOrder: seq<string>, item: string)
    returns (notesOut: Categories, keepOut: seq<string>, keyOrderOut: seq<string>)
    requires keyOrder == Keys(notes) && Has(notes, Important)
    ensures Sorting(notesOut, keepOut) == SortItem(rt, Sorting(notes, keep), item)
    ensures keyOrderOut == Keys(notesOut) && Has(notesOut, Important)
  {
    notesOut, keepOut, keyOrderOut := notes, keep, keyOrder;
    var txt := CleanStr(rt, item);
    if ForCustomerSupport(txt) {
      notesOut := SetDefault(notesOut, SendToCs, []);
      if SendToCs !in keyOrderOut {
        keyOrderOut := keyOrderOut + [SendToCs];
      }
      notesOut := AppendTo(notesOut, SendToCs, txt);
    } else if txt != "**" {
      keepOut := keepOut + [txt];
    }
  }

  /** The second pass over the "important" notes. */
  method SortImportantNotes(rt: Runtime, d: Categories, order: seq<string>)
    returns (notes: Categories, keyOrder: seq<string>)
    requires order == Keys(d) && Has(d, Important)
    ensures notes == SortImportant(rt, d) && keyOrder == Keys(notes)
  {
    notes, keyOrder := d, order;
    var keep: seq<string> := [];
    var items := Get(d, Important, []);
    var i := 0;
    while i < |items|
      invariant 0 <= i <= |items|
      invariant Sorting(notes, keep) == SortItems(rt, d, items[..i])
      invariant keyOrder == Keys(notes) && Has(notes, Important)
    {
      assert items[..i + 1][..i] == items[..i];
      notes, keep, keyOrder := SortOne(rt, notes, keep, keyOrder, items[i]);
      i := i + 1;
    }
    assert items[..|items|] == items;
    notes := Put(notes, Important, keep);
  }

  /** The last pass: the de-duplicated notes of each key in `keys` that has any. */
  method CleanCategories(rt: Runtime, d: Categories, keys: seq<string>) returns (clean: Categories)
    ensures clean == CleanKeys(rt, d, keys)
  {
    clean := [];
    var i := 0;
    while i < |keys|
      invariant 0 <= i <= |keys|
      invariant clean == CleanKeys(rt, d, keys[..i])
    {
      assert keys[..i + 1][..i] == keys[..i];
      var key := keys[i];
      if Has(d, key) {
        var arr := UniqueTrimmedStringArray(rt, Strs(Get(d, key, [])));
        if arr != [] {
          clean := Put(clean, key, arr);
        }
      }
      i := i + 1;
    }
    assert keys[..|keys|] == keys;
  }

  method NormalizeScenarioNotes(rt: Runtime, notesValue: Json) returns (clean: Categories)
    ensures clean == ScenarioNotes(rt, notesValue)
  {
    if !notesValue.Obj? {
      return [];
    }
    var entries := notesValue.fields;
    var notesOut: Categories := [];
    var keyOrder: seq<string> := [];
    var i := 0;
    while i < |entries|
      invariant 0 <= i <= |entries|
      invariant notesOut == FileEntries(rt, entries[..i])
      invariant keyOrder == Keys(notesOut)
    {
      assert entries[..i + 1][..i] == entries[..i];
      ghost var next := FileEntry(rt, notesOut, entries[i].0, entries[i].1);
      assert next == FileEntries(rt, entries[..i + 1]);
      var key := CategoryKey(rt, CleanStr(rt, entries[i].0));
      ghost var withKey := SetDefault(notesOut, key, []);
      if !Has(notesOut, key) {
        notesOut := notesOut + [(key, [])];
        keyOrder := keyOrder + [key];
      }
      assert notesOut == withKey;
      var items := ConvertToStringArray(rt, entries[i].1);
      notesOut, keyOrder := FileItemsInto(rt, notesOut, keyOrder, key, items);
      assert notesOut == next;
      i := i + 1;
    }
    assert entries[..|entries|] == entries;
    if Has(notesOut, Important) {
      notesOut, keyOrder := SortImportantNotes(rt, notesOut, keyOrder);
    }
    clean := CleanCategories(rt, notesOut, keyOrder);
  }

  // ---------------------------------------------------------------------------
  // Properties of normalize_scenario_notes

  /** Every note text is its own cleaned form. */
  predicate AllClean(rt: Runtime, d: Categories)
  {
    forall i :: 0 <= i < |d| ==> forall a :: 0 <= a < |d[i].1| ==> IsClean(rt, d[i].1[a])
  }

  /** The notes of any one category of a clean dict are clean. */
  lemma GetClean(rt: Runtime, d: Categories, k: string)
    requires AllClean(rt, d)
    ensures forall a :: 0 <= a < |Get(d, k, [])| ==> IsClean(rt, Get(d, k, [])[a])
  {
    if Has(d, k) {
      LookupIn(d, k);
    }
  }

  lemma WellKeyedSnoc(ks: seq<string>, k: string)
    requires WellKeyed(ks) && (IsCanonical(k) || IsSlug(k))
    ensures WellKeyed(ks + [k])
  {
  }

  /** Appending a note extends its category and leaves the others alone. */
  lemma AppendToGet(d: Categories, k: string, t: string)
    ensures Get(AppendTo(d, k, t), k, []) == Get(d, k, []) + [t]
    ensures forall key :: key != k ==> Get(AppendTo(d, k, t), key, []) == Get(d, key, [])
  {
  }

  /** Appending a note adds its key, if new, after the others. */
  lemma AppendToKeys(d: Categories, k: string, t: string)
    requires WellKeyed(Keys(d)) && (IsCanonical(k) || IsSlug(k))
    ensures WellKeyed(Keys(AppendTo(d, k, t)))
  {
    if !Has(d, k) {
      WellKeyedSnoc(Keys(d), k);
    }
  }

  /** Appending a clean note to clean notes gives clean notes. */
  lemma AppendToClean(rt: Runtime, d: Categories, k: string, t: string)
    requires AllClean(rt, d) && IsClean(rt, t)
    ensures AllClean(rt, AppendTo(d, k, t))
  {
    GetClean(rt, d, k);
  }

  /** Opening an empty category keeps the texts clean. */
  lemma SetDefaultClean(rt: Runtime, d: Categories, k: string)
    requires AllClean(rt, d)
    ensures AllClean(rt, SetDefault(d, k, []))
  {
  }

  /** Filing one item keeps the keys well formed. */
  lemma FileItemKeys(rt: Runtime, d: Categories, key: string, item: string)
    requires IsCanonical(key) || IsSlug(key)
    requires WellKeyed(Keys(d))
    ensures WellKeyed(Keys(FileItem(rt, d, key, item)))
  {
    var txt := CleanStr(rt, item);
    if txt != "" {
      match HeadingOf(txt)
      case Some(g) =>
        var k := CategoryKey(rt, g);
        if !Has(d, k) {
          WellKeyedSnoc(Keys(d), k);
        }
      case None =>
        AppendToKeys(d, key, txt);
    }
  }

  /** Under a stable cleaning, filing one item keeps the texts clean. */
  lemma FileItemClean(rt: Runtime, d: Categories, key: string, item: string)
    requires CleanIsStable(rt) && AllClean(rt, d)
    ensures AllClean(rt, FileItem(rt, d, key, item))
  {
    var txt := CleanStr(rt, item);
    if txt != "" {
      match HeadingOf(txt)
      case Some(g) =>
        SetDefaultClean(rt, d, CategoryKey(rt, g));
      case None =>
        assert IsClean(rt, txt);
        AppendToClean(rt, d, key, txt);
    }
  }

  lemma {:induction false} FileItemsKeys(rt: Runtime, d: Categories, key: string, items: seq<string>)
    requires IsCanonical(key) || IsSlug(key)
    requires WellKeyed(Keys(d))
    ensures WellKeyed(Keys(FileItems(rt, d, key, items)))
    decreases |items|
  {
    if items != [] {
      FileItemsKeys(rt, d, key, items[..|items| - 1]);
      FileItemKeys(rt, FileItems(rt, d, key, items[..|items| - 1]), key, items[|items| - 1]);
    }
  }

  lemma {:induction false} FileItemsClean(rt: Runtime, d: Categories, key: string, items: seq<string>)
    requires CleanIsStable(rt) && AllClean(rt, d)
    ensures AllClean(rt, FileItems(rt, d, key, items))
    decreases |items|
  {
    if items != [] {
      FileItemsClean(rt, d, key, items[..|items| - 1]);
      FileItemClean(rt, FileItems(rt, d, key, items[..|items| - 1]), key, items[|items| - 1]);
    }
  }

  /** The first pass yields well-formed keys. */
  lemma {:induction false} FileEntriesKeys(rt: Runtime, entries: Dict<Json>)
    ensures WellKeyed(Keys(FileEntries(rt, entries)))
    decreases |entries|
  {
    if entries != [] {
      var init := FileEntries(rt, entries[..|entries| - 1]);
      FileEntriesKeys(rt, entries[..|entries| - 1]);
      var last := entries[|entries| - 1];
      var key := CategoryKey(rt, CleanStr(rt, last.0));
      if !Has(init, key) {
        WellKeyedSnoc(Keys(init), key);
      }
      FileItemsKeys(rt, SetDefault(init, key, []), key, StringArray(rt, last.1));
    }
  }

  /** Under a stable cleaning, the first pass yields clean texts. */
  lemma {:induction false} FileEntriesClean(rt: Runtime, entries: Dict<Json>)
    requires CleanIsStable(rt)
    ensures AllClean(rt, FileEntries(rt, entries))
    decreases |entries|
  {
    if entries != [] {
      var init := FileEntries(rt, entries[..|entries| - 1]);
      FileEntriesClean(rt, entries[..|entries| - 1]);
      var last := entries[|entries| - 1];
      var key := CategoryKey(rt, CleanStr(rt, last.0));
      FileItemsClean(rt, SetDefault(init, key, []), key, StringArray(rt, last.1));
    }
  }

  /** One sorting step keeps the kept notes, or keeps one more: the cleaned note, when it is neither `**` nor for customer support. */
  lemma SortItemKeep(rt: Runtime, st: Sorting, item: string)
    ensures var txt := CleanStr(rt, item);
      || SortItem(rt, st, item).keep == st.keep
      || (SortItem(rt, st, item).keep == st.keep + [txt] && txt != "**" && !ForCustomerSupport(txt))
  {
  }

  /** No note kept in "important" is `**` or for customer support. */
  lemma {:induction false} SortItemsKeep(rt: Runtime, d: Categories, items: seq<string>)
    ensures forall t :: t in SortItems(rt, d, items).keep ==> t != "**" && !ForCustomerSupport(t)
    decreases |items|
  {
    if items != [] {
      var n := |items| - 1;
      SortItemsKeep(rt, d, items[..n]);
      SortItemKeep(rt, SortItems(rt, d, items[..n]), items[n]);
    }
  }

  /** One sorting step appends the note to "send_to_cs" exactly when it is for customer support. */
  lemma SortItemSends(rt: Runtime, st: Sorting, item: string)
    ensures Get(st.notes, SendToCs, []) <= Get(SortItem(rt, st, item).notes, SendToCs, [])
    ensures ForCustomerSupport(CleanStr(rt, item)) ==>
      CleanStr(rt, item) in Get(SortItem(rt, st, item).notes, SendToCs, [])
  {
    var txt := CleanStr(rt, item);
    if ForCustomerSupport(txt) {
      var withSend := SetDefault(st.notes, SendToCs, []);
      AppendToGet(withSend, SendToCs, txt);
    }
  }

  /** A note for customer support reaches "send_to_cs". */
  lemma {:induction false} SortItemsSends(rt: Runtime, d: Categories, items: seq<string>, j: nat)
    requires j < |items| && ForCustomerSupport(CleanStr(rt, items[j]))
    ensures CleanStr(rt, items[j]) in Get(SortItems(rt, d, items).notes, SendToCs, [])
    decreases |items|
  {
    var n := |items| - 1;
    var prev := SortItems(rt, d, items[..n]);
    var t := CleanStr(rt, items[j]);
    var before := Get(prev.notes, SendToCs, []);
    var after := Get(SortItem(rt, prev, items[n]).notes, SendToCs, []);
    assert SortItems(rt, d, items) == SortItem(rt, prev, items[n]);
    if j < n {
      assert t in before by {
        assert items[..n][j] == items[j];
        SortItemsSends(rt, d, items[..n], j);
      }
      assert before <= after by {
        SortItemSends(rt, prev, items[n]);
      }
    } else {
      assert j == n;
      SortItemSends(rt, prev, items[j]);
    }
  }

  /** Sorting keeps the keys well formed. */
  lemma {:induction false} SortItemsKeys(rt: Runtime, d: Categories, items: seq<string>)
    requires WellKeyed(Keys(d))
    ensures WellKeyed(Keys(SortItems(rt, d, items).notes))
    decreases |items|
  {
    if items != [] {
      var n := |items| - 1;
      var prev := SortItems(rt, d, items[..n]);
      SortItemsKeys(rt, d, items[..n]);
      var txt := CleanStr(rt, items[n]);
      if ForCustomerSupport(txt) {
        var withSend := SetDefault(prev.notes, SendToCs, []);
        if !Has(prev.notes, SendToCs) {
          WellKeyedSnoc(Keys(prev.notes), SendToCs);
        }
        AppendToKeys(withSend, SendToCs, txt);
      }
    }
  }

  /** Under a stable cleaning, sorting one note keeps the texts clean, whichever way it goes. */
  lemma SortItemClean(rt: Runtime, st: Sorting, item: string)
    requires CleanIsStable(rt) && AllClean(rt, st.notes)
    ensures AllClean(rt, SortItem(rt, st, item).notes)
  {
    var txt := CleanStr(rt, item);
    assert IsClean(rt, txt);
    SetDefaultClean(rt, st.notes, SendToCs);
    AppendToClean(rt, SetDefault(st.notes, SendToCs, []), SendToCs, txt);
  }

  /** Under a stable cleaning, sorting keeps the texts clean. */
  lemma {:induction false} SortItemsClean(rt: Runtime, d: Categories, items: seq<string>)
    requires CleanIsStable(rt) && AllClean(rt, d)
    ensures AllClean(rt, SortItems(rt, d, items).notes)
    decreases |items|
  {
    if items != [] {
      var n := |items| - 1;
      SortItemsClean(rt, d, items[..n]);
      SortItemClean(rt, SortItems(rt, d, items[..n]), items[n]);
    }
  }

  /** Under a stable cleaning, the kept "important" notes are clean. */
  lemma {:induction false} SortItemsKeepClean(rt: Runtime, d: Categories, items: seq<string>)
    requires CleanIsStable(rt)
    ensures forall t :: t in SortItems(rt, d, items).keep ==> IsClean(rt, t)
    decreases |items|
  {
    if items != [] {
      var n := |items| - 1;
      SortItemsKeepClean(rt, d, items[..n]);
      SortItemKeep(rt, SortItems(rt, d, items[..n]), items[n]);
    }
  }

  /** After the second pass no "important" note is `**` or for customer support. */
  lemma SortImportantImportant(rt: Runtime, d: Categories)
    ensures forall t :: t in Get(SortImportant(rt, d), Important, []) ==> t != "**" && !ForCustomerSupport(t)
  {
    if Has(d, Important) {
      SortItemsKeep(rt, d, Get(d, Important, []));
    }
  }

  /** After the second pass every "important" note for customer support is in "send_to_cs". */
  lemma SortImportantSends(rt: Runtime, d: Categories, t: string)
    requires t in Get(d, Important, []) && ForCustomerSupport(CleanStr(rt, t))
    ensures CleanStr(rt, t) in Get(SortImportant(rt, d), SendToCs, [])
  {
    var items := Get(d, Important, []);
    var j :| 0 <= j < |items| && items[j] == t;
    SortItemsSends(rt, d, items, j);
  }

  lemma SortImportantKeys(rt: Runtime, d: Categories)
    requires WellKeyed(Keys(d))
    ensures WellKeyed(Keys(SortImportant(rt, d)))
  {
    if Has(d, Important) {
      var st := SortItems(rt, d, Get(d, Important, []));
      SortItemsKeys(rt, d, Get(d, Important, []));
      if !Has(st.notes, Important) {
        WellKeyedSnoc(Keys(st.notes), Important);
      }
    }
  }

  lemma SortImportantClean(rt: Runtime, d: Categories)
    requires CleanIsStable(rt) && AllClean(rt, d)
    ensures AllClean(rt, SortImportant(rt, d))
  {
    if Has(d, Important) {
      SortItemsClean(rt, d, Get(d, Important, []));
      SortItemsKeepClean(rt, d, Get(d, Important, []));
    }
  }

  /** The last pass keeps each key at most once. */
  lemma {:induction false} CleanKeysDistinct(rt: Runtime, d: Categories, keys: seq<string>)
    ensures DistinctKeys(CleanKeys(rt, d, keys))
    decreases |keys|
  {
    if keys != [] {
      var n := |keys| - 1;
      var init := CleanKeys(rt, d, keys[..n]);
      CleanKeysDistinct(rt, d, keys[..n]);
      var k := keys[n];
      if Has(d, k) {
        var arr := UniqueTrimmed(rt, Strs(Get(d, k, [])));
        if arr != [] {
          DistinctKeysGrow(init, Put(init, k, arr));
        }
      }
    }
  }

  /** An entry for a key of `keys` present in `d`, holding its non-empty de-duplicated notes. */
  predicate CleanedEntry(rt: Runtime, d: Categories, keys: seq<string>, e: (string, seq<string>))
  {
    e.0 in keys && Has(d, e.0) && e.1 == UniqueTrimmed(rt, Strs(Get(d, e.0, []))) && e.1 != []
  }

  /** Each category after the last pass holds the non-empty de-duplicated notes of a key of `keys`. */
  lemma {:induction false} CleanKeysEntries(rt: Runtime, d: Categories, keys: seq<string>)
    ensures forall i :: 0 <= i < |CleanKeys(rt, d, keys)| ==> CleanedEntry(rt, d, keys, CleanKeys(rt, d, keys)[i])
    decreases |keys|
  {
    if keys != [] {
      var n := |keys| - 1;
      var init := CleanKeys(rt, d, keys[..n]);
      CleanKeysEntries(rt, d, keys[..n]);
      var k := keys[n];
      assert forall x :: x in keys[..n] ==> x in keys;
      if Has(d, k) && UniqueTrimmed(rt, Strs(Get(d, k, []))) != [] {
        var arr := UniqueTrimmed(rt, Strs(Get(d, k, [])));
        var r := Put(init, k, arr);
        forall i | 0 <= i < |r|
          ensures CleanedEntry(rt, d, keys, r[i])
        {
          if i < |init| && init[i].0 != k {
            assert r[i] == init[i];
            assert CleanedEntry(rt, d, keys[..n], init[i]);
          } else {
            assert r[i] == (k, arr);
          }
        }
        assert CleanKeys(rt, d, keys) == r;
      } else {
        assert CleanKeys(rt, d, keys) == init;
        forall i | 0 <= i < |init| ensures CleanedEntry(rt, d, keys, init[i]) {
          assert CleanedEntry(rt, d, keys[..n], init[i]);
        }
      }
    }
  }

  lemma InSnoc(keys: seq<string>, k: string)
    requires keys != []
    ensures k in keys <==> k in keys[..|keys| - 1] || k == keys[|keys| - 1]
  {
    assert keys == keys[..|keys| - 1] + [keys[|keys| - 1]];
  }

  /** The last key of the pass adds itself when it has notes that remain, and nothing else. */
  lemma CleanKeysLast(rt: Runtime, d: Categories, keys: seq<string>, k: string)
    requires keys != []
    ensures var n := |keys| - 1;
      Has(CleanKeys(rt, d, keys), k)
      <==> (Has(CleanKeys(rt, d, keys[..n]), k) || (k == keys[n] && Has(d, k) && UniqueTrimmed(rt, Strs(Get(d, k, []))) != []))
  {
  }

  /** A key survives the last pass exactly when it is in `keys` and some of its notes remain. */
  lemma {:induction false} CleanKeysHas(rt: Runtime, d: Categories, keys: seq<string>, k: string)
    ensures Has(CleanKeys(rt, d, keys), k) <==> k in keys && Has(d, k) && UniqueTrimmed(rt, Strs(Get(d, k, []))) != []
    decreases |keys|
  {
    if keys != [] {
      CleanKeysHas(rt, d, keys[..|keys| - 1], k);
      CleanKeysLast(rt, d, keys, k);
      InSnoc(keys, k);
    }
  }

  /** A category that survives the last pass holds the de-duplicated notes it had. */
  lemma CleanKeysGet(rt: Runtime, d: Categories, keys: seq<string>, k: string)
    requires Has(CleanKeys(rt, d, keys), k)
    ensures Has(d, k) && Get(CleanKeys(rt, d, keys), k, []) == UniqueTrimmed(rt, Strs(Get(d, k, [])))
  {
    var r := CleanKeys(rt, d, keys);
    CleanKeysEntries(rt, d, keys);
    LookupIn(r, k);
    var i :| 0 <= i < |r| && r[i].0 == k && Lookup(r, k) == Some(r[i].1);
    assert CleanedEntry(rt, d, keys, r[i]);
  }

  /** A list of notes as the last pass leaves it: non-blank, trimmed, no two equal up to case. */
  predicate NoteList(xs: seq<string>)
  {
    (forall a :: 0 <= a < |xs| ==> xs[a] != "" && IsTrimmed(xs[a]))
    && forall a, b :: 0 <= a < b < |xs| ==> Lower(xs[a]) != Lower(xs[b])
  }

  lemma UniqueTrimmedNoteList(rt: Runtime, v: Json)
    ensures NoteList(UniqueTrimmed(rt, v))
  {
    UniqueTrimmedTrimmed(rt, v);
  }

  /**
   * `normalize_scenario_notes` returns categories with distinct keys, each a
   * canonical category or a slug, and each holding a non-empty list of
   * distinct trimmed notes.
   */
  lemma ScenarioNotesShape(rt: Runtime, v: Json)
    ensures NoEmptyCategory(ScenarioNotes(rt, v))
    ensures DistinctKeys(ScenarioNotes(rt, v))
    ensures WellKeyed(Keys(ScenarioNotes(rt, v)))
    ensures forall i :: 0 <= i < |ScenarioNotes(rt, v)| ==> NoteList(ScenarioNotes(rt, v)[i].1)
  {
    if v.Obj? {
      var fe := FileEntries(rt, v.fields);
      var sorted := SortImportant(rt, fe);
      var r := ScenarioNotes(rt, v);
      FileEntriesKeys(rt, v.fields);
      SortImportantKeys(rt, fe);
      CleanKeysDistinct(rt, sorted, Keys(sorted));
      CleanKeysEntries(rt, sorted, Keys(sorted));
      forall i | 0 <= i < |r| ensures r[i].1 != [] && NoteList(r[i].1) && (IsCanonical(r[i].0) || IsSlug(r[i].0)) {
        assert CleanedEntry(rt, sorted, Keys(sorted), r[i]);
        UniqueTrimmedNoteList(rt, Strs(Get(sorted, r[i].0, [])));
      }
    }
  }

  /** No note for customer support, and no `**`, stays under "important". */
  lemma ImportantCleared(rt: Runtime, v: Json)
    requires CleanIsStable(rt)
    ensures forall t :: t in Get(ScenarioNotes(rt, v), Important, []) ==> t != "**" && !ForCustomerSupport(t)
  {
    if v.Obj? && Has(ScenarioNotes(rt, v), Important) {
      var fe := FileEntries(rt, v.fields);
      var sorted := SortImportant(rt, fe);
      CleanKeysGet(rt, sorted, Keys(sorted), Important);
      FileEntriesClean(rt, v.fields);
      SortImportantClean(rt, fe);
      GetClean(rt, sorted, Important);
      UniqueTrimmedOfCleanWithin(rt, Get(sorted, Important, []));
      SortImportantImportant(rt, fe);
    }
  }

  /** `send to cs` starts with an `s`, so text without one never mentions it. */
  lemma {:induction false} NoSendWithoutS(s: string)
    requires 's' !in s
    ensures !SearchSendToCs(s)
    decreases |s|
  {
    if s != [] {
      if |s| >= 4 {
        assert s[..4][0] == s[0];
      }
      NoSendWithoutS(s[1..]);
    }
  }

  /** A note for customer support is never blank or the text of an empty list or dict. */
  lemma CustomerSupportKept(t: string)
    requires ForCustomerSupport(t)
    ensures Kept(t)
  {
    if !Kept(t) {
      var l := Lower(t);
      assert 's' !in l by {
        assert forall i :: 0 <= i < |t| ==> t[i] in "{}[]";
      }
      NoSendWithoutS(l);
      NotContains(l, "cssupport@", 's');
      NotContains(l, "post-purchase", 's');
      NotContains(l, "shipping inquiries on a current order", 's');
    }
  }

  /**
   * Every "important" note for customer support, after the first pass, ends
   * up in "send_to_cs" (up to case, as de-duplication keeps the first
   * spelling of a note).
   */
  lemma SentToCs(rt: Runtime, v: Json, t: string)
    requires CleanIsStable(rt) && v.Obj?
    requires t in Get(FileEntries(rt, v.fields), Important, []) && ForCustomerSupport(t)
    ensures Lower(t) in LowerKeys(Get(ScenarioNotes(rt, v), SendToCs, []))
  {
    var fe := FileEntries(rt, v.fields);
    var sorted := SortImportant(rt, fe);
    FileEntriesClean(rt, v.fields);
    GetClean(rt, fe, Important);
    assert IsClean(rt, t);
    SortImportantSends(rt, fe, t);
    SortImportantClean(rt, fe);
    var sent := Get(sorted, SendToCs, []);
    GetClean(rt, sorted, SendToCs);
    CustomerSupportKept(t);
    UniqueTrimmedOfCleanKeeps(rt, sent, t);
    CleanKeysHas(rt, sorted, Keys(sorted), SendToCs);
    CleanKeysGet(rt, sorted, Keys(sorted), SendToCs);
  }

  // ---------------------------------------------------------------------------
  // Headings open categories and are never kept as notes

  /** Every note text of `d` has property `P`. */
  predicate AllNotes(d: Categories, P: string -> bool)
  {
    forall i :: 0 <= i < |d| ==> forall a :: 0 <= a < |d[i].1| ==> P(d[i].1[a])
  }

  /** The item is not a `# heading`. */
  predicate NotHeading(t: string)
  {
    HeadingOf(t).None?
  }

  /** The notes of any one category share a property all notes have. */
  lemma GetAll(d: Categories, k: string, P: string -> bool)
    requires AllNotes(d, P)
    ensures forall a :: 0 <= a < |Get(d, k, [])| ==> P(Get(d, k, [])[a])
  {
    if Has(d, k) {
      LookupIn(d, k);
    }
  }

  lemma AppendToAll(d: Categories, k: string, t: string, P: string -> bool)
    requires AllNotes(d, P) && P(t)
    ensures AllNotes(AppendTo(d, k, t), P)
  {
    GetAll(d, k, P);
  }

  lemma SetDefaultAll(d: Categories, k: string, P: string -> bool)
    requires AllNotes(d, P)
    ensures AllNotes(SetDefault(d, k, []), P)
  {
  }

  lemma PutAll(d: Categories, k: string, v: seq<string>, P: string -> bool)
    requires AllNotes(d, P) && forall a :: 0 <= a < |v| ==> P(v[a])
    ensures AllNotes(Put(d, k, v), P)
  {
  }

  /**
   * A `# heading` item opens the category its heading normalises to and
   * files nothing: every category keeps the notes it had, the current one
   * included, and only the heading's key may be added, last.
   */
  lemma FileItemHeading(rt: Runtime, d: Categories, key: string, item: string, g: string)
    requires HeadingOf(CleanStr(rt, item)) == Some(g)
    ensures var r := FileItem(rt, d, key, item);
      && Has(r, CategoryKey(rt, g))
      && (forall k :: Get(r, k, []) == Get(d, k, []))
      && Keys(r) == if Has(d, CategoryKey(rt, g)) then Keys(d) else Keys(d) + [CategoryKey(rt, g)]
  {
    var h := CategoryKey(rt, g);
    var r := FileItem(rt, d, key, item);
    assert r == SetDefault(d, h, []) by {
      assert CleanStr(rt, item) != "";
    }
    if !Has(d, h) {
      assert r == Put(d, h, []);
      forall k ensures Get(r, k, []) == Get(d, k, []) {
        if k != h {
          assert Lookup(r, k) == Lookup(d, k);
        }
      }
    }
  }

  /** A note item is filed under the current key, and no other category changes. */
  lemma FileItemNote(rt: Runtime, d: Categories, key: string, item: string)
    requires CleanStr(rt, item) != "" && HeadingOf(CleanStr(rt, item)).None?
    ensures Get(FileItem(rt, d, key, item), key, []) == Get(d, key, []) + [CleanStr(rt, item)]
    ensures forall k :: k != key ==> Get(FileItem(rt, d, key, item), k, []) == Get(d, k, [])
  {
    AppendToGet(d, key, CleanStr(rt, item));
  }

  lemma FileItemNoHeadings(rt: Runtime, d: Categories, key: string, item: string)
    requires AllNotes(d, NotHeading)
    ensures AllNotes(FileItem(rt, d, key, item), NotHeading)
  {
    var txt := CleanStr(rt, item);
    if txt != "" {
      match HeadingOf(txt)
      case Some(g) =>
        SetDefaultAll(d, CategoryKey(rt, g), NotHeading);
      case None =>
        assert NotHeading(txt);
        AppendToAll(d, key, txt, NotHeading);
    }
  }

  lemma {:induction false} FileItemsNoHeadings(rt: Runtime, d: Categories, key: string, items: seq<string>)
    requires AllNotes(d, NotHeading)
    ensures AllNotes(FileItems(rt, d, key, items), NotHeading)
    decreases |items|
  {
    if items != [] {
      FileItemsNoHeadings(rt, d, key, items[..|items| - 1]);
      FileItemNoHeadings(rt, FileItems(rt, d, key, items[..|items| - 1]), key, items[|items| - 1]);
    }
  }

  /** The first pass files no heading as a note. */
  lemma {:induction false} FileEntriesNoHeadings(rt: Runtime, entries: Dict<Json>)
    ensures AllNotes(FileEntries(rt, entries), NotHeading)
    decreases |entries|
  {
    if entries != [] {
      var init := FileEntries(rt, entries[..|entries| - 1]);
      FileEntriesNoHeadings(rt, entries[..|entries| - 1]);
      var last := entries[|entries| - 1];
      var key := CategoryKey(rt, CleanStr(rt, last.0));
      SetDefaultAll(init, key, NotHeading);
      FileItemsNoHeadings(rt, SetDefault(init, key, []), key, StringArray(rt, last.1));
    }
  }

  lemma SortItemNoHeadings(rt: Runtime, st: Sorting, item: string)
    requires AllNotes(st.notes, NotHeading) && forall t :: t in st.keep ==> NotHeading(t)
    requires NotHeading(CleanStr(rt, item))
    ensures AllNotes(SortItem(rt, st, item).notes, NotHeading)
    ensures forall t :: t in SortItem(rt, st, item).keep ==> NotHeading(t)
  {
    var txt := CleanStr(rt, item);
    var r := SortItem(rt, st, item);
    if ForCustomerSupport(txt) {
      var withSend := SetDefault(st.notes, SendToCs, []);
      assert r == Sorting(AppendTo(withSend, SendToCs, txt), st.keep);
      SetDefaultAll(st.notes, SendToCs, NotHeading);
      AppendToAll(withSend, SendToCs, txt, NotHeading);
    } else if txt == "**" {
      assert r == st;
    } else {
      assert r == Sorting(st.notes, st.keep + [txt]);
    }
  }

  lemma {:induction false} SortItemsNoHeadings(rt: Runtime, d: Categories, items: seq<string>)
    requires AllNotes(d, NotHeading)
    requires forall j :: 0 <= j < |items| ==> NotHeading(CleanStr(rt, items[j]))
    ensures AllNotes(SortItems(rt, d, items).notes, NotHeading)
    ensures forall t :: t in SortItems(rt, d, items).keep ==> NotHeading(t)
    decreases |items|
  {
    if items != [] {
      var n := |items| - 1;
      SortItemsNoHeadings(rt, d, items[..n]);
      SortItemNoHeadings(rt, SortItems(rt, d, items[..n]), items[n]);
    }
  }

  /** Sorting the clean, heading-free "important" notes brings in no heading. */
  lemma SortImportantNoHeadings(rt: Runtime, d: Categories)
    requires AllClean(rt, d) && AllNotes(d, NotHeading)
    ensures AllNotes(SortImportant(rt, d), NotHeading)
  {
    if Has(d, Important) {
      var items := Get(d, Important, []);
      GetClean(rt, d, Important);
      GetAll(d, Important, NotHeading);
      forall j | 0 <= j < |items| ensures NotHeading(CleanStr(rt, items[j])) {
        assert CleanStr(rt, items[j]) == items[j];
      }
      SortItemsNoHeadings(rt, d, items);
      var st := SortItems(rt, d, items);
      PutAll(st.notes, Important, st.keep, NotHeading);
    }
  }

  /**
   * Under a stable cleaning, no note `normalize_scenario_notes` returns is a
   * `# heading`: headings only open categories.
   */
  lemma ScenarioNotesNoHeadings(rt: Runtime, v: Json)
    requires CleanIsStable(rt)
    ensures forall i :: 0 <= i < |ScenarioNotes(rt, v)| ==>
      forall a :: 0 <= a < |ScenarioNotes(rt, v)[i].1| ==> HeadingOf(ScenarioNotes(rt, v)[i].1[a]).None?
  {
    if v.Obj? {
      var fe := FileEntries(rt, v.fields);
      var sorted := SortImportant(rt, fe);
      var r := ScenarioNotes(rt, v);
      FileEntriesClean(rt, v.fields);
      FileEntriesNoHeadings(rt, v.fields);
      SortImportantClean(rt, fe);
      SortImportantNoHeadings(rt, fe);
      CleanKeysEntries(rt, sorted, Keys(sorted));
      forall i | 0 <= i < |r| ensures forall a :: 0 <= a < |r[i].1| ==> HeadingOf(r[i].1[a]).None? {
        assert CleanedEntry(rt, sorted, Keys(sorted), r[i]);
        var xs := Get(sorted, r[i].0, []);
        GetClean(rt, sorted, r[i].0);
        GetAll(sorted, r[i].0, NotHeading);
        UniqueTrimmedOfCleanWithin(rt, xs);
        forall a | 0 <= a < |r[i].1| ensures HeadingOf(r[i].1[a]).None? {
          var j :| 0 <= j < |xs| && xs[j] == r[i].1[a];
          assert NotHeading(xs[j]);
        }
      }
    }
  }
}
