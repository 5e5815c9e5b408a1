/**
 * `normalize_scenario_record_for_storage`: the canonical form a scenario is
 * stored in. Legacy top-level fields move into `rightPanel` when that slot is
 * free, the camelCase list fields are folded into their snake_case names and
 * cleaned, and `guidelines` is folded into the cleaned `notes`.
 */
module Records {
  import opened Wrappers
  import opened Dicts
  import opened JsonValues
  import opened StringLists
  import opened Notes

  /** The record being rewritten and the `rightPanel` dict being collected. */
  datatype Slots = Slots(out: Dict<Json>, panel: Dict<Json>)

  /** `if from in out and to not in right_panel: right_panel[to] = out.pop(from)` */
  function MoveSlot(s: Slots, from: string, to: string): Slots
  {
    if Has(s.out, from) && !Has(s.panel, to) then Slots(Del(s.out, from), Put(s.panel, to, Get(s.out, from, Null)))
    else s
  }

  /** The five legacy moves, in the order the source makes them. */
  function MoveLegacy(out: Dict<Json>, panel: Dict<Json>): Slots
  {
    var s1 := MoveSlot(Slots(out, panel), "source", "source");
    var s2 := MoveSlot(s1, "browsingHistory", "browsingHistory");
    var s3 := MoveSlot(s2, "browsing_history", "browsingHistory");
    var s4 := MoveSlot(s3, "orders", "orders");
    MoveSlot(s4, "templatesUsed", "templates")
  }

  /** The `rightPanel` dict a record starts from: a copy of its own when that is a dict. */
  function PanelOf(fs: Dict<Json>): Dict<Json>
  {
    FieldsOf(Get(fs, "rightPanel", Null))
  }

  /** A list field read from its own name or, failing that, its legacy name. */
  function ListSource(out: Dict<Json>, key: string, legacy: string): Json
  {
    Get(out, key, Get(out, legacy, Arr([])))
  }

  /** The notes value: `notes`, or failing that `guidelines`. */
  function NotesSource(out: Dict<Json>): Json
  {
    Get(out, "notes", Get(out, "guidelines", Null))
  }

  /** Categories as a JSON object of string lists. */
  function NotesJson(c: Categories): (r: Json)
    ensures r.Obj? && Keys(r.fields) == Keys(c)
  {
    Obj(seq(|c|, i requires 0 <= i < |c| => (c[i].0, Strs(c[i].1))))
  }

  /** The record with the collected panel stored under `rightPanel`, when it has any entry. */
  function WithPanel(moved: Slots): (r: Dict<Json>)
    ensures forall k :: k != "rightPanel" ==> Lookup(r, k) == Lookup(moved.out, k)
    ensures Lookup(r, "rightPanel") == if moved.panel != [] then Some(Obj(moved.panel)) else Lookup(moved.out, "rightPanel")
  {
    if moved.panel != [] then Put(moved.out, "rightPanel", Obj(moved.panel)) else moved.out
  }

  /** `out[key] = v`, then `legacy` removed. */
  function Rekey(out: Dict<Json>, key: string, legacy: string, v: Json): (r: Dict<Json>)
    requires key != legacy
    ensures Lookup(r, legacy) == None && Lookup(r, key) == Some(v)
    ensures forall k :: k != key && k != legacy ==> Lookup(r, k) == Lookup(out, k)
  {
    Del(Put(out, key, v), legacy)
  }

  /** `out[key] = unique_trimmed_string_array(out.get(key, out.get(legacy, [])))`, then `legacy` removed. */
  function WithList(rt: Runtime, out: Dict<Json>, key: string, legacy: string): Dict<Json>
    requires key != legacy
  {
    Rekey(out, key, legacy, Strs(UniqueTrimmed(rt, ListSource(out, key, legacy))))
  }

  /** `out["notes"] = normalize_scenario_notes(out.get("notes", out.get("guidelines")))`, then `guidelines` removed. */
  function WithNotes(rt: Runtime, out: Dict<Json>): Dict<Json>
  {
    Rekey(out, "notes", "guidelines", NotesJson(ScenarioNotes(rt, NotesSource(out))))
  }

  /** The two lists and the notes cleaned, their legacy names removed. */
  function CleanFields(rt: Runtime, out: Dict<Json>): Dict<Json>
  {
    var out3 := WithList(rt, out, "blocklisted_words", "blocklistedWords");
    var out5 := WithList(rt, out3, "escalation_preferences", "escalationPreferences");
    WithNotes(rt, out5)
  }

  /** What `normalize_scenario_record_for_storage(scenario)` returns. */
  function StorageForm(rt: Runtime, scenario: Json): (r: Json)
    ensures r.Obj?
    ensures !scenario.Obj? ==> r == Obj([])
  {
    if !scenario.Obj? then Obj([])
    else Obj(CleanFields(rt, WithPanel(MoveLegacy(scenario.fields, PanelOf(scenario.fields)))))
  }

  /** The legacy moves on the copied record and the panel being collected. */
  method MoveLegacyFields(record: Dict<Json>, rightPanel: Dict<Json>) returns (out: Dict<Json>, panel: Dict<Json>)
    ensures Slots(out, panel) == MoveLegacy(record, rightPanel)
  {
    out, panel := record, rightPanel;
    ghost var step := MoveSlot(Slots(out, panel), "source", "source");
    if Has(out, "source") && !Has(panel, "source") {
      panel := Put(panel, "source", Get(out, "source", Null));
      out := Del(out, "source");
    }
    assert Slots(out, panel) == step;
    step := MoveSlot(step, "browsingHistory", "browsingHistory");
    if Has(out, "browsingHistory") && !Has(panel, "browsingHistory") {
      panel := Put(panel, "browsingHistory", Get(out, "browsingHistory", Null));
      out := Del(out, "browsingHistory");
    }
    assert Slots(out, panel) == step;
    step := MoveSlot(step, "browsing_history", "browsingHistory");
    if Has(out, "browsing_history") && !Has(panel, "browsingHistory") {
      panel := Put(panel, "browsingHistory", Get(out, "browsing_history", Null));
      out := Del(out, "browsing_history");
    }
    assert Slots(out, panel) == step;
    step := MoveSlot(step, "orders", "orders");
    if Has(out, "orders") && !Has(panel, "orders") {
      panel := Put(panel, "orders", Get(out, "orders", Null));
      out := Del(out, "orders");
    }
    assert Slots(out, panel) == step;
    step := MoveSlot(step, "templatesUsed", "templates");
    if Has(out, "templatesUsed") && !Has(panel, "templates") {
      panel := Put(panel, "templates", Get(out, "templatesUsed", Null));
      out := Del(out, "templatesUsed");
    }
  }

  method NormalizeScenarioRecordForStorage(rt: Runtime, scenario: Json) returns (r: Json)
    ensures r == StorageForm(rt, scenario)
  {
    if !scenario.Obj? {
      return Obj([]);
    }
    var out, panel := MoveLegacyFields(scenario.fields, PanelOf(scenario.fields));
    if panel != [] {
      out := Put(out, "rightPanel", Obj(panel));
    }
    var blocklisted := UniqueTrimmedStringArray(rt, Get(out, "blocklisted_words", Get(out, "blocklistedWords", Arr([]))));
    out := Put(out, "blocklisted_words", Strs(blocklisted));
    out := Del(out, "blocklistedWords");
    var escalation := UniqueTrimmedStringArray(rt, Get(out, "escalation_preferences", Get(out, "escalationPreferences", Arr([]))));
    out := Put(out, "escalation_preferences", Strs(escalation));
    out := Del(out, "escalationPreferences");
    var notes := NormalizeScenarioNotes(rt, Get(out, "notes", Get(out, "guidelines", Null)));
    out := Put(out, "notes", NotesJson(notes));
    out := Del(out, "guidelines");
    r := Obj(out);
  }

  // ---------------------------------------------------------------------------
  // Properties

  /** The top-level fields the legacy moves may take out of a record. */
  predicate IsLegacyField(k: string)
  {
    k == "source" || k == "browsingHistory" || k == "browsing_history" || k == "orders" || k == "templatesUsed"
  }

  /** The top-level fields the rest of the rewrite sets or removes. */
  predicate IsRewrittenField(k: string)
  {
    k == "rightPanel" || k == "blocklisted_words" || k == "blocklistedWords" || k == "escalation_preferences"
    || k == "escalationPreferences" || k == "notes" || k == "guidelines"
  }

  /** A move never overwrites a panel entry and touches no other top-level field. */
  lemma MoveSlotKeeps(s: Slots, from: string, to: string)
    ensures forall k :: Lookup(s.panel, k).Some? ==> Lookup(MoveSlot(s, from, to).panel, k) == Lookup(s.panel, k)
    ensures forall k :: k != from ==> Lookup(MoveSlot(s, from, to).out, k) == Lookup(s.out, k)
  {
  }

  /**
   * After a move the panel slot holds what it held or, when it was free, the
   * top-level field, which then is gone.
   */
  lemma MoveSlotEffect(s: Slots, from: string, to: string)
    ensures Lookup(MoveSlot(s, from, to).panel, to) == if Lookup(s.panel, to).Some? then Lookup(s.panel, to) else Lookup(s.out, from)
    ensures Lookup(MoveSlot(s, from, to).out, from) == if Lookup(s.panel, to).Some? then Lookup(s.out, from) else None
  {
  }

  /** The legacy moves keep every entry the panel had and every non-legacy top-level field. */
  lemma MoveLegacyKeeps(out: Dict<Json>, panel: Dict<Json>)
    ensures forall k :: Lookup(panel, k).Some? ==> Lookup(MoveLegacy(out, panel).panel, k) == Lookup(panel, k)
    ensures forall k :: !IsLegacyField(k) ==> Lookup(MoveLegacy(out, panel).out, k) == Lookup(out, k)
  {
    var s1 := MoveSlot(Slots(out, panel), "source", "source");
    var s2 := MoveSlot(s1, "browsingHistory", "browsingHistory");
    var s3 := MoveSlot(s2, "browsing_history", "browsingHistory");
    var s4 := MoveSlot(s3, "orders", "orders");
    MoveSlotKeeps(Slots(out, panel), "source", "source");
    MoveSlotKeeps(s1, "browsingHistory", "browsingHistory");
    MoveSlotKeeps(s2, "browsing_history", "browsingHistory");
    MoveSlotKeeps(s3, "orders", "orders");
    MoveSlotKeeps(s4, "templatesUsed", "templates");
  }

  /** The legacy field names and panel slots are distinct names. */
  lemma LegacyNamesDistinct()
    ensures "source" != "browsingHistory" && "source" != "browsing_history" && "source" != "orders"
    ensures "source" != "templatesUsed" && "source" != "templates"
    ensures "browsingHistory" != "browsing_history" && "browsingHistory" != "orders"
    ensures "browsingHistory" != "templatesUsed" && "browsingHistory" != "templates"
    ensures "browsing_history" != "orders" && "browsing_history" != "templatesUsed"
    ensures "orders" != "templatesUsed" && "orders" != "templates"
  {
  }

  /** A move to another panel slot leaves this one alone. */
  lemma MoveSlotOtherPanel(s: Slots, from: string, to: string, k: string)
    requires k != to
    ensures Lookup(MoveSlot(s, from, to).panel, k) == Lookup(s.panel, k)
  {
  }

  /** A move from another top-level field leaves this one alone. */
  lemma MoveSlotOtherOut(s: Slots, from: string, to: string, k: string)
    requires k != from
    ensures Lookup(MoveSlot(s, from, to).out, k) == Lookup(s.out, k)
  {
  }

  /** `source` moves into the panel when that slot is free. */
  lemma MoveLegacySource(out: Dict<Json>, panel: Dict<Json>)
    ensures Lookup(MoveLegacy(out, panel).panel, "source")
      == if Lookup(panel, "source").Some? then Lookup(panel, "source") else Lookup(out, "source")
    ensures Lookup(MoveLegacy(out, panel).out, "source")
      == if Lookup(panel, "source").Some? then Lookup(out, "source") else None
  {
    LegacyNamesDistinct();
    var s1 := MoveSlot(Slots(out, panel), "source", "source");
    var s2 := MoveSlot(s1, "browsingHistory", "browsingHistory");
    var s3 := MoveSlot(s2, "browsing_history", "browsingHistory");
    var s4 := MoveSlot(s3, "orders", "orders");
    MoveSlotEffect(Slots(out, panel), "source", "source");
    MoveSlotOtherPanel(s1, "browsingHistory", "browsingHistory", "source");
    MoveSlotOtherPanel(s2, "browsing_history", "browsingHistory", "source");
    MoveSlotOtherPanel(s3, "orders", "orders", "source");
    MoveSlotOtherPanel(s4, "templatesUsed", "templates", "source");
    MoveSlotOtherOut(s1, "browsingHistory", "browsingHistory", "source");
    MoveSlotOtherOut(s2, "browsing_history", "browsingHistory", "source");
    MoveSlotOtherOut(s3, "orders", "orders", "source");
    MoveSlotOtherOut(s4, "templatesUsed", "templates", "source");
  }

  /** `orders` moves into the panel when that slot is free. */
  lemma MoveLegacyOrders(out: Dict<Json>, panel: Dict<Json>)
    ensures Lookup(MoveLegacy(out, panel).panel, "orders")
      == if Lookup(panel, "orders").Some? then Lookup(panel, "orders") else Lookup(out, "orders")
    ensures Lookup(MoveLegacy(out, panel).out, "orders")
      == if Lookup(panel, "orders").Some? then Lookup(out, "orders") else None
  {
    LegacyNamesDistinct();
    var s1 := MoveSlot(Slots(out, panel), "source", "source");
    var s2 := MoveSlot(s1, "browsingHistory", "browsingHistory");
    var s3 := MoveSlot(s2, "browsing_history", "browsingHistory");
    var s4 := MoveSlot(s3, "orders", "orders");
    MoveSlotOtherPanel(Slots(out, panel), "source", "source", "orders");
    MoveSlotOtherPanel(s1, "browsingHistory", "browsingHistory", "orders");
    MoveSlotOtherPanel(s2, "browsing_history", "browsingHistory", "orders");
    MoveSlotEffect(s3, "orders", "orders");
    MoveSlotOtherPanel(s4, "templatesUsed", "templates", "orders");
    MoveSlotOtherOut(Slots(out, panel), "source", "source", "orders");
    MoveSlotOtherOut(s1, "browsingHistory", "browsingHistory", "orders");
    MoveSlotOtherOut(s2, "browsing_history", "browsingHistory", "orders");
    MoveSlotOtherOut(s4, "templatesUsed", "templates", "orders");
  }

  /** `templatesUsed` moves into the panel as `templates` when that slot is free. */
  lemma MoveLegacyTemplates(out: Dict<Json>, panel: Dict<Json>)
    ensures Lookup(MoveLegacy(out, panel).panel, "templates")
      == if Lookup(panel, "templates").Some? then Lookup(panel, "templates") else Lookup(out, "templatesUsed")
    ensures Lookup(MoveLegacy(out, panel).out, "templatesUsed")
      == if Lookup(panel, "templates").Some? then Lookup(out, "templatesUsed") else None
  {
    LegacyNamesDistinct();
    var s1 := MoveSlot(Slots(out, panel), "source", "source");
    var s2 := MoveSlot(s1, "browsingHistory", "browsingHistory");
    var s3 := MoveSlot(s2, "browsing_history", "browsingHistory");
    var s4 := MoveSlot(s3, "orders", "orders");
    MoveSlotOtherPanel(Slots(out, panel), "source", "source", "templates");
    MoveSlotOtherPanel(s1, "browsingHistory", "browsingHistory", "templates");
    MoveSlotOtherPanel(s2, "browsing_history", "browsingHistory", "templates");
    MoveSlotOtherPanel(s3, "orders", "orders", "templates");
    MoveSlotEffect(s4, "templatesUsed", "templates");
    MoveSlotOtherOut(Slots(out, panel), "source", "source", "templatesUsed");
    MoveSlotOtherOut(s1, "browsingHistory", "browsingHistory", "templatesUsed");
    MoveSlotOtherOut(s2, "browsing_history", "browsingHistory", "templatesUsed");
    MoveSlotOtherOut(s3, "orders", "orders", "templatesUsed");
  }

  /**
   * The panel's `browsingHistory` is its own, else the top-level
   * `browsingHistory`, else the top-level `browsing_history`; the snake_case
   * field stays at the top level whenever one of the other two was there.
   */
  lemma MoveLegacyBrowsing(out: Dict<Json>, panel: Dict<Json>)
    ensures Lookup(MoveLegacy(out, panel).panel, "browsingHistory")
      == if Lookup(panel, "browsingHistory").Some? then Lookup(panel, "browsingHistory")
         else if Lookup(out, "browsingHistory").Some? then Lookup(out, "browsingHistory")
         else Lookup(out, "browsing_history")
    ensures Lookup(MoveLegacy(out, panel).out, "browsingHistory")
      == if Lookup(panel, "browsingHistory").Some? then Lookup(out, "browsingHistory") else None
    ensures Lookup(MoveLegacy(out, panel).out, "browsing_history")
      == if Lookup(panel, "browsingHistory").Some? || Lookup(out, "browsingHistory").Some?
         then Lookup(out, "browsing_history") else None
  {
    LegacyNamesDistinct();
    var s1 := MoveSlot(Slots(out, panel), "source", "source");
    var s2 := MoveSlot(s1, "browsingHistory", "browsingHistory");
    var s3 := MoveSlot(s2, "browsing_history", "browsingHistory");
    var s4 := MoveSlot(s3, "orders", "orders");
    MoveSlotOtherPanel(Slots(out, panel), "source", "source", "browsingHistory");
    MoveSlotEffect(s1, "browsingHistory", "browsingHistory");
    MoveSlotEffect(s2, "browsing_history", "browsingHistory");
    MoveSlotOtherPanel(s3, "orders", "orders", "browsingHistory");
    MoveSlotOtherPanel(s4, "templatesUsed", "templates", "browsingHistory");
    MoveSlotOtherOut(Slots(out, panel), "source", "source", "browsingHistory");
    MoveSlotOtherOut(Slots(out, panel), "source", "source", "browsing_history");
    MoveSlotOtherOut(s1, "browsingHistory", "browsingHistory", "browsing_history");
    MoveSlotOtherOut(s2, "browsing_history", "browsingHistory", "browsingHistory");
    MoveSlotOtherOut(s3, "orders", "orders", "browsingHistory");
    MoveSlotOtherOut(s3, "orders", "orders", "browsing_history");
    MoveSlotOtherOut(s4, "templatesUsed", "templates", "browsingHistory");
    MoveSlotOtherOut(s4, "templatesUsed", "templates", "browsing_history");
  }

  /** The fields the cleaning step sets or removes. */
  predicate IsCleanedField(k: string)
  {
    k == "blocklisted_words" || k == "blocklistedWords" || k == "escalation_preferences"
    || k == "escalationPreferences" || k == "notes" || k == "guidelines"
  }

  /** The three rekeyings of the cleaning step, for any values stored. */
  function Rekeyed(out: Dict<Json>, b: Json, e: Json, n: Json): Dict<Json>
  {
    Rekey(Rekey(Rekey(out, "blocklisted_words", "blocklistedWords", b),
      "escalation_preferences", "escalationPreferences", e), "notes", "guidelines", n)
  }

  lemma RekeyedKeeps(out: Dict<Json>, b: Json, e: Json, n: Json)
    ensures forall k :: !IsCleanedField(k) ==> Lookup(Rekeyed(out, b, e, n), k) == Lookup(out, k)
  {
  }

  lemma RekeyedPanel(out: Dict<Json>, b: Json, e: Json, n: Json)
    ensures Lookup(Rekeyed(out, b, e, n), "rightPanel") == Lookup(out, "rightPanel")
  {
  }

  lemma RekeyedDrops(out: Dict<Json>, b: Json, e: Json, n: Json)
    ensures Lookup(Rekeyed(out, b, e, n), "blocklistedWords") == None
    ensures Lookup(Rekeyed(out, b, e, n), "escalationPreferences") == None
    ensures Lookup(Rekeyed(out, b, e, n), "guidelines") == None
  {
  }

  lemma RekeyedValues(out: Dict<Json>, b: Json, e: Json, n: Json)
    ensures Lookup(Rekeyed(out, b, e, n), "blocklisted_words") == Some(b)
    ensures Lookup(Rekeyed(out, b, e, n), "escalation_preferences") == Some(e)
    ensures Lookup(Rekeyed(out, b, e, n), "notes") == Some(n)
  {
  }

  /** Storing the first list leaves the sources of the second list alone. */
  lemma FirstRekeyKeepsSources(out: Dict<Json>, b: Json)
    ensures ListSource(Rekey(out, "blocklisted_words", "blocklistedWords", b), "escalation_preferences", "escalationPreferences")
      == ListSource(out, "escalation_preferences", "escalationPreferences")
  {
  }

  /** Storing both lists leaves the sources of the notes alone. */
  lemma ListRekeysKeepNotes(out: Dict<Json>, b: Json, e: Json)
    ensures NotesSource(Rekey(Rekey(out, "blocklisted_words", "blocklistedWords", b),
      "escalation_preferences", "escalationPreferences", e)) == NotesSource(out)
  {
  }

  /** Each cleaned value is read from the fields as they were before cleaning. */
  lemma CleanFieldsIsRekeyed(rt: Runtime, out: Dict<Json>)
    ensures CleanFields(rt, out) == Rekeyed(out,
      Strs(UniqueTrimmed(rt, ListSource(out, "blocklisted_words", "blocklistedWords"))),
      Strs(UniqueTrimmed(rt, ListSource(out, "escalation_preferences", "escalationPreferences"))),
      NotesJson(ScenarioNotes(rt, NotesSource(out))))
  {
    var b := Strs(UniqueTrimmed(rt, ListSource(out, "blocklisted_words", "blocklistedWords")));
    FirstRekeyKeepsSources(out, b);
    var e := Strs(UniqueTrimmed(rt, ListSource(out, "escalation_preferences", "escalationPreferences")));
    ListRekeysKeepNotes(out, b, e);
  }

  /** Cleaning leaves every other field alone. */
  lemma CleanFieldsKeeps(rt: Runtime, out: Dict<Json>)
    ensures forall k :: !IsCleanedField(k) ==> Lookup(CleanFields(rt, out), k) == Lookup(out, k)
  {
    CleanFieldsIsRekeyed(rt, out);
    RekeyedKeeps(out, Strs(UniqueTrimmed(rt, ListSource(out, "blocklisted_words", "blocklistedWords"))),
      Strs(UniqueTrimmed(rt, ListSource(out, "escalation_preferences", "escalationPreferences"))),
      NotesJson(ScenarioNotes(rt, NotesSource(out))));
  }

  /** Cleaning leaves the panel alone. */
  lemma CleanFieldsPanel(rt: Runtime, out: Dict<Json>)
    ensures Lookup(CleanFields(rt, out), "rightPanel") == Lookup(out, "rightPanel")
  {
    CleanFieldsIsRekeyed(rt, out);
    RekeyedPanel(out, Strs(UniqueTrimmed(rt, ListSource(out, "blocklisted_words", "blocklistedWords"))),
      Strs(UniqueTrimmed(rt, ListSource(out, "escalation_preferences", "escalationPreferences"))),
      NotesJson(ScenarioNotes(rt, NotesSource(out))));
  }

  /** Cleaning removes the legacy names. */
  lemma CleanFieldsDrops(rt: Runtime, out: Dict<Json>)
    ensures Lookup(CleanFields(rt, out), "blocklistedWords") == None
    ensures Lookup(CleanFields(rt, out), "escalationPreferences") == None
    ensures Lookup(CleanFields(rt, out), "guidelines") == None
  {
    CleanFieldsIsRekeyed(rt, out);
    RekeyedDrops(out, Strs(UniqueTrimmed(rt, ListSource(out, "blocklisted_words", "blocklistedWords"))),
      Strs(UniqueTrimmed(rt, ListSource(out, "escalation_preferences", "escalationPreferences"))),
      NotesJson(ScenarioNotes(rt, NotesSource(out))));
  }

  /** Cleaning stores the cleaned lists and notes read from the record before it. */
  lemma CleanFieldsValues(rt: Runtime, out: Dict<Json>)
    ensures Lookup(CleanFields(rt, out), "blocklisted_words")
      == Some(Strs(UniqueTrimmed(rt, ListSource(out, "blocklisted_words", "blocklistedWords"))))
    ensures Lookup(CleanFields(rt, out), "escalation_preferences")
      == Some(Strs(UniqueTrimmed(rt, ListSource(out, "escalation_preferences", "escalationPreferences"))))
    ensures Lookup(CleanFields(rt, out), "notes") == Some(NotesJson(ScenarioNotes(rt, NotesSource(out))))
  {
    CleanFieldsIsRekeyed(rt, out);
    RekeyedValues(out, Strs(UniqueTrimmed(rt, ListSource(out, "blocklisted_words", "blocklistedWords"))),
      Strs(UniqueTrimmed(rt, ListSource(out, "escalation_preferences", "escalationPreferences"))),
      NotesJson(ScenarioNotes(rt, NotesSource(out))));
  }

  /** The moves and the panel leave every other field alone. */
  lemma PanelStepKeeps(fs: Dict<Json>)
    ensures forall k :: !IsLegacyField(k) && k != "rightPanel" ==>
      Lookup(WithPanel(MoveLegacy(fs, PanelOf(fs))), k) == Lookup(fs, k)
  {
    MoveLegacyKeeps(fs, PanelOf(fs));
  }

  /** None of the fields the cleaning step touches is a legacy field or the panel. */
  lemma CleanedNotLegacy()
    ensures forall k :: IsCleanedField(k) ==> !IsLegacyField(k) && k != "rightPanel"
  {
  }

  /** Two records that agree outside the legacy fields and the panel have the same sources to clean. */
  lemma SameSources(a: Dict<Json>, b: Dict<Json>)
    requires forall k :: !IsLegacyField(k) && k != "rightPanel" ==> Lookup(a, k) == Lookup(b, k)
    ensures ListSource(a, "blocklisted_words", "blocklistedWords") == ListSource(b, "blocklisted_words", "blocklistedWords")
    ensures ListSource(a, "escalation_preferences", "escalationPreferences")
      == ListSource(b, "escalation_preferences", "escalationPreferences")
    ensures NotesSource(a) == NotesSource(b)
  {
    CleanedNotLegacy();
  }

  /** An entry of the record's own panel ends up, unchanged, in the stored panel. */
  lemma PanelStepPanel(fs: Dict<Json>, k: string)
    requires Has(PanelOf(fs), k)
    ensures Lookup(WithPanel(MoveLegacy(fs, PanelOf(fs))), "rightPanel")
      == Some(Obj(MoveLegacy(fs, PanelOf(fs)).panel))
    ensures Lookup(MoveLegacy(fs, PanelOf(fs)).panel, k) == Lookup(PanelOf(fs), k)
  {
    MoveLegacyKeeps(fs, PanelOf(fs));
    assert Lookup(MoveLegacy(fs, PanelOf(fs)).panel, k).Some?;
  }

  /**
   * Apart from the legacy fields and the fields the rewrite names, a stored
   * record has exactly the fields of the scenario it came from.
   */
  lemma StorageKeepsOtherFields(rt: Runtime, scenario: Json, k: string)
    requires scenario.Obj? && !IsLegacyField(k) && !IsRewrittenField(k)
    ensures Lookup(StorageForm(rt, scenario).fields, k) == Lookup(scenario.fields, k)
  {
    CleanFieldsKeeps(rt, WithPanel(MoveLegacy(scenario.fields, PanelOf(scenario.fields))));
    PanelStepKeeps(scenario.fields);
  }

  /** The camelCase list fields and `guidelines` never survive the rewrite. */
  lemma StorageDropsLegacyNames(rt: Runtime, scenario: Json)
    ensures Lookup(StorageForm(rt, scenario).fields, "blocklistedWords") == None
    ensures Lookup(StorageForm(rt, scenario).fields, "escalationPreferences") == None
    ensures Lookup(StorageForm(rt, scenario).fields, "guidelines") == None
  {
    if scenario.Obj? {
      CleanFieldsDrops(rt, WithPanel(MoveLegacy(scenario.fields, PanelOf(scenario.fields))));
    }
  }

  /**
   * The stored lists are the cleaned lists read from the scenario under the
   * snake_case name or, failing that, the camelCase one, and the stored notes
   * are the cleaned `notes`, or failing those the cleaned `guidelines`.
   */
  lemma StorageLists(rt: Runtime, scenario: Json)
    requires scenario.Obj?
    ensures Field(StorageForm(rt, scenario), "blocklisted_words", Null)
      == Strs(UniqueTrimmed(rt, ListSource(scenario.fields, "blocklisted_words", "blocklistedWords")))
    ensures Field(StorageForm(rt, scenario), "escalation_preferences", Null)
      == Strs(UniqueTrimmed(rt, ListSource(scenario.fields, "escalation_preferences", "escalationPreferences")))
    ensures Field(StorageForm(rt, scenario), "notes", Null) == NotesJson(ScenarioNotes(rt, NotesSource(scenario.fields)))
  {
    var fs := scenario.fields;
    CleanFieldsValues(rt, WithPanel(MoveLegacy(fs, PanelOf(fs))));
    PanelStepKeeps(fs);
    SameSources(WithPanel(MoveLegacy(fs, PanelOf(fs))), fs);
  }

  /** Every entry of an existing `rightPanel` dict is kept: it wins over the legacy fields. */
  lemma StoragePanelWins(rt: Runtime, scenario: Json, k: string)
    requires scenario.Obj? && Has(PanelOf(scenario.fields), k)
    ensures Field(StorageForm(rt, scenario), "rightPanel", Null).Obj?
    ensures Lookup(Field(StorageForm(rt, scenario), "rightPanel", Null).fields, k) == Lookup(PanelOf(scenario.fields), k)
  {
    PanelStepPanel(scenario.fields, k);
    CleanedNotLegacy();
    CleanFieldsKeeps(rt, WithPanel(MoveLegacy(scenario.fields, PanelOf(scenario.fields))));
  }

  /** The moves collect nothing only when the record had no panel entries to start from. */
  lemma NothingCollected(fs: Dict<Json>)
    requires MoveLegacy(fs, PanelOf(fs)).panel == []
    ensures PanelOf(fs) == []
    ensures Lookup(MoveLegacy(fs, PanelOf(fs)).out, "rightPanel") == Lookup(fs, "rightPanel")
  {
    MoveLegacyKeeps(fs, PanelOf(fs));
    assert !IsLegacyField("rightPanel");
    LastKeyFound(PanelOf(fs));
  }

  /** The stored panel is the panel the moves collected, or no entries at all. */
  lemma StoredPanel(rt: Runtime, scenario: Json, k: string)
    requires scenario.Obj?
    ensures Lookup(FieldsOf(Field(StorageForm(rt, scenario), "rightPanel", Null)), k)
      == Lookup(MoveLegacy(scenario.fields, PanelOf(scenario.fields)).panel, k)
  {
    var fs := scenario.fields;
    var moved := MoveLegacy(fs, PanelOf(fs));
    CleanFieldsPanel(rt, WithPanel(moved));
    var panelJson := Get(WithPanel(moved), "rightPanel", Null);
    assert Field(StorageForm(rt, scenario), "rightPanel", Null) == panelJson;
    if moved.panel == [] {
      NothingCollected(fs);
      assert FieldsOf(panelJson) == PanelOf(fs);
    }
  }

  /**
   * Each legacy field lands in the stored panel when the record's own panel
   * had no entry under its slot; an entry the panel had wins.
   */
  lemma StorageMovesIntoPanel(rt: Runtime, scenario: Json)
    requires scenario.Obj?
    ensures var p := PanelOf(scenario.fields); var fs := scenario.fields;
      var stored := FieldsOf(Field(StorageForm(rt, scenario), "rightPanel", Null));
      && Lookup(stored, "source") == (if Lookup(p, "source").Some? then Lookup(p, "source") else Lookup(fs, "source"))
      && Lookup(stored, "orders") == (if Lookup(p, "orders").Some? then Lookup(p, "orders") else Lookup(fs, "orders"))
      && Lookup(stored, "templates")
        == (if Lookup(p, "templates").Some? then Lookup(p, "templates") else Lookup(fs, "templatesUsed"))
      && Lookup(stored, "browsingHistory")
        == (if Lookup(p, "browsingHistory").Some? then Lookup(p, "browsingHistory")
            else if Lookup(fs, "browsingHistory").Some? then Lookup(fs, "browsingHistory")
            else Lookup(fs, "browsing_history"))
  {
    var fs := scenario.fields;
    StoredPanel(rt, scenario, "source");
    StoredPanel(rt, scenario, "orders");
    StoredPanel(rt, scenario, "templates");
    StoredPanel(rt, scenario, "browsingHistory");
    MoveLegacySource(fs, PanelOf(fs));
    MoveLegacyOrders(fs, PanelOf(fs));
    MoveLegacyTemplates(fs, PanelOf(fs));
    MoveLegacyBrowsing(fs, PanelOf(fs));
  }

  /** A legacy field of the stored record is whatever the moves left at the top level. */
  lemma StoredTopLevel(rt: Runtime, scenario: Json, k: string)
    requires scenario.Obj? && IsLegacyField(k)
    ensures Lookup(StorageForm(rt, scenario).fields, k)
      == Lookup(MoveLegacy(scenario.fields, PanelOf(scenario.fields)).out, k)
  {
    var moved := MoveLegacy(scenario.fields, PanelOf(scenario.fields));
    CleanedNotLegacy();
    CleanFieldsKeeps(rt, WithPanel(moved));
  }

  /**
   * The other half of each move: a legacy field stays at the top level of the
   * stored record exactly when the panel already had its slot, and is gone
   * otherwise; `browsing_history` stays when the slot was taken by the panel
   * or by the camelCase field.
   */
  lemma StorageLeavesLegacy(rt: Runtime, scenario: Json)
    requires scenario.Obj?
    ensures var p := PanelOf(scenario.fields); var fs := scenario.fields;
      var stored := StorageForm(rt, scenario).fields;
      && Lookup(stored, "source") == (if Lookup(p, "source").Some? then Lookup(fs, "source") else None)
      && Lookup(stored, "orders") == (if Lookup(p, "orders").Some? then Lookup(fs, "orders") else None)
      && Lookup(stored, "templatesUsed") == (if Lookup(p, "templates").Some? then Lookup(fs, "templatesUsed") else None)
      && Lookup(stored, "browsingHistory") == (if Lookup(p, "browsingHistory").Some? then Lookup(fs, "browsingHistory") else None)
      && Lookup(stored, "browsing_history")
        == (if Lookup(p, "browsingHistory").Some? || Lookup(fs, "browsingHistory").Some?
            then Lookup(fs, "browsing_history") else None)
  {
    var fs := scenario.fields;
    StoredTopLevel(rt, scenario, "source");
    StoredTopLevel(rt, scenario, "orders");
    StoredTopLevel(rt, scenario, "templatesUsed");
    StoredTopLevel(rt, scenario, "browsingHistory");
    StoredTopLevel(rt, scenario, "browsing_history");
    MoveLegacySource(fs, PanelOf(fs));
    MoveLegacyOrders(fs, PanelOf(fs));
    MoveLegacyTemplates(fs, PanelOf(fs));
    MoveLegacyBrowsing(fs, PanelOf(fs));
  }
}
