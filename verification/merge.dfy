/**
 * `merge_scenarios_by_id`: folds incoming scenarios into the existing list.
 * Every record is stored in its canonical form; an incoming record whose id
 * some record already has is merged into the first record with that id, any
 * other incoming record is appended and its id becomes a merge target for
 * the records after it.
 *
 * The fold is stated over the normaliser it applies to every record, a
 * function value; `MergeById` instantiates it with `StorageForm`, the model
 * of `normalize_scenario_record_for_storage`.
 */
module Merge {
  import opened Wrappers
  import opened Dicts
  import opened JsonValues
  import opened Records

  /** `normalize_text(record.get("id", "")).strip()` */
  function IdOf(rt: Runtime, record: Json): string
  {
    Clean(rt, Field(record, "id", Str("")))
  }

  /** The ids of a list of records, in order. */
  function IdList(rt: Runtime, records: seq<Json>): (ids: seq<string>)
    ensures |ids| == |records|
    ensures forall i :: 0 <= i < |records| ==> ids[i] == IdOf(rt, records[i])
  {
    seq(|records|, i requires 0 <= i < |records| => IdOf(rt, records[i]))
  }

  /** The id index built over the existing records: each non-empty id at the first position holding it. */
  function IndexOf(ids: seq<string>): (m: map<string, nat>)
    ensures forall id :: id in m ==> m[id] < |ids| && ids[m[id]] == id
    decreases |ids|
  {
    if ids == [] then map[]
    else
      var m := IndexOf(ids[..|ids| - 1]);
      var id := ids[|ids| - 1];
      if id != "" && id !in m then m[id := |ids| - 1] else m
  }

  /** The index holds exactly the non-empty ids, each at its first occurrence. */
  lemma {:induction false} IndexOfFirst(ids: seq<string>, id: string)
    ensures id in IndexOf(ids) <==> id != "" && id in ids
    ensures id in IndexOf(ids) ==> id !in ids[..IndexOf(ids)[id]]
    decreases |ids|
  {
    if ids != [] {
      var init := ids[..|ids| - 1];
      assert ids == init + [ids[|ids| - 1]];
      IndexOfFirst(init, id);
      if id in IndexOf(init) {
        assert ids[..IndexOf(init)[id]] == init[..IndexOf(init)[id]];
      } else if id == ids[|ids| - 1] && id != "" {
        assert ids[..|ids| - 1] == init;
      }
    }
  }

  /** Appending a record extends the index exactly as the loop over the existing records does. */
  lemma IndexOfSnoc(ids: seq<string>, id: string)
    ensures IndexOf(ids + [id]) == if id != "" && id !in IndexOf(ids) then IndexOf(ids)[id := |ids|] else IndexOf(ids)
  {
    assert (ids + [id])[..|ids|] == ids;
  }

  /** The ids of one more record of the list. */
  lemma IdListSnoc(rt: Runtime, records: seq<Json>, i: nat)
    requires i < |records|
    ensures IdList(rt, records[..i + 1]) == IdList(rt, records[..i]) + [IdOf(rt, records[i])]
  {
    assert records[..i + 1] == records[..i] + [records[i]];
    AppendedIds(rt, records[..i], records[i]);
  }

  /** The id index of the existing records, built in a loop. */
  method IndexById(rt: Runtime, records: seq<Json>) returns (index: map<string, nat>)
    ensures index == IndexOf(IdList(rt, records))
  {
    index := map[];
    for i := 0 to |records|
      invariant index == IndexOf(IdList(rt, records[..i]))
    {
      var sid := IdOf(rt, records[i]);
      IdListSnoc(rt, records, i);
      IndexOfSnoc(IdList(rt, records[..i]), sid);
      if sid != "" && sid !in index {
        index := index[sid := i];
      }
    }
    assert records[..|records|] == records;
  }

  /** `{**(value or {})}`: a falsy value spreads as no entries, a dict as its entries, anything else raises. */
  function SpreadPanel(v: Json): (r: Option<Dict<Json>>)
    ensures r.None? <==> Truthy(v) && !v.Obj?
    ensures r.Some? ==> r.value == FieldsOf(v)
  {
    if !Truthy(v) then Some([]) else if v.Obj? then Some(v.fields) else None
  }

  /**
   * `{**base, **item}`, with the two panels merged the same way when either
   * is truthy; None when a truthy panel is not a dict, where the source raises.
   */
  function Combined(base: Json, item: Json): (r: Option<Json>)
    ensures r.None? <==> SpreadPanel(Field(base, "rightPanel", Null)).None? || SpreadPanel(Field(item, "rightPanel", Null)).None?
    ensures r.Some? ==> r.value.Obj?
  {
    var merged := Overlay(FieldsOf(base), FieldsOf(item));
    var bp := Field(base, "rightPanel", Null);
    var ip := Field(item, "rightPanel", Null);
    if Truthy(bp) || Truthy(ip) then
      match (SpreadPanel(bp), SpreadPanel(ip))
      case (Some(a), Some(b)) => Some(Obj(Put(merged, "rightPanel", Obj(Overlay(a, b)))))
      case _ => None
    else Some(Obj(merged))
  }

  /** Outside the panel, a field of the combination is the item's when it has one, the base's otherwise. */
  lemma CombinedFields(base: Json, item: Json, k: string)
    requires Combined(base, item).Some? && k != "rightPanel"
    ensures Lookup(Combined(base, item).value.fields, k)
      == if Lookup(FieldsOf(item), k).Some? then Lookup(FieldsOf(item), k) else Lookup(FieldsOf(base), k)
  {
  }

  /** An entry of the combined panel is the item panel's when it has one, the base panel's otherwise. */
  lemma CombinedPanel(base: Json, item: Json, k: string)
    requires Combined(base, item).Some?
    ensures var bp, ip := Field(base, "rightPanel", Null), Field(item, "rightPanel", Null);
      Lookup(FieldsOf(Field(Combined(base, item).value, "rightPanel", Null)), k)
      == if Lookup(FieldsOf(ip), k).Some? then Lookup(FieldsOf(ip), k) else Lookup(FieldsOf(bp), k)
  {
  }

  /** The record stored when `item` is merged into `base`: their combination, normalised; None where the source raises. */
  function MergedRecord(normalize: Json -> Json, base: Json, item: Json): Option<Json>
  {
    match Combined(base, item)
    case None => None
    case Some(c) => Some(normalize(c))
  }

  /** Stored through the storage form, a merged record keeps the fields outside those the storage form rewrites. */
  lemma StoredMergeFields(rt: Runtime, base: Json, item: Json, k: string)
    requires MergedRecord(Storage(rt), base, item).Some?
    requires !IsLegacyField(k) && !IsRewrittenField(k)
    ensures Lookup(FieldsOf(MergedRecord(Storage(rt), base, item).value), k)
      == if Lookup(FieldsOf(item), k).Some? then Lookup(FieldsOf(item), k) else Lookup(FieldsOf(base), k)
  {
    var c := Combined(base, item).value;
    CombinedFields(base, item, k);
    StorageKeepsOtherFields(rt, c, k);
  }

  /** Stored through the storage form, the merged panel keeps every entry of the two panels, the item's winning. */
  lemma StoredMergePanel(rt: Runtime, base: Json, item: Json, k: string)
    requires MergedRecord(Storage(rt), base, item).Some?
    requires var bp, ip := Field(base, "rightPanel", Null), Field(item, "rightPanel", Null);
      Lookup(FieldsOf(bp), k).Some? || Lookup(FieldsOf(ip), k).Some?
    ensures var bp, ip := Field(base, "rightPanel", Null), Field(item, "rightPanel", Null);
      Lookup(FieldsOf(Field(MergedRecord(Storage(rt), base, item).value, "rightPanel", Null)), k)
      == if Lookup(FieldsOf(ip), k).Some? then Lookup(FieldsOf(ip), k) else Lookup(FieldsOf(bp), k)
  {
    var c := Combined(base, item).value;
    CombinedPanel(base, item, k);
    assert PanelOf(c.fields) == FieldsOf(Field(c, "rightPanel", Null));
    StoragePanelWins(rt, c, k);
  }

  /** The loop's state: the records, the id index, and the two counters. */
  datatype MergeState = MergeState(result: seq<Json>, index: map<string, nat>, updated: nat, added: nat)

  /** Every index entry points into the list. */
  predicate Bounded(st: MergeState)
  {
    forall id :: id in st.index ==> st.index[id] < |st.result|
  }

  /** The index is the first-occurrence index of the records' ids. */
  predicate Indexed(rt: Runtime, st: MergeState)
  {
    st.index == IndexOf(IdList(rt, st.result))
  }

  /** `result[idx] = record; updated += 1` */
  function Updated(st: MergeState, idx: nat, record: Json): (r: MergeState)
    requires Bounded(st) && idx < |st.result|
    ensures Bounded(r) && |r.result| == |st.result|
    ensures r.updated + r.added == st.updated + st.added + 1 && r.added == st.added
  {
    st.(result := st.result[idx := record], updated := st.updated + 1)
  }

  /** `result.append(record); added += 1`, and the id indexed at the new position when it is not empty. */
  function Appended(st: MergeState, record: Json, id: string): (r: MergeState)
    requires Bounded(st)
    ensures Bounded(r) && |r.result| == |st.result| + 1
    ensures r.updated + r.added == st.updated + st.added + 1 && r.added == st.added + 1
  {
    var index := if id != "" then st.index[id := |st.result|] else st.index;
    MergeState(st.result + [record], index, st.updated, st.added + 1)
  }

  /** One turn of the loop over the incoming records; None when the merge raises. */
  function Step(rt: Runtime, normalize: Json -> Json, st: MergeState, item: Json): (r: Option<MergeState>)
    requires Bounded(st)
    ensures r.Some? ==> Bounded(r.value)
    ensures r.Some? ==> r.value.updated + r.value.added == st.updated + st.added + 1
    ensures r.Some? ==> |r.value.result| == |st.result| + r.value.added - st.added
  {
    var norm := normalize(item);
    var id := IdOf(rt, norm);
    if id != "" && id in st.index then
      var idx := st.index[id];
      match MergedRecord(normalize, normalize(st.result[idx]), norm)
      case None => None
      case Some(m) => Some(Updated(st, idx, m))
    else Some(Appended(st, norm, id))
  }

  /** The loop over the incoming records, from a given state. */
  function Merge(rt: Runtime, normalize: Json -> Json, st: MergeState, items: seq<Json>): (r: Option<MergeState>)
    requires Bounded(st)
    ensures r.Some? ==> Bounded(r.value)
    decreases |items|
  {
    if items == [] then Some(st)
    else
      match Step(rt, normalize, st, items[0])
      case None => None
      case Some(next) => Merge(rt, normalize, next, items[1..])
  }

  /** The state before the loop over the incoming records. */
  function Start(rt: Runtime, normalize: Json -> Json, existing: seq<Json>): (st: MergeState)
    ensures Bounded(st) && Indexed(rt, st)
    ensures |st.result| == |existing| && st.updated == 0 && st.added == 0
    ensures forall i :: 0 <= i < |existing| ==> st.result[i] == normalize(existing[i])
  {
    var result := seq(|existing|, i requires 0 <= i < |existing| => normalize(existing[i]));
    MergeState(result, IndexOf(IdList(rt, result)), 0, 0)
  }

  /** The whole merge with a given normaliser; None when it raises. */
  function MergeWith(rt: Runtime, normalize: Json -> Json, existing: seq<Json>, incoming: seq<Json>): Option<MergeState>
  {
    Merge(rt, normalize, Start(rt, normalize, existing), incoming)
  }

  /** The storage normalisation as a function value. */
  function Storage(rt: Runtime): Json -> Json
  {
    x => StorageForm(rt, x)
  }

  /** What `merge_scenarios_by_id(existing, incoming)` computes; None when it raises. */
  function MergeById(rt: Runtime, existing: seq<Json>, incoming: seq<Json>): Option<MergeState>
  {
    MergeWith(rt, Storage(rt), existing, incoming)
  }

  /** The normaliser leaves every record's id as it was. */
  ghost predicate KeepsIds(rt: Runtime, normalize: Json -> Json)
  {
    forall x :: IdOf(rt, normalize(x)) == IdOf(rt, x)
  }

  /** The storage form keeps the id of every record: `id` is not a field it rewrites. */
  lemma StorageKeepsIds(rt: Runtime)
    ensures KeepsIds(rt, Storage(rt))
  {
    forall x ensures IdOf(rt, Storage(rt)(x)) == IdOf(rt, x) {
      if x.Obj? {
        StorageKeepsOtherFields(rt, x, "id");
      }
    }
  }

  /** Merging a record into one with the same id keeps that id. */
  lemma MergedKeepsId(rt: Runtime, normalize: Json -> Json, base: Json, item: Json)
    requires KeepsIds(rt, normalize) && IdOf(rt, base) == IdOf(rt, item)
    requires MergedRecord(normalize, base, item).Some?
    ensures IdOf(rt, MergedRecord(normalize, base, item).value) == IdOf(rt, item)
  {
    var c := Combined(base, item).value;
    CombinedFields(base, item, "id");
    assert IdOf(rt, c) == IdOf(rt, item);
  }

  lemma ReplacedIds(rt: Runtime, records: seq<Json>, i: nat, record: Json)
    requires i < |records| && IdOf(rt, record) == IdOf(rt, records[i])
    ensures IdList(rt, records[i := record]) == IdList(rt, records)
  {
  }

  lemma AppendedIds(rt: Runtime, records: seq<Json>, record: Json)
    ensures IdList(rt, records + [record]) == IdList(rt, records) + [IdOf(rt, record)]
  {
  }

  /** A turn of the loop keeps the index equal to the first-occurrence index of the records' ids. */
  lemma StepIndexed(rt: Runtime, normalize: Json -> Json, st: MergeState, item: Json)
    requires Bounded(st) && Indexed(rt, st) && KeepsIds(rt, normalize)
    requires Step(rt, normalize, st, item).Some?
    ensures Indexed(rt, Step(rt, normalize, st, item).value)
  {
    var norm := normalize(item);
    var id := IdOf(rt, norm);
    var ids := IdList(rt, st.result);
    var next := Step(rt, normalize, st, item).value;
    if id != "" && id in st.index {
      var idx := st.index[id];
      var m := MergedRecord(normalize, normalize(st.result[idx]), norm).value;
      MergedKeepsId(rt, normalize, normalize(st.result[idx]), norm);
      assert next.result == st.result[idx := m];
      ReplacedIds(rt, st.result, idx, m);
    } else {
      assert next.result == st.result + [norm];
      AppendedIds(rt, st.result, norm);
      IndexOfSnoc(ids, id);
    }
  }

  /** The whole loop keeps the index equal to the first-occurrence index of the records' ids. */
  lemma {:induction false} MergeIndexed(rt: Runtime, normalize: Json -> Json, st: MergeState, items: seq<Json>)
    requires Bounded(st) && Indexed(rt, st) && KeepsIds(rt, normalize)
    requires Merge(rt, normalize, st, items).Some?
    ensures Indexed(rt, Merge(rt, normalize, st, items).value)
    decreases |items|
  {
    if items != [] {
      StepIndexed(rt, normalize, st, items[0]);
      MergeIndexed(rt, normalize, Step(rt, normalize, st, items[0]).value, items[1..]);
    }
  }

  /** Every incoming record is counted once, as updated or as added, and only added ones lengthen the list. */
  lemma {:induction false} MergeCounts(rt: Runtime, normalize: Json -> Json, st: MergeState, items: seq<Json>)
    requires Bounded(st) && Merge(rt, normalize, st, items).Some?
    ensures var r := Merge(rt, normalize, st, items).value;
      && r.updated + r.added == st.updated + st.added + |items|
      && |r.result| == |st.result| + r.added - st.added
    decreases |items|
  {
    if items != [] {
      MergeCounts(rt, normalize, Step(rt, normalize, st, items[0]).value, items[1..]);
    }
  }

  /**
   * An item whose id is not empty and held by record `i` and by no record
   * before it is merged into record `i`, and nothing else changes.
   */
  lemma StepMergesFirst(rt: Runtime, normalize: Json -> Json, st: MergeState, item: Json, i: nat)
    requires Bounded(st) && Indexed(rt, st)
    requires i < |st.result| && IdOf(rt, normalize(item)) != "" && IdOf(rt, st.result[i]) == IdOf(rt, normalize(item))
    requires forall j :: 0 <= j < i ==> IdOf(rt, st.result[j]) != IdOf(rt, normalize(item))
    ensures var merged := MergedRecord(normalize, normalize(st.result[i]), normalize(item));
      var r := Step(rt, normalize, st, item);
      && (r.None? <==> merged.None?)
      && (r.Some? ==> r.value.result == st.result[i := merged.value]
                      && r.value.updated == st.updated + 1 && r.value.added == st.added)
  {
    var id := IdOf(rt, normalize(item));
    var ids := IdList(rt, st.result);
    assert ids[i] == id;
    IndexOfFirst(ids, id);
    var first := st.index[id];
    if first < i {
      assert false;
    } else if first > i {
      assert false;
    }
  }

  /** An item whose id is empty or held by no record is appended in its normalised form. */
  lemma StepAppends(rt: Runtime, normalize: Json -> Json, st: MergeState, item: Json)
    requires Bounded(st) && Indexed(rt, st)
    requires var id := IdOf(rt, normalize(item));
      id == "" || forall j :: 0 <= j < |st.result| ==> IdOf(rt, st.result[j]) != id
    ensures var r := Step(rt, normalize, st, item);
      && r.Some? && r.value.result == st.result + [normalize(item)]
      && r.value.updated == st.updated && r.value.added == st.added + 1
  {
    var id := IdOf(rt, normalize(item));
    var ids := IdList(rt, st.result);
    IndexOfFirst(ids, id);
    if id in ids {
      var j :| 0 <= j < |ids| && ids[j] == id;
    }
  }

  /**
   * Of the merge as a whole: every incoming record is either an update or an
   * addition, the list grows by the additions, and the ids of the final list
   * index to the first record holding each.
   */
  lemma MergeByIdTotals(rt: Runtime, existing: seq<Json>, incoming: seq<Json>)
    requires MergeById(rt, existing, incoming).Some?
    ensures var r := MergeById(rt, existing, incoming).value;
      && r.updated + r.added == |incoming|
      && |r.result| == |existing| + r.added
      && Indexed(rt, r)
  {
    var start := Start(rt, Storage(rt), existing);
    MergeCounts(rt, Storage(rt), start, incoming);
    StorageKeepsIds(rt);
    MergeIndexed(rt, Storage(rt), start, incoming);
  }

  // ---------------------------------------------------------------------------
  // Where the records end up

  /** The non-empty ids among a list of records. */
  function HeldIds(rt: Runtime, records: seq<Json>): (held: set<string>)
    ensures forall id :: id in held <==> id != "" && id in IdList(rt, records)
  {
    set id | id in IdList(rt, records) && id != ""
  }

  /**
   * The ids of the incoming records that are appended, in incoming order: a
   * record is appended unless its id is non-empty and already held, and an
   * appended record's non-empty id is held from then on.
   */
  function NewIds(held: set<string>, ids: seq<string>): (r: seq<string>)
    ensures |r| <= |ids|
    ensures forall j :: 0 <= j < |r| ==> r[j] == "" || r[j] !in held
    ensures forall i, j :: 0 <= i < j < |r| && r[i] != "" ==> r[i] != r[j]
    decreases |ids|
  {
    if ids == [] then []
    else if ids[0] != "" && ids[0] in held then NewIds(held, ids[1..])
    else
      var rest := NewIds(held + (if ids[0] != "" then {ids[0]} else {}), ids[1..]);
      assert forall j :: 0 < j < |[ids[0]] + rest| ==> ([ids[0]] + rest)[j] == rest[j - 1];
      [ids[0]] + rest
  }

  /**
   * One turn of the loop: a merge keeps the ids, the index and the additions;
   * an addition puts the item's id at the end and holds it when it is not empty.
   */
  lemma StepLayout(rt: Runtime, normalize: Json -> Json, st: MergeState, item: Json)
    requires Bounded(st) && Indexed(rt, st) && KeepsIds(rt, normalize)
    requires Step(rt, normalize, st, item).Some?
    ensures var next := Step(rt, normalize, st, item).value;
      var id := IdOf(rt, normalize(item));
      if id != "" && id in st.index then
        IdList(rt, next.result) == IdList(rt, st.result) && next.index == st.index && next.added == st.added
      else
        && IdList(rt, next.result) == IdList(rt, st.result) + [id]
        && next.index.Keys == st.index.Keys + (if id != "" then {id} else {})
        && next.added == st.added + 1
  {
    var norm := normalize(item);
    var id := IdOf(rt, norm);
    var next := Step(rt, normalize, st, item).value;
    if id != "" && id in st.index {
      var idx := st.index[id];
      var m := MergedRecord(normalize, normalize(st.result[idx]), norm).value;
      MergedKeepsId(rt, normalize, normalize(st.result[idx]), norm);
      ReplacedIds(rt, st.result, idx, m);
    } else {
      AppendedIds(rt, st.result, norm);
    }
  }

  lemma IdListCons(rt: Runtime, items: seq<Json>)
    requires items != []
    ensures IdList(rt, items) == [IdOf(rt, items[0])] + IdList(rt, items[1..])
  {
  }

  /**
   * One turn of the loop moves the layout along: what the records and the
   * ids still to come say before the turn, they say after it.
   */
  lemma MergeLayoutStep(rt: Runtime, normalize: Json -> Json, st: MergeState, items: seq<Json>)
    requires items != [] && Bounded(st) && Indexed(rt, st) && KeepsIds(rt, normalize)
    requires Merge(rt, normalize, st, items).Some?
    ensures Step(rt, normalize, st, items[0]).Some?
    ensures var next := Step(rt, normalize, st, items[0]).value;
      && Bounded(next) && Indexed(rt, next)
      && Merge(rt, normalize, st, items) == Merge(rt, normalize, next, items[1..])
      && IdList(rt, st.result) + NewIds(st.index.Keys, IdList(rt, items))
         == IdList(rt, next.result) + NewIds(next.index.Keys, IdList(rt, items[1..]))
      && st.added + |NewIds(st.index.Keys, IdList(rt, items))|
         == next.added + |NewIds(next.index.Keys, IdList(rt, items[1..]))|
  {
    StepIndexed(rt, normalize, st, items[0]);
    var id := IdOf(rt, normalize(items[0]));
    if id != "" && id in st.index {
      LayoutMergedTurn(rt, normalize, st, items);
    } else {
      LayoutAppendedTurn(rt, normalize, st, items);
    }
  }

  lemma LayoutMergedTurn(rt: Runtime, normalize: Json -> Json, st: MergeState, items: seq<Json>)
    requires items != [] && Bounded(st) && Indexed(rt, st) && KeepsIds(rt, normalize)
    requires Step(rt, normalize, st, items[0]).Some?
    requires var id := IdOf(rt, normalize(items[0])); id != "" && id in st.index
    ensures var next := Step(rt, normalize, st, items[0]).value;
      && IdList(rt, st.result) + NewIds(st.index.Keys, IdList(rt, items))
         == IdList(rt, next.result) + NewIds(next.index.Keys, IdList(rt, items[1..]))
      && st.added + |NewIds(st.index.Keys, IdList(rt, items))|
         == next.added + |NewIds(next.index.Keys, IdList(rt, items[1..]))|
  {
    var next := Step(rt, normalize, st, items[0]).value;
    var id := IdOf(rt, normalize(items[0]));
    var b := IdList(rt, items[1..]);
    assert IdList(rt, items) == [id] + b by {
      IdListCons(rt, items);
    }
    assert IdList(rt, next.result) == IdList(rt, st.result) && next.index == st.index
        && next.added == st.added by {
      StepLayout(rt, normalize, st, items[0]);
    }
    assert ([id] + b)[0] == id && ([id] + b)[1..] == b;
  }

  lemma LayoutAppendedTurn(rt: Runtime, normalize: Json -> Json, st: MergeState, items: seq<Json>)
    requires items != [] && Bounded(st) && Indexed(rt, st) && KeepsIds(rt, normalize)
    requires Step(rt, normalize, st, items[0]).Some?
    requires var id := IdOf(rt, normalize(items[0])); !(id != "" && id in st.index)
    ensures var next := Step(rt, normalize, st, items[0]).value;
      && IdList(rt, st.result) + NewIds(st.index.Keys, IdList(rt, items))
         == IdList(rt, next.result) + NewIds(next.index.Keys, IdList(rt, items[1..]))
      && st.added + |NewIds(st.index.Keys, IdList(rt, items))|
         == next.added + |NewIds(next.index.Keys, IdList(rt, items[1..]))|
  {
    var next := Step(rt, normalize, st, items[0]).value;
    var id := IdOf(rt, normalize(items[0]));
    var held := st.index.Keys + (if id != "" then {id} else {});
    assert IdList(rt, items) == [id] + IdList(rt, items[1..]) by {
      IdListCons(rt, items);
    }
    assert next.index.Keys == held && next.added == st.added + 1
        && IdList(rt, next.result) == IdList(rt, st.result) + [id] by {
      StepLayout(rt, normalize, st, items[0]);
    }
    AppendedLayout(IdList(rt, st.result), id, IdList(rt, items[1..]), st.index.Keys);
  }

  /** The id arithmetic of an appending turn. */
  lemma AppendedLayout(a: seq<string>, id: string, b: seq<string>, held: set<string>)
    requires !(id != "" && id in held)
    ensures var held' := held + (if id != "" then {id} else {});
      && a + NewIds(held, [id] + b) == (a + [id]) + NewIds(held', b)
      && |NewIds(held, [id] + b)| == 1 + |NewIds(held', b)|
  {
    var held' := held + (if id != "" then {id} else {});
    assert ([id] + b)[0] == id && ([id] + b)[1..] == b;
    assert NewIds(held, [id] + b) == [id] + NewIds(held', b);
    assert a + ([id] + NewIds(held', b)) == (a + [id]) + NewIds(held', b);
  }

  /**
   * The records the loop ends with: the ids of the records it started with,
   * position by position, followed by the ids of the appended records in
   * incoming order; one addition is counted per appended record.
   */
  lemma {:induction false} MergeLayout(rt: Runtime, normalize: Json -> Json, st: MergeState, items: seq<Json>)
    requires Bounded(st) && Indexed(rt, st) && KeepsIds(rt, normalize)
    requires Merge(rt, normalize, st, items).Some?
    ensures var r := Merge(rt, normalize, st, items).value;
      var appended := NewIds(st.index.Keys, IdList(rt, items));
      && IdList(rt, r.result) == IdList(rt, st.result) + appended
      && r.added == st.added + |appended|
    decreases |items|
  {
    if items == [] {
      assert IdList(rt, st.result) + [] == IdList(rt, st.result);
    } else {
      MergeLayoutStep(rt, normalize, st, items);
      MergeLayout(rt, normalize, Step(rt, normalize, st, items[0]).value, items[1..]);
    }
  }

  /**
   * Of the merge as a whole: every existing record keeps its place and its
   * id, and after them come the appended incoming records, in incoming order:
   * an incoming record is appended unless an earlier record, existing or
   * appended, holds its non-empty id. `added` counts them.
   */
  lemma MergeByIdLayout(rt: Runtime, existing: seq<Json>, incoming: seq<Json>)
    requires MergeById(rt, existing, incoming).Some?
    ensures var r := MergeById(rt, existing, incoming).value;
      var appended := NewIds(HeldIds(rt, existing), IdList(rt, incoming));
      && IdList(rt, r.result) == IdList(rt, existing) + appended
      && r.added == |appended|
  {
    var start := Start(rt, Storage(rt), existing);
    StorageKeepsIds(rt);
    var ids := IdList(rt, start.result);
    assert ids == IdList(rt, existing);
    forall id ensures id in start.index <==> id in HeldIds(rt, existing) {
      IndexOfFirst(ids, id);
    }
    assert start.index.Keys == HeldIds(rt, existing);
    MergeLayout(rt, Storage(rt), start, incoming);
  }

  /**
   * Position by position: every existing record keeps its place (merges
   * change its fields, never its id), and the positions after them hold the
   * appended ids in incoming order.
   */
  lemma MergeByIdPositions(rt: Runtime, existing: seq<Json>, incoming: seq<Json>)
    requires MergeById(rt, existing, incoming).Some?
    ensures var r := MergeById(rt, existing, incoming).value;
      var appended := NewIds(HeldIds(rt, existing), IdList(rt, incoming));
      && |r.result| == |existing| + |appended|
      && (forall i :: 0 <= i < |existing| ==> IdOf(rt, r.result[i]) == IdOf(rt, existing[i]))
      && (forall j :: 0 <= j < |appended| ==> IdOf(rt, r.result[|existing| + j]) == appended[j])
  {
    MergeByIdLayout(rt, existing, incoming);
    IdPositions(rt, MergeById(rt, existing, incoming).value.result, existing,
                NewIds(HeldIds(rt, existing), IdList(rt, incoming)));
  }

  /** Reading an id list `a + b` back position by position. */
  lemma IdPositions(rt: Runtime, result: seq<Json>, existing: seq<Json>, appended: seq<string>)
    requires IdList(rt, result) == IdList(rt, existing) + appended
    ensures |result| == |existing| + |appended|
    ensures forall i :: 0 <= i < |existing| ==> IdOf(rt, result[i]) == IdOf(rt, existing[i])
    ensures forall j :: 0 <= j < |appended| ==> IdOf(rt, result[|existing| + j]) == appended[j]
  {
    var ids := IdList(rt, result);
    assert |ids| == |IdList(rt, existing)| + |appended|;
    forall i | 0 <= i < |existing| ensures IdOf(rt, result[i]) == IdOf(rt, existing[i]) {
      assert ids[i] == IdList(rt, existing)[i];
    }
    forall j | 0 <= j < |appended| ensures IdOf(rt, result[|existing| + j]) == appended[j] {
      assert ids[|existing| + j] == appended[j];
    }
  }

  /** With an NFKC that keeps ASCII text, a record without an `id` field has the empty id. */
  lemma NoIdIsBlank(rt: Runtime, x: Json)
    requires KeepsAscii(rt) && Lookup(FieldsOf(x), "id") == None
    ensures IdOf(rt, x) == ""
  {
    assert IsAscii("");
  }

  /** A record without an `id` field is never merged: it is appended in its storage form. */
  lemma IdlessAppended(rt: Runtime, st: MergeState, item: Json)
    requires KeepsAscii(rt) && Bounded(st) && Lookup(FieldsOf(item), "id") == None
    ensures var r := Step(rt, Storage(rt), st, item);
      && r.Some? && r.value.result == st.result + [StorageForm(rt, item)]
      && r.value.index == st.index && r.value.updated == st.updated && r.value.added == st.added + 1
  {
    StorageKeepsIds(rt);
    NoIdIsBlank(rt, item);
    assert IdOf(rt, Storage(rt)(item)) == "";
  }

  /** `{"scenarios": result, "updated": updated, "added": added}` */
  function Report(st: MergeState): Json
  {
    Obj([("scenarios", Arr(st.result)), ("updated", Num(st.updated)), ("added", Num(st.added))])
  }

  /** `[normalize_scenario_record_for_storage(item) for item in existing]` */
  method NormalizeAll(normalize: Json -> Json, existing: seq<Json>) returns (result: seq<Json>)
    ensures |result| == |existing|
    ensures forall i :: 0 <= i < |existing| ==> result[i] == normalize(existing[i])
  {
    result := [];
    for i := 0 to |existing|
      invariant |result| == i
      invariant forall j :: 0 <= j < i ==> result[j] == normalize(existing[j])
    {
      result := result + [normalize(existing[i])];
    }
  }

  /** `merged = {**base, **item_norm}`, the panels merged, then normalised; None where it raises. */
  method MergeRecords(normalize: Json -> Json, base: Json, itemNorm: Json) returns (r: Option<Json>)
    ensures r == MergedRecord(normalize, base, itemNorm)
  {
    var merged := Overlay(FieldsOf(base), FieldsOf(itemNorm));
    var basePanel := Field(base, "rightPanel", Null);
    var itemPanel := Field(itemNorm, "rightPanel", Null);
    if Truthy(basePanel) || Truthy(itemPanel) {
      var a := SpreadPanel(basePanel);
      var b := SpreadPanel(itemPanel);
      if a.None? || b.None? {
        return None;
      }
      merged := Put(merged, "rightPanel", Obj(Overlay(a.value, b.value)));
    }
    r := Some(normalize(Obj(merged)));
  }

  /** The merging branch of the loop body: the record at `idx` is replaced by the merge; None where it raises. */
  method MergeInto(normalize: Json -> Json, st: MergeState, idx: nat, itemNorm: Json) returns (r: Option<MergeState>)
    requires Bounded(st) && idx < |st.result|
    ensures r == match MergedRecord(normalize, normalize(st.result[idx]), itemNorm)
                 case None => None
                 case Some(m) => Some(Updated(st, idx, m))
  {
    var result, updated := st.result, st.updated;
    var base := normalize(result[idx]);
    var merged := MergeRecords(normalize, base, itemNorm);
    if merged.None? {
      return None;
    }
    result := result[idx := merged.value];
    updated := updated + 1;
    r := Some(st.(result := result, updated := updated));
  }

  /** One turn of the loop: the list, the index and the counters it updates; None where it raises. */
  method MergeOne(rt: Runtime, normalize: Json -> Json, st: MergeState, item: Json) returns (r: Option<MergeState>)
    requires Bounded(st)
    ensures r == Step(rt, normalize, st, item)
  {
    var itemNorm := normalize(item);
    var incomingId := IdOf(rt, itemNorm);
    if incomingId != "" && incomingId in st.index {
      r := MergeInto(normalize, st, st.index[incomingId], itemNorm);
    } else {
      var result, index, added := st.result, st.index, st.added;
      result := result + [itemNorm];
      added := added + 1;
      if incomingId != "" {
        index := index[incomingId := |result| - 1];
      }
      r := Some(MergeState(result, index, st.updated, added));
    }
  }

  /** The loop over the incoming records; None where it raises. */
  method MergeLoop(rt: Runtime, normalize: Json -> Json, start: MergeState, incoming: seq<Json>) returns (r: Option<MergeState>)
    requires Bounded(start)
    ensures r == Merge(rt, normalize, start, incoming)
  {
    var st := start;
    for k := 0 to |incoming|
      invariant Bounded(st)
      invariant Merge(rt, normalize, st, incoming[k..]) == Merge(rt, normalize, start, incoming)
    {
      assert incoming[k..][0] == incoming[k] && incoming[k..][1..] == incoming[k + 1..];
      var next := MergeOne(rt, normalize, st, incoming[k]);
      if next.None? {
        return None;
      }
      st := next.value;
    }
    assert incoming[|incoming|..] == [];
    r := Some(st);
  }

  /**
   * `merge_scenarios_by_id(existing, incoming)`; `None` or an empty list is
   * passed as `[]`. The result is None where the source raises a TypeError.
   */
  method MergeScenariosById(rt: Runtime, existing: seq<Json>, incoming: seq<Json>) returns (r: Option<Json>)
    ensures r.None? <==> MergeById(rt, existing, incoming).None?
    ensures r.Some? ==> r.value == Report(MergeById(rt, existing, incoming).value)
  {
    var result := NormalizeAll(Storage(rt), existing);
    var index := IndexById(rt, result);
    assert result == Start(rt, Storage(rt), existing).result;
    var st := MergeLoop(rt, Storage(rt), MergeState(result, index, 0, 0), incoming);
    if st.None? {
      return None;
    }
    r := Some(Report(st.value));
  }
}
