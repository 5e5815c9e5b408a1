/**
 * Recognising the shapes of a scenarios or templates payload: a single
 * conversation given as a list of messages, a list of scenarios, or an object
 * holding them under `scenarios` (a list, or a dict keyed by scenario id).
 */
module Shapes {
  import opened Dicts
  import opened JsonValues

  /** `is_message_like`: a dict carrying any of the message fields. */
  predicate IsMessageLike(item: Json)
  {
    item.Obj?
    && (Has(item.fields, "message_text") || Has(item.fields, "message_type")
        || Has(item.fields, "content") || Has(item.fields, "role"))
  }

  /** The keys that mark a dict as a message. */
  const MessageFields: set<string> := {"message_text", "message_type", "content", "role"}

  /** A value is message-like exactly when it is a dict one of whose keys is a message field. */
  lemma MessageLikeKeys(item: Json)
    ensures IsMessageLike(item) <==> item.Obj? && exists i :: 0 <= i < |item.fields| && item.fields[i].0 in MessageFields
  {
    if item.Obj? {
      var ks := Keys(item.fields);
      if IsMessageLike(item) {
        var k :| k in MessageFields && k in ks;
        var i :| 0 <= i < |ks| && ks[i] == k;
        assert item.fields[i].0 in MessageFields;
      }
      if i :| 0 <= i < |item.fields| && item.fields[i].0 in MessageFields {
        assert ks[i] in ks;
      }
    }
  }

  /** A non-empty list every element of which looks like a message: one conversation. */
  predicate IsSingleConversation(xs: seq<Json>)
  {
    xs != [] && forall i :: 0 <= i < |xs| ==> IsMessageLike(xs[i])
  }

  /** `convert_scenario_container_to_list`: the scenarios of a payload, in order. */
  function ScenarioContainerToList(container: Json): (r: seq<Json>)
    ensures container.Arr? ==> r == container.items
    ensures !container.Arr? && !(container.Obj? && Has(container.fields, "scenarios")) ==> r == []
    ensures container.Obj? && Field(container, "scenarios", Null).Arr? ==> r == Field(container, "scenarios", Null).items
    ensures container.Obj? && Field(container, "scenarios", Null).Obj? ==> r == Values(Field(container, "scenarios", Null).fields)
    ensures container.Obj? && !Field(container, "scenarios", Null).Arr? && !Field(container, "scenarios", Null).Obj? ==> r == []
  {
    match container
    case Arr(xs) => xs
    case Obj(fs) =>
      if Has(fs, "scenarios") then
        (match Get(fs, "scenarios", Null)
         case Arr(sc) => sc
         case Obj(sc) => Values(sc)
         case _ => [])
      else []
    case _ => []
  }

  /** The list a payload holds directly: itself, or its `scenarios` list. */
  function ListForm(payload: Json): seq<Json>
  {
    match payload
    case Arr(xs) => xs
    case Obj(fs) =>
      if Has(fs, "scenarios") then
        (match Get(fs, "scenarios", Null)
         case Arr(sc) => sc
         case _ => [])
      else []
    case _ => []
  }

  /**
   * `get_scenario_count`: a list of messages is one scenario; otherwise every
   * element of the container is a scenario, and an unrecognised shape has none.
   */
  function ScenarioCount(payload: Json): (n: nat)
    ensures payload == Null ==> n == 0
    ensures n == if IsSingleConversation(ListForm(payload)) then 1 else |ScenarioContainerToList(payload)|
    ensures n == 0 <==> ScenarioContainerToList(payload) == []
  {
    match payload
    case Null => 0
    case Arr(xs) =>
      if xs == [] then 0
      else if forall i :: 0 <= i < |xs| ==> IsMessageLike(xs[i]) then 1
      else |xs|
    case Obj(fs) =>
      if Has(fs, "scenarios") then
        (match Get(fs, "scenarios", Null)
         case Arr(sc) =>
           if sc == [] then 0
           else if forall i :: 0 <= i < |sc| ==> IsMessageLike(sc[i]) then 1
           else |sc|
         case Obj(sc) => |sc|
         case _ => 0)
      else 0
    case _ => 0
  }

  /** `get_template_count`: the length of a bare list or of the `templates` list, else 0. */
  function TemplateCount(payload: Json): (n: nat)
    ensures payload.Arr? ==> n == |payload.items|
    ensures payload.Obj? && Field(payload, "templates", Null).Arr? ==> n == |Field(payload, "templates", Null).items|
    ensures n > 0 ==> payload.Arr? || (payload.Obj? && Field(payload, "templates", Null).Arr?)
  {
    match payload
    case Arr(xs) => |xs|
    case Obj(fs) =>
      (match Get(fs, "templates", Null)
       case Arr(ts) => |ts|
       case _ => 0)
    case _ => 0
  }

  /**
   * `get_obj_prop_value`: the value under the first of `names` that the dict
   * has (so earlier aliases win), or None.
   */
  function GetObjPropValue(obj: Json, names: seq<string>): (r: Json)
    ensures !obj.Obj? ==> r == Null
    ensures (forall i :: 0 <= i < |names| ==> !Has(FieldsOf(obj), names[i])) ==> r == Null
    ensures forall i :: 0 <= i < |names| && obj.Obj? && Has(obj.fields, names[i])
                        && (forall j :: 0 <= j < i ==> !Has(obj.fields, names[j]))
                        ==> r == Get(obj.fields, names[i], Null)
    decreases |names|
  {
    if !obj.Obj? || names == [] then Null
    else if Has(obj.fields, names[0]) then Get(obj.fields, names[0], Null)
    else GetObjPropValue(obj, names[1..])
  }
}
