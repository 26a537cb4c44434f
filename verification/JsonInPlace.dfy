/**
 `Serialize` and `Parse` as they run: the tree under construction and the variable parsed into are updated in place,
 containers in loops, a struct field by field. What they leave behind is what the functions of JsonModel say.
 */
module JsonInPlace {
  import opened Domain
  import opened JsonModel
  import opened JsonTrees

  /** A `rapidjson::Value`. */
  class Tree {
    var json: Json

    constructor (json: Json)
      ensures this.json == json
    {
      this.json := json;
    }

    /** `addJsonMember`; false stands for rapidjson's failed assertion. */
    method Add(name: Option<string>, value: Json) returns (ok: bool)
      modifies this
      ensures ok == AddMember(old(json), name, value).Some?
      ensures json == if ok then AddMember(old(json), name, value).value else old(json)
    {
      if name.None? {
        json := value;
        return true;
      }
      var field := CStr(name.value);
      if field == "" {
        if !json.JArray? {
          return false;
        }
        json := JArray(json.items + [value]);
      } else {
        if !json.JObject? {
          return false;
        }
        json := JObject(json.members + [Member(field, value)]);
      }
      ok := true;
    }
  }

  /** A C++ variable that is parsed into. */
  class Variable {
    var v: Val

    constructor (v: Val)
      ensures this.v == v
    {
      this.v := v;
    }
  }

  // ----- a failed assertion ends the program

  lemma {:induction false} FieldsStayFailed(order: Order, t: Type, v: Val, i: nat, n: nat, ignoreDefault: bool)
    requires IsOrder(order) && HasType(v, t) && t.TStruct? && i <= n <= |t.fields|
    requires WriteFields(order, t, v, i, ignoreDefault).None?
    ensures WriteFields(order, t, v, n, ignoreDefault).None?
    decreases n
  {
    if i < n {
      FieldsStayFailed(order, t, v, i, n - 1, ignoreDefault);
    }
  }

  lemma {:induction false} EntriesStayFailed(order: Order, elem: Type, m: map<string, Val>, keys: seq<string>, i: nat)
    requires IsOrder(order) && (forall k :: k in keys ==> k in m && HasType(m[k], elem)) && i <= |keys|
    requires WriteEntries(order, elem, m, keys[..i]).None?
    ensures WriteEntries(order, elem, m, keys).None?
    decreases |keys|
  {
    if i < |keys| {
      assert keys[..|keys| - 1][..i] == keys[..i];
      EntriesStayFailed(order, elem, m, keys[..|keys| - 1], i);
    } else {
      assert keys[..i] == keys;
    }
  }

  lemma {:induction false} ItemsStayFailed(order: Order, elem: Type, items: seq<Val>, i: nat)
    requires IsOrder(order) && (forall j :: 0 <= j < |items| ==> HasType(items[j], elem)) && i <= |items|
    requires WriteItems(order, elem, items[..i]).None?
    ensures WriteItems(order, elem, items).None?
    decreases |items|
  {
    if i < |items| {
      assert items[..|items| - 1][..i] == items[..i];
      ItemsStayFailed(order, elem, items[..|items| - 1], i);
    } else {
      assert items[..i] == items;
    }
  }

  lemma NextEntry(order: Order, elem: Type, m: map<string, Val>, keys: seq<string>, i: nat)
    requires IsOrder(order) && (forall k :: k in keys ==> k in m && HasType(m[k], elem)) && i < |keys|
    requires WriteEntries(order, elem, m, keys[..i]).Some?
    ensures WriteEntries(order, elem, m, keys[..i + 1])
         == Serialize(order, elem, WriteEntries(order, elem, m, keys[..i]).value, Some(keys[i]), m[keys[i]], false)
  {
    assert keys[..i + 1][..i] == keys[..i];
  }

  // ----- serialising

  /** `Serialize` of v as member `name` of json. */
  method SerializeInto(order: Order, t: Type, json: Tree, name: Option<string>, v: Val, ignoreDefault: bool)
      returns (ok: bool)
    requires IsOrder(order) && HasType(v, t)
    modifies json
    ensures ok == Serialize(order, t, old(json.json), name, v, ignoreDefault).Some?
    ensures ok ==> json.json == Serialize(order, t, old(json.json), name, v, ignoreDefault).value
    decreases t, 3, 0
  {
    if ignoreDefault && IsDefault(v) {
      return true;
    }
    var value: Tree;
    match t {
      case TInt(_) => value := new Tree(JInt(v.n)); ok := true;
      case TBool => value := new Tree(JBool(v.b)); ok := true;
      case TString => value := new Tree(JString(v.s)); ok := true;
      case TStruct(_, _) =>
        value := new Tree(JObject([]));
        ok := WriteToJson(order, t, value, v, ignoreDefault);
      case TMap(elem) =>
        value := new Tree(JObject([]));
        ok := WriteMap(order, elem, value, v.m);
      case TVector(elem) =>
        value := new Tree(JArray([]));
        ok := WriteVector(order, elem, value, v.items);
    }
    if ok {
      ok := json.Add(name, value.json);
    }
  }

  /** `WriteToJson`, which JSON_DEFINE_FIELDS generates: one statement for each field. */
  method WriteToJson(order: Order, t: Type, json: Tree, v: Val, ignoreDefault: bool) returns (ok: bool)
    requires IsOrder(order) && HasType(v, t) && t.TStruct? && json.json == JObject([])
    modifies json
    ensures ok == WriteFields(order, t, v, |t.fields|, ignoreDefault).Some?
    ensures ok ==> json.json == WriteFields(order, t, v, |t.fields|, ignoreDefault).value
    decreases t, 1, 0
  {
    for i := 0 to |t.fields|
      invariant WriteFields(order, t, v, i, ignoreDefault) == Some(json.json)
    {
      var done := SerializeInto(order, t.fields[i].typ, json, Some(FieldName(t, i)), v.fields[i], ignoreDefault);
      if !done {
        FieldsStayFailed(order, t, v, i + 1, |t.fields|, ignoreDefault);
        return false;
      }
    }
    ok := true;
  }

  method WriteMap(order: Order, elem: Type, json: Tree, m: map<string, Val>) returns (ok: bool)
    requires IsOrder(order) && (forall k :: k in m ==> HasType(m[k], elem)) && json.json == JObject([])
    modifies json
    ensures Lists(order(m.Keys), m.Keys)
    ensures ok == WriteEntries(order, elem, m, order(m.Keys)).Some?
    ensures ok ==> json.json == WriteEntries(order, elem, m, order(m.Keys)).value
    decreases elem, 5, 0
  {
    var it := order(m.Keys);
    assert Lists(it, m.Keys);
    assert WriteEntries(order, elem, m, it[..0]) == Some(JObject([]));
    hide WriteEntries, Serialize, HasType, IsOrder;
    for i := 0 to |it|
      invariant WriteEntries(order, elem, m, it[..i]) == Some(json.json)
    {
      NextEntry(order, elem, m, it, i);
      var done := SerializeInto(order, elem, json, Some(it[i]), m[it[i]], false);
      if !done {
        EntriesStayFailed(order, elem, m, it, i + 1);
        return false;
      }
    }
    assert it[..|it|] == it;
    ok := true;
  }

  method WriteVector(order: Order, elem: Type, json: Tree, items: seq<Val>) returns (ok: bool)
    requires IsOrder(order) && (forall i :: 0 <= i < |items| ==> HasType(items[i], elem)) && json.json == JArray([])
    modifies json
    ensures ok == WriteItems(order, elem, items).Some?
    ensures ok ==> json.json == WriteItems(order, elem, items).value
    decreases elem, 5, 0
  {
    for i := 0 to |items|
      invariant WriteItems(order, elem, items[..i]) == Some(json.json)
    {
      assert items[..i + 1][..i] == items[..i];
      var done := SerializeInto(order, elem, json, Some(""), items[i], false);
      if !done {
        ItemsStayFailed(order, elem, items, i + 1);
        return false;
      }
    }
    assert items[..|items|] == items;
    ok := true;
  }

  // ----- parsing

  /** `Parse` of member `name` of json into x. */
  method ParseInto(blank: Blank, t: Type, json: Json, name: string, x: Variable) returns (ok: bool)
    requires IsBlank(blank) && HasType(x.v, t) && (CStr(name) == "" || json.JObject?)
    modifies x
    ensures Parsed(ok, x.v) == Parse(blank, t, json, name, old(x.v))
    decreases t, 3, 0
  {
    var found := FieldValue(json, name);
    if found.None? {
      return false;
    }
    var val := found.value;
    match t {
      case TInt(kind) =>
        var n := IntFrom(kind, val);
        if n.None? {
          return false;
        }
        x.v := VInt(n.value);
        ok := true;
      case TBool =>
        if !val.JBool? {
          return false;
        }
        x.v := VBool(val.b);
        ok := true;
      case TString =>
        if !val.JString? {
          return false;
        }
        x.v := VString(val.s);
        ok := true;
      case TStruct(_, _) =>
        if !val.JObject? {
          return false;
        }
        PraseFromJson(blank, t, val, x);
        ok := true;
      case TMap(elem) =>
        if !val.JObject? {
          return false;
        }
        ok := ParseMap(blank, elem, val.members, x);
      case TVector(elem) =>
        if !val.JArray? {
          return false;
        }
        ok := ParseVector(blank, elem, val.items, x);
    }
  }

  /** `PraseFromJson`, which JSON_DEFINE_FIELDS generates: one statement for each field, whatever the ones before did. */
  method PraseFromJson(blank: Blank, t: Type, val: Json, x: Variable)
    requires IsBlank(blank) && t.TStruct? && HasType(x.v, t) && val.JObject?
    modifies x
    ensures x.v == VStruct(ReadFields(blank, t, val, old(x.v), |t.fields|))
    decreases t, 1, 0
  {
    ghost var prior := x.v;
    for i := 0 to |t.fields|
      invariant x.v == VStruct(ReadFields(blank, t, val, prior, i))
    {
      var field := new Variable(x.v.fields[i]);
      var _ := ParseInto(blank, t.fields[i].typ, val, FieldName(t, i), field);
      x.v := VStruct(x.v.fields[i := field.v]);
    }
  }

  method ParseMap(blank: Blank, elem: Type, members: seq<Member>, x: Variable) returns (ok: bool)
    requires IsBlank(blank) && x.v.VMap?
    modifies x
    ensures x.v.VMap? && (ok, x.v.m) == ReadEntries(blank, elem, members)
    decreases elem, 5, 0
  {
    x.v := VMap(map[]);
    for i := 0 to |members|
      invariant x.v.VMap? && ReadEntries(blank, elem, members[..i]) == (true, x.v.m)
    {
      assert members[..i + 1][..i] == members[..i];
      var tmp := new Variable(blank(elem));
      var done := ParseInto(blank, elem, members[i].value, "", tmp);
      if !done {
        EntriesStop(blank, elem, members, i + 1);
        return false;
      }
      x.v := VMap(x.v.m[CStr(members[i].name) := tmp.v]);
    }
    assert members[..|members|] == members;
    ok := true;
  }

  method ParseVector(blank: Blank, elem: Type, items: seq<Json>, x: Variable) returns (ok: bool)
    requires IsBlank(blank) && x.v.VVector?
    modifies x
    ensures x.v.VVector? && (ok, x.v.items) == ReadItems(blank, elem, items)
    decreases elem, 5, 0
  {
    x.v := VVector([]);
    for i := 0 to |items|
      invariant x.v.VVector? && ReadItems(blank, elem, items[..i]) == (true, x.v.items)
    {
      assert items[..i + 1][..i] == items[..i];
      var tmp := new Variable(blank(elem));
      var done := ParseInto(blank, elem, items[i], "", tmp);
      if !done {
        ItemsStop(blank, elem, items, i + 1);
        return false;
      }
      x.v := VVector(x.v.items + [tmp.v]);
    }
    assert items[..|items|] == items;
    ok := true;
  }
}
