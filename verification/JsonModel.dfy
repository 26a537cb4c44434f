/**
 The typed mapping between C++ values and the JSON tree, as functions: what `Serialize` builds and what `Parse`
 takes from it. The tree is that of RFC 8259, objects as in section 4 and arrays as in section 5, with members in
 order and names possibly repeated.
 */
module JsonModel {
  import opened Domain

  datatype Json =
    | JNull
    | JBool(b: bool)
    | JInt(n: int)       // a number without fraction
    | JReal(r: real)     // any other number
    | JString(s: string)
    | JArray(items: seq<Json>)
    | JObject(members: seq<Member>)

  datatype Member = Member(name: string, value: Json)

  // ----- types and values

  datatype IntKind = I8 | I16 | I32 | I64 | U8 | U16 | U32 | U64

  const INT64_MIN: int := -0x8000_0000_0000_0000
  const INT64_MAX: int := 0x7FFF_FFFF_FFFF_FFFF
  const UINT64_MAX: int := 0xFFFF_FFFF_FFFF_FFFF

  predicate Signed(k: IntKind) { k.I8? || k.I16? || k.I32? || k.I64? }

  function Low(k: IntKind): int {
    match k
    case I8 => -0x80
    case I16 => -0x8000
    case I32 => -0x8000_0000
    case I64 => INT64_MIN
    case _ => 0
  }

  function High(k: IntKind): int {
    match k
    case I8 => 0x7F
    case I16 => 0x7FFF
    case I32 => 0x7FFF_FFFF
    case I64 => INT64_MAX
    case U8 => 0xFF
    case U16 => 0xFFFF
    case U32 => 0xFFFF_FFFF
    case U64 => UINT64_MAX
  }

  /** A struct lists its fields in JSON_DEFINE_FIELDS and may rename them in JSON_DEFINE_FIELD_MAPPING. */
  datatype Type =
    | TInt(kind: IntKind)
    | TBool
    | TString
    | TStruct(fields: seq<Field>, mapping: map<string, string>)
    | TMap(elem: Type)
    | TVector(elem: Type)

  datatype Field = Field(name: string, typ: Type)

  datatype Val =
    | VInt(n: int)
    | VBool(b: bool)
    | VString(s: string)
    | VStruct(fields: seq<Val>)
    | VMap(m: map<string, Val>)
    | VVector(items: seq<Val>)

  predicate HasType(v: Val, t: Type)
    decreases t
  {
    match t
    case TInt(kind) => v.VInt? && Low(kind) <= v.n <= High(kind)
    case TBool => v.VBool?
    case TString => v.VString?
    case TStruct(fields, _) =>
      v.VStruct? && |v.fields| == |fields| && forall i :: 0 <= i < |fields| ==> HasType(v.fields[i], fields[i].typ)
    case TMap(elem) => v.VMap? && forall k :: k in v.m ==> HasType(v.m[k], elem)
    case TVector(elem) => v.VVector? && forall i :: 0 <= i < |v.items| ==> HasType(v.items[i], elem)
  }

  predicate IsScalar(t: Type) { t.TInt? || t.TBool? || t.TString? }

  /** The value that `ignore_default` leaves out. */
  predicate IsDefault(v: Val) {
    match v
    case VInt(n) => n == 0
    case VBool(b) => !b
    case VString(s) => s == ""
    case _ => false
  }

  // ----- names

  /** A string as a C string: it ends before its first NUL. */
  function CStr(s: string): string {
    if s == "" || s[0] == '\0' then "" else [s[0]] + CStr(s[1..])
  }

  function FieldName(t: Type, i: nat): string
    requires t.TStruct? && i < |t.fields|
  {
    var name := t.fields[i].name;
    CStr(if name in t.mapping then t.mapping[name] else name)
  }

  // ----- serialising

  /** `addJsonMember`. None stands for the failed assertion of appending to a tree that is no array, or of adding
      a member to a tree that is no object. */
  function AddMember(json: Json, name: Option<string>, value: Json): Option<Json> {
    match name
    case None => Some(value)
    case Some(n) =>
      if CStr(n) == "" then if json.JArray? then Some(JArray(json.items + [value])) else None
      else if json.JObject? then Some(JObject(json.members + [Member(CStr(n), value)])) else None
  }

  /** The order in which iteration over a map yields its keys; std::map sorts, std::unordered_map does not say. */
  type Order = set<string> -> seq<string>

  ghost predicate Lists(p: seq<string>, keys: set<string>) {
    && (forall i, j :: 0 <= i < j < |p| ==> p[i] != p[j])
    && (forall k :: k in p <==> k in keys)
  }

  ghost predicate IsOrder(order: Order) {
    forall keys :: Lists(order(keys), keys)
  }

  /** `Serialize` of v as member `name` of json. */
  function Serialize(order: Order, t: Type, json: Json, name: Option<string>, v: Val, ignoreDefault: bool): Option<Json>
    requires IsOrder(order) && HasType(v, t)
    decreases t, 3, 0
  {
    if ignoreDefault && IsDefault(v) then Some(json)
    else
      match ToJson(order, t, v, ignoreDefault)
      case None => None
      case Some(value) => AddMember(json, name, value)
  }

  /** The tree that stands for v itself. */
  function ToJson(order: Order, t: Type, v: Val, ignoreDefault: bool): Option<Json>
    requires IsOrder(order) && HasType(v, t)
    decreases t, 2, 0
  {
    match t
    case TInt(_) => Some(JInt(v.n))
    case TBool => Some(JBool(v.b))
    case TString => Some(JString(v.s))
    case TStruct(fields, _) => WriteFields(order, t, v, |fields|, ignoreDefault)
    case TMap(elem) => WriteEntries(order, elem, v.m, order(v.m.Keys))
    case TVector(elem) => WriteItems(order, elem, v.items)
  }

  /** `WriteToJson`, after its first n fields. */
  function WriteFields(order: Order, t: Type, v: Val, n: nat, ignoreDefault: bool): Option<Json>
    requires IsOrder(order) && HasType(v, t) && t.TStruct? && n <= |t.fields|
    decreases t, 1, n
  {
    if n == 0 then Some(JObject([]))
    else
      match WriteFields(order, t, v, n - 1, ignoreDefault)
      case None => None
      case Some(json) =>
        Serialize(order, t.fields[n - 1].typ, json, Some(FieldName(t, n - 1)), v.fields[n - 1], ignoreDefault)
  }

  /** The loop over a map's entries, after the keys given. */
  function WriteEntries(order: Order, elem: Type, m: map<string, Val>, keys: seq<string>): Option<Json>
    requires IsOrder(order) && forall k :: k in keys ==> k in m && HasType(m[k], elem)
    decreases elem, 4, |keys|
  {
    if keys == [] then Some(JObject([]))
    else
      var last := |keys| - 1;
      match WriteEntries(order, elem, m, keys[..last])
      case None => None
      case Some(json) => Serialize(order, elem, json, Some(keys[last]), m[keys[last]], false)
  }

  /** The loop over a vector, after the items given. */
  function WriteItems(order: Order, elem: Type, items: seq<Val>): Option<Json>
    requires IsOrder(order) && forall i :: 0 <= i < |items| ==> HasType(items[i], elem)
    decreases elem, 4, |items|
  {
    if items == [] then Some(JArray([]))
    else
      var last := |items| - 1;
      match WriteItems(order, elem, items[..last])
      case None => None
      case Some(json) => Serialize(order, elem, json, Some(""), items[last], false)
  }

  // ----- parsing

  function FindMember(members: seq<Member>, name: string): Option<Json> {
    if members == [] then None
    else if members[0].name == name then Some(members[0].value) else FindMember(members[1..], name)
  }

  /** `getJsonFiledValue`; looking for a member asserts that there is an object. */
  function FieldValue(json: Json, name: string): Option<Json>
    requires CStr(name) == "" || json.JObject?
  {
    if CStr(name) == "" then Some(json) else FindMember(json.members, CStr(name))
  }

  /** What a local `V tmp;` holds before it is parsed into. */
  type Blank = Type -> Val

  ghost predicate IsBlank(blank: Blank) {
    forall t :: HasType(blank(t), t)
  }

  /** Did parsing succeed, and what does the out-parameter hold afterwards? */
  datatype Parsed = Parsed(ok: bool, v: Val)

  /** `Parse` of member `name` of json into a variable that holds `prior`. */
  function Parse(blank: Blank, t: Type, json: Json, name: string, prior: Val): (r: Parsed)
    requires IsBlank(blank) && HasType(prior, t) && (CStr(name) == "" || json.JObject?)
    ensures HasType(r.v, t)
    decreases t, 3, 0
  {
    match FieldValue(json, name)
    case None => Parsed(false, prior)
    case Some(val) => FromJson(blank, t, val, prior)
  }

  /** `Parse` once the value to parse is found. */
  function FromJson(blank: Blank, t: Type, val: Json, prior: Val): (r: Parsed)
    requires IsBlank(blank) && HasType(prior, t)
    ensures HasType(r.v, t)
    decreases t, 2, 0
  {
    match t
    case TInt(kind) => (match IntFrom(kind, val) case Some(n) => Parsed(true, VInt(n)) case None => Parsed(false, prior))
    case TBool => if val.JBool? then Parsed(true, VBool(val.b)) else Parsed(false, prior)
    case TString => if val.JString? then Parsed(true, VString(val.s)) else Parsed(false, prior)
    case TStruct(fields, _) =>
      if val.JObject? then Parsed(true, VStruct(ReadFields(blank, t, val, prior, |fields|))) else Parsed(false, prior)
    case TMap(elem) =>
      if val.JObject? then
        var (ok, m) := ReadEntries(blank, elem, val.members);
        Parsed(ok, VMap(m))
      else Parsed(false, prior)
    case TVector(elem) =>
      if val.JArray? then
        var (ok, items) := ReadItems(blank, elem, val.items);
        Parsed(ok, VVector(items))
      else Parsed(false, prior)
  }

  /** The integer overloads: the 64-bit ones check the kind of number, the others narrow what those return. The one
      for U8 goes through the signed 64-bit one and checks the upper bound alone, so it wraps negative numbers. */
  function IntFrom(kind: IntKind, val: Json): Option<int> {
    if !val.JInt? then None
    else if Signed(kind) || kind.U8? then
      if !(INT64_MIN <= val.n <= INT64_MAX) then None
      else if val.n > High(kind) then None
      else if kind.U8? then Some(val.n % 0x100)
      else if val.n < Low(kind) then None
      else Some(val.n)
    else
      if !(0 <= val.n <= UINT64_MAX) then None
      else if val.n > High(kind) then None else Some(val.n)
  }

  /** `PraseFromJson`: the first n fields; a field that fails to parse is passed over. */
  function ReadFields(blank: Blank, t: Type, val: Json, prior: Val, n: nat): (r: seq<Val>)
    requires IsBlank(blank) && t.TStruct? && HasType(prior, t) && val.JObject? && n <= |t.fields|
    ensures |r| == |t.fields|
    ensures forall i :: 0 <= i < |t.fields| ==> HasType(r[i], t.fields[i].typ)
    ensures forall i :: n <= i < |t.fields| ==> r[i] == prior.fields[i]
    decreases t, 1, n
  {
    if n == 0 then prior.fields
    else
      var r := ReadFields(blank, t, val, prior, n - 1);
      r[n - 1 := Parse(blank, t.fields[n - 1].typ, val, FieldName(t, n - 1), r[n - 1]).v]
  }

  /** The loop over an object's members, into a map: it stops at the first member that does not parse. */
  function ReadEntries(blank: Blank, elem: Type, members: seq<Member>): (r: (bool, map<string, Val>))
    requires IsBlank(blank)
    ensures forall k :: k in r.1 ==> HasType(r.1[k], elem)
    decreases elem, 4, |members|
  {
    if members == [] then (true, map[])
    else
      var last := |members| - 1;
      var (ok, m) := ReadEntries(blank, elem, members[..last]);
      if !ok then (false, m)
      else
        var p := Parse(blank, elem, members[last].value, "", blank(elem));
        if p.ok then (true, m[CStr(members[last].name) := p.v]) else (false, m)
  }

  /** The loop over an array, into a vector: it stops at the first item that does not parse. */
  function ReadItems(blank: Blank, elem: Type, items: seq<Json>): (r: (bool, seq<Val>))
    requires IsBlank(blank)
    ensures forall i :: 0 <= i < |r.1| ==> HasType(r.1[i], elem)
    decreases elem, 4, |items|
  {
    if items == [] then (true, [])
    else
      var last := |items| - 1;
      var (ok, vs) := ReadItems(blank, elem, items[..last]);
      if !ok then (false, vs)
      else
        var p := Parse(blank, elem, items[last], "", blank(elem));
        if p.ok then (true, vs + [p.v]) else (false, vs)
  }
}
