/** Serialising and parsing undo each other: exactly when, with and without leaving defaults out. */
module JsonRoundTrip {
  import opened Domain
  import opened JsonModel

  /** A struct's field names, after mapping, are non-empty and distinct. */
  predicate NamesOk(t: Type)
    requires t.TStruct?
  {
    && (forall i :: 0 <= i < |t.fields| ==> FieldName(t, i) != "")
    && (forall i, j :: 0 <= i < j < |t.fields| ==> FieldName(t, i) != FieldName(t, j))
  }

  /** They are so at every level. */
  predicate WellFormed(t: Type)
    decreases t
  {
    match t
    case TStruct(fields, _) => NamesOk(t) && forall i :: 0 <= i < |fields| ==> WellFormed(fields[i].typ)
    case TMap(elem) => WellFormed(elem)
    case TVector(elem) => WellFormed(elem)
    case _ => true
  }

  /** Map keys are non-empty and free of NUL, at every level. */
  predicate CleanKeys(t: Type, v: Val)
    requires HasType(v, t)
    decreases t
  {
    match t
    case TStruct(fields, _) => forall i :: 0 <= i < |fields| ==> CleanKeys(fields[i].typ, v.fields[i])
    case TMap(elem) => forall k :: k in v.m ==> k != "" && CStr(k) == k && CleanKeys(elem, v.m[k])
    case TVector(elem) => forall i :: 0 <= i < |v.items| ==> CleanKeys(elem, v.items[i])
    case _ => true
  }

  // ----- names

  lemma {:induction false} CStrTwice(s: string)
    ensures CStr(CStr(s)) == CStr(s)
  {
    if s != "" && s[0] != '\0' {
      CStrTwice(s[1..]);
    }
  }

  lemma NameTwice(t: Type, i: nat)
    requires t.TStruct? && i < |t.fields|
    ensures CStr(FieldName(t, i)) == FieldName(t, i)
  {
    var name := t.fields[i].name;
    CStrTwice(if name in t.mapping then t.mapping[name] else name);
  }

  lemma {:induction false} FindAppended(ms: seq<Member>, m: Member, name: string)
    ensures FindMember(ms + [m], name) ==
      if FindMember(ms, name).Some? then FindMember(ms, name) else if m.name == name then Some(m.value) else None
  {
    if ms == [] {
      assert ms + [m] == [m];
    } else {
      assert (ms + [m])[1..] == ms[1..] + [m];
      FindAppended(ms[1..], m, name);
    }
  }

  // ----- integers

  /** A number is read as itself exactly if the type can hold it. Any other is refused, except that U8 takes a negative
      one for its remainder. */
  lemma NumberReadExactlyIfInRange(kind: IntKind, n: int)
    ensures IntFrom(kind, JInt(n)) == Some(n) <==> Low(kind) <= n <= High(kind)
    ensures IntFrom(kind, JInt(n)).Some? ==> Low(kind) <= IntFrom(kind, JInt(n)).value <= High(kind)
    ensures IntFrom(kind, JInt(n)).Some? <==> Low(kind) <= n <= High(kind) || (kind.U8? && INT64_MIN <= n < 0)
  {
  }

  lemma NegativeByteWraps()
    ensures IntFrom(U8, JInt(-1)) == Some(255) && IntFrom(U16, JInt(-1)) == None
  {
  }

  // ----- structs

  predicate Omitted(v: Val, ignoreDefault: bool) { ignoreDefault && IsDefault(v) }

  /** The first n fields are the members of the tree: field i under its name, unless omitted. */
  lemma {:induction false} FieldsWritten(order: Order, t: Type, v: Val, n: nat, ignoreDefault: bool, i: nat)
    requires IsOrder(order) && t.TStruct? && HasType(v, t) && NamesOk(t) && i < |t.fields| && n <= |t.fields|
    requires WriteFields(order, t, v, n, ignoreDefault).Some?
    ensures var json := WriteFields(order, t, v, n, ignoreDefault).value;
      json.JObject? &&
      FindMember(json.members, FieldName(t, i)) ==
        if i < n && !Omitted(v.fields[i], ignoreDefault) then ToJson(order, t.fields[i].typ, v.fields[i], ignoreDefault)
        else None
    ensures i < n && !Omitted(v.fields[i], ignoreDefault) ==>
      ToJson(order, t.fields[i].typ, v.fields[i], ignoreDefault).Some?
    decreases n
  {
    if n > 0 {
      FieldsWritten(order, t, v, n - 1, ignoreDefault, i);
      var json := WriteFields(order, t, v, n - 1, ignoreDefault).value;
      var name := FieldName(t, n - 1);
      NameTwice(t, n - 1);
      if !Omitted(v.fields[n - 1], ignoreDefault) {
        var x := ToJson(order, t.fields[n - 1].typ, v.fields[n - 1], ignoreDefault).value;
        FindAppended(json.members, Member(name, x), FieldName(t, i));
      }
    }
  }

  /** A struct can be written if each field can. */
  lemma {:induction false} FieldsWritable(order: Order, t: Type, v: Val, n: nat, ignoreDefault: bool)
    requires IsOrder(order) && t.TStruct? && HasType(v, t) && NamesOk(t) && n <= |t.fields|
    requires forall i :: 0 <= i < n ==> ToJson(order, t.fields[i].typ, v.fields[i], ignoreDefault).Some?
    ensures WriteFields(order, t, v, n, ignoreDefault).Some?
    decreases n
  {
    if n > 0 {
      FieldsWritable(order, t, v, n - 1, ignoreDefault);
      FieldsWritten(order, t, v, n - 1, ignoreDefault, n - 1);
      NameTwice(t, n - 1);
    }
  }

  /** Each field is parsed on its own, from its own member and prior value. */
  lemma {:induction false} FieldsRead(blank: Blank, t: Type, val: Json, prior: Val, n: nat, i: nat)
    requires IsBlank(blank) && t.TStruct? && HasType(prior, t) && val.JObject? && i < n <= |t.fields|
    ensures ReadFields(blank, t, val, prior, n)[i]
         == Parse(blank, t.fields[i].typ, val, FieldName(t, i), prior.fields[i]).v
    decreases n
  {
    if i < n - 1 {
      FieldsRead(blank, t, val, prior, n - 1, i);
    }
  }

  /** What becomes of field i when a struct is written and read back. */
  lemma FieldBack(order: Order, blank: Blank, t: Type, v: Val, prior: Val, ignoreDefault: bool, i: nat)
    requires IsOrder(order) && IsBlank(blank) && t.TStruct? && NamesOk(t) && i < |t.fields|
    requires HasType(v, t) && HasType(prior, t) && ToJson(order, t, v, ignoreDefault).Some?
    ensures var json := ToJson(order, t, v, ignoreDefault).value;
            var back := FromJson(blank, t, json, prior);
      && back.ok && |back.v.fields| == |t.fields|
      && (Omitted(v.fields[i], ignoreDefault) ==> back.v.fields[i] == prior.fields[i])
      && (!Omitted(v.fields[i], ignoreDefault) ==>
          var x := ToJson(order, t.fields[i].typ, v.fields[i], ignoreDefault);
          x.Some? && back.v.fields[i] == FromJson(blank, t.fields[i].typ, x.value, prior.fields[i]).v)
  {
    var n := |t.fields|;
    var json := ToJson(order, t, v, ignoreDefault).value;
    FieldsWritten(order, t, v, n, ignoreDefault, i);
    FieldsRead(blank, t, json, prior, n, i);
    NameTwice(t, i);
  }

  // ----- vectors and maps

  lemma ItemWritten(order: Order, elem: Type, items: seq<Val>, last: nat)
    requires IsOrder(order) && (forall i :: 0 <= i < |items| ==> HasType(items[i], elem)) && |items| == last + 1
    ensures var before, x := WriteItems(order, elem, items[..last]), ToJson(order, elem, items[last], false);
      WriteItems(order, elem, items) ==
        if before.None? || x.None? || !before.value.JArray? then None else Some(JArray(before.value.items + [x.value]))
  {
  }

  lemma {:induction false} ItemsWritten(order: Order, elem: Type, items: seq<Val>)
    requires IsOrder(order) && forall i :: 0 <= i < |items| ==> HasType(items[i], elem)
    ensures var w := WriteItems(order, elem, items);
      && (w.Some? <==> forall i :: 0 <= i < |items| ==> ToJson(order, elem, items[i], false).Some?)
      && (w.Some? ==> w.value.JArray? && |w.value.items| == |items|)
      && (w.Some? ==> forall i :: 0 <= i < |items| ==> ToJson(order, elem, items[i], false) == Some(w.value.items[i]))
  {
    if items != [] {
      hide WriteItems, ToJson, HasType, IsOrder;
      var last := |items| - 1;
      ItemsWritten(order, elem, items[..last]);
      ItemWritten(order, elem, items, last);
      assert forall i :: 0 <= i < last ==> items[..last][i] == items[i];
    }
  }

  /** Reading an array yields its items in order, all of them or those before the first that does not parse. */
  lemma {:induction false} ItemsRead(blank: Blank, elem: Type, items: seq<Json>)
    requires IsBlank(blank)
    ensures var (ok, vs) := ReadItems(blank, elem, items);
      && |vs| <= |items|
      && (forall i :: 0 <= i < |vs| ==> vs[i] == FromJson(blank, elem, items[i], blank(elem)).v)
      && (ok ==> |vs| == |items|)
      && ((forall i :: 0 <= i < |items| ==> FromJson(blank, elem, items[i], blank(elem)).ok) ==> ok)
  {
    if items != [] {
      ItemsRead(blank, elem, items[..|items| - 1]);
    }
  }

  lemma {:induction false} EntriesWritten(order: Order, elem: Type, m: map<string, Val>, keys: seq<string>)
    requires IsOrder(order) && forall k :: k in keys ==> k in m && HasType(m[k], elem)
    ensures var w := WriteEntries(order, elem, m, keys);
      && (w.Some? <==> forall k :: k in keys ==> CStr(k) != "" && ToJson(order, elem, m[k], false).Some?)
      && (w.Some? ==> w.value.JObject? && |w.value.members| == |keys|)
      && (w.Some? ==> forall i :: 0 <= i < |keys| ==>
            && w.value.members[i].name == CStr(keys[i])
            && ToJson(order, elem, m[keys[i]], false) == Some(w.value.members[i].value))
  {
    if keys != [] {
      EntriesWritten(order, elem, m, keys[..|keys| - 1]);
      assert keys == keys[..|keys| - 1] + [keys[|keys| - 1]];
    }
  }

  /** Member i is where entry k of the map read from the members came from. */
  predicate CameFrom(blank: Blank, elem: Type, ms: seq<Member>, k: string, v: Val, i: int)
    requires IsBlank(blank)
  {
    0 <= i < |ms| && CStr(ms[i].name) == k && v == FromJson(blank, elem, ms[i].value, blank(elem)).v
  }

  /** Every entry read comes from a member. */
  lemma {:induction false} EntriesRead(blank: Blank, elem: Type, ms: seq<Member>, k: string)
    requires IsBlank(blank) && k in ReadEntries(blank, elem, ms).1
    ensures exists i :: CameFrom(blank, elem, ms, k, ReadEntries(blank, elem, ms).1[k], i)
  {
    if ms != [] {
      var last := |ms| - 1;
      var (ok, before) := ReadEntries(blank, elem, ms[..last]);
      var (_, m) := ReadEntries(blank, elem, ms);
      var back := FromJson(blank, elem, ms[last].value, blank(elem));
      assert Parse(blank, elem, ms[last].value, "", blank(elem)) == back;
      if ok && back.ok && k == CStr(ms[last].name) {
        assert CameFrom(blank, elem, ms, k, m[k], last);
      } else {
        EntriesRead(blank, elem, ms[..last], k);
        var i :| CameFrom(blank, elem, ms[..last], k, before[k], i);
        assert CameFrom(blank, elem, ms, k, m[k], i);
      }
    }
  }

  /** The entries of m at the keys given. */
  function At(m: map<string, Val>, keys: seq<string>): map<string, Val>
    requires forall k :: k in keys ==> k in m
  {
    map k | k in keys :: m[k]
  }

  lemma AtNext(m: map<string, Val>, keys: seq<string>, k: string)
    requires k in m && forall k' :: k' in keys ==> k' in m
    ensures At(m, keys + [k]) == At(m, keys)[k := m[k]]
  {
  }

  lemma EntriesNext(blank: Blank, elem: Type, ms: seq<Member>, x: Member)
    requires IsBlank(blank) && ReadEntries(blank, elem, ms).0 && FromJson(blank, elem, x.value, blank(elem)).ok
    ensures ReadEntries(blank, elem, ms + [x])
         == (true, ReadEntries(blank, elem, ms).1[CStr(x.name) := FromJson(blank, elem, x.value, blank(elem)).v])
  {
    assert (ms + [x])[..|ms|] == ms;
    assert Parse(blank, elem, x.value, "", blank(elem)) == FromJson(blank, elem, x.value, blank(elem));
  }

  /** Member i reads back as the entry of key i. */
  predicate ReadsAs(blank: Blank, elem: Type, m: map<string, Val>, k: string, x: Member)
    requires IsBlank(blank) && k in m
  {
    CStr(x.name) == k && FromJson(blank, elem, x.value, blank(elem)) == Parsed(true, m[k])
  }

  lemma EntriesExtend(blank: Blank, elem: Type, m: map<string, Val>, keys: seq<string>, ms: seq<Member>, k: string, x: Member)
    requires IsBlank(blank) && k in m && (forall k' :: k' in keys ==> k' in m) && ReadsAs(blank, elem, m, k, x)
    requires ReadEntries(blank, elem, ms) == (true, At(m, keys))
    ensures ReadEntries(blank, elem, ms + [x]) == (true, At(m, keys + [k]))
  {
    EntriesNext(blank, elem, ms, x);
    AtNext(m, keys, k);
  }

  /** Members whose names are clean and whose values all parse are read into the map they came from. */
  lemma {:induction false} EntriesReadBack(blank: Blank, elem: Type, m: map<string, Val>, keys: seq<string>, ms: seq<Member>)
    requires IsBlank(blank) && |ms| == |keys| && forall k :: k in keys ==> k in m
    requires forall i :: 0 <= i < |ms| ==> ReadsAs(blank, elem, m, keys[i], ms[i])
    ensures ReadEntries(blank, elem, ms) == (true, At(m, keys))
  {
    if ms != [] {
      hide ReadEntries, At, ReadsAs, IsBlank;
      var last := |ms| - 1;
      EntriesReadBack(blank, elem, m, keys[..last], ms[..last]);
      EntriesExtend(blank, elem, m, keys[..last], ms[..last], keys[last], ms[last]);
      assert keys == keys[..last] + [keys[last]];
      assert ms == ms[..last] + [ms[last]];
    }
  }

  // ----- what comes back

  /** What reading back v over prior gives: v, but with prior's value in every omitted field. */
  function Merge(t: Type, v: Val, prior: Val, ignoreDefault: bool): (r: Val)
    requires HasType(v, t) && HasType(prior, t)
    decreases t
  {
    match t
    case TStruct(fields, _) =>
      VStruct(seq(|fields|, i requires 0 <= i < |fields| =>
        if Omitted(v.fields[i], ignoreDefault) then prior.fields[i]
        else Merge(fields[i].typ, v.fields[i], prior.fields[i], ignoreDefault)))
    case _ => v
  }

  lemma {:induction false} MergeAll(t: Type, v: Val, prior: Val)
    requires HasType(v, t) && HasType(prior, t)
    ensures Merge(t, v, prior, false) == v
    decreases t
  {
    if t.TStruct? {
      forall i | 0 <= i < |t.fields| ensures Merge(t, v, prior, false).fields[i] == v.fields[i] {
        MergeAll(t.fields[i].typ, v.fields[i], prior.fields[i]);
      }
    }
  }

  lemma VectorRoundTrip(order: Order, blank: Blank, elem: Type, v: Val, prior: Val)
    requires IsOrder(order) && IsBlank(blank) && HasType(v, TVector(elem)) && HasType(prior, TVector(elem))
    requires forall i :: 0 <= i < |v.items| ==> Returns(order, blank, elem, v.items[i])
    ensures ToJson(order, TVector(elem), v, false).Some?
    ensures FromJson(blank, TVector(elem), ToJson(order, TVector(elem), v, false).value, prior) == Parsed(true, v)
  {
    ItemsWritten(order, elem, v.items);
    var js := ToJson(order, TVector(elem), v, false).value.items;
    ItemsRead(blank, elem, js);
    assert forall i :: 0 <= i < |js| ==> ToJson(order, elem, v.items[i], false) == Some(js[i]);
  }

  /** An element, written and read back into a fresh variable, is itself again. */
  ghost predicate Returns(order: Order, blank: Blank, elem: Type, v: Val)
    requires IsOrder(order) && IsBlank(blank) && HasType(v, elem)
  {
    && ToJson(order, elem, v, false).Some?
    && FromJson(blank, elem, ToJson(order, elem, v, false).value, blank(elem)) == Parsed(true, v)
  }

  /** The entries of a map of good elements, once written, each under its key and each to be read back. */
  lemma EntriesReturn(order: Order, blank: Blank, elem: Type, m: map<string, Val>, keys: seq<string>)
    requires IsOrder(order) && IsBlank(blank) && forall k :: k in keys ==> k in m && HasType(m[k], elem)
    requires forall k :: k in keys ==> k != "" && CStr(k) == k && Returns(order, blank, elem, m[k])
    ensures WriteEntries(order, elem, m, keys).Some? && WriteEntries(order, elem, m, keys).value.JObject?
    ensures ReadEntries(blank, elem, WriteEntries(order, elem, m, keys).value.members) == (true, At(m, keys))
  {
    EntriesWritten(order, elem, m, keys);
    EntriesReadBack(blank, elem, m, keys, WriteEntries(order, elem, m, keys).value.members);
  }

  lemma MapRoundTrip(order: Order, blank: Blank, elem: Type, v: Val, prior: Val)
    requires IsOrder(order) && IsBlank(blank) && HasType(v, TMap(elem)) && HasType(prior, TMap(elem))
    requires forall k :: k in v.m ==> k != "" && CStr(k) == k && Returns(order, blank, elem, v.m[k])
    ensures ToJson(order, TMap(elem), v, false).Some?
    ensures FromJson(blank, TMap(elem), ToJson(order, TMap(elem), v, false).value, prior) == Parsed(true, v)
  {
    var keys := order(v.m.Keys);
    assert Lists(keys, v.m.Keys);
    EntriesReturn(order, blank, elem, v.m, keys);
    assert At(v.m, keys) == v.m;
  }

  /** Over any prior value, writing and reading back succeeds, and gives the value with prior's omitted fields. */
  lemma {:induction false} WriteThenRead(order: Order, blank: Blank, t: Type, v: Val, prior: Val, ignoreDefault: bool)
    requires IsOrder(order) && IsBlank(blank) && WellFormed(t) && HasType(v, t) && HasType(prior, t) && CleanKeys(t, v)
    ensures ToJson(order, t, v, ignoreDefault).Some?
    ensures FromJson(blank, t, ToJson(order, t, v, ignoreDefault).value, prior)
         == Parsed(true, Merge(t, v, prior, ignoreDefault))
    decreases t
  {
    match t {
      case TStruct(fields, _) =>
        forall i | 0 <= i < |fields|
          ensures ToJson(order, fields[i].typ, v.fields[i], ignoreDefault).Some?
          ensures FromJson(blank, fields[i].typ, ToJson(order, fields[i].typ, v.fields[i], ignoreDefault).value, prior.fields[i])
               == Parsed(true, Merge(fields[i].typ, v.fields[i], prior.fields[i], ignoreDefault))
        {
          WriteThenRead(order, blank, fields[i].typ, v.fields[i], prior.fields[i], ignoreDefault);
        }
        FieldsWritable(order, t, v, |fields|, ignoreDefault);
        StructBack(order, blank, t, v, prior, ignoreDefault);
      case TMap(elem) =>
        forall k | k in v.m ensures Returns(order, blank, elem, v.m[k]) {
          WriteThenRead(order, blank, elem, v.m[k], blank(elem), false);
          MergeAll(elem, v.m[k], blank(elem));
        }
        MapRoundTrip(order, blank, elem, v, prior);
      case TVector(elem) =>
        forall i | 0 <= i < |v.items| ensures Returns(order, blank, elem, v.items[i]) {
          WriteThenRead(order, blank, elem, v.items[i], blank(elem), false);
          MergeAll(elem, v.items[i], blank(elem));
        }
        VectorRoundTrip(order, blank, elem, v, prior);
      case _ =>
    }
  }

  lemma StructBack(order: Order, blank: Blank, t: Type, v: Val, prior: Val, ignoreDefault: bool)
    requires IsOrder(order) && IsBlank(blank) && t.TStruct? && WellFormed(t) && HasType(v, t) && HasType(prior, t)
    requires ToJson(order, t, v, ignoreDefault).Some?
    requires forall i :: 0 <= i < |t.fields| ==>
      && ToJson(order, t.fields[i].typ, v.fields[i], ignoreDefault).Some?
      && FromJson(blank, t.fields[i].typ, ToJson(order, t.fields[i].typ, v.fields[i], ignoreDefault).value, prior.fields[i])
         == Parsed(true, Merge(t.fields[i].typ, v.fields[i], prior.fields[i], ignoreDefault))
    ensures FromJson(blank, t, ToJson(order, t, v, ignoreDefault).value, prior)
         == Parsed(true, Merge(t, v, prior, ignoreDefault))
  {
    FieldsMakeObject(order, t, v, |t.fields|, ignoreDefault);
    var back := FromJson(blank, t, ToJson(order, t, v, ignoreDefault).value, prior);
    forall i | 0 <= i < |t.fields| ensures back.v.fields[i] == Merge(t, v, prior, ignoreDefault).fields[i] {
      FieldBack(order, blank, t, v, prior, ignoreDefault, i);
    }
  }

  lemma {:induction false} FieldsMakeObject(order: Order, t: Type, v: Val, n: nat, ignoreDefault: bool)
    requires IsOrder(order) && t.TStruct? && HasType(v, t) && NamesOk(t) && n <= |t.fields|
    requires WriteFields(order, t, v, n, ignoreDefault).Some?
    ensures WriteFields(order, t, v, n, ignoreDefault).value.JObject?
  {
    if n > 0 {
      FieldsWritten(order, t, v, n, ignoreDefault, 0);
    }
  }

  // ----- the round trip without leaving defaults out

  /** `Serialize` at the top level, into an empty document. */
  function Encode(order: Order, t: Type, v: Val, ignoreDefault: bool): Option<Json>
    requires IsOrder(order) && HasType(v, t)
  {
    Serialize(order, t, JObject([]), None, v, ignoreDefault)
  }

  /** Writing v gives a tree from which every prior object is turned into v again. */
  ghost predicate RoundTrips(order: Order, blank: Blank, t: Type, v: Val)
    requires IsOrder(order) && IsBlank(blank) && HasType(v, t)
  {
    && Encode(order, t, v, false).Some?
    && forall prior :: HasType(prior, t) ==>
        Parse(blank, t, Encode(order, t, v, false).value, "", prior) == Parsed(true, v)
  }

  /** v does not come back over prior. */
  ghost predicate LostOver(order: Order, blank: Blank, t: Type, v: Val, prior: Val)
    requires IsOrder(order) && IsBlank(blank) && HasType(v, t) && HasType(prior, t)
  {
    var w := ToJson(order, t, v, false);
    w.Some? ==> FromJson(blank, t, w.value, prior).v != v
  }

  /** A value with an unclean key does not come back, whatever the prior object. */
  lemma {:induction false} UncleanIsLost(order: Order, blank: Blank, t: Type, v: Val, prior: Val, ignoreDefault: bool)
    requires IsOrder(order) && IsBlank(blank) && WellFormed(t) && HasType(v, t) && HasType(prior, t) && !CleanKeys(t, v)
    ensures var w := ToJson(order, t, v, ignoreDefault); w.Some? ==> FromJson(blank, t, w.value, prior).v != v
    decreases t
  {
    if ToJson(order, t, v, ignoreDefault).Some? {
      match t {
        case TStruct(fields, _) =>
          var i :| 0 <= i < |fields| && !CleanKeys(fields[i].typ, v.fields[i]);
          UncleanIsLost(order, blank, fields[i].typ, v.fields[i], prior.fields[i], ignoreDefault);
          FieldBack(order, blank, t, v, prior, ignoreDefault, i);
        case TMap(elem) =>
          forall k | k in v.m && !CleanKeys(elem, v.m[k]) ensures LostOver(order, blank, elem, v.m[k], blank(elem)) {
            UncleanIsLost(order, blank, elem, v.m[k], blank(elem), false);
          }
          UncleanMapIsLost(order, blank, elem, v, prior);
        case TVector(elem) =>
          var i :| 0 <= i < |v.items| && !CleanKeys(elem, v.items[i]);
          UncleanIsLost(order, blank, elem, v.items[i], blank(elem), false);
          ItemsWritten(order, elem, v.items);
          ItemsRead(blank, elem, ToJson(order, t, v, false).value.items);
      }
    }
  }

  /** The entry of v that entry k of the map read back stems from. */
  lemma EntrySource(order: Order, blank: Blank, elem: Type, v: Val, k: string) returns (key: string)
    requires IsOrder(order) && IsBlank(blank) && HasType(v, TMap(elem)) && ToJson(order, TMap(elem), v, false).Some?
    requires ToJson(order, TMap(elem), v, false).value.JObject?
    requires k in ReadEntries(blank, elem, ToJson(order, TMap(elem), v, false).value.members).1
    ensures key in v.m && CStr(key) == k != "" && ToJson(order, elem, v.m[key], false).Some?
    ensures ReadEntries(blank, elem, ToJson(order, TMap(elem), v, false).value.members).1[k]
         == FromJson(blank, elem, ToJson(order, elem, v.m[key], false).value, blank(elem)).v
  {
    var keys := order(v.m.Keys);
    assert Lists(keys, v.m.Keys);
    EntriesWritten(order, elem, v.m, keys);
    var ms := ToJson(order, TMap(elem), v, false).value.members;
    EntriesRead(blank, elem, ms, k);
    var i :| CameFrom(blank, elem, ms, k, ReadEntries(blank, elem, ms).1[k], i);
    key := keys[i];
    assert key in v.m;
    CStrTwice(key);
  }

  lemma MapMakesObject(order: Order, elem: Type, v: Val)
    requires IsOrder(order) && HasType(v, TMap(elem)) && ToJson(order, TMap(elem), v, false).Some?
    ensures ToJson(order, TMap(elem), v, false).value.JObject?
  {
    assert Lists(order(v.m.Keys), v.m.Keys);
    EntriesWritten(order, elem, v.m, order(v.m.Keys));
  }

  lemma UncleanMapIsLost(order: Order, blank: Blank, elem: Type, v: Val, prior: Val)
    requires IsOrder(order) && IsBlank(blank) && HasType(v, TMap(elem)) && HasType(prior, TMap(elem))
    requires ToJson(order, TMap(elem), v, false).Some? && !CleanKeys(TMap(elem), v)
    requires forall k :: k in v.m && !CleanKeys(elem, v.m[k]) ==> LostOver(order, blank, elem, v.m[k], blank(elem))
    ensures FromJson(blank, TMap(elem), ToJson(order, TMap(elem), v, false).value, prior).v != v
  {
    MapMakesObject(order, elem, v);
    var m := ReadEntries(blank, elem, ToJson(order, TMap(elem), v, false).value.members).1;
    if k :| k in v.m && (k == "" || CStr(k) != k) {
      if k in m {
        var key := EntrySource(order, blank, elem, v, k);
        CStrTwice(key);
      }
    } else {
      var k :| k in v.m && !CleanKeys(elem, v.m[k]);
      if k in m {
        var key := EntrySource(order, blank, elem, v, k);
        assert key == k;
      }
    }
  }

  /** Over every prior object, serialising everything and parsing gives the value back exactly if its map keys are
      non-empty and free of NUL. */
  lemma RoundTripExactlyForCleanKeys(order: Order, blank: Blank, t: Type, v: Val)
    requires IsOrder(order) && IsBlank(blank) && WellFormed(t) && HasType(v, t)
    ensures RoundTrips(order, blank, t, v) <==> CleanKeys(t, v)
  {
    if CleanKeys(t, v) {
      forall prior | HasType(prior, t)
        ensures Encode(order, t, v, false).Some?
        ensures Parse(blank, t, Encode(order, t, v, false).value, "", prior) == Parsed(true, v)
      {
        WriteThenRead(order, blank, t, v, prior, false);
        MergeAll(t, v, prior);
      }
      assert HasType(blank(t), t);
    } else {
      UncleanIsLost(order, blank, t, v, blank(t), false);
      assert HasType(blank(t), t);
    }
  }

  // ----- the round trip with defaults left out

  /** Every omitted scalar field, reached through nested structs, is already default in the prior object.
      Containers impose nothing. */
  predicate PriorAgrees(t: Type, v: Val, prior: Val)
    requires HasType(v, t) && HasType(prior, t)
    decreases t
  {
    match t
    case TStruct(fields, _) =>
      forall i :: 0 <= i < |fields| ==> PriorAgrees(fields[i].typ, v.fields[i], prior.fields[i])
    case TMap(_) => true
    case TVector(_) => true
    case _ => IsDefault(v) ==> IsDefault(prior)
  }

  lemma OneDefault(t: Type, v: Val, w: Val)
    requires IsScalar(t) && HasType(v, t) && HasType(w, t) && IsDefault(v)
    ensures IsDefault(w) <==> w == v
  {
  }

  lemma {:induction false} MergeAgrees(t: Type, v: Val, prior: Val)
    requires HasType(v, t) && HasType(prior, t) && t.TStruct?
    ensures Merge(t, v, prior, true) == v <==> PriorAgrees(t, v, prior)
    decreases t
  {
    forall i | 0 <= i < |t.fields|
      ensures Merge(t, v, prior, true).fields[i] == v.fields[i]
         <==> PriorAgrees(t.fields[i].typ, v.fields[i], prior.fields[i])
    {
      var typ := t.fields[i].typ;
      if typ.TStruct? {
        MergeAgrees(typ, v.fields[i], prior.fields[i]);
      } else if IsScalar(typ) && IsDefault(v.fields[i]) {
        OneDefault(typ, v.fields[i], prior.fields[i]);
      }
    }
    assert Merge(t, v, prior, true) == v <==>
      forall i :: 0 <= i < |t.fields| ==> Merge(t, v, prior, true).fields[i] == v.fields[i];
  }

  /** With defaults left out, parsing a struct into a prior object gives the original back exactly if its keys are
      clean and every omitted scalar is already default there. */
  lemma RoundTripWithDefaultsOmitted(order: Order, blank: Blank, t: Type, v: Val, prior: Val)
    requires IsOrder(order) && IsBlank(blank) && WellFormed(t) && t.TStruct? && HasType(v, t) && HasType(prior, t)
    ensures CleanKeys(t, v) ==>
      Encode(order, t, v, true).Some? && Parse(blank, t, Encode(order, t, v, true).value, "", prior).ok
    ensures CleanKeys(t, v) && PriorAgrees(t, v, prior) <==>
      Encode(order, t, v, true).Some? && Parse(blank, t, Encode(order, t, v, true).value, "", prior).v == v
  {
    if CleanKeys(t, v) {
      WriteThenRead(order, blank, t, v, prior, true);
      MergeAgrees(t, v, prior);
    } else {
      UncleanIsLost(order, blank, t, v, prior, true);
    }
  }

  // ----- names must be as they are: no other struct comes back for all its values

  /** Every struct has a field, as the defining macro demands. */
  predicate Populated(t: Type)
    decreases t
  {
    match t
    case TStruct(fields, _) => |fields| > 0 && forall i :: 0 <= i < |fields| ==> Populated(fields[i].typ)
    case TMap(elem) => Populated(elem)
    case TVector(elem) => Populated(elem)
    case _ => true
  }

  /** Two values of each type. */
  function Sample(t: Type, other: bool): (v: Val)
    ensures HasType(v, t) && CleanKeys(t, v)
    decreases t
  {
    match t
    case TInt(_) => VInt(if other then 1 else 0)
    case TBool => VBool(other)
    case TString => VString(if other then "a" else "")
    case TStruct(fields, _) => VStruct(seq(|fields|, i requires 0 <= i < |fields| => Sample(fields[i].typ, other)))
    case TMap(elem) => assert CStr("a") == ['a'] + CStr(""); VMap(if other then map["a" := Sample(elem, other)] else map[])
    case TVector(elem) => VVector(if other then [Sample(elem, other)] else [])
  }

  lemma {:induction false} SamplesDiffer(t: Type)
    requires Populated(t)
    ensures Sample(t, true) != Sample(t, false)
    decreases t
  {
    match t {
      case TStruct(fields, _) =>
        SamplesDiffer(fields[0].typ);
        assert Sample(t, true).fields[0] != Sample(t, false).fields[0];
      case TMap(elem) => assert "a" in Sample(t, true).m;
      case _ =>
    }
  }

  /** Written in full, the first n fields make an object, unless one of them has no name. */
  lemma {:induction false} WrittenObject(order: Order, t: Type, v: Val, n: nat)
    requires IsOrder(order) && t.TStruct? && HasType(v, t) && n <= |t.fields|
    requires WriteFields(order, t, v, n, false).Some?
    ensures WriteFields(order, t, v, n, false).value.JObject?
    ensures forall i :: 0 <= i < n ==> FieldName(t, i) != ""
    decreases n
  {
    if n > 0 {
      WrittenObject(order, t, v, n - 1);
      NameTwice(t, n - 1);
    }
  }

  /** What is found under the name of field i is settled once field i is written. */
  lemma {:induction false} FirstOfItsName(order: Order, t: Type, v: Val, i: nat, n: nat)
    requires IsOrder(order) && t.TStruct? && HasType(v, t) && i < n <= |t.fields|
    requires WriteFields(order, t, v, n, false).Some?
    ensures WriteFields(order, t, v, i + 1, false).Some? && WriteFields(order, t, v, i + 1, false).value.JObject?
    ensures WriteFields(order, t, v, n, false).value.JObject?
    ensures FindMember(WriteFields(order, t, v, n, false).value.members, FieldName(t, i))
         == FindMember(WriteFields(order, t, v, i + 1, false).value.members, FieldName(t, i))
         != None
    decreases n
  {
    WrittenObject(order, t, v, n);
    WrittenObject(order, t, v, n - 1);
    NameTwice(t, n - 1);
    var before := WriteFields(order, t, v, n - 1, false).value;
    var x := ToJson(order, t.fields[n - 1].typ, v.fields[n - 1], false).value;
    FindAppended(before.members, Member(FieldName(t, n - 1), x), FieldName(t, i));
    if i < n - 1 {
      FirstOfItsName(order, t, v, i, n - 1);
    }
  }

  lemma {:induction false} WritesAlike(order: Order, t: Type, v: Val, w: Val, n: nat)
    requires IsOrder(order) && t.TStruct? && HasType(v, t) && HasType(w, t) && n <= |t.fields|
    requires v.fields[..n] == w.fields[..n]
    ensures WriteFields(order, t, v, n, false) == WriteFields(order, t, w, n, false)
    decreases n
  {
    if n > 0 {
      assert v.fields[..n][..n - 1] == v.fields[..n - 1] && w.fields[..n][..n - 1] == w.fields[..n - 1];
      assert v.fields[..n][n - 1] == v.fields[n - 1] && w.fields[..n][n - 1] == w.fields[n - 1];
      WritesAlike(order, t, v, w, n - 1);
    }
  }

  /** Under a name that two fields share, the earlier one is found. */
  lemma SharedNameFindsAlike(order: Order, t: Type, v: Val, w: Val, i: nat, j: nat)
    requires IsOrder(order) && t.TStruct? && HasType(v, t) && HasType(w, t)
    requires i < j < |t.fields| && v.fields[..j] == w.fields[..j]
    requires ToJson(order, t, v, false).Some? && ToJson(order, t, w, false).Some?
    ensures var a := ToJson(order, t, v, false).value;
            var b := ToJson(order, t, w, false).value;
            a.JObject? && b.JObject? && FindMember(a.members, FieldName(t, i)) == FindMember(b.members, FieldName(t, i))
  {
    assert v.fields[..i + 1] == v.fields[..j][..i + 1] && w.fields[..i + 1] == w.fields[..j][..i + 1];
    WritesAlike(order, t, v, w, i + 1);
    FirstOfItsName(order, t, v, i, |t.fields|);
    FirstOfItsName(order, t, w, i, |t.fields|);
  }

  /** Field j is read from what is found under its name. */
  lemma FieldReadFromFound(blank: Blank, t: Type, a: Json, b: Json, prior: Val, j: nat)
    requires IsBlank(blank) && t.TStruct? && HasType(prior, t) && a.JObject? && b.JObject? && j < |t.fields|
    requires FieldName(t, j) != "" && FindMember(a.members, FieldName(t, j)) == FindMember(b.members, FieldName(t, j))
    ensures FromJson(blank, t, a, prior).v.fields[j] == FromJson(blank, t, b, prior).v.fields[j]
  {
    NameTwice(t, j);
    FieldsRead(blank, t, a, prior, |t.fields|, j);
    FieldsRead(blank, t, b, prior, |t.fields|, j);
  }

  /** A field that shares its name with an earlier one is read back the same, whatever was written for it. */
  lemma SharedNameReadsAlike(order: Order, blank: Blank, t: Type, v: Val, w: Val, prior: Val, i: nat, j: nat)
    requires IsOrder(order) && IsBlank(blank) && t.TStruct? && HasType(v, t) && HasType(w, t) && HasType(prior, t)
    requires i < j < |t.fields| && FieldName(t, i) == FieldName(t, j) && v.fields[..j] == w.fields[..j]
    requires ToJson(order, t, v, false).Some? && ToJson(order, t, w, false).Some?
    ensures FromJson(blank, t, ToJson(order, t, v, false).value, prior).v.fields[j]
         == FromJson(blank, t, ToJson(order, t, w, false).value, prior).v.fields[j]
  {
    SharedNameFindsAlike(order, t, v, w, i, j);
    WrittenObject(order, t, v, |t.fields|);
    FieldReadFromFound(blank, t, ToJson(order, t, v, false).value, ToJson(order, t, w, false).value, prior, j);
  }

  lemma SharedNameLoses(order: Order, blank: Blank, t: Type, prior: Val, i: nat, j: nat) returns (v: Val)
    requires IsOrder(order) && IsBlank(blank) && t.TStruct? && HasType(prior, t) && Populated(t)
    requires i < j < |t.fields| && FieldName(t, i) == FieldName(t, j)
    ensures HasType(v, t) && CleanKeys(t, v) && LostOver(order, blank, t, v, prior)
  {
    v := Sample(t, false);
    var w := VStruct(v.fields[j := Sample(t.fields[j].typ, true)]);
    SamplesDiffer(t.fields[j].typ);
    if LostOver(order, blank, t, v, prior) {
      return;
    }
    if !LostOver(order, blank, t, w, prior) {
      SharedNameReadsAlike(order, blank, t, v, w, prior, i, j);
    }
    v := w;
  }

  lemma FieldLoses(order: Order, blank: Blank, t: Type, prior: Val, i: nat, x: Val) returns (v: Val)
    requires IsOrder(order) && IsBlank(blank) && t.TStruct? && HasType(prior, t) && NamesOk(t) && i < |t.fields|
    requires HasType(x, t.fields[i].typ) && CleanKeys(t.fields[i].typ, x)
    requires LostOver(order, blank, t.fields[i].typ, x, prior.fields[i])
    ensures HasType(v, t) && CleanKeys(t, v) && LostOver(order, blank, t, v, prior)
  {
    v := VStruct(Sample(t, false).fields[i := x]);
    if ToJson(order, t, v, false).Some? {
      FieldBack(order, blank, t, v, prior, false, i);
    }
  }

  lemma EntryLoses(order: Order, blank: Blank, elem: Type, prior: Val, x: Val) returns (v: Val)
    requires IsOrder(order) && IsBlank(blank) && HasType(prior, TMap(elem))
    requires HasType(x, elem) && CleanKeys(elem, x) && LostOver(order, blank, elem, x, blank(elem))
    ensures HasType(v, TMap(elem)) && CleanKeys(TMap(elem), v) && LostOver(order, blank, TMap(elem), v, prior)
  {
    assert CStr("a") == ['a'] + CStr("");
    v := VMap(map["a" := x]);
    if ToJson(order, TMap(elem), v, false).Some? {
      MapMakesObject(order, elem, v);
      if "a" in ReadEntries(blank, elem, ToJson(order, TMap(elem), v, false).value.members).1 {
        var key := EntrySource(order, blank, elem, v, "a");
      }
    }
  }

  lemma ItemLoses(order: Order, blank: Blank, elem: Type, prior: Val, x: Val) returns (v: Val)
    requires IsOrder(order) && IsBlank(blank) && HasType(prior, TVector(elem))
    requires HasType(x, elem) && CleanKeys(elem, x) && LostOver(order, blank, elem, x, blank(elem))
    ensures HasType(v, TVector(elem)) && CleanKeys(TVector(elem), v) && LostOver(order, blank, TVector(elem), v, prior)
  {
    v := VVector([x]);
    if ToJson(order, TVector(elem), v, false).Some? {
      ItemsWritten(order, elem, v.items);
      ItemsRead(blank, elem, ToJson(order, TVector(elem), v, false).value.items);
    }
  }

  /** A type with an empty or a repeated name has a value that does not come back. */
  lemma {:induction false} IllFormedLoses(order: Order, blank: Blank, t: Type, prior: Val) returns (v: Val)
    requires IsOrder(order) && IsBlank(blank) && HasType(prior, t) && Populated(t) && !WellFormed(t)
    ensures HasType(v, t) && CleanKeys(t, v) && LostOver(order, blank, t, v, prior)
    decreases t
  {
    match t {
      case TStruct(fields, _) =>
        if NamesOk(t) {
          var i :| 0 <= i < |fields| && !WellFormed(fields[i].typ);
          var x := IllFormedLoses(order, blank, fields[i].typ, prior.fields[i]);
          v := FieldLoses(order, blank, t, prior, i, x);
        } else if i :| 0 <= i < |fields| && FieldName(t, i) == "" {
          v := Sample(t, false);
          if ToJson(order, t, v, false).Some? {
            WrittenObject(order, t, v, |fields|);
          }
        } else {
          var i, j :| 0 <= i < j < |fields| && FieldName(t, i) == FieldName(t, j);
          v := SharedNameLoses(order, blank, t, prior, i, j);
        }
      case TMap(elem) =>
        var x := IllFormedLoses(order, blank, elem, blank(elem));
        v := EntryLoses(order, blank, elem, prior, x);
      case TVector(elem) =>
        var x := IllFormedLoses(order, blank, elem, blank(elem));
        v := ItemLoses(order, blank, elem, prior, x);
    }
  }

  /** All values with clean keys come back, over every prior object, exactly if field names are non-empty and distinct. */
  lemma AllRoundTripExactlyForGoodNames(order: Order, blank: Blank, t: Type)
    requires IsOrder(order) && IsBlank(blank) && Populated(t)
    ensures WellFormed(t) <==> forall v :: HasType(v, t) && CleanKeys(t, v) ==> RoundTrips(order, blank, t, v)
  {
    if WellFormed(t) {
      forall v | HasType(v, t) && CleanKeys(t, v) ensures RoundTrips(order, blank, t, v) {
        RoundTripExactlyForCleanKeys(order, blank, t, v);
      }
    } else {
      assert HasType(blank(t), t);
      var v := IllFormedLoses(order, blank, t, blank(t));
      assert !RoundTrips(order, blank, t, v);
    }
  }
}
