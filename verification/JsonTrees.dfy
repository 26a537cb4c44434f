/**
 The trees themselves: which one stands for a value, which ones a type can read, and what is left behind where reading fails.
 None of this goes through the other direction.
 */
module JsonTrees {
  import opened Domain
  import opened JsonModel
  import opened JsonRoundTrip

  // ----- integers

  function Bits(k: IntKind): nat {
    match k
    case I8 => 8
    case I16 => 16
    case I32 => 32
    case I64 => 64
    case U8 => 8
    case U16 => 16
    case U32 => 32
    case U64 => 64
  }

  function TwoTo(n: nat): nat {
    if n == 0 then 1 else 2 * TwoTo(n - 1)
  }

  lemma SmallPowers()
    ensures TwoTo(7) == 128 && TwoTo(8) == 256 && TwoTo(15) == 32768 && TwoTo(16) == 65536
  {
    assert TwoTo(4) == 16;
    assert TwoTo(7) == 128;
    assert TwoTo(12) == 4096;
    assert TwoTo(15) == 32768;
  }

  lemma FourMore(n: nat)
    ensures TwoTo(n + 4) == 16 * TwoTo(n)
  {
    assert TwoTo(n + 4) == 2 * TwoTo(n + 3) == 4 * TwoTo(n + 2) == 8 * TwoTo(n + 1) == 16 * TwoTo(n);
  }

  lemma SixteenMore(n: nat)
    ensures TwoTo(n + 16) == 65536 * TwoTo(n)
  {
    hide TwoTo;
    FourMore(n);
    FourMore(n + 4);
    FourMore(n + 8);
    FourMore(n + 12);
  }

  lemma LargePowers()
    ensures TwoTo(31) == 2147483648 && TwoTo(32) == 4294967296
    ensures TwoTo(63) == 9223372036854775808 && TwoTo(64) == 18446744073709551616
  {
    SmallPowers();
    hide TwoTo;
    SixteenMore(15);
    SixteenMore(16);
    SixteenMore(31);
    SixteenMore(32);
    SixteenMore(47);
    SixteenMore(48);
  }

  /** Each type holds as many numbers as its bits allow, half of them negative if it is signed. */
  lemma RangesAreWidths(k: IntKind)
    ensures High(k) - Low(k) + 1 == TwoTo(Bits(k))
    ensures Low(k) == if k.I8? || k.I16? || k.I32? || k.I64? then -(High(k) + 1) else 0
  {
    SmallPowers();
    LargePowers();
    hide TwoTo;
  }

  /** What is read is the number, or for U8 its remainder by 256. */
  lemma NumberReadIs(k: IntKind, n: int)
    requires IntFrom(k, JInt(n)).Some?
    ensures IntFrom(k, JInt(n)).value == if k == U8 then n % 256 else n
  {
  }

  /** A number is written the same whatever its width: any type that can hold it reads it back. */
  lemma WidthIsNotWritten(order: Order, blank: Blank, j: IntKind, k: IntKind, n: int, prior: Val)
    requires IsOrder(order) && IsBlank(blank) && HasType(prior, TInt(k))
    requires Low(j) <= n <= High(j) && Low(k) <= n <= High(k)
    ensures var json := ToJson(order, TInt(j), VInt(n), false);
      json.Some? && FromJson(blank, TInt(k), json.value, prior) == Parsed(true, VInt(n))
  {
  }

  // ----- names

  /** A name as it is written ends before its first NUL. */
  lemma {:induction false} CStrEndsAtNul(s: string)
    ensures CStr(s) <= s && '\0' !in CStr(s)
    ensures CStr(s) == s || s[|CStr(s)|] == '\0'
  {
    if s != "" && s[0] != '\0' {
      CStrEndsAtNul(s[1..]);
      assert s == [s[0]] + s[1..];
    }
  }

  /** A mapped field goes by its mapped name, any other by its own. */
  lemma FieldsGoBy(t: Type, i: nat)
    requires t.TStruct? && i < |t.fields|
    ensures var own := t.fields[i].name;
      && (own in t.mapping && '\0' !in t.mapping[own] ==> FieldName(t, i) == t.mapping[own])
      && (own !in t.mapping && '\0' !in own ==> FieldName(t, i) == own)
  {
    var own := t.fields[i].name;
    CStrEndsAtNul(own);
    if own in t.mapping {
      CStrEndsAtNul(t.mapping[own]);
    }
  }

  // ----- the tree that stands for a value

  /** Member i goes by the name k. */
  predicate MemberOf(ms: seq<Member>, i: nat, k: string)
    requires i < |ms|
  {
    CStr(ms[i].name) == k
  }

  /** json stands for v: a number, truth value or string by itself; an array item by item; an object entry by entry, in any
      order and perhaps more than once; and a struct, field by field, under the field's name. */
  ghost predicate Stands(t: Type, json: Json, v: Val)
    requires HasType(v, t)
    decreases t
  {
    match t
    case TInt(_) => json == JInt(v.n)
    case TBool => json == JBool(v.b)
    case TString => json == JString(v.s)
    case TVector(elem) =>
      && json.JArray? && |json.items| == |v.items|
      && (forall i :: 0 <= i < |v.items| ==> Stands(elem, json.items[i], v.items[i]))
    case TMap(elem) =>
      && json.JObject?
      && (forall i :: 0 <= i < |json.members| ==>
            CStr(json.members[i].name) in v.m && Stands(elem, json.members[i].value, v.m[CStr(json.members[i].name)]))
      && (forall k :: k in v.m ==> exists i :: 0 <= i < |json.members| && MemberOf(json.members, i, k))
    case TStruct(fields, _) =>
      && json.JObject?
      && (forall i :: 0 <= i < |fields| ==>
            var x := FindMember(json.members, FieldName(t, i));
            FieldName(t, i) != "" && x.Some? && Stands(fields[i].typ, x.value, v.fields[i]))
  }

  /** What is written for a value, if nothing is omitted, stands for it. */
  lemma {:induction false} WrittenStands(order: Order, t: Type, v: Val)
    requires IsOrder(order) && WellFormed(t) && HasType(v, t) && CleanKeys(t, v)
    ensures ToJson(order, t, v, false).Some? && Stands(t, ToJson(order, t, v, false).value, v)
    decreases t
  {
    match t {
      case TStruct(fields, _) =>
        forall i | 0 <= i < |fields|
          ensures ToJson(order, fields[i].typ, v.fields[i], false).Some?
          ensures Stands(fields[i].typ, ToJson(order, fields[i].typ, v.fields[i], false).value, v.fields[i])
        {
          WrittenStands(order, fields[i].typ, v.fields[i]);
        }
        StructStands(order, t, v);
      case TMap(elem) =>
        forall k | k in v.m
          ensures ToJson(order, elem, v.m[k], false).Some? && Stands(elem, ToJson(order, elem, v.m[k], false).value, v.m[k])
        {
          WrittenStands(order, elem, v.m[k]);
        }
        MapStands(order, elem, v);
      case TVector(elem) =>
        forall i | 0 <= i < |v.items|
          ensures ToJson(order, elem, v.items[i], false).Some?
          ensures Stands(elem, ToJson(order, elem, v.items[i], false).value, v.items[i])
        {
          WrittenStands(order, elem, v.items[i]);
        }
        ItemsWritten(order, elem, v.items);
      case _ =>
    }
  }

  lemma StructStands(order: Order, t: Type, v: Val)
    requires IsOrder(order) && t.TStruct? && NamesOk(t) && HasType(v, t)
    requires forall i :: 0 <= i < |t.fields| ==>
      && ToJson(order, t.fields[i].typ, v.fields[i], false).Some?
      && Stands(t.fields[i].typ, ToJson(order, t.fields[i].typ, v.fields[i], false).value, v.fields[i])
    ensures ToJson(order, t, v, false).Some? && Stands(t, ToJson(order, t, v, false).value, v)
  {
    FieldsWritable(order, t, v, |t.fields|, false);
    FieldsMakeObject(order, t, v, |t.fields|, false);
    forall i | 0 <= i < |t.fields|
      ensures FindMember(ToJson(order, t, v, false).value.members, FieldName(t, i))
           == ToJson(order, t.fields[i].typ, v.fields[i], false)
    {
      FieldsWritten(order, t, v, |t.fields|, false, i);
    }
  }

  lemma MapStands(order: Order, elem: Type, v: Val)
    requires IsOrder(order) && HasType(v, TMap(elem)) && CleanKeys(TMap(elem), v)
    requires forall k :: k in v.m ==>
      ToJson(order, elem, v.m[k], false).Some? && Stands(elem, ToJson(order, elem, v.m[k], false).value, v.m[k])
    ensures ToJson(order, TMap(elem), v, false).Some? && Stands(TMap(elem), ToJson(order, TMap(elem), v, false).value, v)
  {
    var keys := order(v.m.Keys);
    assert Lists(keys, v.m.Keys);
    EntriesWritten(order, elem, v.m, keys);
    var ms := ToJson(order, TMap(elem), v, false).value.members;
    forall i | 0 <= i < |ms| ensures CStr(ms[i].name) == keys[i] {
      assert keys[i] in v.m;
    }
    forall k | k in v.m ensures exists i :: 0 <= i < |ms| && MemberOf(ms, i, k) {
      var i :| 0 <= i < |keys| && keys[i] == k;
      assert MemberOf(ms, i, k);
    }
  }

  // ----- which trees a type can read

  /** Structure and kinds fit, and numbers are in range; for U8 negative ones do as well. Of an object for a struct nothing
      more is asked. */
  predicate Readable(t: Type, json: Json)
    decreases t
  {
    match t
    case TInt(k) => json.JInt? && (Low(k) <= json.n <= High(k) || (k.U8? && -0x8000_0000_0000_0000 <= json.n < 0))
    case TBool => json.JBool?
    case TString => json.JString?
    case TStruct(_, _) => json.JObject?
    case TMap(elem) => json.JObject? && forall i :: 0 <= i < |json.members| ==> Readable(elem, json.members[i].value)
    case TVector(elem) => json.JArray? && forall i :: 0 <= i < |json.items| ==> Readable(elem, json.items[i])
  }

  /** Parsing succeeds exactly on those, whatever the variable held. */
  lemma {:induction false} ParsesExactly(blank: Blank, t: Type, json: Json, prior: Val)
    requires IsBlank(blank) && HasType(prior, t)
    ensures FromJson(blank, t, json, prior).ok <==> Readable(t, json)
    decreases t
  {
    match t {
      case TInt(k) => if json.JInt? { NumberReadExactlyIfInRange(k, json.n); }
      case TMap(elem) =>
        if json.JObject? {
          forall i | 0 <= i < |json.members|
            ensures FromJson(blank, elem, json.members[i].value, blank(elem)).ok <==> Readable(elem, json.members[i].value)
          {
            ParsesExactly(blank, elem, json.members[i].value, blank(elem));
          }
          EntriesReadExactly(blank, elem, json.members);
        }
      case TVector(elem) =>
        if json.JArray? {
          forall i | 0 <= i < |json.items|
            ensures FromJson(blank, elem, json.items[i], blank(elem)).ok <==> Readable(elem, json.items[i])
          {
            ParsesExactly(blank, elem, json.items[i], blank(elem));
          }
          ItemsReadExactly(blank, elem, json.items);
        }
      case _ =>
    }
  }

  /** Under a name, it succeeds exactly if there is such a member, and that can be read; without one, nothing changes. */
  lemma ParsesNamedExactly(blank: Blank, t: Type, json: Json, name: string, prior: Val)
    requires IsBlank(blank) && HasType(prior, t) && json.JObject? && CStr(name) != ""
    ensures var x, r := FindMember(json.members, CStr(name)), Parse(blank, t, json, name, prior);
      && (r.ok <==> x.Some? && Readable(t, x.value))
      && (x.None? ==> r.v == prior)
  {
    var x := FindMember(json.members, CStr(name));
    if x.Some? {
      ParsesExactly(blank, t, x.value, prior);
    }
  }

  lemma {:induction false} EntriesReadExactly(blank: Blank, elem: Type, ms: seq<Member>)
    requires IsBlank(blank)
    ensures ReadEntries(blank, elem, ms).0 <==>
      forall i :: 0 <= i < |ms| ==> FromJson(blank, elem, ms[i].value, blank(elem)).ok
  {
    if ms != [] {
      var last := |ms| - 1;
      EntriesReadExactly(blank, elem, ms[..last]);
      assert Parse(blank, elem, ms[last].value, "", blank(elem)) == FromJson(blank, elem, ms[last].value, blank(elem));
    }
  }

  lemma {:induction false} ItemsReadExactly(blank: Blank, elem: Type, items: seq<Json>)
    requires IsBlank(blank)
    ensures ReadItems(blank, elem, items).0 <==>
      forall i :: 0 <= i < |items| ==> FromJson(blank, elem, items[i], blank(elem)).ok
  {
    if items != [] {
      var last := |items| - 1;
      ItemsReadExactly(blank, elem, items[..last]);
      assert Parse(blank, elem, items[last], "", blank(elem)) == FromJson(blank, elem, items[last], blank(elem));
    }
  }

  // ----- what is left behind where reading fails

  lemma {:induction false} EntriesStop(blank: Blank, elem: Type, members: seq<Member>, i: nat)
    requires IsBlank(blank) && i <= |members| && !ReadEntries(blank, elem, members[..i]).0
    ensures ReadEntries(blank, elem, members) == ReadEntries(blank, elem, members[..i])
    decreases |members|
  {
    if i < |members| {
      assert members[..|members| - 1][..i] == members[..i];
      EntriesStop(blank, elem, members[..|members| - 1], i);
    } else {
      assert members[..i] == members;
    }
  }

  lemma {:induction false} ItemsStop(blank: Blank, elem: Type, items: seq<Json>, i: nat)
    requires IsBlank(blank) && i <= |items| && !ReadItems(blank, elem, items[..i]).0
    ensures ReadItems(blank, elem, items) == ReadItems(blank, elem, items[..i])
    decreases |items|
  {
    if i < |items| {
      assert items[..|items| - 1][..i] == items[..i];
      ItemsStop(blank, elem, items[..|items| - 1], i);
    } else {
      assert items[..i] == items;
    }
  }

  /** Anything of the wrong kind, or a number out of range, leaves the variable as it was. */
  lemma RefusedUntouched(blank: Blank, t: Type, json: Json, prior: Val)
    requires IsBlank(blank) && HasType(prior, t) && !Readable(t, json)
    requires t.TMap? ==> !json.JObject?
    requires t.TVector? ==> !json.JArray?
    ensures FromJson(blank, t, json, prior) == Parsed(false, prior)
  {
    ParsesExactly(blank, t, json, prior);
  }

  /** A map is left with the entries of the members before the first that cannot be read. */
  lemma MapStopsAtFirst(blank: Blank, elem: Type, json: Json, prior: Val, i: nat)
    requires IsBlank(blank) && HasType(prior, TMap(elem)) && json.JObject? && i < |json.members|
    requires !Readable(elem, json.members[i].value) && forall j :: 0 <= j < i ==> Readable(elem, json.members[j].value)
    ensures FromJson(blank, TMap(elem), JObject(json.members[..i]), prior).ok
    ensures FromJson(blank, TMap(elem), json, prior)
         == Parsed(false, FromJson(blank, TMap(elem), JObject(json.members[..i]), prior).v)
  {
    var ms := json.members;
    ParsesExactly(blank, TMap(elem), JObject(ms[..i]), prior);
    ParsesExactly(blank, elem, ms[i].value, blank(elem));
    assert ms[..i + 1][..i] == ms[..i];
    assert Parse(blank, elem, ms[i].value, "", blank(elem)) == FromJson(blank, elem, ms[i].value, blank(elem));
    assert ReadEntries(blank, elem, ms[..i + 1]) == (false, ReadEntries(blank, elem, ms[..i]).1);
    EntriesStop(blank, elem, ms, i + 1);
  }

  /** A vector, with the items before it. */
  lemma VectorStopsAtFirst(blank: Blank, elem: Type, json: Json, prior: Val, i: nat)
    requires IsBlank(blank) && HasType(prior, TVector(elem)) && json.JArray? && i < |json.items|
    requires !Readable(elem, json.items[i]) && forall j :: 0 <= j < i ==> Readable(elem, json.items[j])
    ensures FromJson(blank, TVector(elem), JArray(json.items[..i]), prior).ok
    ensures FromJson(blank, TVector(elem), json, prior)
         == Parsed(false, FromJson(blank, TVector(elem), JArray(json.items[..i]), prior).v)
  {
    var items := json.items;
    ParsesExactly(blank, TVector(elem), JArray(items[..i]), prior);
    ParsesExactly(blank, elem, items[i], blank(elem));
    assert items[..i + 1][..i] == items[..i];
    assert Parse(blank, elem, items[i], "", blank(elem)) == FromJson(blank, elem, items[i], blank(elem));
    assert ReadItems(blank, elem, items[..i + 1]) == (false, ReadItems(blank, elem, items[..i]).1);
    ItemsStop(blank, elem, items, i + 1);
  }

  // ----- what is read

  /** No later member goes by the name of member i. */
  predicate LastOfName(ms: seq<Member>, i: nat)
    requires i < |ms|
  {
    forall j :: i < j < |ms| ==> CStr(ms[j].name) != CStr(ms[i].name)
  }

  /** What goes by k among the members, one of them more that does not. */
  lemma NamesBefore(ms: seq<Member>, x: Member, k: string)
    requires CStr(x.name) != k
    ensures (exists i :: 0 <= i < |ms + [x]| && MemberOf(ms + [x], i, k)) <==> exists i :: 0 <= i < |ms| && MemberOf(ms, i, k)
    ensures forall i :: 0 <= i < |ms + [x]| && MemberOf(ms + [x], i, k) && LastOfName(ms + [x], i) ==>
      i < |ms| && MemberOf(ms, i, k) && LastOfName(ms, i)
  {
    forall i | 0 <= i < |ms| ensures MemberOf(ms + [x], i, k) <==> MemberOf(ms, i, k) {
    }
    forall i | 0 <= i < |ms| && LastOfName(ms + [x], i) ensures LastOfName(ms, i) {
      assert forall j :: i < j < |ms| ==> (ms + [x])[j] == ms[j];
    }
  }

  /** m has for k the last value among the members, if any goes by it. */
  ghost predicate HasLast(blank: Blank, elem: Type, ms: seq<Member>, k: string, m: map<string, Val>)
    requires IsBlank(blank)
  {
    && (k in m <==> exists i :: 0 <= i < |ms| && MemberOf(ms, i, k))
    && (forall i :: 0 <= i < |ms| && MemberOf(ms, i, k) && LastOfName(ms, i) ==>
          k in m && m[k] == FromJson(blank, elem, ms[i].value, blank(elem)).v)
  }

  lemma HasLastExtends(blank: Blank, elem: Type, ms: seq<Member>, x: Member, k: string, m: map<string, Val>)
    requires IsBlank(blank) && HasLast(blank, elem, ms, k, m)
    ensures HasLast(blank, elem, ms + [x], k, m[CStr(x.name) := FromJson(blank, elem, x.value, blank(elem)).v])
  {
    var all := ms + [x];
    if CStr(x.name) == k {
      assert MemberOf(all, |ms|, k);
      forall i | 0 <= i < |ms| && MemberOf(all, i, k) ensures !LastOfName(all, i) {
        assert CStr(all[|ms|].name) == CStr(all[i].name);
      }
    } else {
      NamesBefore(ms, x, k);
    }
  }

  /** An object whose members can all be read becomes the map of their names, each with its last value. */
  lemma {:induction false} EntriesAre(blank: Blank, elem: Type, ms: seq<Member>, k: string)
    requires IsBlank(blank) && forall i :: 0 <= i < |ms| ==> FromJson(blank, elem, ms[i].value, blank(elem)).ok
    ensures ReadEntries(blank, elem, ms).0 && HasLast(blank, elem, ms, k, ReadEntries(blank, elem, ms).1)
    decreases |ms|
  {
    if ms != [] {
      var last := |ms| - 1;
      var before := ms[..last];
      assert ms == before + [ms[last]];
      hide ReadEntries, HasLast;
      EntriesAre(blank, elem, before, k);
      EntriesNext(blank, elem, before, ms[last]);
      HasLastExtends(blank, elem, before, ms[last], k, ReadEntries(blank, elem, before).1);
    }
  }

  /** The last member that goes by a name that one goes by. */
  lemma {:induction false} LastMember(ms: seq<Member>, k: string, i: nat) returns (j: nat)
    requires i < |ms| && MemberOf(ms, i, k)
    ensures i <= j < |ms| && MemberOf(ms, j, k) && LastOfName(ms, j)
    decreases |ms| - i
  {
    if LastOfName(ms, i) {
      j := i;
    } else {
      var n :| i < n < |ms| && CStr(ms[n].name) == CStr(ms[i].name);
      j := LastMember(ms, k, n);
    }
  }

  /** Any tree that stands for a value, serialised or not, is parsed into it, whatever the variable held. */
  lemma {:induction false} StandingIsParsed(blank: Blank, t: Type, json: Json, v: Val, prior: Val)
    requires IsBlank(blank) && HasType(v, t) && HasType(prior, t) && Stands(t, json, v)
    ensures FromJson(blank, t, json, prior) == Parsed(true, v)
    decreases t
  {
    match t {
      case TStruct(fields, _) =>
        forall i | 0 <= i < |fields|
          ensures ReadFields(blank, t, json, prior, |fields|)[i] == v.fields[i]
        {
          StandingIsParsed(blank, fields[i].typ, FindMember(json.members, FieldName(t, i)).value, v.fields[i], prior.fields[i]);
          NameTwice(t, i);
          FieldsRead(blank, t, json, prior, |fields|, i);
        }
      case TMap(elem) =>
        forall i | 0 <= i < |json.members|
          ensures FromJson(blank, elem, json.members[i].value, blank(elem)) == Parsed(true, v.m[CStr(json.members[i].name)])
        {
          StandingIsParsed(blank, elem, json.members[i].value, v.m[CStr(json.members[i].name)], blank(elem));
        }
        MapIsEntries(blank, elem, json, prior);
        MapIsParsed(blank, elem, json.members, v.m);
      case TVector(elem) =>
        forall i | 0 <= i < |json.items|
          ensures FromJson(blank, elem, json.items[i], blank(elem)) == Parsed(true, v.items[i])
        {
          StandingIsParsed(blank, elem, json.items[i], v.items[i], blank(elem));
        }
        ItemsRead(blank, elem, json.items);
      case _ =>
    }
  }

  lemma MapIsEntries(blank: Blank, elem: Type, json: Json, prior: Val)
    requires IsBlank(blank) && HasType(prior, TMap(elem)) && json.JObject?
    ensures var (ok, m) := ReadEntries(blank, elem, json.members);
      FromJson(blank, TMap(elem), json, prior) == Parsed(ok, VMap(m))
  {
  }

  lemma MapIsParsed(blank: Blank, elem: Type, ms: seq<Member>, m: map<string, Val>)
    requires IsBlank(blank)
    requires forall i :: 0 <= i < |ms| ==> CStr(ms[i].name) in m
    requires forall i :: 0 <= i < |ms| ==>
      FromJson(blank, elem, ms[i].value, blank(elem)) == Parsed(true, m[CStr(ms[i].name)])
    requires forall k :: k in m ==> exists i :: 0 <= i < |ms| && MemberOf(ms, i, k)
    ensures ReadEntries(blank, elem, ms) == (true, m)
  {
    EntriesReadExactly(blank, elem, ms);
    var r := ReadEntries(blank, elem, ms).1;
    forall k ensures k in r <==> k in m ensures k in r ==> r[k] == m[k] {
      KeyIsParsed(blank, elem, ms, m, k);
    }
    hide ReadEntries, FromJson, MemberOf;
    assert r == m;
  }

  lemma KeyIsParsed(blank: Blank, elem: Type, ms: seq<Member>, m: map<string, Val>, k: string)
    requires IsBlank(blank)
    requires forall i :: 0 <= i < |ms| ==> CStr(ms[i].name) in m
    requires forall i :: 0 <= i < |ms| ==>
      FromJson(blank, elem, ms[i].value, blank(elem)) == Parsed(true, m[CStr(ms[i].name)])
    requires k in m ==> exists i :: 0 <= i < |ms| && MemberOf(ms, i, k)
    ensures var r := ReadEntries(blank, elem, ms).1;
      (k in r <==> k in m) && (k in r ==> r[k] == m[k])
  {
    EntriesAre(blank, elem, ms, k);
    hide ReadEntries, FromJson;
    if k in ReadEntries(blank, elem, ms).1 {
      var i :| 0 <= i < |ms| && MemberOf(ms, i, k);
      var j := LastMember(ms, k, i);
    }
  }

  // ----- what is omitted

  /** With defaults omitted, a struct's member is missing exactly for the number 0, false and the empty string. */
  lemma OmittedExactly(order: Order, t: Type, v: Val, i: nat)
    requires IsOrder(order) && t.TStruct? && NamesOk(t) && HasType(v, t) && i < |t.fields|
    requires ToJson(order, t, v, true).Some?
    ensures ToJson(order, t, v, true).value.JObject?
    ensures FindMember(ToJson(order, t, v, true).value.members, FieldName(t, i)).None? <==>
      v.fields[i] == VInt(0) || v.fields[i] == VBool(false) || v.fields[i] == VString("")
  {
    FieldsMakeObject(order, t, v, |t.fields|, true);
    FieldsWritten(order, t, v, |t.fields|, true, i);
  }

  /** With nothing omitted, the members are the fields in their order. */
  lemma {:induction false} MembersInOrder(order: Order, t: Type, v: Val, n: nat)
    requires IsOrder(order) && t.TStruct? && NamesOk(t) && HasType(v, t) && n <= |t.fields|
    requires WriteFields(order, t, v, n, false).Some?
    ensures var json := WriteFields(order, t, v, n, false).value;
      && json.JObject? && |json.members| == n
      && forall i :: 0 <= i < n ==>
          json.members[i].name == FieldName(t, i)
          && ToJson(order, t.fields[i].typ, v.fields[i], false) == Some(json.members[i].value)
    decreases n
  {
    if n > 0 {
      MembersInOrder(order, t, v, n - 1);
      NameTwice(t, n - 1);
    }
  }

  // ----- examples

  const LEVEL := TStruct([Field("lvl", TInt(U8))], map["lvl" := "level"])

  /** {"level": 200} */
  lemma ByteIsWrittenUnsigned(order: Order)
    requires IsOrder(order)
    ensures ToJson(order, LEVEL, VStruct([VInt(200)]), false) == Some(JObject([Member("level", JInt(200))]))
  {
    var v := VStruct([VInt(200)]);
    assert HasType(v, LEVEL);
    FieldsGoBy(LEVEL, 0);
    NameTwice(LEVEL, 0);
    assert WriteFields(order, LEVEL, v, 0, false) == Some(JObject([]));
    assert JObject([]).members + [Member("level", JInt(200))] == [Member("level", JInt(200))];
  }

  /** {"a": 1, "b": "x", "c": 3} as a map of numbers: refused, and a is left. */
  lemma StopsAtWrongKind(blank: Blank, prior: Val)
    requires IsBlank(blank) && HasType(prior, TMap(TInt(I32)))
    ensures FromJson(blank, TMap(TInt(I32)), JObject([Member("a", JInt(1)), Member("b", JString("x")), Member("c", JInt(3))]), prior)
         == Parsed(false, VMap(map["a" := VInt(1)]))
  {
    var elem, ms := TInt(I32), [Member("a", JInt(1)), Member("b", JString("x")), Member("c", JInt(3))];
    MapStopsAtFirst(blank, elem, JObject(ms), prior, 1);
    assert ms[..1] == [Member("a", JInt(1))];
    CStrEndsAtNul("a");
    assert MemberOf(ms[..1], 0, "a");
    StandingIsParsed(blank, TMap(elem), JObject(ms[..1]), VMap(map["a" := VInt(1)]), prior);
  }
}
