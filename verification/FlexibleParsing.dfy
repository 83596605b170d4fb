/** Type-directed conversion of loosely typed parameters into declared Go types.

    A string is a sequence of bytes, one char each. Floats are reals: rounding, and what Go leaves to
    the implementation, are functions of `Externals`, as are encoding/json and fmt. */
module FlexibleParsing {
  import opened Wrappers

  const MAX_STRING_LENGTH := 10 * 1024 * 1024
  const MAX_SLICE_LENGTH := 100000
  const MAX_MAP_SIZE := 50000
  const MAX_INT64 := 0x7fff_ffff_ffff_ffff
  const MAX_UINT64 := 0xffff_ffff_ffff_ffff

  // ---------------------------------------------------------------------------------------
  // Go types and values
  // ---------------------------------------------------------------------------------------

  datatype Width = Word | W8 | W16 | W32 | W64

  datatype Type =
    | TString
    | TInt(width: Width)
    | TUint(width: Width)
    | TFloat(bits: nat)
    | TBool
    | TAny
    | TMap(key: Type, elem: Type)
    | TSlice(elem: Type)
    | TStruct(fields: seq<Field>)
    | TDefined(name: string, definition: Type)
    | TOther(name: string)

  datatype Field = Field(name: string, tag: string, exported: bool, fieldType: Type)

  /** A value with its dynamic type; `Nil` is the nil interface. */
  datatype Value = Nil | Val(dynType: Type, content: Content)

  datatype Content =
    | CString(s: string)
    | CInt(i: int)
    | CReal(r: real)
    | CBool(b: bool)
    | CNull
    | CMap(entries: map<string, Value>)
    | CList(items: seq<Value>)
    | CFields(slots: seq<Value>)
    | COther(id: nat, size: nat)

  const ANY_MAP := TMap(TString, TAny)

  function Under(t: Type): Type {
    if t.TDefined? then Under(t.definition) else t
  }

  predicate Named(t: Type) {
    !t.TMap? && !t.TSlice? && !t.TStruct?
  }

  /** Go assignability, for types whose only interface is the empty one. */
  predicate Assignable(from: Type, to: Type) {
    || from == to
    || Under(to).TAny?
    || (Under(from) == Under(to) && (!Named(from) || !Named(to)))
  }

  function Modulus(w: Width): nat {
    match w
    case W8 => 0x100
    case W16 => 0x1_0000
    case W32 => 0x1_0000_0000
    case _ => 0x1_0000_0000_0000_0000
  }

  predicate InRange(t: Type, i: int) {
    match t
    case TInt(w) => -(Modulus(w) / 2) <= i < Modulus(w) / 2
    case TUint(w) => 0 <= i < Modulus(w)
    case _ => false
  }

  /** A variable of type t may hold v. */
  ghost predicate InSlot(v: Value, t: Type)
    decreases v
  {
    if v.Nil? then Under(t).TAny? else
    && (Under(t).TAny? || v.dynType == t)
    && match Under(v.dynType)
       case TString => v.content.CString?
       case TInt(_) => v.content.CInt? && InRange(Under(v.dynType), v.content.i)
       case TUint(_) => v.content.CInt? && InRange(Under(v.dynType), v.content.i)
       case TFloat(_) => v.content.CReal?
       case TBool => v.content.CBool?
       case TAny => false
       case TMap(key, elem) =>
         || v.content.CNull?
         || (v.content.COther? && key != TString)
         || (v.content.CMap? && (v.content.entries == map[] || Assignable(TString, key))
             && forall k :: k in v.content.entries ==> InSlot(v.content.entries[k], elem))
       case TSlice(elem) =>
         || v.content.CNull?
         || (v.content.CList? && forall i :: 0 <= i < |v.content.items| ==> InSlot(v.content.items[i], elem))
       case TStruct(fields) =>
         v.content.CFields? && |v.content.slots| == |fields|
         && forall i :: 0 <= i < |fields| ==> InSlot(v.content.slots[i], fields[i].fieldType)
       case TDefined(_, _) => false
       case TOther(_) => v.content.COther?
  }

  lemma {:induction false} UnderFacts(t: Type)
    ensures !Under(t).TDefined? && Under(Under(t)) == Under(t)
  {
    if t.TDefined? {
      UnderFacts(t.definition);
    }
  }

  /** The content a fresh variable starts with. */
  function Zero(t: Type): (z: Value)
    ensures z.Nil? <==> Under(t).TAny?
    ensures z.Val? ==> z.dynType == t
    ensures Under(t).TStruct? ==> z.content.CFields? && |z.content.slots| == |Under(t).fields|
  {
    match t
    case TString => Val(t, CString(""))
    case TInt(_) => Val(t, CInt(0))
    case TUint(_) => Val(t, CInt(0))
    case TFloat(_) => Val(t, CReal(0.0))
    case TBool => Val(t, CBool(false))
    case TAny => Nil
    case TMap(_, _) => Val(t, CNull)
    case TSlice(_) => Val(t, CNull)
    case TStruct(fields) => Val(t, CFields(seq(|fields|, i requires 0 <= i < |fields| => Zero(fields[i].fieldType))))
    case TDefined(_, d) => (var z := Zero(d); if z.Nil? then Nil else Val(t, z.content))
    case TOther(_) => Val(t, COther(0, 0))
  }

  lemma {:induction false} ZeroInSlot(t: Type)
    ensures InSlot(Zero(t), t)
  {
    match t
    case TStruct(fields) =>
      forall i | 0 <= i < |fields|
        ensures InSlot(Zero(fields[i].fieldType), fields[i].fieldType)
      {
        ZeroInSlot(fields[i].fieldType);
      }
    case TDefined(_, d) => ZeroInSlot(d); UnderFacts(t);
    case TInt(w) => assert Modulus(w) / 2 > 0;
    case TUint(w) => assert Modulus(w) > 0;
    case _ =>
  }

  /** Storing an assignable value in a variable of type t. */
  function Assign(v: Value, t: Type): Value {
    if v.Nil? || Under(t).TAny? then v else Val(t, v.content)
  }

  lemma AssignInSlot(v: Value, from: Type, to: Type)
    requires InSlot(v, from) && Assignable(from, to)
    ensures InSlot(Assign(v, to), to)
  {
    UnderFacts(from);
    UnderFacts(to);
  }

  lemma HeldInAny(v: Value, t: Type)
    requires InSlot(v, t)
    ensures InSlot(v, TAny)
  {}

  // ---------------------------------------------------------------------------------------
  // Case-insensitive names
  // ---------------------------------------------------------------------------------------

  function Lower(c: char): char {
    if 'A' <= c <= 'Z' then c + ('a' - 'A') else c
  }

  ghost predicate FoldEqual(s: string, t: string) {
    |s| == |t| && forall i :: 0 <= i < |s| ==> Lower(s[i]) == Lower(t[i])
  }

  method EqualFold(s1: string, s2: string) returns (equal: bool)
    ensures equal <==> FoldEqual(s1, s2)
  {
    if |s1| != |s2| {
      return false;
    }
    for i := 0 to |s1|
      invariant forall j :: 0 <= j < i ==> Lower(s1[j]) == Lower(s2[j])
    {
      var c1, c2 := s1[i], s2[i];
      if c1 != c2 {
        if 'A' <= c1 <= 'Z' {
          c1 := c1 + ('a' - 'A');
        }
        if 'A' <= c2 <= 'Z' {
          c2 := c2 + ('a' - 'A');
        }
        if c1 != c2 {
          return false;
        }
      }
    }
    return true;
  }

  lemma FoldEquivalence(s: string, t: string, u: string)
    ensures FoldEqual(s, s)
    ensures FoldEqual(s, t) ==> FoldEqual(t, s)
    ensures FoldEqual(s, t) && FoldEqual(t, u) ==> FoldEqual(s, u)
  {}

  /** The name a field is looked up by: the json tag up to its first comma, unless empty or "-". */
  function FieldName(f: Field): string {
    if f.tag == "" || f.tag == "-" then f.name else UpToComma(f.tag)
  }

  function UpToComma(s: string): string {
    if s == "" || s[0] == ',' then "" else [s[0]] + UpToComma(s[1..])
  }

  /** What looking a name up may answer: the exact key if there is one, else any fold-equal key. */
  ghost predicate IsLookup(source: map<string, Value>, name: string, r: Option<string>) {
    match r
    case Some(key) => key in source && (key == name || (name !in source && FoldEqual(key, name)))
    case None => forall key :: key in source ==> !FoldEqual(key, name)
  }

  ghost function Lookup(source: map<string, Value>, name: string): (r: Option<string>)
    ensures IsLookup(source, name, r)
  {
    if name in source then Some(name)
    else if exists key :: key in source && FoldEqual(key, name) then
      var key :| key in source && FoldEqual(key, name); Some(key)
    else None
  }

  ghost predicate FoldDistinct(source: map<string, Value>) {
    forall k, l :: k in source && l in source && FoldEqual(k, l) ==> k == l
  }

  /** Every map inside v that a conversion may look into has pairwise fold-distinct keys. */
  ghost predicate DeeplyFoldDistinct(v: Value)
    decreases v
  {
    v.Val? ==>
      match v.content
      case CMap(entries) =>
        FoldDistinct(entries) && forall k :: k in entries ==> DeeplyFoldDistinct(entries[k])
      case CList(items) => forall i :: 0 <= i < |items| ==> DeeplyFoldDistinct(items[i])
      case _ => true
  }

  /** The answer is unique exactly when the exact key exists or no two keys fold to the name. */
  lemma LookupUniqueIff(source: map<string, Value>, name: string)
    ensures (forall r, s :: IsLookup(source, name, r) && IsLookup(source, name, s) ==> r == s)
            <==> name in source
                 || forall k, l :: k in source && l in source && FoldEqual(k, name) && FoldEqual(l, name) ==> k == l
  {
    if name !in source
       && (exists k, l :: k in source && l in source && FoldEqual(k, name) && FoldEqual(l, name) && k != l) {
      var k, l :| k in source && l in source && FoldEqual(k, name) && FoldEqual(l, name) && k != l;
      assert IsLookup(source, name, Some(k)) && IsLookup(source, name, Some(l));
      assert Some(k) != Some(l);
    }
    if name in source {
      FoldEquivalence(name, name, name);
    }
  }

  /** Every key the lookup may answer holds the same value. */
  ghost predicate OneAnswer(source: map<string, Value>, name: string) {
    name in source
    || forall k, l :: k in source && l in source && FoldEqual(k, name) && FoldEqual(l, name) ==> source[k] == source[l]
  }

  lemma LookupDeterministic(source: map<string, Value>, name: string, r: Option<string>)
    requires OneAnswer(source, name) && IsLookup(source, name, r)
    ensures r.Some? <==> Lookup(source, name).Some?
    ensures r.Some? ==> source[r.value] == source[Lookup(source, name).value]
  {
    FoldEquivalence(name, name, name);
  }

  method FindKey(source: map<string, Value>, name: string) returns (r: Option<string>)
    ensures IsLookup(source, name, r)
  {
    if name in source {
      return Some(name);
    }
    var unseen := source.Keys;
    while unseen != {}
      invariant unseen <= source.Keys
      invariant forall key :: key in source && key !in unseen ==> !FoldEqual(key, name)
      decreases unseen
    {
      var key :| key in unseen;
      var equal := EqualFold(key, name);
      if equal {
        return Some(key);
      }
      unseen := unseen - {key};
    }
    return None;
  }

  // ---------------------------------------------------------------------------------------
  // What the conversion leaves to other packages
  // ---------------------------------------------------------------------------------------

  type Json = string

  /** json: marshal, then unmarshal into a fresh variable of the type. text: the JSON of parameters,
      which text and bytes are already. decode: unmarshal into a variable, which an error may leave
      half filled. sprint: the %v format. round: to the nearest float of that many bits.
      outOfRange: what converting a float no integer holds gives. */
  datatype Externals = Externals(
    json: (Type, Value) -> Option<Value>,
    text: Value -> Option<Json>,
    decode: (Json, Type, Value) -> (bool, Value),
    sprint: Value -> string,
    round: (nat, real) -> real,
    outOfRange: real -> int)
  {
    ghost predicate Sound() {
      && (forall t, v :: json(t, v).Some? ==> InSlot(json(t, v).value, t))
      && (forall j, t, v :: InSlot(v, t) ==> InSlot(decode(j, t, v).1, t))
    }
  }

  // ---------------------------------------------------------------------------------------
  // Conversion of one value
  // ---------------------------------------------------------------------------------------

  datatype Status = Ok | Err | Panic

  datatype Outcome = Outcome(status: Status, slot: Value)

  function Truncate(r: real): int {
    if r >= 0.0 then r.Floor else -(-r).Floor
  }

  function ToInt64(ext: Externals, v: Value): Option<int> {
    match v
    case Val(TInt(_), CInt(i)) => Some(i)
    case Val(TUint(_), CInt(i)) => if i > MAX_INT64 then None else Some(i)
    case Val(TFloat(_), CReal(r)) =>
      var i := Truncate(r);
      Some(if -MAX_INT64 - 1 <= i <= MAX_INT64 then i else ext.outOfRange(r))
    case _ => None
  }

  function ToUint64(ext: Externals, v: Value): Option<int> {
    match v
    case Val(TInt(_), CInt(i)) => if i >= 0 then Some(i) else None
    case Val(TUint(_), CInt(i)) => Some(i)
    case Val(TFloat(_), CReal(r)) =>
      if r < 0.0 then None else Some(if r.Floor <= MAX_UINT64 then r.Floor else ext.outOfRange(r))
    case _ => None
  }

  function ToFloat64(ext: Externals, v: Value): Option<real> {
    match v
    case Val(TInt(_), CInt(i)) => Some(ext.round(64, i as real))
    case Val(TUint(_), CInt(i)) => Some(ext.round(64, i as real))
    case Val(TFloat(_), CReal(r)) => Some(r)
    case _ => None
  }

  /** An integer variable keeps the low bits of what is stored. */
  function Stored(t: Type, i: int): int
    requires t.TInt? || t.TUint?
  {
    var m := Modulus(t.width);
    if t.TInt? then (i + m / 2) % m - m / 2 else i % m
  }

  lemma RemainderFacts(x: int, m: nat)
    requires m > 0
    ensures 0 <= x % m < m
    ensures x % m == x <==> 0 <= x < m
  {
    if 0 <= x < m {
      assert x / m == 0;
    }
  }

  lemma StoredFacts(t: Type, i: int)
    requires t.TInt? || t.TUint?
    ensures InRange(t, Stored(t, i))
    ensures Stored(t, i) == i <==> InRange(t, i)
  {
    var m := Modulus(t.width);
    RemainderFacts(i, m);
    RemainderFacts(i + m / 2, m);
  }

  /** Every target kind but maps and slices. */
  function SetScalar(ext: Externals, t: Type, cur: Value, v: Value): Outcome
    requires v.Val?
  {
    match Under(t)
    case TString =>
      var s := if v.dynType == TString && v.content.CString? then v.content.s else ext.sprint(v);
      if |s| > MAX_STRING_LENGTH then Outcome(Err, cur) else Outcome(Ok, Val(t, CString(s)))
    case TInt(_) =>
      (match ToInt64(ext, v)
       case Some(i) => Outcome(Ok, Val(t, CInt(Stored(Under(t), i))))
       case None => Outcome(Err, cur))
    case TUint(_) =>
      (match ToUint64(ext, v)
       case Some(i) => Outcome(Ok, Val(t, CInt(Stored(Under(t), i))))
       case None => Outcome(Err, cur))
    case TFloat(bits) =>
      (match ToFloat64(ext, v)
       case Some(r) => Outcome(Ok, Val(t, CReal(ext.round(bits, r))))
       case None => Outcome(Err, cur))
    case TBool =>
      if v.dynType == TBool && v.content.CBool? then Outcome(Ok, Val(t, v.content)) else Outcome(Err, cur)
    case TAny => Outcome(Ok, v)
    case _ =>
      (match ext.json(t, v)
       case Some(w) => Outcome(Ok, w)
       case None => Outcome(Err, cur))
  }

  /** validateSliceSize and validateMapSize: the limit, on values of that kind only. */
  predicate SliceTooLong(v: Value) {
    v.Val? && Under(v.dynType).TSlice? && Length(v) > MAX_SLICE_LENGTH
  }

  predicate MapTooBig(v: Value) {
    v.Val? && Under(v.dynType).TMap? && Length(v) > MAX_MAP_SIZE
  }

  function Length(v: Value): nat {
    if v.Nil? then 0 else
    match v.content
    case CList(items) => |items|
    case CMap(entries) => |entries|
    case COther(_, size) => size
    case _ => 0
  }

  function Items(v: Value): seq<Value> {
    if v.Val? && v.content.CList? then v.content.items else []
  }

  function Entries(v: Value): map<string, Value> {
    if v.Val? && v.content.CMap? then v.content.entries else map[]
  }

  /** Entries whose value is not assignable are dropped; a nil value panics once keys are assignable. */
  ghost function ConvertedMap(t: Type, cur: Value, v: Value): Outcome
    requires Under(t).TMap?
  {
    var elem := Under(t).elem;
    if v.Nil? || v.dynType != ANY_MAP then Outcome(Err, cur)
    else if !Assignable(TString, Under(t).key) then Outcome(Ok, Val(t, CMap(map[])))
    else if exists k :: k in Entries(v) && Entries(v)[k].Nil? then Outcome(Panic, cur)
    else Outcome(Ok, Val(t, CMap(KeptEntries(Entries(v), Entries(v).Keys, elem))))
  }

  predicate Kept(x: Value, elem: Type) {
    x.Val? && Assignable(x.dynType, elem)
  }

  ghost function KeptEntries(entries: map<string, Value>, keys: set<string>, elem: Type): map<string, Value> {
    map k | k in entries && k in keys && Kept(entries[k], elem) :: Assign(entries[k], elem)
  }

  ghost function SetField(ext: Externals, t: Type, cur: Value, v: Value): Outcome
    decreases v, 3
  {
    if v.Nil? then Outcome(Ok, cur)
    else if Assignable(v.dynType, t) then Outcome(Ok, Assign(v, t))
    else match Under(t)
      case TMap(_, _) => if MapTooBig(v) then Outcome(Err, cur) else ConvertedMap(t, cur, v)
      case TSlice(_) => if SliceTooLong(v) then Outcome(Err, cur) else ConvertedSlice(ext, t, cur, v)
      case _ => SetScalar(ext, t, cur, v)
  }

  ghost function ConvertedSlice(ext: Externals, t: Type, cur: Value, v: Value): Outcome
    requires Under(t).TSlice?
    decreases v, 2
  {
    if v.Nil? || !Under(v.dynType).TSlice? then Outcome(Err, cur) else
    var (status, slots) := ConvertedItems(ext, Under(t).elem, v, 0);
    Outcome(status, if status.Ok? then Val(t, CList(slots)) else cur)
  }

  /** The elements from the i-th on, and how converting them ends. */
  ghost function ConvertedItems(ext: Externals, elem: Type, v: Value, i: nat): (Status, seq<Value>)
    requires v.Val? && Under(v.dynType).TSlice? && i <= |Items(v)|
    decreases v, 1, |Items(v)| - i
  {
    if i == |Items(v)| then (Ok, []) else
    var first := ConvertedItem(ext, Under(v.dynType).elem, elem, Items(v)[i]);
    if !first.status.Ok? then (first.status, []) else
    var (status, rest) := ConvertedItems(ext, elem, v, i + 1);
    (status, [first.slot] + rest)
  }

  ghost function ConvertedItem(ext: Externals, from: Type, to: Type, x: Value): Outcome
    decreases x, 4
  {
    if Assignable(from, to) then Outcome(Ok, Assign(x, to))
    else if Under(to).TStruct? && x.Val? && x.dynType == ANY_MAP then Filled(ext, to, Zero(to), x)
    else SetField(ext, to, Zero(to), x)
  }

  /** mapToStruct on a variable of struct type t. On failure the fields set before it stay set. */
  ghost function Filled(ext: Externals, t: Type, cur: Value, v: Value): Outcome
    requires Under(t).TStruct? && cur.Val? && cur.content.CFields? && |cur.content.slots| == |Under(t).fields|
    decreases v, 2
  {
    var (status, slots) := FilledFrom(ext, Under(t).fields, cur.content.slots, v, 0);
    Outcome(status, Val(t, CFields(slots)))
  }

  ghost function FilledFrom(ext: Externals, fields: seq<Field>, slots: seq<Value>, v: Value, i: nat)
    : (r: (Status, seq<Value>))
    requires i <= |fields| == |slots|
    ensures |r.1| == |fields|
    decreases v, 1, |fields| - i
  {
    if i == |fields| then (Ok, slots) else
    var r := FilledField(ext, fields[i], slots[i], v);
    if r.status.Ok? then FilledFrom(ext, fields, slots[i := r.slot], v, i + 1)
    else (r.status, slots[i := r.slot])
  }

  ghost function FilledField(ext: Externals, field: Field, cur: Value, v: Value): Outcome
    decreases v, 0
  {
    var key := Lookup(Entries(v), FieldName(field));
    if !field.exported || key.None? then Outcome(Ok, cur)
    else SetField(ext, field.fieldType, cur, v.content.entries[key.value])
  }

  // ---------------------------------------------------------------------------------------
  // What the conversion means
  // ---------------------------------------------------------------------------------------

  /** A slice converts exactly when every element does, and element by element. */
  lemma {:induction false} ElementByElement(ext: Externals, elem: Type, v: Value, i: nat)
    requires v.Val? && Under(v.dynType).TSlice? && i <= |Items(v)|
    ensures var from := Under(v.dynType).elem;
            var (status, slots) := ConvertedItems(ext, elem, v, i);
            && (status.Ok? <==> forall j :: i <= j < |Items(v)| ==>
                ConvertedItem(ext, from, elem, Items(v)[j]).status.Ok?)
            && (status.Ok? ==> |slots| == |Items(v)| - i
                               && forall j :: i <= j < |Items(v)| ==>
                                    slots[j - i] == ConvertedItem(ext, from, elem, Items(v)[j]).slot)
    decreases |Items(v)| - i
  {
    if i < |Items(v)| {
      ElementByElement(ext, elem, v, i + 1);
    }
  }

  lemma {:induction false} EarlierFieldsStay(ext: Externals, fields: seq<Field>, slots: seq<Value>, v: Value, i: nat)
    requires i <= |fields| == |slots|
    ensures FilledFrom(ext, fields, slots, v, i).1[..i] == slots[..i]
    decreases |fields| - i
  {
    if i < |fields| {
      var next := slots[i := FilledField(ext, fields[i], slots[i], v).slot];
      EarlierFieldsStay(ext, fields, next, v, i + 1);
      assert next[..i] == slots[..i] && next[..i + 1][..i] == next[..i];
      assert FilledFrom(ext, fields, next, v, i + 1).1[..i + 1][..i] == FilledFrom(ext, fields, next, v, i + 1).1[..i];
    }
  }

  ghost predicate FieldFits(ext: Externals, fields: seq<Field>, slots: seq<Value>, v: Value, j: nat)
    requires j < |fields| == |slots|
  {
    FilledField(ext, fields[j], slots[j], v).status.Ok?
  }

  ghost predicate FieldArrives(ext: Externals, fields: seq<Field>, slots: seq<Value>, v: Value, filled: seq<Value>,
                               j: nat)
    requires j < |fields| == |slots| == |filled|
  {
    filled[j] == FilledField(ext, fields[j], slots[j], v).slot
  }

  /** A struct is filled exactly when every field can be, and field by field: no field's value
      depends on another's. */
  lemma {:induction false} FieldByField(ext: Externals, fields: seq<Field>, slots: seq<Value>, v: Value, i: nat)
    requires i <= |fields| == |slots|
    ensures var (status, filled) := FilledFrom(ext, fields, slots, v, i);
            && (status.Ok? <==> forall j :: i <= j < |fields| ==> FieldFits(ext, fields, slots, v, j))
            && (status.Ok? ==> forall j :: i <= j < |fields| ==> FieldArrives(ext, fields, slots, v, filled, j))
    decreases |fields| - i
  {
    if i < |fields| && FieldFits(ext, fields, slots, v, i) {
      var next := slots[i := FilledField(ext, fields[i], slots[i], v).slot];
      var filled := FilledFrom(ext, fields, slots, v, i).1;
      FieldByField(ext, fields, next, v, i + 1);
      EarlierFieldsStay(ext, fields, next, v, i + 1);
      assert filled[i] == filled[..i + 1][i] == next[i];
      forall j | i < j < |fields|
        ensures FieldFits(ext, fields, next, v, j) <==> FieldFits(ext, fields, slots, v, j)
        ensures FieldArrives(ext, fields, next, v, filled, j) <==> FieldArrives(ext, fields, slots, v, filled, j)
      {
        assert next[j] == slots[j];
      }
    }
  }

  /** An integer arrives unchanged exactly when the declared type has it; otherwise it is refused or
      loses its high bits. */
  lemma IntegerArrivesIff(ext: Externals, t: Type, cur: Value, v: Value)
    requires v.Val? && (v.dynType.TInt? || v.dynType.TUint?) && InSlot(v, TAny)
    requires Under(t).TInt? || Under(t).TUint?
    ensures SetField(ext, t, cur, v) == Outcome(Ok, Val(t, v.content)) <==> InRange(Under(t), v.content.i)
  {
    StoredFacts(Under(t), v.content.i);
    match v.dynType.width case Word => case W8 => case W16 => case W32 => case W64 =>
    match Under(t).width case Word => case W8 => case W16 => case W32 => case W64 =>
  }

  /** The length limit on strings does not reach the fields declared as plain strings. */
  lemma StringAcceptedIff(ext: Externals, t: Type, cur: Value, s: string)
    requires Under(t).TString?
    ensures SetField(ext, t, cur, Val(TString, CString(s))).status.Ok? <==> t == TString || |s| <= MAX_STRING_LENGTH
  {}

  /** No map that a conversion may look into holds a nil value. */
  ghost predicate NilFree(v: Value)
    decreases v
  {
    v.Val? ==>
      match v.content
      case CMap(entries) => forall k :: k in entries ==> entries[k].Val? && NilFree(entries[k])
      case CList(items) => forall i :: 0 <= i < |items| ==> NilFree(items[i])
      case _ => true
  }

  /** Nil map values are the only thing a conversion panics on. */
  lemma {:induction false} NilFreeNeverPanics(ext: Externals, t: Type, cur: Value, v: Value)
    requires NilFree(v)
    ensures !SetField(ext, t, cur, v).status.Panic?
    decreases v, 3
  {
    if v.Val? && Under(t).TSlice? && Under(v.dynType).TSlice? {
      ItemsNeverPanic(ext, Under(t).elem, v, 0);
    }
  }

  lemma {:induction false} ItemsNeverPanic(ext: Externals, elem: Type, v: Value, i: nat)
    requires NilFree(v) && v.Val? && Under(v.dynType).TSlice? && i <= |Items(v)|
    ensures !ConvertedItems(ext, elem, v, i).0.Panic?
    decreases v, 1, |Items(v)| - i
  {
    if i < |Items(v)| {
      ItemNeverPanics(ext, Under(v.dynType).elem, elem, Items(v)[i]);
      ItemsNeverPanic(ext, elem, v, i + 1);
    }
  }

  lemma {:induction false} ItemNeverPanics(ext: Externals, from: Type, to: Type, x: Value)
    requires NilFree(x)
    ensures !ConvertedItem(ext, from, to, x).status.Panic?
    decreases x, 4
  {
    NilFreeNeverPanics(ext, to, Zero(to), x);
    if Under(to).TStruct? {
      FieldsNeverPanic(ext, Under(to).fields, Zero(to).content.slots, x, 0);
    }
  }

  lemma {:induction false} FieldsNeverPanic(ext: Externals, fields: seq<Field>, slots: seq<Value>, v: Value, i: nat)
    requires NilFree(v) && i <= |fields| == |slots|
    ensures !FilledFrom(ext, fields, slots, v, i).0.Panic?
    decreases v, 1, |fields| - i
  {
    if i < |fields| {
      var r := FilledField(ext, fields[i], slots[i], v);
      var key := Lookup(Entries(v), FieldName(fields[i]));
      if key.Some? {
        NilFreeNeverPanics(ext, fields[i].fieldType, slots[i], v.content.entries[key.value]);
      }
      FieldsNeverPanic(ext, fields, slots[i := r.slot], v, i + 1);
    }
  }

  // ---------------------------------------------------------------------------------------
  // Exactly when a conversion panics
  // ---------------------------------------------------------------------------------------

  /** convertMap reaches a nil entry. */
  predicate NilReached(key: Type, v: Value) {
    v.Val? && v.dynType == ANY_MAP && !MapTooBig(v) && Assignable(TString, key)
    && exists k :: k in Entries(v) && Entries(v)[k].Nil?
  }

  /** Converting v to the type runs into a nil map entry before anything fails. */
  ghost predicate Traps(ext: Externals, t: Type, v: Value)
    decreases v, 3
  {
    v.Val? && !Assignable(v.dynType, t) &&
    match Under(t)
    case TMap(key, _) => NilReached(key, v)
    case TSlice(elem) =>
      Under(v.dynType).TSlice? && !SliceTooLong(v)
      && exists j :: 0 <= j < |Items(v)| && ItemTraps(ext, Under(v.dynType).elem, elem, Items(v)[j])
                     && forall k :: 0 <= k < j ==> ItemFits(ext, Under(v.dynType).elem, elem, Items(v)[k])
    case _ => false
  }

  ghost predicate ItemTraps(ext: Externals, from: Type, to: Type, x: Value)
    decreases x, 4
  {
    !Assignable(from, to) &&
    if Under(to).TStruct? && x.Val? && x.dynType == ANY_MAP
    then FieldsTrap(ext, Under(to).fields, Zero(to).content.slots, x)
    else Traps(ext, to, x)
  }

  ghost predicate ItemFits(ext: Externals, from: Type, to: Type, x: Value)
    decreases x, 5
  {
    ConvertedItem(ext, from, to, x).status.Ok?
  }

  ghost predicate FieldsTrap(ext: Externals, fields: seq<Field>, slots: seq<Value>, v: Value)
    requires |fields| == |slots|
    decreases v, 2
  {
    exists j :: 0 <= j < |fields| && FieldTraps(ext, fields[j], v)
                && forall k :: 0 <= k < j ==> FieldFits(ext, fields, slots, v, k)
  }

  ghost predicate FieldTraps(ext: Externals, field: Field, v: Value)
    decreases v, 0
  {
    var key := Lookup(Entries(v), FieldName(field));
    field.exported && key.Some? && Traps(ext, field.fieldType, v.content.entries[key.value])
  }

  /** A conversion panics if and only if it runs into a nil entry of a map it has to convert. */
  lemma {:induction false} PanicsIffTraps(ext: Externals, t: Type, cur: Value, v: Value)
    ensures SetField(ext, t, cur, v).status.Panic? <==> Traps(ext, t, v)
    decreases v, 3
  {
    if v.Val? && Under(t).TSlice? && Under(v.dynType).TSlice? {
      ItemsPanicIff(ext, Under(t).elem, v, 0);
    }
  }

  lemma {:induction false} ItemsPanicIff(ext: Externals, elem: Type, v: Value, i: nat)
    requires v.Val? && Under(v.dynType).TSlice? && i <= |Items(v)|
    ensures ConvertedItems(ext, elem, v, i).0.Panic? <==>
            exists j :: i <= j < |Items(v)| && ItemTraps(ext, Under(v.dynType).elem, elem, Items(v)[j])
                        && forall k :: i <= k < j ==> ItemFits(ext, Under(v.dynType).elem, elem, Items(v)[k])
    decreases v, 1, |Items(v)| - i
  {
    if i < |Items(v)| {
      var from := Under(v.dynType).elem;
      ItemPanicsIff(ext, from, elem, Items(v)[i]);
      ItemsPanicIff(ext, elem, v, i + 1);
      if ItemFits(ext, from, elem, Items(v)[i]) {
        assert !ItemTraps(ext, from, elem, Items(v)[i]);
      }
    }
  }

  lemma {:induction false} ItemPanicsIff(ext: Externals, from: Type, to: Type, x: Value)
    ensures ConvertedItem(ext, from, to, x).status.Panic? <==> ItemTraps(ext, from, to, x)
    decreases x, 4
  {
    if Under(to).TStruct? && x.Val? && x.dynType == ANY_MAP {
      TrapsFromStart(ext, Under(to).fields, Zero(to).content.slots, x);
    } else {
      PanicsIffTraps(ext, to, Zero(to), x);
    }
  }

  /** The j-th field traps, and all from the i-th to it fit. */
  ghost predicate TrapsAt(ext: Externals, fields: seq<Field>, slots: seq<Value>, v: Value, i: nat, j: nat)
    requires |fields| == |slots|
  {
    i <= j < |fields| && FieldTraps(ext, fields[j], v)
    && forall k :: i <= k < j ==> FieldFits(ext, fields, slots, v, k)
  }

  /** Filling a field that fits changes nothing for the later ones. */
  lemma TrapsLater(ext: Externals, fields: seq<Field>, slots: seq<Value>, v: Value, i: nat, j: nat, next: seq<Value>)
    requires i < j && i < |fields| == |slots| == |next| && FieldFits(ext, fields, slots, v, i)
    requires forall k :: i < k < |fields| ==> next[k] == slots[k]
    ensures TrapsAt(ext, fields, slots, v, i, j) <==> TrapsAt(ext, fields, next, v, i + 1, j)
  {
    assert forall k :: i < k < |fields| ==>
        (FieldFits(ext, fields, next, v, k) <==> FieldFits(ext, fields, slots, v, k));
  }

  lemma {:induction false} FieldsPanicIff(ext: Externals, fields: seq<Field>, slots: seq<Value>, v: Value, i: nat)
    requires i <= |fields| == |slots|
    ensures FilledFrom(ext, fields, slots, v, i).0.Panic? <==> exists j :: TrapsAt(ext, fields, slots, v, i, j)
    decreases v, 1, |fields| - i
  {
    if i < |fields| {
      FieldPanicsIff(ext, fields[i], slots[i], v);
      if FieldFits(ext, fields, slots, v, i) {
        var next := slots[i := FilledField(ext, fields[i], slots[i], v).slot];
        var m := i + 1;
        FieldsPanicIff(ext, fields, next, v, m);
        assert !TrapsAt(ext, fields, slots, v, i, i);
        forall j | i < j
          ensures TrapsAt(ext, fields, slots, v, i, j) <==> TrapsAt(ext, fields, next, v, m, j)
        {
          TrapsLater(ext, fields, slots, v, i, j, next);
        }
        assert FilledFrom(ext, fields, slots, v, i) == FilledFrom(ext, fields, next, v, m);
        if j :| TrapsAt(ext, fields, next, v, m, j) {
          assert TrapsAt(ext, fields, slots, v, i, j);
        }
        if j :| TrapsAt(ext, fields, slots, v, i, j) {
          assert TrapsAt(ext, fields, next, v, m, j);
        }
      } else {
        assert FieldTraps(ext, fields[i], v) ==> TrapsAt(ext, fields, slots, v, i, i);
        assert forall j :: TrapsAt(ext, fields, slots, v, i, j) ==> j == i;
      }
    }
  }

  lemma {:induction false} FieldPanicsIff(ext: Externals, field: Field, cur: Value, v: Value)
    ensures FilledField(ext, field, cur, v).status.Panic? <==> FieldTraps(ext, field, v)
    decreases v, 0
  {
    var key := Lookup(Entries(v), FieldName(field));
    if field.exported && key.Some? {
      PanicsIffTraps(ext, field.fieldType, cur, v.content.entries[key.value]);
    }
  }

  /** And a whole struct, filled from its first field on. */
  lemma StructPanicsIff(ext: Externals, t: Type, cur: Value, v: Value)
    requires Under(t).TStruct? && cur.Val? && cur.content.CFields? && |cur.content.slots| == |Under(t).fields|
    ensures Filled(ext, t, cur, v).status.Panic? <==> FieldsTrap(ext, Under(t).fields, cur.content.slots, v)
  {
    TrapsFromStart(ext, Under(t).fields, cur.content.slots, v);
  }

  lemma TrapsFromStart(ext: Externals, fields: seq<Field>, slots: seq<Value>, v: Value)
    requires |fields| == |slots|
    ensures FilledFrom(ext, fields, slots, v, 0).0.Panic? <==> FieldsTrap(ext, fields, slots, v)
    decreases v, 2
  {
    FieldsPanicIff(ext, fields, slots, v, 0);
    if FieldsTrap(ext, fields, slots, v) {
      var j :| 0 <= j < |fields| && FieldTraps(ext, fields[j], v)
               && forall k :: 0 <= k < j ==> FieldFits(ext, fields, slots, v, k);
      assert TrapsAt(ext, fields, slots, v, 0, j);
    }
  }

  /** The smallest input that panics: a nil in a map to be converted to a map of strings. */
  lemma NilEntryPanics(ext: Externals, cur: Value)
    ensures var v := Val(ANY_MAP, CMap(map["k" := Nil]));
            SetField(ext, TMap(TString, TString), cur, v).status.Panic? && InSlot(v, TAny)
  {
    var v := Val(ANY_MAP, CMap(map["k" := Nil]));
    assert "k" in Entries(v) && Entries(v)["k"].Nil?;
  }

  // ---------------------------------------------------------------------------------------
  // When the outcome does not depend on iteration order
  // ---------------------------------------------------------------------------------------

  /** Every name that converting v to the type looks up has one answer. */
  ghost predicate Settled(t: Type, v: Value)
    decreases v, 3
  {
    v.Val? && !Assignable(v.dynType, t) && Under(t).TSlice? && !SliceTooLong(v) ==> SettledItems(Under(t).elem, v)
  }

  ghost predicate SettledItems(elem: Type, v: Value)
    decreases v, 2
  {
    v.Val? && Under(v.dynType).TSlice? ==>
      forall i :: 0 <= i < |Items(v)| ==> SettledItem(Under(v.dynType).elem, elem, Items(v)[i])
  }

  ghost predicate SettledItem(from: Type, to: Type, x: Value)
    decreases x, 4
  {
    !Assignable(from, to) ==>
      if Under(to).TStruct? && x.Val? && x.dynType == ANY_MAP then SettledFields(Under(to).fields, x)
      else Settled(to, x)
  }

  ghost predicate SettledFields(fields: seq<Field>, v: Value)
    decreases v, 2
  {
    forall i :: 0 <= i < |fields| ==> SettledField(fields[i], v)
  }

  ghost predicate SettledField(field: Field, v: Value)
    decreases v, 0
  {
    field.exported ==>
      && OneAnswer(Entries(v), FieldName(field))
      && var key := Lookup(Entries(v), FieldName(field));
         key.Some? ==> Settled(field.fieldType, v.content.entries[key.value])
  }

  /** Fold-distinct keys everywhere are enough, for every type. */
  lemma {:induction false} FoldDistinctIsSettled(t: Type, v: Value)
    requires DeeplyFoldDistinct(v)
    ensures Settled(t, v)
    decreases v, 3
  {
    if v.Val? && Under(t).TSlice? && Under(v.dynType).TSlice? {
      var from, elem := Under(v.dynType).elem, Under(t).elem;
      forall i | 0 <= i < |Items(v)| ensures SettledItem(from, elem, Items(v)[i]) {
        var x := Items(v)[i];
        FoldDistinctIsSettled(elem, x);
        if Under(elem).TStruct? {
          FoldDistinctFieldsSettled(Under(elem).fields, x);
        }
      }
    }
  }

  lemma {:induction false} FoldDistinctFieldsSettled(fields: seq<Field>, v: Value)
    requires DeeplyFoldDistinct(v)
    ensures SettledFields(fields, v)
    decreases v, 2
  {
    forall i | 0 <= i < |fields| ensures SettledField(fields[i], v) {
      var name := FieldName(fields[i]);
      forall k, l | k in Entries(v) && l in Entries(v) && FoldEqual(k, name) && FoldEqual(l, name)
        ensures k == l
      {
        FoldEquivalence(l, name, k);
        FoldEquivalence(k, name, l);
      }
      var key := Lookup(Entries(v), name);
      if key.Some? {
        FoldDistinctIsSettled(fields[i].fieldType, v.content.entries[key.value]);
      }
    }
  }

  // ---------------------------------------------------------------------------------------
  // The conversion in place: a variable is a cell of an array
  // ---------------------------------------------------------------------------------------

  /** A successful conversion to a slice keeps the length. */
  ghost predicate LengthKept(t: Type, v: Value, status: Status, slot: Value) {
    status.Ok? && v.Val? && Under(t).TSlice? ==> Length(slot) == Length(v)
  }

  ghost predicate Typed(fields: seq<Field>, slots: seq<Value>) {
    |slots| == |fields| && forall i :: 0 <= i < |fields| ==> InSlot(slots[i], fields[i].fieldType)
  }

  lemma ScalarInSlot(ext: Externals, t: Type, cur: Value, v: Value)
    requires ext.Sound() && v.Val? && InSlot(v, TAny) && InSlot(cur, t)
    requires !Assignable(v.dynType, t) && !Under(t).TMap? && !Under(t).TSlice?
    ensures InSlot(SetScalar(ext, t, cur, v).slot, t)
    ensures !SetScalar(ext, t, cur, v).status.Ok? ==> SetScalar(ext, t, cur, v).slot == cur
  {
    UnderFacts(t);
    if Under(t).TInt? {
      if ToInt64(ext, v).Some? {
        StoredFacts(Under(t), ToInt64(ext, v).value);
      }
    } else if Under(t).TUint? {
      if ToUint64(ext, v).Some? {
        StoredFacts(Under(t), ToUint64(ext, v).value);
      }
    }
  }

  method SetFieldValue(ext: Externals, t: Type, a: array<Value>, i: nat, v: Value) returns (status: Status)
    requires ext.Sound() && InSlot(v, TAny) && i < a.Length && InSlot(a[i], t)
    modifies a
    ensures a[..] == old(a[..])[i := a[i]]
    ensures InSlot(a[i], t) && LengthKept(t, v, status, a[i])
    ensures !status.Ok? ==> a[i] == old(a[i])
    ensures Settled(t, v) ==> Outcome(status, a[i]) == SetField(ext, t, old(a[i]), v)
    decreases v, 3
  {
    if v.Nil? {
      return Ok;
    }
    if Assignable(v.dynType, t) {
      AssignInSlot(v, v.dynType, t);
      a[i] := Assign(v, t);
      return Ok;
    }
    if Under(t).TMap? {
      if MapTooBig(v) {
        return Err;
      }
      status := ConvertMap(t, a, i, v);
    } else if Under(t).TSlice? {
      if SliceTooLong(v) {
        return Err;
      }
      status := ConvertSlice(ext, t, a, i, v);
    } else {
      ScalarInSlot(ext, t, a[i], v);
      var r := SetScalar(ext, t, a[i], v);
      a[i] := r.slot;
      status := r.status;
    }
  }

  method ConvertMap(t: Type, a: array<Value>, i: nat, v: Value) returns (status: Status)
    requires Under(t).TMap? && InSlot(v, TAny) && i < a.Length && InSlot(a[i], t)
    modifies a
    ensures a[..] == old(a[..])[i := a[i]]
    ensures InSlot(a[i], t)
    ensures Outcome(status, a[i]) == ConvertedMap(t, old(a[i]), v)
  {
    if v.Nil? || v.dynType != ANY_MAP {
      return Err;
    }
    var key, elem := Under(t).key, Under(t).elem;
    var newMap;
    status, newMap := CopyEntries(Entries(v), key, elem);
    if status.Ok? {
      KeptInSlots(Entries(v), Entries(v).Keys, elem);
      a[i] := Val(t, CMap(newMap));
    }
  }

  /** The loop of convertMap, in whatever order the keys come. */
  method CopyEntries(entries: map<string, Value>, key: Type, elem: Type)
    returns (status: Status, newMap: map<string, Value>)
    ensures status == if Assignable(TString, key) && exists k :: k in entries && entries[k].Nil? then Panic else Ok
    ensures status.Ok? ==>
        newMap == if Assignable(TString, key) then KeptEntries(entries, entries.Keys, elem) else map[]
  {
    newMap := map[];
    var unseen := entries.Keys;
    while unseen != {}
      invariant unseen <= entries.Keys
      invariant newMap == if Assignable(TString, key) then KeptEntries(entries, entries.Keys - unseen, elem) else map[]
      invariant Assignable(TString, key) ==> forall k :: k in entries && k !in unseen ==> entries[k].Val?
      decreases unseen
    {
      var k :| k in unseen;
      var value := entries[k];
      if Assignable(TString, key) {
        if value.Nil? {
          return Panic, newMap;
        }
        OneMoreKept(entries, entries.Keys - unseen, k, elem);
        assert entries.Keys - (unseen - {k}) == (entries.Keys - unseen) + {k};
        if Assignable(value.dynType, elem) {
          newMap := newMap[k := Assign(value, elem)];
        }
      }
      unseen := unseen - {k};
    }
    status := Ok;
    assert entries.Keys - unseen == entries.Keys;
  }

  lemma OneMoreKept(entries: map<string, Value>, keys: set<string>, k: string, elem: Type)
    requires k in entries
    ensures KeptEntries(entries, keys + {k}, elem) ==
            if Kept(entries[k], elem) then KeptEntries(entries, keys, elem)[k := Assign(entries[k], elem)]
            else KeptEntries(entries, keys - {k}, elem)
    ensures k !in keys ==> keys - {k} == keys
  {}

  lemma KeptInSlots(entries: map<string, Value>, keys: set<string>, elem: Type)
    requires forall k :: k in entries ==> InSlot(entries[k], TAny)
    ensures forall k :: k in KeptEntries(entries, keys, elem) ==> InSlot(KeptEntries(entries, keys, elem)[k], elem)
  {
    forall k | k in KeptEntries(entries, keys, elem)
      ensures InSlot(KeptEntries(entries, keys, elem)[k], elem)
    {
      AssignInSlot(entries[k], entries[k].dynType, elem);
    }
  }

  /** The elements converted so far, as a prefix of the whole conversion. */
  ghost predicate ItemsSoFar(ext: Externals, elem: Type, v: Value, done: seq<Value>)
    requires v.Val? && Under(v.dynType).TSlice? && |done| <= |Items(v)|
  {
    var (status, rest) := ConvertedItems(ext, elem, v, |done|);
    ConvertedItems(ext, elem, v, 0) == (status, done + rest)
  }

  lemma NoItemsYet(ext: Externals, elem: Type, v: Value)
    requires v.Val? && Under(v.dynType).TSlice?
    ensures ItemsSoFar(ext, elem, v, [])
  {
    var slots := ConvertedItems(ext, elem, v, 0).1;
    assert [] + slots == slots;
  }

  lemma OneMoreItem(ext: Externals, elem: Type, v: Value, done: seq<Value>)
    requires v.Val? && Under(v.dynType).TSlice? && |done| < |Items(v)| && ItemsSoFar(ext, elem, v, done)
    ensures var r := ConvertedItem(ext, Under(v.dynType).elem, elem, Items(v)[|done|]);
            if r.status.Ok? then ItemsSoFar(ext, elem, v, done + [r.slot])
            else ConvertedItems(ext, elem, v, 0).0 == r.status
  {
    var r := ConvertedItem(ext, Under(v.dynType).elem, elem, Items(v)[|done|]);
    if r.status.Ok? {
      var rest := ConvertedItems(ext, elem, v, |done| + 1).1;
      assert done + ([r.slot] + rest) == done + [r.slot] + rest;
    }
  }

  method ConvertSlice(ext: Externals, t: Type, a: array<Value>, i: nat, v: Value) returns (status: Status)
    requires Under(t).TSlice? && ext.Sound() && InSlot(v, TAny) && i < a.Length && InSlot(a[i], t)
    modifies a
    ensures a[..] == old(a[..])[i := a[i]]
    ensures InSlot(a[i], t) && LengthKept(t, v, status, a[i])
    ensures !status.Ok? ==> a[i] == old(a[i])
    ensures SettledItems(Under(t).elem, v) ==> Outcome(status, a[i]) == ConvertedSlice(ext, t, old(a[i]), v)
    decreases v, 2
  {
    if v.Nil? || !Under(v.dynType).TSlice? {
      return Err;
    }
    var elem := Under(t).elem;
    var newSlice := new Value[|Items(v)|](_ => Zero(elem));
    status := ConvertElements(ext, elem, newSlice, v);
    if status.Ok? {
      a[i] := Val(t, CList(newSlice[..]));
    }
  }

  /** The loop of convertSlice. */
  method ConvertElements(ext: Externals, elem: Type, newSlice: array<Value>, v: Value) returns (status: Status)
    requires ext.Sound() && InSlot(v, TAny) && v.Val? && Under(v.dynType).TSlice?
    requires newSlice.Length == |Items(v)| && forall j :: 0 <= j < |Items(v)| ==> newSlice[j] == Zero(elem)
    modifies newSlice
    ensures status.Ok? ==> forall j :: 0 <= j < newSlice.Length ==> InSlot(newSlice[j], elem)
    ensures SettledItems(elem, v) ==>
              var r := ConvertedItems(ext, elem, v, 0);
              status == r.0 && (status.Ok? ==> newSlice[..] == r.1)
    decreases v, 1
  {
    var items := Items(v);
    NoItemsYet(ext, elem, v);
    assert newSlice[..0] == [];
    for k := 0 to |items|
      invariant forall j :: 0 <= j < k ==> InSlot(newSlice[j], elem)
      invariant forall j :: k <= j < |items| ==> newSlice[j] == Zero(elem)
      invariant SettledItems(elem, v) ==> ItemsSoFar(ext, elem, v, newSlice[..k])
    {
      if SettledItems(elem, v) {
        OneMoreItem(ext, elem, v, newSlice[..k]);
      }
      ghost var done := newSlice[..k];
      status := ConvertItem(ext, Under(v.dynType).elem, elem, newSlice, k, items[k]);
      if !status.Ok? {
        return;
      }
      assert newSlice[..k + 1] == done + [newSlice[k]];
    }
    assert newSlice[..|items|] == newSlice[..];
    return Ok;
  }

  method ConvertItem(ext: Externals, from: Type, to: Type, newSlice: array<Value>, k: nat, x: Value)
    returns (status: Status)
    requires ext.Sound() && InSlot(x, from) && k < newSlice.Length && newSlice[k] == Zero(to)
    modifies newSlice
    ensures newSlice[..] == old(newSlice[..])[k := newSlice[k]]
    ensures InSlot(newSlice[k], to)
    ensures SettledItem(from, to, x) ==>
              var r := ConvertedItem(ext, from, to, x);
              status == r.status && (status.Ok? ==> newSlice[k] == r.slot)
    decreases x, 4, 1
  {
    ZeroInSlot(to);
    HeldInAny(x, from);
    if Assignable(from, to) {
      AssignInSlot(x, from, to);
      newSlice[k] := Assign(x, to);
      return Ok;
    }
    if !Under(to).TStruct? {
      status := SetFieldValue(ext, to, newSlice, k, x);
    } else {
      var newElem;
      status, newElem := NewStruct(ext, to, x);
      if status.Ok? {
        newSlice[k] := newElem;
      }
    }
  }

  /** A struct element, made in a fresh variable. */
  method NewStruct(ext: Externals, to: Type, x: Value) returns (status: Status, newElem: Value)
    requires ext.Sound() && InSlot(x, TAny) && Under(to).TStruct?
    ensures status.Ok? ==> InSlot(newElem, to)
    ensures var fromMap := x.Val? && x.dynType == ANY_MAP;
            (if fromMap then SettledFields(Under(to).fields, x) else Settled(to, x)) ==>
              var r := if fromMap then Filled(ext, to, Zero(to), x) else SetField(ext, to, Zero(to), x);
              status == r.status && (status.Ok? ==> newElem == r.slot)
    decreases x, 4, 0
  {
    ZeroInSlot(to);
    UnderFacts(to);
    if x.Val? && x.dynType == ANY_MAP {
      var fields, zeros := Under(to).fields, Zero(to).content.slots;
      var slots := new Value[|fields|](j requires 0 <= j < |fields| => zeros[j]);
      assert slots[..] == zeros;
      status := MapToStruct(ext, fields, slots, x);
      newElem := Val(to, CFields(slots[..]));
    } else {
      var slot := new Value[1](_ => Zero(to));
      status := SetFieldValue(ext, to, slot, 0, x);
      newElem := slot[0];
    }
  }

  /** A field the map has anything for. */
  ghost predicate Reached(field: Field, v: Value) {
    field.exported && Supplied(Entries(v), FieldName(field))
  }

  method MapToStruct(ext: Externals, fields: seq<Field>, a: array<Value>, v: Value) returns (status: Status)
    requires ext.Sound() && InSlot(v, TAny) && v.Val? && v.dynType == ANY_MAP && Typed(fields, a[..])
    modifies a
    ensures Typed(fields, a[..])
    ensures forall j :: 0 <= j < a.Length && !Reached(fields[j], v) ==> a[j] == old(a[j])
    ensures SettledFields(fields, v) ==> (status, a[..]) == FilledFrom(ext, fields, old(a[..]), v, 0)
    decreases v, 2
  {
    for i := 0 to |fields|
      invariant Typed(fields, a[..])
      invariant forall j :: 0 <= j < a.Length && !Reached(fields[j], v) ==> a[j] == old(a[j])
      invariant SettledFields(fields, v) ==>
                  FilledFrom(ext, fields, old(a[..]), v, 0) == FilledFrom(ext, fields, a[..], v, i)
    {
      ghost var before := a[..];
      status := FillField(ext, fields[i], a, i, v);
      assert a[..] == before[i := a[i]];
      if !status.Ok? {
        return;
      }
    }
    return Ok;
  }

  /** One turn of the loop in mapToStruct. */
  method FillField(ext: Externals, field: Field, a: array<Value>, i: nat, v: Value) returns (status: Status)
    requires ext.Sound() && InSlot(v, TAny) && v.Val? && v.dynType == ANY_MAP
    requires i < a.Length && InSlot(a[i], field.fieldType)
    modifies a
    ensures a[..] == old(a[..])[i := a[i]]
    ensures InSlot(a[i], field.fieldType)
    ensures !Reached(field, v) ==> status == Ok && a[i] == old(a[i])
    ensures SettledField(field, v) ==> Outcome(status, a[i]) == FilledField(ext, field, old(a[i]), v)
    decreases v, 0
  {
    FoldEquivalence(FieldName(field), FieldName(field), FieldName(field));
    if !field.exported {
      return Ok;
    }
    var key := FindKey(Entries(v), FieldName(field));
    if OneAnswer(Entries(v), FieldName(field)) {
      LookupDeterministic(Entries(v), FieldName(field), key);
    }
    if key.None? {
      return Ok;
    }
    RequiredFieldIsFound(Entries(v), FieldName(field), field, key);
    status := SetFieldValue(ext, field.fieldType, a, i, v.content.entries[key.value]);
  }

  // ---------------------------------------------------------------------------------------
  // Parameters with required names
  // ---------------------------------------------------------------------------------------

  ghost predicate Supplied(raw: map<string, Value>, name: string) {
    exists key :: key in raw && FoldEqual(key, name)
  }

  ghost predicate AllSupplied(raw: map<string, Value>, required: seq<string>) {
    forall i :: 0 <= i < |required| ==> Supplied(raw, required[i])
  }

  /** A field whose name is a supplied one, up to case, is found, whichever answer the lookup gives. */
  lemma RequiredFieldIsFound(raw: map<string, Value>, name: string, field: Field, r: Option<string>)
    requires FoldEqual(FieldName(field), name) && IsLookup(raw, FieldName(field), r)
    ensures r.Some? <==> Supplied(raw, name)
  {
    if Supplied(raw, name) {
      var key :| key in raw && FoldEqual(key, name);
      FoldEquivalence(FieldName(field), name, key);
      FoldEquivalence(key, name, FieldName(field));
    }
    if r.Some? {
      FoldEquivalence(FieldName(field), FieldName(field), FieldName(field));
      FoldEquivalence(r.value, FieldName(field), name);
      assert r.value in raw && FoldEqual(r.value, name);
    }
  }

  method CheckRequired(raw: map<string, Value>, required: seq<string>) returns (complete: bool)
    ensures complete <==> AllSupplied(raw, required)
  {
    for i := 0 to |required|
      invariant forall j :: 0 <= j < i ==> Supplied(raw, required[j])
    {
      var found := false;
      var unseen := raw.Keys;
      while unseen != {} && !found
        invariant unseen <= raw.Keys
        invariant found ==> Supplied(raw, required[i])
        invariant !found ==> forall key :: key in raw && key !in unseen ==> !FoldEqual(key, required[i])
        decreases unseen, !found
      {
        var key :| key in unseen;
        found := EqualFold(key, required[i]);
        unseen := unseen - {key};
      }
      if !found {
        assert !Supplied(raw, required[i]);
        return false;
      }
    }
    return true;
  }

  /** The map that ValidateAndParseParams checks, if the parameters have one. */
  function RawOf(ext: Externals, params: Value): Option<map<string, Value>> {
    if params.Val? && params.dynType == ANY_MAP then Some(Entries(params)) else
    match ext.text(params)
    case None => None
    case Some(text) =>
      var (decoded, raw) := ext.decode(text, ANY_MAP, Val(ANY_MAP, CNull));
      if decoded then Some(Entries(raw)) else None
  }

  /** What decoding JSON text into a struct comes to, `before` and `after` being its fields. When
      decoding fails, what it left behind is the start for the field-wise filling. */
  ghost predicate Unmarshalled(ext: Externals, text: Json, t: Type, before: seq<Value>, status: Status,
                               after: seq<Value>)
    requires Under(t).TStruct?
  {
    var (decoded, left) := ext.decode(text, t, Val(t, CFields(before)));
    var (isMap, raw) := ext.decode(text, ANY_MAP, Val(ANY_MAP, CNull));
    && left.Val? && left.content.CFields? && |left.content.slots| == |Under(t).fields|
    && if decoded then status == Ok && after == left.content.slots
       else if !isMap then status == Err && after == left.content.slots
       else SettledFields(Under(t).fields, raw) ==>
           (status, after) == FilledFrom(ext, Under(t).fields, left.content.slots, raw, 0)
  }

  /** What parsing parameters into a struct comes to. */
  ghost predicate Parsed(ext: Externals, params: Value, t: Type, before: seq<Value>, status: Status, after: seq<Value>)
    requires Under(t).TStruct? && |before| == |Under(t).fields|
  {
    if params.Nil? then status == Ok && after == before
    else if params.dynType == ANY_MAP then
      SettledFields(Under(t).fields, params) ==> (status, after) == FilledFrom(ext, Under(t).fields, before, params, 0)
    else match ext.text(params)
      case None => status == Err && after == before
      case Some(text) => Unmarshalled(ext, text, t, before, status, after)
  }

  /** The cells a hold the fields of a struct variable of type t. */
  method ValidateAndParseParams(ext: Externals, t: Type, a: array<Value>, params: Value, required: seq<string>)
    returns (status: Status)
    requires ext.Sound() && InSlot(params, TAny) && Under(t).TStruct? && Typed(Under(t).fields, a[..])
    modifies a
    ensures Typed(Under(t).fields, a[..])
    ensures var raw := if params.Nil? then Some(map[]) else RawOf(ext, params);
            if raw.Some? && AllSupplied(raw.value, required) then Parsed(ext, params, t, old(a[..]), status, a[..])
            else status == Err && a[..] == old(a[..])
  {
    if params.Nil? {
      assert |required| > 0 ==> !Supplied(map[], required[0]);
      return if |required| > 0 then Err else Ok;
    }
    var raw := RawOf(ext, params);
    if raw.None? {
      return Err;
    }
    var complete := CheckRequired(raw.value, required);
    if !complete {
      return Err;
    }
    status := FlexibleParseParams(ext, t, a, params);
  }

  method FlexibleParseParams(ext: Externals, t: Type, a: array<Value>, params: Value) returns (status: Status)
    requires ext.Sound() && InSlot(params, TAny) && Under(t).TStruct? && Typed(Under(t).fields, a[..])
    modifies a
    ensures Typed(Under(t).fields, a[..])
    ensures Parsed(ext, params, t, old(a[..]), status, a[..])
  {
    if params.Nil? {
      return Ok;
    }
    if params.dynType == ANY_MAP {
      status := MapToStruct(ext, Under(t).fields, a, params);
      return;
    }
    var text := ext.text(params);
    if text.None? {
      return Err;
    }
    status := FlexibleUnmarshal(ext, text.value, t, a);
  }

  method FlexibleUnmarshal(ext: Externals, text: Json, t: Type, a: array<Value>) returns (status: Status)
    requires ext.Sound() && Under(t).TStruct? && Typed(Under(t).fields, a[..])
    modifies a
    ensures Typed(Under(t).fields, a[..])
    ensures Unmarshalled(ext, text, t, old(a[..]), status, a[..])
  {
    UnderFacts(t);
    var before := Val(t, CFields(a[..]));
    assert InSlot(before, t);
    var (decoded, left) := ext.decode(text, t, before);
    assert InSlot(left, t);
    forall i | 0 <= i < a.Length { a[i] := left.content.slots[i]; }
    assert a[..] == left.content.slots;
    if decoded {
      return Ok;
    }
    assert InSlot(Val(ANY_MAP, CNull), ANY_MAP);
    var (isMap, raw) := ext.decode(text, ANY_MAP, Val(ANY_MAP, CNull));
    assert InSlot(raw, ANY_MAP);
    if !isMap {
      return Err;
    }
    HeldInAny(raw, ANY_MAP);
    status := MapToStruct(ext, Under(t).fields, a, raw);
  }
}
