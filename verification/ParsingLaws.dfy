/** What flexible parsing comes to, case by case and spelled out: names, numbers, limits, elements. */
module ParsingLaws {
  import opened Wrappers
  import opened FlexibleParsing

  // ---------------------------------------------------------------------------------------
  // Which name a field is looked up by
  // ---------------------------------------------------------------------------------------

  lemma {:induction false} TagUpToComma(n: string, opts: string)
    requires ',' !in n
    ensures UpToComma(n) == n && UpToComma(n + "," + opts) == n
  {
    if n != "" {
      TagUpToComma(n[1..], opts);
      assert (n + "," + opts)[1..] == n[1..] + "," + opts;
      assert [n[0]] + n[1..] == n;
    }
  }

  /** What a map of one entry does to a field that is looked up by a name. */
  lemma OneEntry(ext: Externals, f: Field, cur: Value, k: string, x: Value)
    requires f.exported
    ensures FilledField(ext, f, cur, Val(ANY_MAP, CMap(map[k := x]))) ==
            if FoldEqual(k, FieldName(f)) then SetField(ext, f.fieldType, cur, x) else Outcome(Ok, cur)
  {
    FoldEquivalence(k, k, k);
    assert Entries(Val(ANY_MAP, CMap(map[k := x]))) == map[k := x];
    assert k in map[k := x];
  }

  /** A field with a json tag is set from the key that folds to the tag's name, options or not, and
      from no other. */
  lemma FieldReadsItsTag(ext: Externals, f: Field, n: string, opts: string, cur: Value, k: string, x: Value)
    requires f.exported && ',' !in n && (f.tag == n || f.tag == n + "," + opts) && f.tag != "" && f.tag != "-"
    ensures FilledField(ext, f, cur, Val(ANY_MAP, CMap(map[k := x]))) ==
            if FoldEqual(k, n) then SetField(ext, f.fieldType, cur, x) else Outcome(Ok, cur)
  {
    TagUpToComma(n, opts);
    OneEntry(ext, f, cur, k, x);
  }

  /** A field without one, or with a dash for it, is set from the key that folds to its Go name. */
  lemma UntaggedFieldReadsItsName(ext: Externals, f: Field, cur: Value, k: string, x: Value)
    requires f.exported && (f.tag == "" || f.tag == "-")
    ensures FilledField(ext, f, cur, Val(ANY_MAP, CMap(map[k := x]))) ==
            if FoldEqual(k, f.name) then SetField(ext, f.fieldType, cur, x) else Outcome(Ok, cur)
  {
    OneEntry(ext, f, cur, k, x);
  }

  /** Of keys that differ in case only, the one spelled exactly like the name wins. */
  lemma ExactKeyWins(ext: Externals, f: Field, n: string, cur: Value, x: Value, k: string, y: Value)
    requires f.exported && ',' !in n && f.tag == n && n != "" && n != "-" && k != n
    ensures FilledField(ext, f, cur, Val(ANY_MAP, CMap(map[n := x, k := y]))) == SetField(ext, f.fieldType, cur, x)
  {
    TagUpToComma(n, "");
    assert n in map[n := x, k := y];
  }

  lemma UnexportedStays(ext: Externals, f: Field, cur: Value, v: Value)
    requires !f.exported
    ensures FilledField(ext, f, cur, v) == Outcome(Ok, cur)
  {}

  // ---------------------------------------------------------------------------------------
  // Numbers
  // ---------------------------------------------------------------------------------------

  lemma RangesSpelledOut(i: int)
    ensures InRange(TInt(W8), i) <==> -128 <= i <= 127
    ensures InRange(TInt(W16), i) <==> -32768 <= i <= 32767
    ensures InRange(TInt(W32), i) <==> -2147483648 <= i <= 2147483647
    ensures InRange(TInt(W64), i) <==> -9223372036854775808 <= i <= 9223372036854775807
    ensures InRange(TInt(Word), i) <==> -9223372036854775808 <= i <= 9223372036854775807
    ensures InRange(TUint(W8), i) <==> 0 <= i <= 255
    ensures InRange(TUint(W16), i) <==> 0 <= i <= 65535
    ensures InRange(TUint(W32), i) <==> 0 <= i <= 4294967295
    ensures InRange(TUint(W64), i) <==> 0 <= i <= 18446744073709551615
    ensures InRange(TUint(Word), i) <==> 0 <= i <= 18446744073709551615
  {}

  lemma EveryRange(t: Type, i: int)
    requires (t.TInt? || t.TUint?) && InRange(t, i)
    ensures t.TInt? ==> -9223372036854775808 <= i <= 9223372036854775807
    ensures t.TUint? ==> 0 <= i <= 18446744073709551615
  {
    RangesSpelledOut(i);
    match t.width case Word => case W8 => case W16 => case W32 => case W64 =>
  }

  /** A float that holds an integer the declared type has arrives as that integer. */
  lemma WholeFloatArrives(ext: Externals, t: Type, cur: Value, bits: nat, i: int)
    requires (Under(t).TInt? || Under(t).TUint?) && InRange(Under(t), i)
    ensures SetField(ext, t, cur, Val(TFloat(bits), CReal(i as real))) == Outcome(Ok, Val(t, CInt(i)))
  {
    var r := i as real;
    EveryRange(Under(t), i);
    StoredFacts(Under(t), i);
    assert r.Floor == i && (-r).Floor == -i;
  }

  /** Any other float in the range of a 64-bit integer loses its fraction, towards zero. */
  lemma FractionDropped(ext: Externals, t: Type, cur: Value, bits: nat, r: real)
    requires (t == TInt(W64) || t == TInt(Word)) && -9223372036854775808.0 < r < 9223372036854775807.0
    ensures var o := SetField(ext, t, cur, Val(TFloat(bits), CReal(r)));
            && o.status == Ok && o.slot.Val? && o.slot.content.CInt?
            && var i := o.slot.content.i;
               && (r >= 0.0 ==> i as real <= r < i as real + 1.0)
               && (r <= 0.0 ==> i as real - 1.0 < r <= i as real)
  {
    var i := if r >= 0.0 then r.Floor else -(-r).Floor;
    RangesSpelledOut(i);
    StoredFacts(t, i);
  }

  /** An integer that does not fit keeps its low bits: it is off by a multiple of the type's size. */
  lemma LowBitsKept(w: Width, i: int)
    ensures var signed, unsigned := Stored(TInt(w), i), Stored(TUint(w), i);
            && (w == W8 ==> -128 <= signed <= 127 && i == signed + 256 * ((i + 128) / 256)
                            && 0 <= unsigned <= 255 && i == unsigned + 256 * (i / 256))
            && (w == W16 ==> -32768 <= signed <= 32767 && i == signed + 65536 * ((i + 32768) / 65536)
                             && 0 <= unsigned <= 65535 && i == unsigned + 65536 * (i / 65536))
            && (w == W32 ==> -2147483648 <= signed <= 2147483647
                             && i == signed + 4294967296 * ((i + 2147483648) / 4294967296)
                             && 0 <= unsigned <= 4294967295 && i == unsigned + 4294967296 * (i / 4294967296))
  {
    match w case Word => case W8 => case W16 => case W32 => case W64 =>
  }

  /** A negative number is refused by an unsigned type. */
  lemma NegativeRefused(ext: Externals, t: Type, cur: Value, v: Value)
    requires Under(t).TUint? && v.Val?
    requires (v.dynType.TInt? && v.content.CInt? && v.content.i < 0)
          || (v.dynType.TFloat? && v.content.CReal? && v.content.r < 0.0)
    ensures SetField(ext, t, cur, v) == Outcome(Err, cur)
  {}

  /** An unsigned number too large for 64 signed bits is refused by every signed type. */
  lemma TooLargeRefused(ext: Externals, t: Type, cur: Value, w: Width, i: int)
    requires Under(t).TInt? && i > 9223372036854775807
    ensures SetField(ext, t, cur, Val(TUint(w), CInt(i))) == Outcome(Err, cur)
  {}

  /** Numbers become floats by rounding to 64 bits and then to the declared width, which a float of
      another width needs only. */
  lemma NumberBecomesFloat(ext: Externals, bits: nat, cur: Value, v: Value)
    requires v.Val? && v.dynType != TFloat(bits)
    ensures (v.dynType.TInt? || v.dynType.TUint?) && v.content.CInt? ==>
              SetField(ext, TFloat(bits), cur, v)
              == Outcome(Ok, Val(TFloat(bits), CReal(ext.round(bits, ext.round(64, v.content.i as real)))))
    ensures v.dynType.TFloat? && v.content.CReal? ==>
              SetField(ext, TFloat(bits), cur, v)
              == Outcome(Ok, Val(TFloat(bits), CReal(ext.round(bits, v.content.r))))
  {}

  /** Nothing but numbers becomes a number, and nothing but true and false a bool. */
  lemma TextIsNoNumber(ext: Externals, t: Type, cur: Value, v: Value)
    requires v.Val? && (v.dynType == TString || v.dynType == TBool)
    ensures Under(t).TInt? || Under(t).TUint? || Under(t).TFloat? ==> SetField(ext, t, cur, v) == Outcome(Err, cur)
    ensures Under(t).TBool? && v.dynType == TString ==> SetField(ext, t, cur, v) == Outcome(Err, cur)
    ensures Under(t).TBool? && v.dynType == TBool && v.content.CBool? ==>
              SetField(ext, t, cur, v) == Outcome(Ok, Val(t, v.content))
  {}

  // ---------------------------------------------------------------------------------------
  // Text and sizes
  // ---------------------------------------------------------------------------------------

  /** A type defined as string takes texts up to ten megabytes, and what is not text as the text it
      prints as. */
  lemma DefinedStringTakes(ext: Externals, name: string, cur: Value, v: Value)
    requires v.Val? && v.dynType != TDefined(name, TString)
    requires v.dynType == TString ==> v.content.CString?
    requires !v.dynType.TDefined?
    ensures var s := if v.dynType == TString then v.content.s else ext.sprint(v);
            SetField(ext, TDefined(name, TString), cur, v) ==
            if |s| > 10485760 then Outcome(Err, cur) else Outcome(Ok, Val(TDefined(name, TString), CString(s)))
  {
    assert Under(TString) == TString;
  }

  /** A slice of another type is refused above 100000 elements, and for that alone at none. */
  lemma SliceLimit(ext: Externals, elem: Type, cur: Value, from: Type, items: seq<Value>)
    requires from != elem
    ensures var r := SetField(ext, TSlice(elem), cur, Val(TSlice(from), CList(items)));
            && (|items| > 100000 ==> r == Outcome(Err, cur))
            && (|items| <= 100000 ==> r == ConvertedSlice(ext, TSlice(elem), cur, Val(TSlice(from), CList(items))))
  {}

  /** A map is refused above 50000 entries; otherwise its entries arrive one by one: those the element
      type can be assigned, unless one is nil. */
  lemma MapEntryByEntry(ext: Externals, elem: Type, cur: Value, entries: map<string, Value>)
    requires elem != TAny
    ensures var r := SetField(ext, TMap(TString, elem), cur, Val(ANY_MAP, CMap(entries)));
            && (|entries| > 50000 ==> r == Outcome(Err, cur))
            && (|entries| <= 50000 && (exists k :: k in entries && entries[k] == Nil) ==> r == Outcome(Panic, cur))
            && (|entries| <= 50000 && (forall k :: k in entries ==> entries[k].Val?) ==>
                  && r.status == Ok && r.slot.Val? && r.slot.dynType == TMap(TString, elem) && r.slot.content.CMap?
                  && (forall k :: k in r.slot.content.entries <==>
                                  k in entries && Assignable(entries[k].dynType, elem))
                  && (!Under(elem).TAny? ==>
                        forall k :: k in r.slot.content.entries ==>
                          r.slot.content.entries[k] == Val(elem, entries[k].content)))
  {
    var v := Val(ANY_MAP, CMap(entries));
    assert Entries(v) == entries;
    if forall k :: k in entries ==> entries[k].Val? {
      forall k ensures k in KeptEntries(entries, entries.Keys, elem) <==>
                       k in entries && Assignable(entries[k].dynType, elem) {}
    }
  }

  /** Only a map[string]interface{} becomes a map of another type, and one with other keys stays
      empty; only a slice becomes a slice, and a nil one an empty one. */
  lemma WrongKindsRefused(ext: Externals, key: Type, elem: Type, cur: Value, v: Value, entries: map<string, Value>)
    requires v.Val? && v.content.CString? && v.dynType == TString
    ensures SetField(ext, TMap(key, elem), cur, v) == Outcome(Err, cur)
    ensures SetField(ext, TSlice(elem), cur, v) == Outcome(Err, cur)
    ensures elem != TString ==>
              SetField(ext, TSlice(elem), cur, Val(TSlice(TString), CNull)) == Outcome(Ok, Val(TSlice(elem), CList([])))
    ensures key.TInt? && |entries| <= 50000 ==>
              SetField(ext, TMap(key, elem), cur, Val(ANY_MAP, CMap(entries)))
              == Outcome(Ok, Val(TMap(key, elem), CMap(map[])))
  {
    assert Under(TString) == TString;
  }

  /** A struct field, even from a map, and any other kind go by way of JSON. */
  lemma OtherKindsByJson(ext: Externals, t: Type, cur: Value, v: Value)
    requires v.Val? && (t.TStruct? || t.TOther?) && v.dynType != t && !v.dynType.TDefined?
    requires t.TStruct? ==> v.dynType == ANY_MAP || Named(v.dynType)
    requires t.TOther? ==> v.dynType != t
    ensures SetField(ext, t, cur, v) ==
            match ext.json(t, v) case Some(w) => Outcome(Ok, w) case None => Outcome(Err, cur)
  {
    assert Under(v.dynType) == v.dynType;
  }

  // ---------------------------------------------------------------------------------------
  // Assignability, elements and structs
  // ---------------------------------------------------------------------------------------

  /** Identical types, anything to the empty interface, and a defined type from or to the unnamed type
      it is defined as; not one defined type to another, nor a basic one to a type defined as it. */
  lemma AssignableSpelledOut(t: Type, elem: Type, n: string, m: string)
    ensures Assignable(t, t) && Assignable(t, TAny)
    ensures Assignable(TSlice(elem), TDefined(n, TSlice(elem))) && Assignable(TDefined(n, TSlice(elem)), TSlice(elem))
    ensures Assignable(ANY_MAP, TDefined(n, ANY_MAP)) && Assignable(TDefined(n, ANY_MAP), ANY_MAP)
    ensures n != m ==> !Assignable(TDefined(n, TSlice(elem)), TDefined(m, TSlice(elem)))
    ensures !Assignable(TString, TDefined(n, TString)) && !Assignable(TDefined(n, TString), TString)
    ensures !Assignable(TInt(W32), TInt(W64)) && !Assignable(TString, TInt(W64)) && !Assignable(TAny, TString)
    ensures elem != TAny ==> !Assignable(TSlice(TAny), TSlice(elem))
  {
    assert Under(TString) == TString && Under(TSlice(elem)) == TSlice(elem) && Under(ANY_MAP) == ANY_MAP;
  }

  /** An assignable value arrives as it is, without any limit; nil leaves a variable alone. */
  lemma AssignedAsIs(ext: Externals, t: Type, cur: Value, content: Content)
    requires !Under(t).TAny?
    ensures SetField(ext, t, cur, Val(t, content)) == Outcome(Ok, Val(t, content))
    ensures SetField(ext, TAny, cur, Val(t, content)) == Outcome(Ok, Val(t, content))
    ensures SetField(ext, t, cur, Nil) == Outcome(Ok, cur)
  {}

  lemma ZerosSpelledOut(t: Type, fields: seq<Field>, k: nat)
    requires k < |fields|
    ensures Zero(TString).content == CString("") && Zero(TBool).content == CBool(false)
    ensures t.TInt? || t.TUint? ==> Zero(t).content == CInt(0)
    ensures t.TFloat? ==> Zero(t).content == CReal(0.0)
    ensures t.TMap? || t.TSlice? ==> Zero(t).content == CNull
    ensures Zero(TStruct(fields)).content.slots[k] == Zero(fields[k].fieldType)
  {}

  /** Elements of []interface{}: nil leaves the zero value, a map fills a struct field by field, and
      anything else is converted like a field. */
  lemma ElementSpelledOut(ext: Externals, to: Type, x: Value, entries: map<string, Value>)
    requires !Under(to).TAny?
    ensures ConvertedItem(ext, TAny, to, Nil) == Outcome(Ok, Zero(to))
    ensures Under(to).TStruct? ==>
              ConvertedItem(ext, TAny, to, Val(ANY_MAP, CMap(entries)))
              == var (status, slots) :=
                   FilledFrom(ext, Under(to).fields, Zero(to).content.slots, Val(ANY_MAP, CMap(entries)), 0);
                 Outcome(status, Val(to, CFields(slots)))
    ensures !Under(to).TStruct? ==> ConvertedItem(ext, TAny, to, x) == SetField(ext, to, Zero(to), x)
  {
    AnyIsAssignableToAnyOnly(to);
  }

  lemma AnyIsAssignableToAnyOnly(to: Type)
    requires !Under(to).TAny?
    ensures !Assignable(TAny, to)
  {}

  /** A struct that cannot be filled keeps the fields set before the first that fails, and from that
      one on what it had. */
  lemma {:induction false} FailsAtFirst(ext: Externals, fields: seq<Field>, slots: seq<Value>, v: Value, i: nat, j: nat)
    requires i <= j < |fields| == |slots|
    requires !FieldFits(ext, fields, slots, v, j) && forall k :: i <= k < j ==> FieldFits(ext, fields, slots, v, k)
    ensures var (status, filled) := FilledFrom(ext, fields, slots, v, i);
            && status == FilledField(ext, fields[j], slots[j], v).status
            && (forall k :: i <= k <= j ==> FieldArrives(ext, fields, slots, v, filled, k))
            && filled[j + 1..] == slots[j + 1..]
    decreases j - i
  {
    var next := slots[i := FilledField(ext, fields[i], slots[i], v).slot];
    var filled := FilledFrom(ext, fields, slots, v, i).1;
    if i == j {
      assert filled == next;
    } else {
      assert FieldFits(ext, fields, slots, v, i);
      assert forall k :: i < k < |fields| ==> next[k] == slots[k];
      forall k | i < k < |fields|
        ensures FieldFits(ext, fields, next, v, k) <==> FieldFits(ext, fields, slots, v, k)
        ensures FieldArrives(ext, fields, next, v, filled, k) <==> FieldArrives(ext, fields, slots, v, filled, k)
      {}
      FailsAtFirst(ext, fields, next, v, i + 1, j);
      EarlierFieldsStay(ext, fields, next, v, i + 1);
      assert filled[i] == filled[..i + 1][i] == next[i];
      assert next[j + 1..] == slots[j + 1..];
    }
  }
}
