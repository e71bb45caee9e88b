/**
 * The scenarios of the type-generation test suite, stated as lemmas over
 * the model. String values the scenarios take from shared fixtures
 * (addresses, amounts, denominations, type URLs) are parameters: only their
 * JSON kind matters, and the MsgSend type URL only needs to end in `MsgSend`.
 */
module CreateTypesCases {
  import opened Strings
  import opened Outcomes
  import opened JsonValues
  import opened KeySort
  import opened Eip712Schema
  import opened TypeRegistry
  import opened MessageTypes
  import opened PayloadTypes

  lemma MsgFieldsDistinct(n: nat)
    ensures forall i :: 0 <= i < n ==> MsgField(i) != MsgField(n)
  {
    forall i | 0 <= i < n ensures MsgField(i) != MsgField(n) {
      if MsgField(i) == MsgField(n) {
        MsgFieldInjective(i, n);
      }
    }
  }

  /** The payload the suite builds: message `i` stored under `msg<i>`. */
  function PayloadOf(msgs: seq<Json>): (p: map<string, Json>)
    ensures forall i :: 0 <= i < |msgs| ==> MsgField(i) in p && p[MsgField(i)] == msgs[i]
  {
    if |msgs| == 0 then map[]
    else
      MsgFieldsDistinct(|msgs| - 1);
      PayloadOf(msgs[..|msgs| - 1])[MsgField(|msgs| - 1) := msgs[|msgs| - 1]]
  }

  // The MsgSend fixture.

  function AmountEntries(amount: Json, denom: string): seq<Entry> {
    [("amount", amount), ("denom", JStr(denom))]
  }

  function ValueEntries(addr: string, amountObj: Json): seq<Entry> {
    [("recipient", JStr(addr)), ("amount", amountObj)]
  }

  function MessageEntries(typeUrl: string, valueObj: Json): seq<Entry> {
    [("type", JStr(typeUrl)), ("value", valueObj)]
  }

  function MsgSendWith(typeUrl: string, addr: string, amount: Json, denom: string): Json {
    JObj(MessageEntries(typeUrl, JObj(ValueEntries(addr, JObj(AmountEntries(amount, denom))))))
  }

  function MsgSend(typeUrl: string, addr: string, amount: string, denom: string): Json {
    MsgSendWith(typeUrl, addr, JStr(amount), denom)
  }

  const AmountFields := [Field("amount", "string"), Field("denom", "string")]
  const ValueFields := [Field("amount", "TypeValueAmount0"), Field("recipient", "string")]
  const MsgSendFields := [Field("type", "string"), Field("value", "TypeValue0")]

  /** The three types a single MsgSend registers. */
  function MsgSendTypes(): Types {
    map["TypeMsgSend0" := MsgSendFields, "TypeValue0" := ValueFields, "TypeValueAmount0" := AmountFields]
  }

  /** The `amount` object of a MsgSend: two leaves, `amount` before `denom`. */
  lemma AmountStruct(types: Types, path: string, amount: Json, denom: string, max: nat)
    requires amount.JStr? || amount.JNum?
    ensures TypeOfValue(types, path, JObj(AmountEntries(amount, denom)), max)
            == Register(types, path, [Field("amount", if amount.JStr? then StringType else Int64Type),
                                      Field("denom", StringType)], max)
  {
    assert LexLess("amount", "denom");
    PairFlat(types, path, path, ("amount", amount), ("denom", JStr(denom)), max);
  }

  /** The `value` object of a MsgSend: `amount` first, then `recipient`. */
  lemma ValueStruct(types: Types, path: string, addr: string, amountObj: Json, max: nat)
    ensures var inner := TypeOfValue(types, path + Capitalize("amount"), amountObj, max);
            TypeOfValue(types, path, JObj(ValueEntries(addr, amountObj)), max)
              == if inner.Err? then Err(inner.error)
                 else Register(inner.value.1, path, [Field("amount", inner.value.0), Field("recipient", StringType)], max)
  {
    assert LexLess("amount", "recipient");
    PairFlatSecond(types, path, path, ("amount", amountObj), ("recipient", JStr(addr)), max);
  }

  /** A two-entry object in key order whose entries are both flat. */
  lemma PairFlat(types: Types, base: string, path: string, a: Entry, b: Entry, max: nat)
    requires LexLess(a.0, b.0) && Flat(a.1) && Flat(b.1)
    ensures BuildStruct(types, base, path, [a, b], max)
            == Register(types, base, [Field(a.0, FlatType(a.1)), Field(b.0, FlatType(b.1))], max)
  {
    PairStruct(types, base, path, a, b, max);
    FlatTypeOf(types, path + Capitalize(a.0), a.1, max);
    FlatTypeOf(types, path + Capitalize(b.0), b.1, max);
  }

  /** A two-entry object in key order whose first entry is flat. */
  lemma PairFlatFirst(types: Types, base: string, path: string, a: Entry, b: Entry, max: nat)
    requires LexLess(a.0, b.0) && Flat(a.1)
    ensures var h1 := TypeOfValue(types, path + Capitalize(b.0), b.1, max);
            BuildStruct(types, base, path, [a, b], max)
              == if h1.Err? then Err(h1.error)
                 else Register(h1.value.1, base, [Field(a.0, FlatType(a.1)), Field(b.0, h1.value.0)], max)
  {
    PairStruct(types, base, path, a, b, max);
    FlatTypeOf(types, path + Capitalize(a.0), a.1, max);
  }

  /** A two-entry object written with its later key first, where that later entry is flat. */
  lemma PairFlatSecond(types: Types, base: string, path: string, a: Entry, b: Entry, max: nat)
    requires LexLess(a.0, b.0) && Flat(b.1)
    ensures var h0 := TypeOfValue(types, path + Capitalize(a.0), a.1, max);
            BuildStruct(types, base, path, [b, a], max)
              == if h0.Err? then Err(h0.error)
                 else Register(h0.value.1, base, [Field(a.0, h0.value.0), Field(b.0, FlatType(b.1))], max)
  {
    PairStruct(types, base, path, a, b, max);
    var h0 := TypeOfValue(types, path + Capitalize(a.0), a.1, max);
    if h0.Ok? {
      FlatTypeOf(h0.value.1, path + Capitalize(b.0), b.1, max);
    }
  }

  /** A MsgSend message: `type` then `value`, its children named from `path`. */
  lemma RootStruct(types: Types, base: string, path: string, typeUrl: string, valueObj: Json, max: nat)
    ensures var inner := TypeOfValue(types, path + Capitalize("value"), valueObj, max);
            BuildStruct(types, base, path, MessageEntries(typeUrl, valueObj), max)
              == if inner.Err? then Err(inner.error)
                 else Register(inner.value.1, base, [Field("type", StringType), Field("value", inner.value.0)], max)
  {
    assert LexLess("type", "value");
    PairFlatFirst(types, base, path, ("type", JStr(typeUrl)), ("value", valueObj), max);
  }

  /** The field list of the `amount` object: `amount` typed by its kind, then `denom`. */
  function AmountFieldsOf(amount: Json): seq<Field>
    requires amount.JStr? || amount.JNum?
  {
    [Field("amount", if amount.JStr? then StringType else Int64Type), Field("denom", StringType)]
  }

  /** The `value` object of a MsgSend with its `amount` object expanded. */
  lemma MsgSendValue(types: Types, addr: string, amount: Json, denom: string, max: nat)
    requires amount.JStr? || amount.JNum?
    ensures var amt := Register(types, "TypeValueAmount", AmountFieldsOf(amount), max);
            TypeOfValue(types, "TypeValue", JObj(ValueEntries(addr, JObj(AmountEntries(amount, denom)))), max)
              == if amt.Err? then Err(amt.error)
                 else Register(amt.value.1, "TypeValue", [Field("amount", amt.value.0), Field("recipient", StringType)], max)
  {
    ChildNames();
    ValueStruct(types, "TypeValue", addr, JObj(AmountEntries(amount, denom)), max);
    AmountStruct(types, "TypeValueAmount", amount, denom, max);
  }

  /**
   * A whole MsgSend message: `amount` registers under `TypeValueAmount`,
   * then `value` under `TypeValue` naming it, then the root under
   * `TypeMsgSend` naming that, each over the table the previous one left.
   */
  lemma MsgSendStruct(types: Types, typeUrl: string, addr: string, amount: Json, denom: string, max: nat)
    requires amount.JStr? || amount.JNum?
    requires LastSegment(typeUrl) == "MsgSend"
    ensures var amt := Register(types, "TypeValueAmount", AmountFieldsOf(amount), max);
            BuildStruct(types, RootTypeName(typeUrl), TypePrefix, MsgSendWith(typeUrl, addr, amount, denom).entries, max)
              == if amt.Err? then Err(amt.error)
                 else
                   var val := Register(amt.value.1, "TypeValue", [Field("amount", amt.value.0), Field("recipient", StringType)], max);
                   if val.Err? then Err(val.error)
                   else Register(val.value.1, "TypeMsgSend", [Field("type", StringType), Field("value", val.value.0)], max)
  {
    var valueObj := JObj(ValueEntries(addr, JObj(AmountEntries(amount, denom))));
    var amt := Register(types, "TypeValueAmount", AmountFieldsOf(amount), max);
    var v := TypeOfValue(types, "TypeValue", valueObj, max);
    assert v == if amt.Err? then Err(amt.error)
                else Register(amt.value.1, "TypeValue", [Field("amount", amt.value.0), Field("recipient", StringType)], max) by {
      MsgSendValue(types, addr, amount, denom, max);
    }
    assert RootTypeName(typeUrl) == "TypeMsgSend";
    assert BuildStruct(types, "TypeMsgSend", TypePrefix, MessageEntries(typeUrl, valueObj), max)
           == if v.Err? then Err(v.error)
              else Register(v.value.1, "TypeMsgSend", [Field("type", StringType), Field("value", v.value.0)], max) by {
      ChildNames();
      RootStruct(types, "TypeMsgSend", TypePrefix, typeUrl, valueObj, max);
    }
  }

  /** The child struct names the fixtures produce. */
  lemma ChildNames()
    ensures TypePrefix + Capitalize("value") == "TypeValue"
    ensures "TypeValue" + Capitalize("amount") == "TypeValueAmount"
    ensures "TypeValue" + Capitalize("object") == "TypeValueObject"
  {
  }

  /**
   * An object of two entries whose keys are ordered `a` before `b`, in
   * either written order: `a` is typed first, `b` over the table that left,
   * and the struct registers over the table after both.
   */
  lemma PairStruct(types: Types, base: string, path: string, a: Entry, b: Entry, max: nat)
    requires LexLess(a.0, b.0)
    ensures var h0 := TypeOfValue(types, path + Capitalize(a.0), a.1, max);
            var expected :=
              if h0.Err? then Err(h0.error)
              else
                var h1 := TypeOfValue(h0.value.1, path + Capitalize(b.0), b.1, max);
                if h1.Err? then Err(h1.error)
                else Register(h1.value.1, base, [Field(a.0, h0.value.0), Field(b.0, h1.value.0)], max);
            BuildStruct(types, base, path, [a, b], max) == expected
            && BuildStruct(types, base, path, [b, a], max) == expected
  {
    PairStructInOrder(types, base, path, a, b, max);
    PairFields(types, path, a, b, JObj([a, b]), max);
    assert BuildStruct(types, base, path, [b, a], max) == BuildStruct(types, base, path, [a, b], max) by {
      SortPair(b, a);
      BuildStructStep(types, base, path, [b, a], max);
      BuildFieldsParentIrrelevant(types, path, [a, b], JObj([b, a]), JObj([a, b]), max);
    }
  }

  lemma PairStructInOrder(types: Types, base: string, path: string, a: Entry, b: Entry, max: nat)
    requires LexLess(a.0, b.0)
    ensures var fields := BuildFields(types, path, [a, b], JObj([a, b]), max);
            BuildStruct(types, base, path, [a, b], max)
              == if fields.Err? then Err(fields.error) else Register(fields.value.1, base, fields.value.0, max)
  {
    LexLessAsymmetric(a.0, b.0);
    SortPair(a, b);
    BuildStructStep(types, base, path, [a, b], max);
  }

  lemma PairFields(types: Types, path: string, a: Entry, b: Entry, parent: Json, max: nat)
    requires parent.JObj? && a in parent.entries && b in parent.entries
    ensures var h0 := TypeOfValue(types, path + Capitalize(a.0), a.1, max);
            BuildFields(types, path, [a, b], parent, max)
              == if h0.Err? then Err(h0.error)
                 else
                   var h1 := TypeOfValue(h0.value.1, path + Capitalize(b.0), b.1, max);
                   if h1.Err? then Err(h1.error)
                   else Ok(([Field(a.0, h0.value.0), Field(b.0, h1.value.0)], h1.value.1))
  {
    BuildFieldsStep(types, path, [a, b], parent, max);
    var h0 := TypeOfValue(types, path + Capitalize(a.0), a.1, max);
    if h0.Ok? {
      assert [a, b][1..] == [b];
      LastField(h0.value.1, path, b, parent, max);
      var h1 := TypeOfValue(h0.value.1, path + Capitalize(b.0), b.1, max);
      if h1.Ok? {
        assert [Field(a.0, h0.value.0)] + [Field(b.0, h1.value.0)] == [Field(a.0, h0.value.0), Field(b.0, h1.value.0)];
      }
    }
  }

  /** One unfolding of `BuildStruct`. */
  lemma BuildStructStep(types: Types, base: string, path: string, kvs: seq<Entry>, max: nat)
    ensures var sorted := SortByKey(kvs);
            (forall e :: e in sorted ==> e in kvs) &&
            var fields := BuildFields(types, path, sorted, JObj(kvs), max);
            BuildStruct(types, base, path, kvs, max)
              == if fields.Err? then Err(fields.error) else Register(fields.value.1, base, fields.value.0, max)
  {
    var sorted := SortByKey(kvs);
    forall e | e in sorted ensures e in kvs {
      assert e in multiset(sorted);
    }
  }

  /** An object value whose entries sort to `sorted` is the struct of `sorted`'s fields, registered under its path. */
  lemma ObjectFromSorted(types: Types, path: string, kvs: seq<Entry>, sorted: seq<Entry>, max: nat)
    requires SortByKey(kvs) == sorted
    ensures (forall e :: e in sorted ==> e in kvs) &&
            var fields := BuildFields(types, path, sorted, JObj(kvs), max);
            TypeOfValue(types, path, JObj(kvs), max)
              == if fields.Err? then Err(fields.error) else Register(fields.value.1, path, fields.value.0, max)
  {
    BuildStructStep(types, path, path, kvs, max);
  }

  /** One unfolding of `BuildFields`. */
  lemma BuildFieldsStep(types: Types, path: string, entries: seq<Entry>, parent: Json, max: nat)
    requires parent.JObj? && forall e :: e in entries ==> e in parent.entries
    ensures BuildFields(types, path, entries, parent, max)
            == if |entries| == 0 then Ok(([], types))
               else
                 var head := TypeOfValue(types, path + Capitalize(entries[0].0), entries[0].1, max);
                 if head.Err? then Err(head.error)
                 else
                   var tail := BuildFields(head.value.1, path, entries[1..], parent, max);
                   if tail.Err? then Err(tail.error)
                   else Ok(([Field(entries[0].0, head.value.0)] + tail.value.0, tail.value.1))
  {
  }

  /** A scalar: a string, a number or a boolean. */
  predicate Scalar(v: Json) {
    v.JStr? || v.JNum? || v.JBool?
  }

  /** A value typed without registering anything: a scalar, or an array that is empty or starts with a scalar. */
  predicate Flat(v: Json) {
    Scalar(v) || (v.JArr? && (|v.items| == 0 || Scalar(v.items[0])))
  }

  function ScalarType(v: Json): string
    requires Scalar(v)
  {
    if v.JStr? then StringType else if v.JNum? then Int64Type else BoolType
  }

  /** The EIP-712 type of a flat value, read off its shape alone. */
  function FlatType(v: Json): string
    requires Flat(v)
  {
    if Scalar(v) then ScalarType(v)
    else if |v.items| == 0 then EmptyArrayType
    else ScalarType(v.items[0]) + ArraySuffix
  }

  lemma FlatTypeOf(types: Types, path: string, v: Json, max: nat)
    requires Flat(v)
    ensures TypeOfValue(types, path, v, max) == Ok((FlatType(v), types))
  {
    if v.JArr? && |v.items| > 0 {
      assert TypeOfValue(types, path, v.items[0], max) == Ok((ScalarType(v.items[0]), types));
    }
  }

  /** The fields of entries whose values are all flat. */
  function FlatFieldsOf(entries: seq<Entry>): (r: seq<Field>)
    requires forall i :: 0 <= i < |entries| ==> Flat(entries[i].1)
    ensures |r| == |entries|
  {
    if |entries| == 0 then []
    else [Field(entries[0].0, FlatType(entries[0].1))] + FlatFieldsOf(entries[1..])
  }

  /**
   * Flat entries before `rest` contribute their flat fields and leave the
   * table alone; `rest` is typed over the same table.
   */
  lemma {:induction false} FlatPrefix(types: Types, path: string, flat: seq<Entry>, rest: seq<Entry>, parent: Json, max: nat)
    requires parent.JObj? && forall e :: e in flat + rest ==> e in parent.entries
    requires forall i :: 0 <= i < |flat| ==> Flat(flat[i].1)
    ensures var r := BuildFields(types, path, rest, parent, max);
            BuildFields(types, path, flat + rest, parent, max)
              == if r.Err? then Err(r.error) else Ok((FlatFieldsOf(flat) + r.value.0, r.value.1))
    decreases |flat|
  {
    if |flat| == 0 {
      assert flat + rest == rest;
      var r := BuildFields(types, path, rest, parent, max);
      if r.Ok? {
        assert FlatFieldsOf(flat) + r.value.0 == r.value.0;
      }
    } else {
      assert forall e :: e in flat[1..] + rest ==> e in flat + rest by {
        assert flat + rest == [flat[0]] + (flat[1..] + rest);
      }
      FlatPrefix(types, path, flat[1..], rest, parent, max);
      FlatPrefixStep(types, path, flat, rest, parent, max);
    }
  }

  /** The inductive step of `FlatPrefix`: one more flat entry in front. */
  lemma FlatPrefixStep(types: Types, path: string, flat: seq<Entry>, rest: seq<Entry>, parent: Json, max: nat)
    requires parent.JObj? && forall e :: e in flat + rest ==> e in parent.entries
    requires |flat| > 0 && forall i :: 0 <= i < |flat| ==> Flat(flat[i].1)
    requires forall e :: e in flat[1..] + rest ==> e in parent.entries
    requires var r := BuildFields(types, path, rest, parent, max);
             BuildFields(types, path, flat[1..] + rest, parent, max)
               == if r.Err? then Err(r.error) else Ok((FlatFieldsOf(flat[1..]) + r.value.0, r.value.1))
    ensures var r := BuildFields(types, path, rest, parent, max);
            BuildFields(types, path, flat + rest, parent, max)
              == if r.Err? then Err(r.error) else Ok((FlatFieldsOf(flat) + r.value.0, r.value.1))
  {
    var r := BuildFields(types, path, rest, parent, max);
    var head := Field(flat[0].0, FlatType(flat[0].1));
    var tail := BuildFields(types, path, flat[1..] + rest, parent, max);
    assert BuildFields(types, path, flat + rest, parent, max)
           == if tail.Err? then Err(tail.error) else Ok(([head] + tail.value.0, tail.value.1)) by {
      ConcatTail(flat, rest);
      FlatHead(types, path, flat + rest, flat[1..] + rest, parent, max);
    }
    if r.Ok? {
      FlatFieldsCons(flat, r.value.0);
    }
  }

  lemma ConcatTail<T>(a: seq<T>, b: seq<T>)
    requires |a| > 0
    ensures (a + b)[0] == a[0] && (a + b)[1..] == a[1..] + b
  {
  }

  lemma FlatFieldsCons(flat: seq<Entry>, more: seq<Field>)
    requires |flat| > 0 && forall i :: 0 <= i < |flat| ==> Flat(flat[i].1)
    ensures [Field(flat[0].0, FlatType(flat[0].1))] + (FlatFieldsOf(flat[1..]) + more) == FlatFieldsOf(flat) + more
  {
    ConcatAssoc([Field(flat[0].0, FlatType(flat[0].1))], FlatFieldsOf(flat[1..]), more);
  }

  lemma ConcatAssoc<T>(a: seq<T>, b: seq<T>, c: seq<T>)
    ensures a + (b + c) == (a + b) + c
  {
  }

  /** A flat first entry is typed in place and the rest over the same table. */
  lemma FlatHead(types: Types, path: string, entries: seq<Entry>, later: seq<Entry>, parent: Json, max: nat)
    requires parent.JObj? && forall e :: e in entries ==> e in parent.entries
    requires |entries| > 0 && Flat(entries[0].1) && later == entries[1..]
    ensures var tail := BuildFields(types, path, later, parent, max);
            BuildFields(types, path, entries, parent, max)
              == if tail.Err? then Err(tail.error)
                 else Ok(([Field(entries[0].0, FlatType(entries[0].1))] + tail.value.0, tail.value.1))
  {
    BuildFieldsStep(types, path, entries, parent, max);
    FlatTypeOf(types, path + Capitalize(entries[0].0), entries[0].1, max);
  }

  /** Entries that are all flat register nothing and type as their flat fields. */
  lemma FlatFields(types: Types, path: string, entries: seq<Entry>, parent: Json, max: nat)
    requires parent.JObj? && forall e :: e in entries ==> e in parent.entries
    requires forall i :: 0 <= i < |entries| ==> Flat(entries[i].1)
    ensures BuildFields(types, path, entries, parent, max) == Ok((FlatFieldsOf(entries), types))
  {
    assert entries + [] == entries;
    FlatPrefix(types, path, entries, [], parent, max);
    BuildFieldsStep(types, path, [], parent, max);
    assert FlatFieldsOf(entries) + [] == FlatFieldsOf(entries);
  }

  lemma SortPair(a: Entry, b: Entry)
    ensures SortByKey([a, b]) == if LexLess(b.0, a.0) then [b, a] else [a, b]
  {
    assert [a, b][1..] == [b];
    assert SortByKey([b]) == [b];
  }

  /** The slot keys and suffixes of the first two messages, shared by the scenario proofs. */
  lemma SmallNumbers()
    ensures Dec(0) == "0" && Dec(1) == "1"
    ensures MsgField(0) == "msg0" && MsgField(1) == "msg1"
  {
    assert Dec(0) == [DigitChar(0)];
    assert Dec(1) == [DigitChar(1)];
  }

  /** The numbered struct names the suite expects, shared by the scenario proofs. */
  lemma SlotNames()
    ensures "TypeValueAmount" + "0" == "TypeValueAmount0" && "TypeValueAmount" + "1" == "TypeValueAmount1"
    ensures "TypeValue" + "0" == "TypeValue0" && "TypeValue" + "1" == "TypeValue1"
    ensures "TypeMsgSend" + "0" == "TypeMsgSend0" && "TypeMsgSend" + "1" == "TypeMsgSend1"
    ensures "TypeValueObject" + "0" == "TypeValueObject0" && "TypeTestMsg" + "0" == "TypeTestMsg0"
  {
  }

  /** Registration under a base whose first slot is free, or holds the same definition, lands in that slot. */
  lemma RegisterFirst(types: Types, base: string, fs: seq<Field>, max: nat)
    requires max >= 1
    requires base + "0" !in types || types[base + "0"] == fs
    ensures Register(types, base, fs, max) == Ok((base + "0", types[base + "0" := fs]))
  {
    SmallNumbers();
    RegisterAt(types, base, fs, max, 0);
  }

  /** Registration whose first slot holds another definition and whose second is free lands in the second. */
  lemma RegisterSecond(types: Types, base: string, fs: seq<Field>, max: nat)
    requires max >= 2
    requires base + "0" in types && types[base + "0"] != fs
    requires base + "1" !in types
    ensures Register(types, base, fs, max) == Ok((base + "1", types[base + "1" := fs]))
  {
    SmallNumbers();
    RegisterAt(types, base, fs, max, 1);
  }

  lemma GetFirst(kvs: seq<Entry>, k: string)
    requires |kvs| > 0 && kvs[0].0 == k
    ensures Get(kvs, k) == Some(kvs[0].1)
  {
  }

  lemma GetSecond(kvs: seq<Entry>, k: string)
    requires |kvs| > 1 && kvs[0].0 != k && kvs[1].0 == k
    ensures Get(kvs, k) == Some(kvs[1].1)
  {
    assert Find(kvs[1..], k) == Some(0);
  }

  /** A message whose first entry is a non-empty `type` string and whose second is an object `value` is well-formed. */
  lemma TypeThenValue(msg: Json)
    requires msg.JObj? && |msg.entries| > 1
    requires msg.entries[0].0 == TypeKey && msg.entries[0].1.JStr? && |msg.entries[0].1.s| > 0
    requires msg.entries[1].0 == ValueKey && msg.entries[1].1.JObj?
    ensures WellFormedMessage(msg) && Label(msg) == msg.entries[0].1.s
  {
    GetFirst(msg.entries, TypeKey);
    GetSecond(msg.entries, ValueKey);
  }

  lemma FlatFieldsOne(e: Entry)
    requires Flat(e.1)
    ensures FlatFieldsOf([e]) == [Field(e.0, FlatType(e.1))]
  {
    assert [e][1..] == [];
    assert [Field(e.0, FlatType(e.1))] + [] == [Field(e.0, FlatType(e.1))];
  }

  /** An object of one flat entry is typed from that entry alone. */
  lemma SingleFlatStruct(types: Types, base: string, path: string, e: Entry, max: nat)
    requires Flat(e.1)
    ensures BuildStruct(types, base, path, [e], max) == Register(types, base, [Field(e.0, FlatType(e.1))], max)
  {
    assert [e][1..] == [];
    assert SortByKey([e]) == [e];
    BuildStructStep(types, base, path, [e], max);
    FlatFields(types, path, [e], JObj([e]), max);
    FlatFieldsOne(e);
  }

  /** Flat entries followed by one entry of any kind. */
  lemma FlatThenOne(types: Types, path: string, flat: seq<Entry>, last: Entry, parent: Json, max: nat)
    requires parent.JObj? && forall e :: e in flat + [last] ==> e in parent.entries
    requires forall i :: 0 <= i < |flat| ==> Flat(flat[i].1)
    ensures var child := TypeOfValue(types, path + Capitalize(last.0), last.1, max);
            BuildFields(types, path, flat + [last], parent, max)
              == if child.Err? then Err(child.error) else Ok((FlatFieldsOf(flat) + [Field(last.0, child.value.0)], child.value.1))
  {
    assert forall e :: e in [last] ==> e in parent.entries by {
      assert last == (flat + [last])[|flat|];
    }
    LastField(types, path, last, parent, max);
    FlatPrefix(types, path, flat, [last], parent, max);
  }

  /** A single remaining entry is typed by its own child type. */
  lemma LastField(types: Types, path: string, last: Entry, parent: Json, max: nat)
    requires parent.JObj? && last in parent.entries
    ensures var child := TypeOfValue(types, path + Capitalize(last.0), last.1, max);
            BuildFields(types, path, [last], parent, max)
              == if child.Err? then Err(child.error) else Ok(([Field(last.0, child.value.0)], child.value.1))
  {
    var child := TypeOfValue(types, path + Capitalize(last.0), last.1, max);
    BuildFieldsStep(types, path, [last], parent, max);
    if child.Ok? {
      BuildFieldsStep(child.value.1, path, [], parent, max);
      assert [last][1..] == [];
      assert [Field(last.0, child.value.0)] + [] == [Field(last.0, child.value.0)];
    }
  }

  /** Consecutive keys in order give keys in order at any distance. */
  lemma {:induction false} LexLessChain(s: seq<Entry>, i: nat, j: nat)
    requires i < j < |s|
    requires forall k :: 0 <= k < |s| - 1 ==> LexLess(s[k].0, s[k + 1].0)
    ensures LexLess(s[i].0, s[j].0)
    decreases j - i
  {
    if j > i + 1 {
      LexLessChain(s, i, j - 1);
      LexLessTransitive(s[i].0, s[j - 1].0, s[j].0);
    }
  }
}
