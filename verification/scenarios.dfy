/**
 * The MsgSend scenarios of the type-generation test suite: one message,
 * two identical messages, and two messages that differ in the kind of the
 * amount, each stated as the exact table the generator returns.
 */
module MsgSendScenarios {
  import opened Strings
  import opened Outcomes
  import opened JsonValues
  import opened Eip712Schema
  import opened TypeRegistry
  import opened MessageTypes
  import opened PayloadTypes
  import opened CreateTypesCases

  /** A MsgSend fixture is a well-formed message labelled with its type URL. */
  lemma MsgSendWellFormed(typeUrl: string, addr: string, amount: Json, denom: string)
    requires LastSegment(typeUrl) == "MsgSend"
    ensures WellFormedMessage(MsgSendWith(typeUrl, addr, amount, denom))
    ensures Label(MsgSendWith(typeUrl, addr, amount, denom)) == typeUrl
  {
    assert |typeUrl| >= |LastSegment(typeUrl)| == 7;
    TypeThenValue(MsgSendWith(typeUrl, addr, amount, denom));
  }

  /** The first MsgSend over an empty table registers its three structs at suffix 0. */
  lemma FirstMsgSend(typeUrl: string, addr: string, amount: string, denom: string, max: nat)
    requires LastSegment(typeUrl) == "MsgSend" && max >= 1
    ensures BuildStruct(map[], RootTypeName(typeUrl), TypePrefix, MsgSend(typeUrl, addr, amount, denom).entries, max)
            == Ok(("TypeMsgSend0", MsgSendTypes()))
  {
    FirstRegisters(max);
    assert AmountFieldsOf(JStr(amount)) == AmountFields;
    MsgSendStruct(map[], typeUrl, addr, JStr(amount), denom, max);
  }

  lemma FirstRegisters(max: nat)
    requires max >= 1
    ensures var t1: Types := map["TypeValueAmount0" := AmountFields];
            var t2 := t1["TypeValue0" := ValueFields];
            && Register(map[], "TypeValueAmount", AmountFields, max) == Ok(("TypeValueAmount0", t1))
            && Register(t1, "TypeValue", ValueFields, max) == Ok(("TypeValue0", t2))
            && Register(t2, "TypeMsgSend", MsgSendFields, max) == Ok(("TypeMsgSend0", MsgSendTypes()))
  {
    SlotNames();
    var t1: Types := map["TypeValueAmount0" := AmountFields];
    var t2 := t1["TypeValue0" := ValueFields];
    RegisterFirst(map[], "TypeValueAmount", AmountFields, max);
    RegisterFirst(t1, "TypeValue", ValueFields, max);
    RegisterFirst(t2, "TypeMsgSend", MsgSendFields, max);
    assert t2["TypeMsgSend0" := MsgSendFields] == MsgSendTypes();
  }

  /** The same MsgSend over the table it produced finds all three structs already registered. */
  lemma RepeatedMsgSend(typeUrl: string, addr: string, amount: string, denom: string, max: nat)
    requires LastSegment(typeUrl) == "MsgSend" && max >= 1
    ensures BuildStruct(MsgSendTypes(), RootTypeName(typeUrl), TypePrefix, MsgSend(typeUrl, addr, amount, denom).entries, max)
            == Ok(("TypeMsgSend0", MsgSendTypes()))
  {
    RepeatedRegisters(max);
    assert AmountFieldsOf(JStr(amount)) == AmountFields;
    MsgSendStruct(MsgSendTypes(), typeUrl, addr, JStr(amount), denom, max);
  }

  lemma RepeatedRegisters(max: nat)
    requires max >= 1
    ensures Register(MsgSendTypes(), "TypeValueAmount", AmountFields, max) == Ok(("TypeValueAmount0", MsgSendTypes()))
    ensures Register(MsgSendTypes(), "TypeValue", ValueFields, max) == Ok(("TypeValue0", MsgSendTypes()))
    ensures Register(MsgSendTypes(), "TypeMsgSend", MsgSendFields, max) == Ok(("TypeMsgSend0", MsgSendTypes()))
  {
    SlotNames();
    var t := MsgSendTypes();
    RegisterFirst(t, "TypeValueAmount", AmountFields, max);
    assert t["TypeValueAmount0" := AmountFields] == t;
    RegisterFirst(t, "TypeValue", ValueFields, max);
    assert t["TypeValue0" := ValueFields] == t;
    RegisterFirst(t, "TypeMsgSend", MsgSendFields, max);
    assert t["TypeMsgSend0" := MsgSendFields] == t;
  }

  const NumericAmountFields := [Field("amount", "int64"), Field("denom", "string")]
  const NumericValueFields := [Field("amount", "TypeValueAmount1"), Field("recipient", "string")]
  const NumericMsgSendFields := [Field("type", "string"), Field("value", "TypeValue1")]

  /** The three types a MsgSend with a numeric amount adds after a string-amount one. */
  function NumericTypes(): Types {
    map["TypeMsgSend1" := NumericMsgSendFields, "TypeValue1" := NumericValueFields,
        "TypeValueAmount1" := NumericAmountFields]
  }

  /** A MsgSend with a numeric amount, after one with a string amount, moves every struct to suffix 1. */
  lemma NumericMsgSend(typeUrl: string, addr: string, n: int, denom: string, max: nat)
    requires LastSegment(typeUrl) == "MsgSend" && max >= 2
    ensures BuildStruct(MsgSendTypes(), RootTypeName(typeUrl), TypePrefix, MsgSendWith(typeUrl, addr, JNum(n), denom).entries, max)
            == Ok(("TypeMsgSend1", MsgSendTypes() + NumericTypes()))
  {
    NumericRegisters(max);
    assert AmountFieldsOf(JNum(n)) == NumericAmountFields;
    MsgSendStruct(MsgSendTypes(), typeUrl, addr, JNum(n), denom, max);
  }

  lemma NumericRegisters(max: nat)
    requires max >= 2
    ensures var t1 := MsgSendTypes()["TypeValueAmount1" := NumericAmountFields];
            var t2 := t1["TypeValue1" := NumericValueFields];
            && Register(MsgSendTypes(), "TypeValueAmount", NumericAmountFields, max) == Ok(("TypeValueAmount1", t1))
            && Register(t1, "TypeValue", NumericValueFields, max) == Ok(("TypeValue1", t2))
            && Register(t2, "TypeMsgSend", NumericMsgSendFields, max) == Ok(("TypeMsgSend1", MsgSendTypes() + NumericTypes()))
  {
    var t0 := MsgSendTypes();
    var t1 := t0["TypeValueAmount1" := NumericAmountFields];
    var t2 := t1["TypeValue1" := NumericValueFields];
    NumericAmountRegister(t0, max);
    NumericValueRegister(t1, max);
    NumericRootRegister(t2, max);
    NumericTable();
  }

  lemma NumericTable()
    ensures MsgSendTypes()["TypeValueAmount1" := NumericAmountFields]["TypeValue1" := NumericValueFields]
              ["TypeMsgSend1" := NumericMsgSendFields]
            == MsgSendTypes() + NumericTypes()
  {
  }

  lemma NumericAmountRegister(t: Types, max: nat)
    requires max >= 2 && t == MsgSendTypes()
    ensures Register(t, "TypeValueAmount", NumericAmountFields, max)
            == Ok(("TypeValueAmount1", t["TypeValueAmount1" := NumericAmountFields]))
  {
    SlotNames();
    assert AmountFields[0] != NumericAmountFields[0];
    RegisterSecond(t, "TypeValueAmount", NumericAmountFields, max);
  }

  lemma NumericValueRegister(t: Types, max: nat)
    requires max >= 2 && t == MsgSendTypes()["TypeValueAmount1" := NumericAmountFields]
    ensures Register(t, "TypeValue", NumericValueFields, max) == Ok(("TypeValue1", t["TypeValue1" := NumericValueFields]))
  {
    SlotNames();
    assert ValueFields[0] != NumericValueFields[0];
    RegisterSecond(t, "TypeValue", NumericValueFields, max);
  }

  lemma NumericRootRegister(t: Types, max: nat)
    requires max >= 2 && t == MsgSendTypes()["TypeValueAmount1" := NumericAmountFields]["TypeValue1" := NumericValueFields]
    ensures Register(t, "TypeMsgSend", NumericMsgSendFields, max)
            == Ok(("TypeMsgSend1", t["TypeMsgSend1" := NumericMsgSendFields]))
  {
    SlotNames();
    assert MsgSendFields[1] != NumericMsgSendFields[1];
    RegisterSecond(t, "TypeMsgSend", NumericMsgSendFields, max);
  }

  // ---------------------------------------------------------------------
  // Whole payloads.
  // ---------------------------------------------------------------------

  /** A one-message payload: `Tx` gains `msg0: TypeMsgSend0` and the three MsgSend structs are added. */
  lemma SingleMessage(base: Types, typeUrl: string, addr: string, amount: string, denom: string, max: nat)
    requires TxName in base && LastSegment(typeUrl) == "MsgSend" && max >= 1
    ensures Eip712Types(base, PayloadOf([MsgSend(typeUrl, addr, amount, denom)]), 1, max)
            == Ok(Merge(base, State(MsgSendTypes(), [Field("msg0", "TypeMsgSend0")])))
  {
    var m := MsgSend(typeUrl, addr, amount, denom);
    var p := PayloadOf([m]);
    assert Generate(p, 1, max) == Ok(State(MsgSendTypes(), [Field("msg0", "TypeMsgSend0")])) by {
      FirstMessage(p, m, typeUrl, addr, amount, denom, max);
    }
  }

  /** Slot `msg0` holding a string-amount MsgSend yields the three MsgSend structs. */
  lemma FirstMessage(p: map<string, Json>, m: Json, typeUrl: string, addr: string, amount: string, denom: string, max: nat)
    requires m == MsgSend(typeUrl, addr, amount, denom) && LastSegment(typeUrl) == "MsgSend" && max >= 1
    requires MsgField(0) in p && p[MsgField(0)] == m
    ensures Generate(p, 1, max) == Ok(State(MsgSendTypes(), [Field("msg0", "TypeMsgSend0")]))
  {
    SmallNumbers();
    MsgSendWellFormed(typeUrl, addr, JStr(amount), denom);
    FirstMsgSend(typeUrl, addr, amount, denom, max);
    GenerateNext(p, 0, max, State(map[], []), "TypeMsgSend0", MsgSendTypes());
    assert [] + [Field("msg0", "TypeMsgSend0")] == [Field("msg0", "TypeMsgSend0")];
  }

  /** The same MsgSend twice: both slots name `TypeMsgSend0` and nothing else is added. */
  lemma IdenticalDuplicates(base: Types, typeUrl: string, addr: string, amount: string, denom: string, max: nat)
    requires TxName in base && LastSegment(typeUrl) == "MsgSend" && max >= 1
    ensures var m := MsgSend(typeUrl, addr, amount, denom);
            Eip712Types(base, PayloadOf([m, m]), 2, max)
              == Ok(Merge(base, State(MsgSendTypes(), [Field("msg0", "TypeMsgSend0"), Field("msg1", "TypeMsgSend0")])))
  {
    var m := MsgSend(typeUrl, addr, amount, denom);
    var p := PayloadOf([m, m]);
    assert Generate(p, 2, max)
           == Ok(State(MsgSendTypes(), [Field("msg0", "TypeMsgSend0"), Field("msg1", "TypeMsgSend0")])) by {
      RepeatedSecond(p, m, typeUrl, addr, amount, denom, max);
    }
  }

  lemma RepeatedSecond(p: map<string, Json>, m: Json, typeUrl: string, addr: string, amount: string, denom: string, max: nat)
    requires m == MsgSend(typeUrl, addr, amount, denom) && LastSegment(typeUrl) == "MsgSend" && max >= 1
    requires MsgField(0) in p && p[MsgField(0)] == m && MsgField(1) in p && p[MsgField(1)] == m
    ensures Generate(p, 2, max) == Ok(State(MsgSendTypes(), [Field("msg0", "TypeMsgSend0"), Field("msg1", "TypeMsgSend0")]))
  {
    assert [Field("msg0", "TypeMsgSend0")] + [Field("msg1", "TypeMsgSend0")] == [Field("msg0", "TypeMsgSend0"), Field("msg1", "TypeMsgSend0")];
    FirstMessage(p, m, typeUrl, addr, amount, denom, max);
    SmallNumbers();
    MsgSendWellFormed(typeUrl, addr, JStr(amount), denom);
    RepeatedMsgSend(typeUrl, addr, amount, denom, max);
    GenerateNext(p, 1, max, State(MsgSendTypes(), [Field("msg0", "TypeMsgSend0")]), "TypeMsgSend0", MsgSendTypes());
  }

  /**
   * A MsgSend and a copy whose amount is numeric: the copy's three structs
   * differ from the registered ones and all land at suffix 1.
   */
  lemma NonIdenticalDuplicates(base: Types, typeUrl: string, addr: string, amount: string, n: int, denom: string, max: nat)
    requires TxName in base && LastSegment(typeUrl) == "MsgSend" && max >= 2
    ensures var m := MsgSend(typeUrl, addr, amount, denom);
            var m' := MsgSendWith(typeUrl, addr, JNum(n), denom);
            Eip712Types(base, PayloadOf([m, m']), 2, max)
              == Ok(Merge(base, State(MsgSendTypes() + NumericTypes(),
                                      [Field("msg0", "TypeMsgSend0"), Field("msg1", "TypeMsgSend1")])))
  {
    var m := MsgSend(typeUrl, addr, amount, denom);
    var m' := MsgSendWith(typeUrl, addr, JNum(n), denom);
    var p := PayloadOf([m, m']);
    assert Generate(p, 2, max)
           == Ok(State(MsgSendTypes() + NumericTypes(), [Field("msg0", "TypeMsgSend0"), Field("msg1", "TypeMsgSend1")])) by {
      NumericSecond(p, m, m', typeUrl, addr, amount, n, denom, max);
    }
  }

  lemma NumericSecond(p: map<string, Json>, m: Json, m': Json, typeUrl: string, addr: string, amount: string, n: int, denom: string, max: nat)
    requires m == MsgSend(typeUrl, addr, amount, denom) && m' == MsgSendWith(typeUrl, addr, JNum(n), denom)
    requires LastSegment(typeUrl) == "MsgSend" && max >= 2
    requires MsgField(0) in p && p[MsgField(0)] == m && MsgField(1) in p && p[MsgField(1)] == m'
    ensures Generate(p, 2, max)
            == Ok(State(MsgSendTypes() + NumericTypes(), [Field("msg0", "TypeMsgSend0"), Field("msg1", "TypeMsgSend1")]))
  {
    assert [Field("msg0", "TypeMsgSend0")] + [Field("msg1", "TypeMsgSend1")] == [Field("msg0", "TypeMsgSend0"), Field("msg1", "TypeMsgSend1")];
    FirstMessage(p, m, typeUrl, addr, amount, denom, max);
    SmallNumbers();
    MsgSendWellFormed(typeUrl, addr, JNum(n), denom);
    NumericMsgSend(typeUrl, addr, n, denom, max);
    GenerateNext(p, 1, max, State(MsgSendTypes(), [Field("msg0", "TypeMsgSend0")]), "TypeMsgSend1", MsgSendTypes() + NumericTypes());
  }
}
