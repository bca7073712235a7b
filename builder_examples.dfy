/** The literal cases the builder's tests pin down, restated as lemmas over
    the model: each ensures clause is one assertion of those tests. */
module BuilderExamples {
  import opened Text
  import opened Modifiers
  import opened Clauses
  import opened Builder
  import opened BuilderLaws

  function Tagged(kind: Kind, db: string, qm: QuoteModifier): Directive
  {
    Directive(kind, db, qm, false)
  }

  /** A true boolean keyword renders its `db` name. */
  lemma BooleanKeywordTrue()
    ensures FieldTexts(Field("BooleanKeyword", Tagged(Keyword, "EXAMPLE_KEYWORD", NoQuotes), BoolValue(true))) == ["EXAMPLE_KEYWORD"]
  {
    BooleanKeyword("BooleanKeyword", Tagged(Keyword, "EXAMPLE_KEYWORD", NoQuotes), BoolValue(true));
  }

  /** A false boolean keyword renders nothing. */
  lemma BooleanKeywordFalse()
    ensures ParseField(Field("BooleanKeyword", Tagged(Keyword, "EXAMPLE_KEYWORD", NoQuotes), BoolValue(false))) == Success([])
  {
  }

  /** A nil boolean keyword renders nothing. */
  lemma BooleanKeywordNil()
    ensures ParseField(Field("BooleanKeyword", Tagged(Keyword, "EXAMPLE_KEYWORD", NoQuotes), Unset)) == Success([])
  {
  }

  /** A string keyword renders its value. */
  lemma StringKeywordWithValue()
    ensures FieldTexts(Field("StringKeyword", Tagged(Keyword, "", NoQuotes), StringValue("example"))) == ["example"]
  {
    ValueKeyword("StringKeyword", Tagged(Keyword, "", NoQuotes), StringValue("example"));
  }

  /** A string keyword renders its value, double quoted. */
  lemma StringKeywordDoubleQuoted()
    ensures FieldTexts(Field("StringKeyword", Tagged(Keyword, "", DoubleQuotes), StringValue("example"))) == ["\"example\""]
  {
    assert HandleQuotes(DoubleQuotes, "example") == "\"example\"";
    ValueKeyword("StringKeyword", Tagged(Keyword, "", DoubleQuotes), StringValue("example"));
  }

  /** A string keyword renders its value, single quoted. */
  lemma StringKeywordSingleQuoted()
    ensures FieldTexts(Field("StringKeyword", Tagged(Keyword, "", SingleQuotes), StringValue("example"))) == ["'example'"]
  {
    assert HandleQuotes(SingleQuotes, "example") == "'example'";
    ValueKeyword("StringKeyword", Tagged(Keyword, "", SingleQuotes), StringValue("example"));
  }

  /** A nil string keyword renders nothing. */
  lemma StringKeywordNil()
    ensures ParseField(Field("StringKeyword", Tagged(Keyword, "", NoQuotes), Unset)) == Success([])
  {
  }

  /** A command renders as its name, a space and its value. */
  lemma CommandWithValue()
    ensures FieldTexts(Field("Command", Tagged(Command, "EXAMPLE_COMMAND", NoQuotes), StringValue("example"))) == ["EXAMPLE_COMMAND " + "example"]
  {
    CommandShape("Command", Tagged(Command, "EXAMPLE_COMMAND", NoQuotes), StringValue("example"));
    assert "EXAMPLE_COMMAND" + " " == "EXAMPLE_COMMAND ";
  }

  /** A command renders as its name, a space and its value, double quoted. */
  lemma CommandDoubleQuoted()
    ensures FieldTexts(Field("Command", Tagged(Command, "EXAMPLE_COMMAND", DoubleQuotes), StringValue("example"))) == ["EXAMPLE_COMMAND " + "\"example\""]
  {
    assert HandleQuotes(DoubleQuotes, "example") == "\"example\"";
    CommandShape("Command", Tagged(Command, "EXAMPLE_COMMAND", DoubleQuotes), StringValue("example"));
    assert "EXAMPLE_COMMAND" + " " == "EXAMPLE_COMMAND ";
  }

  /** A command renders as its name, a space and its value, single quoted. */
  lemma CommandSingleQuoted()
    ensures FieldTexts(Field("Command", Tagged(Command, "EXAMPLE_COMMAND", SingleQuotes), StringValue("example"))) == ["EXAMPLE_COMMAND " + "'example'"]
  {
    assert HandleQuotes(SingleQuotes, "example") == "'example'";
    CommandShape("Command", Tagged(Command, "EXAMPLE_COMMAND", SingleQuotes), StringValue("example"));
    assert "EXAMPLE_COMMAND" + " " == "EXAMPLE_COMMAND ";
  }

  /** A nil command renders nothing. */
  lemma CommandNil()
    ensures ParseField(Field("Command", Tagged(Command, "EXAMPLE_COMMAND", NoQuotes), Unset)) == Success([])
  {
  }

  /** An integer command value renders in decimal. */
  lemma CommandInteger()
    ensures FieldTexts(Field("Command", Tagged(Command, "EXAMPLE_COMMAND", NoQuotes), IntValue(1))) == ["EXAMPLE_COMMAND " + "1"]
  {
    CommandShape("Command", Tagged(Command, "EXAMPLE_COMMAND", NoQuotes), IntValue(1));
    assert "EXAMPLE_COMMAND" + " " == "EXAMPLE_COMMAND ";
  }

  /** A static field renders its token when set. */
  lemma StaticSet()
    ensures FieldTexts(Field("Static", Tagged(Static, "EXAMPLE_STATIC", NoQuotes), BoolValue(true))) == ["EXAMPLE_STATIC"]
  {
    StaticShape("Static", Tagged(Static, "EXAMPLE_STATIC", NoQuotes), BoolValue(true));
  }

  /** A static field renders its token when nil too. */
  lemma StaticNil()
    ensures FieldTexts(Field("Static", Tagged(Static, "EXAMPLE_STATIC", NoQuotes), Unset)) == ["EXAMPLE_STATIC"]
  {
    StaticShape("Static", Tagged(Static, "EXAMPLE_STATIC", NoQuotes), Unset);
  }

  /** A parameter renders as its name, ` = ` and its value, whatever the
      field is called. */
  lemma ParameterWithValue(n: string)
    ensures FieldTexts(Field(n, Tagged(Parameter, "EXAMPLE_PARAMETER", NoQuotes), StringValue("example"))) == ["EXAMPLE_PARAMETER = " + "example"]
  {
    ParameterShape(n, Tagged(Parameter, "EXAMPLE_PARAMETER", NoQuotes), StringValue("example"));
    assert "EXAMPLE_PARAMETER" + " = " == "EXAMPLE_PARAMETER = ";
  }

  /** A parameter renders as its name, ` = ` and its value, double quoted. */
  lemma ParameterDoubleQuoted()
    ensures FieldTexts(Field("Parameter", Tagged(Parameter, "EXAMPLE_PARAMETER", DoubleQuotes), StringValue("example"))) == ["EXAMPLE_PARAMETER = " + "\"example\""]
  {
    assert HandleQuotes(DoubleQuotes, "example") == "\"example\"";
    ParameterShape("Parameter", Tagged(Parameter, "EXAMPLE_PARAMETER", DoubleQuotes), StringValue("example"));
    assert "EXAMPLE_PARAMETER" + " = " == "EXAMPLE_PARAMETER = ";
  }

  /** A parameter renders as its name, ` = ` and its value, single quoted. */
  lemma ParameterSingleQuoted()
    ensures FieldTexts(Field("Parameter", Tagged(Parameter, "EXAMPLE_PARAMETER", SingleQuotes), StringValue("example"))) == ["EXAMPLE_PARAMETER = " + "'example'"]
  {
    assert HandleQuotes(SingleQuotes, "example") == "'example'";
    ParameterShape("Parameter", Tagged(Parameter, "EXAMPLE_PARAMETER", SingleQuotes), StringValue("example"));
    assert "EXAMPLE_PARAMETER" + " = " == "EXAMPLE_PARAMETER = ";
  }

  /** A nil parameter renders nothing. */
  lemma ParameterNil()
    ensures ParseField(Field("Parameter", Tagged(Parameter, "EXAMPLE_PARAMETER", NoQuotes), Unset)) == Success([])
  {
  }

  /** An integer parameter value renders in decimal. */
  lemma ParameterInteger()
    ensures FieldTexts(Field("Parameter", Tagged(Parameter, "EXAMPLE_PARAMETER", NoQuotes), IntValue(1))) == ["EXAMPLE_PARAMETER = " + "1"]
  {
    ParameterShape("Parameter", Tagged(Parameter, "EXAMPLE_PARAMETER", NoQuotes), IntValue(1));
    assert "EXAMPLE_PARAMETER" + " = " == "EXAMPLE_PARAMETER = ";
  }

  /** A parameter with no `db` name renders its bare value. */
  lemma ParameterWithoutName()
    ensures FieldTexts(Field("Parameter", Tagged(Parameter, "", NoQuotes), StringValue("example"))) == ["example"]
  {
    ParameterShape("Parameter", Tagged(Parameter, "", NoQuotes), StringValue("example"));
    assert "" + "example" == "example";
  }

  /** The token-order modifier on the tests' inputs. */
  lemma ReverseModifierCases()
    ensures HandleReverse(Reverse, ["example", "DESC"]) == "DESC example"
    ensures HandleReverse(NoReverse, ["example", "DESC"]) == "example DESC"
    ensures HandleReverse("unknown", ["example", "DESC"]) == "example DESC"
  {
  }

  /** The equals modifier on the tests' inputs. */
  lemma EqualsModifierCases()
    ensures HandleEquals(Equals, "example") == "= example"
    ensures HandleEquals(NoEquals, "example") == "example"
    ensures HandleEquals("unknown", "example") == "example"
  {
  }

  /** The parentheses modifier on the tests' inputs. */
  lemma ParenModifierCases()
    ensures HandleParentheses(Parentheses, "example") == "(example)"
    ensures HandleParentheses(NoParentheses, "example") == "example"
    ensures HandleParentheses("unknown", "example") == "example"
  {
  }

  /** The quote modifier on the tests' inputs. */
  lemma QuoteModifierCases()
    ensures HandleQuotes(DoubleQuotes, "example") == "\"example\""
    ensures HandleQuotes(NoQuotes, "example") == "example"
    ensures HandleQuotes(SingleQuotes, "example") == "'example'"
    ensures HandleQuotes("unknown", "example") == "example"
  {
  }

  /** The structure of four fields, two of them unexported, with an
      arbitrary account identifier. */
  function HelperStruct(name: ObjectIdentifier): Record
  {
    Record([
      Field("static", Tagged(Static, "EXAMPLE_STATIC", NoQuotes), BoolValue(true)),
      Field("name", Tagged(Identifier, "", NoQuotes), IdentifierValue(name)),
      Field("Param", Tagged(Parameter, "EXAMPLE_PARAMETER", NoQuotes), StringValue("example")),
      Field("Command", Tagged(Command, "EXAMPLE_COMMAND", NoQuotes), StringValue("example"))
    ])
  }

  /** A list entry with two single-quoted parameters. */
  function KeyEntry(k: string, k2: string): Record
  {
    Record([
      Field("K", Tagged(Parameter, "KEY", SingleQuotes), StringValue(k)),
      Field("K2", Tagged(Parameter, "KEY2", SingleQuotes), StringValue(k2))
    ])
  }

  /** A list entry with one single-quoted parameter. */
  function SingleKeyEntry(k: string): Record
  {
    Record([Field("K", Tagged(Parameter, "KEY", SingleQuotes), StringValue(k))])
  }

  /** A structure with no fields yields no clause. */
  lemma EmptyStruct()
    ensures ParseStruct(Record([])) == Success([])
  {
  }

  /** The clause texts of a structure with a single field are that field's. */
  lemma SingleFieldTexts(f: Field)
    requires FieldWellFormed(f)
    ensures ParseStruct(Record([f])).Success?
    ensures Texts(ParseStruct(Record([f])).value) == FieldTexts(f)
  {
    StructTextsCons(f, []);
    assert [f] + [] == [f];
    assert FieldTexts(f) + [] == FieldTexts(f);
  }

  /** The clause texts of a four-field structure, field by field. */
  lemma FourFieldTexts(fs: seq<Field>)
    requires |fs| == 4
    requires FieldWellFormed(fs[0]) && FieldWellFormed(fs[1]) && FieldWellFormed(fs[2]) && FieldWellFormed(fs[3])
    ensures ParseFields(fs).Success?
    ensures Texts(ParseFields(fs).value) ==
      FieldTexts(fs[0]) + (FieldTexts(fs[1]) + (FieldTexts(fs[2]) + FieldTexts(fs[3])))
  {
    var t1, t2, t3 := fs[1..], fs[2..], fs[3..];
    assert t1[1..] == t2 && t2[1..] == t3 && t3[1..] == [];
    assert t1[0] == fs[1] && t2[0] == fs[2] && t3[0] == fs[3];
    assert FieldsWellFormed(t3) && FieldsWellFormed(t2) && FieldsWellFormed(t1) && FieldsWellFormed(fs);
    StructTexts(fs);
    assert FieldsTexts(t3) == FieldTexts(fs[3]);
    assert FieldsTexts(t2) == FieldTexts(fs[2]) + FieldsTexts(t3);
    assert FieldsTexts(t1) == FieldTexts(fs[1]) + FieldsTexts(t2);
  }

  /** The four fields render in declaration order. */
  lemma HelperStructOrder(name: ObjectIdentifier)
    ensures ParseStruct(HelperStruct(name)).Success?
    ensures Texts(ParseStruct(HelperStruct(name)).value) ==
      ["EXAMPLE_STATIC", name.fullyQualifiedName, "EXAMPLE_PARAMETER = " + "example", "EXAMPLE_COMMAND " + "example"]
  {
    var f0 := Field("static", Tagged(Static, "EXAMPLE_STATIC", NoQuotes), BoolValue(true));
    var f1 := Field("name", Tagged(Identifier, "", NoQuotes), IdentifierValue(name));
    var f2 := Field("Param", Tagged(Parameter, "EXAMPLE_PARAMETER", NoQuotes), StringValue("example"));
    var f3 := Field("Command", Tagged(Command, "EXAMPLE_COMMAND", NoQuotes), StringValue("example"));
    StaticShape(f0.name, f0.directive, f0.value);
    IdentifierShape(f1.name, f1.directive, name);
    ParameterWithValue(f2.name);
    CommandWithValue();
    assert HelperStruct(name).fields == [f0, f1, f2, f3];
    FourFieldTexts(HelperStruct(name).fields);
  }

  /** A single-quoted parameter renders as `KEY = 'k'`. */
  lemma QuotedKey(n: string, key: string, k: string)
    requires key != ""
    ensures FieldTexts(Field(n, Tagged(Parameter, key, SingleQuotes), StringValue(k))) == [key + " = '" + k + "'"]
  {
    ParameterShape(n, Tagged(Parameter, key, SingleQuotes), StringValue(k));
    assert key + " = " + ("'" + k + "'") == key + " = '" + k + "'";
  }

  /** Two texts joined by a separator. */
  lemma JoinPair(sep: string, a: string, b: string)
    ensures Join(sep, [a, b]) == a + sep + b
  {
    assert [a, b][1..] == [b];
  }

  /** A structure of two fields that each render one non-empty text renders
      as those texts, space-separated. */
  lemma PairFragment(f0: Field, f1: Field, a: string, b: string)
    requires FieldWellFormed(f0) && FieldWellFormed(f1)
    requires FieldTexts(f0) == [a] && FieldTexts(f1) == [b] && a != "" && b != ""
    ensures ParseStruct(Record([f0, f1])).Success?
    ensures Sql(ParseStruct(Record([f0, f1])).value) == a + " " + b
  {
    SingleFieldTexts(f1);
    StructTextsCons(f0, [f1]);
    assert [f0] + [f1] == [f0, f1];
    assert NonEmpty([a, b]) == [a, b];
    JoinPair(" ", a, b);
  }

  /** Two single-quoted parameters render as `KEY = 'k' KEY2 = 'k2'`. */
  lemma QuotedKeyPair(n0: string, key: string, k: string, n1: string, key2: string, k2: string)
    requires key != "" && key2 != ""
    ensures var r := Record([Field(n0, Tagged(Parameter, key, SingleQuotes), StringValue(k)),
                             Field(n1, Tagged(Parameter, key2, SingleQuotes), StringValue(k2))]);
      ParseStruct(r).Success? && Sql(ParseStruct(r).value) == key + " = '" + k + "' " + key2 + " = '" + k2 + "'"
  {
    var f0 := Field(n0, Tagged(Parameter, key, SingleQuotes), StringValue(k));
    var f1 := Field(n1, Tagged(Parameter, key2, SingleQuotes), StringValue(k2));
    QuotedKey(n0, key, k);
    QuotedKey(n1, key2, k2);
    var a, b := key + " = '" + k + "'", key2 + " = '" + k2 + "'";
    PairFragment(f0, f1, a, b);
    assert a + " " + b == key + " = '" + k + "' " + key2 + " = '" + k2 + "'";
  }

  lemma KeyEntryFragment(k: string, k2: string)
    ensures ParseStruct(KeyEntry(k, k2)).Success?
    ensures Sql(ParseStruct(KeyEntry(k, k2)).value) == "KEY = '" + k + "' KEY2 = '" + k2 + "'"
  {
    QuotedKeyPair("K", "KEY", k, "K2", "KEY2", k2);
    assert "KEY" + " = '" == "KEY = '";
    assert "' " + "KEY2" + " = '" == "' KEY2 = '";
  }

  lemma SingleKeyEntryFragment(k: string)
    ensures ParseStruct(SingleKeyEntry(k)).Success?
    ensures Sql(ParseStruct(SingleKeyEntry(k)).value) == "KEY = '" + k + "'"
  {
    SingleFieldTexts(Field("K", Tagged(Parameter, "KEY", SingleQuotes), StringValue(k)));
    QuotedKey("K", "KEY", k);
    var texts := ["KEY" + " = '" + k + "'"];
    assert NonEmpty(texts) == texts;
    assert "KEY" + " = '" == "KEY = '";
  }

  /** The fragments of two list entries. */
  lemma PairFragments(r0: Record, r1: Record)
    requires RecordWellFormed(r0) && RecordWellFormed(r1)
    ensures RecordsWellFormed([r0, r1])
    ensures EntryFragments([r0, r1]) == [Sql(ParseStruct(r0).value), Sql(ParseStruct(r1).value)]
  {
    assert [r0, r1][1..] == [r1];
    assert [r1][1..] == [];
  }

  /** A list field of two entries renders their fragments comma-joined. */
  lemma PairList(name: string, d: Directive, e0: Record, e1: Record, a: string, b: string)
    requires d.kind == List && RecordWellFormed(e0) && RecordWellFormed(e1)
    requires Sql(ParseStruct(e0).value) == a && Sql(ParseStruct(e1).value) == b
    ensures ParseStruct(Record([Field(name, d, ListValue([e0, e1]))])).Success?
    ensures Texts(ParseStruct(Record([Field(name, d, ListValue([e0, e1]))])).value) ==
      [(if d.db == "" then "" else d.db + " ")
       + (if d.noParentheses then a + "," + b else "(" + (a + "," + b) + ")")]
  {
    PairFragments(e0, e1);
    ListShape(name, d, [e0, e1]);
    SingleFieldTexts(Field(name, d, ListValue([e0, e1])));
    JoinPair(",", a, b);
  }

  /** A list with a `db` name renders its entries comma-joined in
      parentheses, each entry's own clauses space-joined, whatever the
      entries' values. */
  lemma TaggedList(k1: string, k2: string, k3: string, k4: string)
    ensures ParseStruct(Record([Field("List", Tagged(List, "TAG", NoQuotes),
              ListValue([KeyEntry(k1, k2), KeyEntry(k3, k4)]))])).Success?
    ensures Texts(ParseStruct(Record([Field("List", Tagged(List, "TAG", NoQuotes),
              ListValue([KeyEntry(k1, k2), KeyEntry(k3, k4)]))])).value) ==
      ["TAG (" + ("KEY = '" + k1 + "' KEY2 = '" + k2 + "'") + "," + ("KEY = '" + k3 + "' KEY2 = '" + k4 + "'") + ")"]
  {
    KeyEntryFragment(k1, k2);
    KeyEntryFragment(k3, k4);
    var a, b := "KEY = '" + k1 + "' KEY2 = '" + k2 + "'", "KEY = '" + k3 + "' KEY2 = '" + k4 + "'";
    PairList("List", Tagged(List, "TAG", NoQuotes), KeyEntry(k1, k2), KeyEntry(k3, k4), a, b);
    assert "TAG" + " " + ("(" + (a + "," + b) + ")") == "TAG (" + a + "," + b + ")";
  }

  /** A list with no entries yields no clause. */
  lemma NilListField()
    ensures ParseStruct(Record([Field("List", Tagged(List, "", NoQuotes), Unset)])) == Success([])
  {
    assert [Field("List", Tagged(List, "", NoQuotes), Unset)][1..] == [];
  }

  /** With `no_parentheses` and no `db` name the entries are only
      comma-joined. */
  lemma BareList(k1: string, k2: string)
    ensures ParseStruct(Record([Field("List", Directive(List, "", NoQuotes, true),
              ListValue([SingleKeyEntry(k1), SingleKeyEntry(k2)]))])).Success?
    ensures Texts(ParseStruct(Record([Field("List", Directive(List, "", NoQuotes, true),
              ListValue([SingleKeyEntry(k1), SingleKeyEntry(k2)]))])).value) ==
      [("KEY = '" + k1 + "'") + "," + ("KEY = '" + k2 + "'")]
  {
    SingleKeyEntryFragment(k1);
    SingleKeyEntryFragment(k2);
    var a, b := "KEY = '" + k1 + "'", "KEY = '" + k2 + "'";
    PairList("List", Directive(List, "", NoQuotes, true), SingleKeyEntry(k1), SingleKeyEntry(k2), a, b);
    assert "" + (a + "," + b) == a + "," + b;
  }

  /** `sql` with no clauses is empty. */
  lemma SqlNoClauses()
    ensures Sql([]) == ""
  {
  }

  /** `sql` of two clauses that both render something. */
  lemma SqlPair(c0: Clause, c1: Clause)
    requires Render(c0) != "" && Render(c1) != ""
    ensures Sql([c0, c1]) == Render(c0) + " " + Render(c1)
  {
    assert [c0, c1][1..] == [c1];
    TextsSingle(c1);
    var ts := [Render(c0), Render(c1)];
    assert Texts([c0, c1]) == ts;
    assert NonEmpty(ts) == ts;
    JoinPair(" ", Render(c0), Render(c1));
  }

  /** An unquoted parameter clause renders as `KEY = value`. */
  lemma UnquotedParameterRender(key: string, v: string)
    requires key != ""
    ensures Render(ParameterClause(key, StringScalar(v), "")) == key + " = " + v
  {
    assert key + " " + ("= " + v) == key + " = " + v;
  }

  /** `sql` of a static and a parameter clause whose quote designator is
      left empty, as in a zero-valued clause: `STATIC KEY = value`, for any
      token, name and value. */
  lemma SqlStaticAndParameter(token: string, key: string, v: string)
    requires token != "" && key != ""
    ensures Sql([StaticClause(token), ParameterClause(key, StringScalar(v), "")]) == token + " " + key + " = " + v
  {
    UnquotedParameterRender(key, v);
    SqlPair(StaticClause(token), ParameterClause(key, StringScalar(v), ""));
    assert token + " " + (key + " = " + v) == token + " " + key + " = " + v;
  }
}
