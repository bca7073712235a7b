/** Laws of the clause builder, for every input: what each kind of field
    renders to, that absent values leave no trace, that clauses follow field
    declaration order, and how list fields render their entries. */
module BuilderLaws {
  import opened Text
  import opened Modifiers
  import opened Clauses
  import opened Builder

  /** The texts of the clauses a well-formed field produces. */
  function FieldTexts(f: Field): seq<string>
    requires FieldWellFormed(f)
  {
    Texts(ParseField(f).value)
  }

  /** A boolean keyword is a presence flag: true renders its `db` name,
      unquoted whatever the quote designator; false and nil render nothing. */
  lemma BooleanKeyword(name: string, d: Directive, v: Value)
    requires d.kind == Keyword
    requires v.BoolValue? || v.Unset?
    ensures ParseField(Field(name, d, v)).Success?
    ensures FieldTexts(Field(name, d, v)) == if v == BoolValue(true) then [d.db] else []
  {
    var r := ParseField(Field(name, d, v));
    if r.value != [] {
      TextsSingle(r.value[0]);
    }
  }

  /** A string keyword renders as its value, quoted as the directive says;
      an integer keyword as its decimal text. */
  lemma ValueKeyword(name: string, d: Directive, v: Value)
    requires d.kind == Keyword
    requires v.StringValue? || v.IntValue?
    ensures ParseField(Field(name, d, v)).Success?
    ensures v.StringValue? ==> FieldTexts(Field(name, d, v)) == [HandleQuotes(d.quotes, v.s)]
    ensures v.IntValue? ==> FieldTexts(Field(name, d, v)) == [IntToString(v.i)]
  {
    var r := ParseField(Field(name, d, v));
    if r.value != [] {
      TextsSingle(r.value[0]);
    }
  }

  /** A command renders as `NAME value`: the name untouched, one space, then
      the value (quoted if it is a string, in decimal if an integer). With no
      `db` name only the value is rendered. */
  lemma CommandShape(name: string, d: Directive, v: Value)
    requires d.kind == Command
    requires v.BoolValue? || v.StringValue? || v.IntValue?
    ensures ParseField(Field(name, d, v)).Success?
    ensures FieldTexts(Field(name, d, v)) ==
      [(if d.db == "" then "" else d.db + " ") + RenderScalar(ScalarOf(v), d.quotes)]
  {
    var r := ParseField(Field(name, d, v));
    TextsSingle(r.value[0]);
    var text := RenderScalar(ScalarOf(v), d.quotes);
    if d.db == "" {
      assert "" + text == text;
    }
  }

  /** A parameter renders as `NAME = value`; with no `db` name only the
      value is rendered. */
  lemma ParameterShape(name: string, d: Directive, v: Value)
    requires d.kind == Parameter
    requires v.BoolValue? || v.StringValue? || v.IntValue?
    ensures ParseField(Field(name, d, v)).Success?
    ensures FieldTexts(Field(name, d, v)) ==
      [(if d.db == "" then "" else d.db + " = ") + RenderScalar(ScalarOf(v), d.quotes)]
  {
    var r := ParseField(Field(name, d, v));
    TextsSingle(r.value[0]);
    var text := RenderScalar(ScalarOf(v), d.quotes);
    if d.db == "" {
      assert "" + text == text;
    } else {
      assert d.db + " " + ("= " + text) == d.db + " = " + text;
    }
  }

  /** An identifier field renders as the identifier's fully-qualified name. */
  lemma IdentifierShape(name: string, d: Directive, id: ObjectIdentifier)
    requires d.kind == Identifier
    ensures FieldTexts(Field(name, d, IdentifierValue(id))) == [id.fullyQualifiedName]
  {
    var r := ParseField(Field(name, d, IdentifierValue(id)));
    if r.value != [] {
      TextsSingle(r.value[0]);
    }
  }

  /** A static field renders as its `db` token whatever its value. */
  lemma StaticShape(name: string, d: Directive, v: Value)
    requires d.kind == Static
    ensures FieldTexts(Field(name, d, v)) == [d.db]
  {
    var r := ParseField(Field(name, d, v));
    if r.value != [] {
      TextsSingle(r.value[0]);
    }
  }

  /** The statement fragment of each list entry, in entry order. */
  function EntryFragments(rs: seq<Record>): (r: seq<string>)
    requires RecordsWellFormed(rs)
    ensures |r| == |rs|
  {
    if rs == [] then [] else [Sql(ParseStruct(rs[0]).value)] + EntryFragments(rs[1..])
  }

  /** Parsing the entries of a list and rendering each element gives each
      entry's own fragment: entries are rendered independently and in order. */
  lemma {:induction false} ElementTextsOfEntries(rs: seq<Record>)
    requires RecordsWellFormed(rs)
    ensures ParseEntries(rs).Success?
    ensures ElementTexts(ParseEntries(rs).value) == EntryFragments(rs)
  {
    if rs != [] {
      ElementTextsOfEntries(rs[1..]);
      var els := ParseEntries(rs).value;
      assert els == [ListElement(ParseStruct(rs[0]).value)] + ParseEntries(rs[1..]).value;
      assert els[1..] == ParseEntries(rs[1..]).value;
    }
  }

  /** A non-empty list renders as one clause: its `db` name and a space (when
      it has one), then the fragments of its entries — each entry's clauses
      space-joined — joined by bare commas, in parentheses unless
      `no_parentheses` was given. */
  lemma ListShape(name: string, d: Directive, rs: seq<Record>)
    requires d.kind == List && rs != []
    requires RecordsWellFormed(rs)
    ensures FieldWellFormed(Field(name, d, ListValue(rs)))
    ensures FieldTexts(Field(name, d, ListValue(rs))) ==
      [(if d.db == "" then "" else d.db + " ")
       + (if d.noParentheses then Join(",", EntryFragments(rs))
          else "(" + Join(",", EntryFragments(rs)) + ")")]
  {
    ElementTextsOfEntries(rs);
    var els := ParseEntries(rs).value;
    var joined := Join(",", EntryFragments(rs));
    var pm := if d.noParentheses then NoParentheses else Parentheses;
    var c := ListClause(d.db, els, pm);
    assert ParseField(Field(name, d, ListValue(rs))) == Success([c]);
    TextsSingle(c);
    var body := HandleParentheses(pm, joined);
    assert Render(c) == if d.db == "" then body else d.db + " " + body;
    if d.db == "" {
      assert "" + body == body;
    }
  }

  /** A list with no entries, nil or empty, contributes no clause. */
  lemma EmptyList(name: string, d: Directive, v: Value)
    requires d.kind == List
    requires v.Unset? || v == ListValue([])
    ensures ParseField(Field(name, d, v)) == Success([])
  {
  }

  /** The first failure of two results, or the concatenation of both
      successes. */
  function AndThen(a: Result<seq<Clause>>, b: Result<seq<Clause>>): Result<seq<Clause>>
  {
    match a
    case Failure(e) => Failure(e)
    case Success(x) =>
      match b
      case Failure(e) => Failure(e)
      case Success(y) => Success(x + y)
  }

  /** Field order is clause order: the clauses of `fs + gs` are those of `fs`
      followed by those of `gs`, and a failure in `fs` wins over one in `gs`. */
  lemma {:induction false} ParseFieldsAppend(fs: seq<Field>, gs: seq<Field>)
    ensures ParseFields(fs + gs) == AndThen(ParseFields(fs), ParseFields(gs))
  {
    if fs == [] {
      assert fs + gs == gs;
      match ParseFields(gs)
      case Failure(_) =>
      case Success(y) => assert [] + y == y;
    } else {
      assert (fs + gs)[0] == fs[0];
      assert (fs + gs)[1..] == fs[1..] + gs;
      ParseFieldsAppend(fs[1..], gs);
      match ParseField(fs[0])
      case Failure(_) =>
      case Success(h) =>
        match ParseFields(fs[1..])
        case Failure(_) =>
        case Success(t) =>
          match ParseFields(gs)
          case Failure(_) =>
          case Success(y) => assert h + (t + y) == (h + t) + y;
    }
  }

  /** Helper for the worked examples: the clause texts of a well-formed
      structure are those of its first field followed by those of the
      remaining fields (the one-field step of `StructTexts`). */
  lemma StructTextsCons(f: Field, rest: seq<Field>)
    requires FieldWellFormed(f) && FieldsWellFormed(rest)
    ensures ParseStruct(Record([f] + rest)).Success?
    ensures Texts(ParseStruct(Record([f] + rest)).value) == FieldTexts(f) + Texts(ParseFields(rest).value)
  {
    assert ([f] + rest)[0] == f;
    assert ([f] + rest)[1..] == rest;
    TextsAppend(ParseField(f).value, ParseFields(rest).value);
  }

  /** The rendered clauses of each field, concatenated in declaration
      order. */
  function FieldsTexts(fs: seq<Field>): seq<string>
    requires FieldsWellFormed(fs)
  {
    if fs == [] then [] else FieldTexts(fs[0]) + FieldsTexts(fs[1..])
  }

  /** Field order is text order: the clause texts of a well-formed structure
      are those of its fields, one field after another, in declaration
      order. */
  lemma {:induction false} StructTexts(fs: seq<Field>)
    requires FieldsWellFormed(fs)
    ensures ParseFields(fs).Success?
    ensures Texts(ParseFields(fs).value) == FieldsTexts(fs)
  {
    if fs != [] {
      StructTexts(fs[1..]);
      TextsAppend(ParseField(fs[0]).value, ParseFields(fs[1..]).value);
    }
  }

  /** The absence law at statement level: inserting an unset optional field
      anywhere among the fields changes neither the clauses nor any error. */
  lemma UnsetFieldInvisible(fs: seq<Field>, f: Field, gs: seq<Field>)
    requires f.directive.kind != Static && f.value.Unset?
    ensures ParseFields(fs + [f] + gs) == ParseFields(fs + gs)
  {
    ParseFieldsAppend(fs + [f], gs);
    ParseFieldsAppend(fs, [f]);
    ParseFieldsAppend(fs, gs);
    assert ParseFields([f]) == Success([]) by {
      assert [f][1..] == [];
    }
    match ParseFields(fs)
    case Failure(_) =>
    case Success(x) => assert x + [] == x;
  }

  /** A structure whose optional fields are all unset yields no clause. */
  lemma {:induction false} AllUnsetYieldsNothing(fs: seq<Field>)
    requires forall i :: 0 <= i < |fs| ==> fs[i].directive.kind != Static && fs[i].value.Unset?
    ensures ParseFields(fs) == Success([])
  {
    if fs != [] {
      AllUnsetYieldsNothing(fs[1..]);
    }
  }

  /** Statement fragments compose along field order: the fragment of two
      field lists is the fragment of each, separated by one space when both
      render something. */
  lemma SqlOfFieldsAppend(fs: seq<Field>, gs: seq<Field>)
    requires FieldsWellFormed(fs) && FieldsWellFormed(gs)
    ensures ParseFields(fs + gs).Success?
    ensures var a, b := Sql(ParseFields(fs).value), Sql(ParseFields(gs).value);
      Sql(ParseFields(fs + gs).value) ==
        if a == "" then b else if b == "" then a else a + " " + b
  {
    ParseFieldsAppend(fs, gs);
    SqlAppend(ParseFields(fs).value, ParseFields(gs).value);
  }
}
