# SQL clause builder of the Snowflake SDK, modelled in Dafny

The `sdk` package of the Terraform provider for Snowflake builds SQL
statements from annotated structures. Each field carries a `ddl` tag naming a
clause kind (`static`, `keyword`, `command`, `parameter`, `identifier`,
`list`) plus optional modifiers (`double_quotes`, `single_quotes`,
`no_parentheses`), and an optional `db` tag with the SQL name. The builder has
three steps:

- `parseField` turns one field into zero or one clause.
- `parseStruct` collects the clauses of every field in declaration order. For
  a `list` field it renders each entry as a structure of its own.
- `sql` joins the rendered clauses with single spaces.

Four modifier families (reverse, equals, parentheses, quotes) rewrite text.
Each has a no-op designator and one active designator (quotes has two,
`double_quotes` and `single_quotes`); any designator a family does not know
acts as that family's no-op.

The model is purely functional:

- `text.dfy`: `Join` and `Split`, list reversal, decimal rendering of
  integers.
- `modifiers.dfy`: the four modifier families.
- `clauses.dfy`: the clause kinds, their `String()` rendering (`Render`), and
  the assembler `Sql`.
- `builder.dfy`: field directives, field values, `ParseField`,
  `ParseStruct` and list entries.
- `builder_laws.dfy`: laws that hold for every input. These cover the shape
  of each kind, absence, declaration order and list rendering.
- `builder_examples.dfy`: each assertion of the builder's test file, restated
  as a lemma over the model.

A field's tags become an explicit `Directive`, with no reflection. A missing
`db` tag is the empty name `""`. A nil pointer or nil slice is `Unset`.

The implementation file of the builder is not part of this model. Its
behaviour is taken from `pkg/sdk/sql_builder_test.go`, which pins it down case
by case. Where that file is silent, the model makes these choices:

- A field whose value does not fit its kind (for instance a `list` kind on a
  string) is a `MalformedDirective` error.
- Booleans render as `true`/`false`.
- Only string values are quoted.
- `sql` skips clauses whose text is empty, so an empty clause adds no
  separator; spaces inside a clause's own text are kept as they are.

## Model

| member | source | states |
|---|---|---|
| Modifiers.HandleReverse | pkg/sdk/sql_builder_test.go:346-363 | words are space-joined in order under any designator but `reverse`, which is what `Modify` gives for `no_reverse` and an unknown designator (:355-361); under `reverse` they are space-joined last word first (the independently specified `Reversed` order), so a pair comes out swapped |
| Modifiers.HandleEquals | pkg/sdk/sql_builder_test.go:365-386 | the text changes exactly when the designator is `equals`, and then it is `= ` followed by the value |
| Modifiers.HandleParentheses | pkg/sdk/sql_builder_test.go:388-409 | the text changes exactly when the designator is `parentheses`, and then it is the value wrapped in `(` `)` |
| Modifiers.HandleQuotes | pkg/sdk/sql_builder_test.go:411-439 | the text changes exactly under `double_quotes`/`single_quotes`, and then it is the value wrapped in that quote character on both sides |
| Modifiers.ReverseWordsRecoverable | pkg/sdk/sql_builder_test.go:347-352 | under `reverse`, splitting the output at spaces and reversing again gives back the input words, for a non-empty list of words none of which holds a space |
| Modifiers.UnknownModifiersAreIdentity | pkg/sdk/sql_builder_test.go:346-439 | for each family separately, a designator that family does not know renders exactly like its no-op designator |
| Clauses.RenderScalar | pkg/sdk/sql_builder_test.go:13-302 | strings go through the quote modifier; an integer renders as its canonical decimal text (`Text.IntToString`: a minus sign exactly when negative, digits only, no leading zero, `0` for zero), which reads back as that integer; booleans are `true`/`false` |
| Clauses.RenderShapes | pkg/sdk/sql_builder_test.go:27-617 | the `String()` of each clause kind: a static token as itself, a keyword as its value, a command as `NAME value` and a parameter as `NAME = value` (the bare value when unnamed), an identifier as its fully-qualified name, a list as its optional name and a space then its elements' fragments comma-joined, in parentheses under `parentheses` |
| Clauses.Sql | pkg/sdk/sql_builder_test.go:602-605 | `sql` of no clauses is `""`; its general behaviour is stated by `Clauses.SqlSingle`, `Clauses.SqlEmpty` and `Clauses.SqlAppend` |
| Clauses.SqlSingle | pkg/sdk/sql_builder_test.go:599-618 | a single clause is its own statement fragment |
| Clauses.SqlEmpty | pkg/sdk/sql_builder_test.go:602-605 | a fragment is empty exactly when every clause renders empty, so no clauses give `""` |
| Clauses.SqlAppend | pkg/sdk/sql_builder_test.go:607-617 | the fragment of two clause lists is each one's fragment joined by exactly one space when both are non-empty; nothing is dropped or reordered |
| Builder.ParseField | pkg/sdk/sql_builder_test.go:11-337 | succeeds exactly on well-formed fields; yields one clause exactly when the field is present, else none; a static field always yields its token; any other unset field yields nothing |
| Builder.ParseEntries | pkg/sdk/sql_builder_test.go:555-596 | succeeds exactly when every entry is well formed, with one element per entry |
| Builder.ParseStruct | pkg/sdk/sql_builder_test.go:530-553 | succeeds exactly on well-formed structures, with one clause per present field; a structure with no fields yields no clause |
| Builder.ParseFields | pkg/sdk/sql_builder_test.go:539-553 | succeeds exactly when every field is well formed, with one clause per present field |
| BuilderLaws.BooleanKeyword | pkg/sdk/sql_builder_test.go:13-58 | a true boolean keyword renders its `db` name unquoted; false or nil renders nothing |
| BuilderLaws.ValueKeyword | pkg/sdk/sql_builder_test.go:60-123 | a string keyword renders its value through the quote modifier; an integer keyword renders in decimal |
| BuilderLaws.CommandShape | pkg/sdk/sql_builder_test.go:125-205 | a command renders as `NAME value`, or just the value without a `db` name; only the value is quoted |
| BuilderLaws.ParameterShape | pkg/sdk/sql_builder_test.go:239-336 | a parameter renders as `NAME = value`, or just the value without a `db` name; only the value is quoted |
| BuilderLaws.IdentifierShape | pkg/sdk/sql_builder_test.go:549-550 | an identifier field renders as the identifier's fully-qualified name |
| BuilderLaws.StaticShape | pkg/sdk/sql_builder_test.go:207-237 | a static field renders its `db` token whatever its value, nil included |
| BuilderLaws.ElementTextsOfEntries | pkg/sdk/sql_builder_test.go:555-569 | each list element renders as its own entry's fragment, in entry order |
| BuilderLaws.ListShape | pkg/sdk/sql_builder_test.go:555-596 | a non-empty list renders as one clause: the `db` name and a space if it has one, then the entry fragments joined by bare commas, in parentheses unless `no_parentheses` was given |
| BuilderLaws.EmptyList | pkg/sdk/sql_builder_test.go:571-581 | a nil or empty list yields no clause and no error |
| BuilderLaws.ParseFieldsAppend | pkg/sdk/sql_builder_test.go:539-553 | the clauses of two field lists are those of the first followed by those of the second, and the first failure wins |
| BuilderLaws.StructTexts | pkg/sdk/sql_builder_test.go:539-553 | the clause texts of a well-formed structure are those of its fields, in declaration order |
| BuilderLaws.UnsetFieldInvisible | pkg/sdk/sql_builder_test.go:11-581 | the nil-value tests of the boolean and string keyword, command, parameter and list kinds, lifted to a structure: inserting an unset non-static field anywhere among the fields changes neither the clauses nor any error |
| BuilderLaws.AllUnsetYieldsNothing | pkg/sdk/sql_builder_test.go:11-337 | a structure whose fields are all unset and non-static yields no clause, as the nil-value tests of the boolean and string keyword, command and parameter kinds expect |
| BuilderLaws.SqlOfFieldsAppend | pkg/sdk/sql_builder_test.go:599-618 | the statement fragment of two field lists is each one's fragment, separated by one space when both are non-empty |
| BuilderExamples.BooleanKeywordTrue | pkg/sdk/sql_builder_test.go:13-28 | `EXAMPLE_KEYWORD` for a true boolean keyword |
| BuilderExamples.BooleanKeywordFalse | pkg/sdk/sql_builder_test.go:30-44 | no clause for a false boolean keyword |
| BuilderExamples.BooleanKeywordNil | pkg/sdk/sql_builder_test.go:46-58 | no clause for a nil boolean keyword |
| BuilderExamples.StringKeywordWithValue | pkg/sdk/sql_builder_test.go:60-75 | `example` for a string keyword |
| BuilderExamples.StringKeywordNil | pkg/sdk/sql_builder_test.go:77-89 | no clause for a nil string keyword |
| BuilderExamples.StringKeywordDoubleQuoted | pkg/sdk/sql_builder_test.go:91-106 | `"example"` under `double_quotes` |
| BuilderExamples.StringKeywordSingleQuoted | pkg/sdk/sql_builder_test.go:108-123 | `'example'` under `single_quotes` |
| BuilderExamples.CommandWithValue | pkg/sdk/sql_builder_test.go:125-140 | `EXAMPLE_COMMAND example` |
| BuilderExamples.CommandNil | pkg/sdk/sql_builder_test.go:142-154 | no clause for a nil command |
| BuilderExamples.CommandDoubleQuoted | pkg/sdk/sql_builder_test.go:156-171 | `EXAMPLE_COMMAND "example"` |
| BuilderExamples.CommandSingleQuoted | pkg/sdk/sql_builder_test.go:173-188 | `EXAMPLE_COMMAND 'example'` |
| BuilderExamples.CommandInteger | pkg/sdk/sql_builder_test.go:190-205 | `EXAMPLE_COMMAND 1` |
| BuilderExamples.StaticSet | pkg/sdk/sql_builder_test.go:207-222 | `EXAMPLE_STATIC` for a set static field |
| BuilderExamples.StaticNil | pkg/sdk/sql_builder_test.go:224-237 | `EXAMPLE_STATIC` for a nil static field too |
| BuilderExamples.ParameterWithValue | pkg/sdk/sql_builder_test.go:239-254 | `EXAMPLE_PARAMETER = example` |
| BuilderExamples.ParameterNil | pkg/sdk/sql_builder_test.go:256-268 | no clause for a nil parameter |
| BuilderExamples.ParameterDoubleQuoted | pkg/sdk/sql_builder_test.go:270-285 | `EXAMPLE_PARAMETER = "example"` |
| BuilderExamples.ParameterSingleQuoted | pkg/sdk/sql_builder_test.go:287-302 | `EXAMPLE_PARAMETER = 'example'` |
| BuilderExamples.ParameterInteger | pkg/sdk/sql_builder_test.go:304-319 | `EXAMPLE_PARAMETER = 1` |
| BuilderExamples.ParameterWithoutName | pkg/sdk/sql_builder_test.go:321-336 | `example` for a parameter with no `db` name |
| BuilderExamples.ReverseModifierCases | pkg/sdk/sql_builder_test.go:346-363 | `DESC example` under `reverse`; `example DESC` under `no_reverse` and `unknown` |
| BuilderExamples.EqualsModifierCases | pkg/sdk/sql_builder_test.go:365-386 | `= example` under `equals`; `example` under `no_equals` and `unknown` |
| BuilderExamples.ParenModifierCases | pkg/sdk/sql_builder_test.go:388-409 | `(example)` under `parentheses`; `example` under `no_parentheses` and `unknown` |
| BuilderExamples.QuoteModifierCases | pkg/sdk/sql_builder_test.go:411-439 | `"example"`, `'example'`, and `example` under `no_quotes` and `unknown` |
| BuilderExamples.EmptyStruct | pkg/sdk/sql_builder_test.go:532-537 | a structure with no fields yields no clause and no error |
| BuilderExamples.HelperStructOrder | pkg/sdk/sql_builder_test.go:539-553 | the four fields, two of them unexported, render in declaration order as `EXAMPLE_STATIC`, the identifier's name, `EXAMPLE_PARAMETER = example`, `EXAMPLE_COMMAND example` |
| BuilderExamples.KeyEntryFragment | pkg/sdk/sql_builder_test.go:555-560 | a list entry with two single-quoted parameters renders as `KEY = 'k' KEY2 = 'k2'` |
| BuilderExamples.SingleKeyEntryFragment | pkg/sdk/sql_builder_test.go:583-586 | a list entry with one single-quoted parameter renders as `KEY = 'k'` |
| BuilderExamples.TaggedList | pkg/sdk/sql_builder_test.go:555-569 | `TAG (KEY = 'abc' KEY2 = 'def',KEY = '123' KEY2 = '456')`, for any entry values in place of abc, def, 123, 456 |
| BuilderExamples.NilListField | pkg/sdk/sql_builder_test.go:571-581 | a nil list field yields no clause |
| BuilderExamples.BareList | pkg/sdk/sql_builder_test.go:583-596 | `KEY = 'abc',KEY = '123'` under `no_parentheses` without a `db` name, for any entry values |
| BuilderExamples.SqlNoClauses | pkg/sdk/sql_builder_test.go:602-605 | `sql` of no clauses is `""` |
| BuilderExamples.SqlStaticAndParameter | pkg/sdk/sql_builder_test.go:607-617 | a static clause and a parameter clause with an empty quote designator give `STATIC KEY = value`, for any token, name and value |

## Left out

- Reflection and tag parsing: the builder reads `ddl`/`db` tags and field values by reflection. The model takes an explicit `Directive` and `Value` per field, so the syntax of tag strings is not modelled.
- `FullyQualifiedName()` of the identifier types: its format is defined outside the builder. An identifier value carries its name as an uninterpreted string.
- `Modify` versus `HandleReverse`/`HandleEquals`/`HandleParentheses`/`HandleQuotes`: the model has one function per family, so the two agree by construction. For equals, parentheses and quotes the tests check every designator through both. For reverse they check `HandleReverse` only under `reverse` (pkg/sdk/sql_builder_test.go:350); under `no_reverse` and an unknown designator the model gives `HandleReverse` the in-order behaviour the tests check only for `Modify` (:355-361).
- The disabled `parseUnexportedField` tests (pkg/sdk/sql_builder_test.go:441-521) are commented out and not modelled.
- Clauses.RenderScalar: Go integers are fixed-width. The model uses unbounded integers, so overflow is not modelled.
- Builder.ParseField: errors are modelled only for a value that does not fit its kind. Other malformed tags, fields without a `ddl` tag and nested non-list structures are not modelled.
- TaggedList, BareList and SqlStaticAndParameter are stated for arbitrary values. The tests' literal strings are one instance of each.
- pkg/resources/network_policy_attachment.go, pkg/resources/warehouse_acceptance_test.go and pkg/resources/table_constraint_acceptance_test.go are not part of this model. They are Terraform resource handlers and live-database tests, made of I/O against Snowflake.
