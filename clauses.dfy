/** The clause kinds the SQL builder produces, how each renders to text
    (the `String()` of the source's clause types), and the assembler `sql`
    that joins rendered clauses into one statement fragment. */
module Clauses {
  import opened Text
  import opened Modifiers

  /** A database object identifier. Its fully-qualified name is produced by
      the identifier types themselves, outside the builder; the model keeps
      only that name. */
  datatype ObjectIdentifier = ObjectIdentifier(fullyQualifiedName: string)

  /** A plain value carried by a keyword, command or parameter clause. */
  datatype Scalar = StringScalar(s: string) | IntScalar(i: int) | BoolScalar(b: bool)

  datatype Clause =
    | StaticClause(token: string)
    | KeywordClause(word: Scalar, qm: QuoteModifier)
    | CommandClause(key: string, value: Scalar, qm: QuoteModifier)
    | ParameterClause(key: string, value: Scalar, qm: QuoteModifier)
    | IdentifierClause(id: ObjectIdentifier)
    | ListClause(key: string, elements: seq<ListElement>, pm: ParenModifier)

  /** One element of a list clause: the clauses of one list entry. */
  datatype ListElement = ListElement(clauses: seq<Clause>)

  /** The text of a value: strings through the quote modifier, integers in
      canonical decimal (no leading zero, a minus sign only when negative),
      booleans as `true`/`false` (never quoted). */
  function RenderScalar(v: Scalar, qm: QuoteModifier): (r: string)
    ensures v.StringScalar? ==> r == HandleQuotes(qm, v.s)
    ensures v.IntScalar? ==> r == IntToString(v.i) && DecimalValue(r) == v.i
    ensures v.BoolScalar? ==> r == (if v.b then "true" else "false")
  {
    match v
    case StringScalar(s) => HandleQuotes(qm, s)
    case IntScalar(i) => IntToStringValue(i); IntToString(i)
    case BoolScalar(b) => if b then "true" else "false"
  }

  /** `String()` of a clause. A key of "" means the clause has no name and
      renders as its value alone. */
  function Render(c: Clause): string
    decreases c
  {
    match c
    case StaticClause(token) => token
    case KeywordClause(word, qm) => RenderScalar(word, qm)
    case CommandClause(key, value, qm) =>
      if key == "" then RenderScalar(value, qm)
      else key + " " + RenderScalar(value, qm)
    case ParameterClause(key, value, qm) =>
      if key == "" then RenderScalar(value, qm)
      else key + " " + HandleEquals(Equals, RenderScalar(value, qm))
    case IdentifierClause(id) => id.fullyQualifiedName
    case ListClause(key, elements, pm) =>
      var body := HandleParentheses(pm, Join(",", ElementTexts(elements)));
      if key == "" then body else key + " " + body
  }

  /** Each list element rendered as its own statement fragment. */
  function ElementTexts(es: seq<ListElement>): (r: seq<string>)
    decreases es
  {
    if es == [] then [] else [Sql(es[0].clauses)] + ElementTexts(es[1..])
  }

  /** The rendered text of every clause, in order. */
  function Texts(cs: seq<Clause>): (r: seq<string>)
    decreases cs, 0
  {
    if cs == [] then [] else [Render(cs[0])] + Texts(cs[1..])
  }

  /** The strings of `ts` that are not empty, in their order. */
  function NonEmpty(ts: seq<string>): (r: seq<string>)
    ensures |r| <= |ts|
    ensures forall i :: 0 <= i < |r| ==> r[i] != ""
    ensures (forall i :: 0 <= i < |ts| ==> ts[i] != "") ==> r == ts
  {
    if ts == [] then []
    else if ts[0] == "" then NonEmpty(ts[1..])
    else [ts[0]] + NonEmpty(ts[1..])
  }

  /** The assembler `sql(clauses...)`: the non-empty clause texts joined by
      single spaces. */
  function Sql(cs: seq<Clause>): (r: string)
    decreases cs, 1
    ensures cs == [] ==> r == ""
  {
    Join(" ", NonEmpty(Texts(cs)))
  }

  lemma TextsSingle(c: Clause)
    ensures Texts([c]) == [Render(c)]
  {
    assert [c][1..] == [];
  }

  /** The text of each clause kind: a static token as itself; a keyword as
      its value; a command as `NAME value` and a parameter as `NAME = value`,
      or the bare value when unnamed; an identifier as its fully-qualified
      name; a list as its optional name and a space, then its elements'
      fragments joined by bare commas, in parentheses under `Parentheses`. */
  lemma RenderShapes(c: Clause)
    ensures c.StaticClause? ==> Render(c) == c.token
    ensures c.KeywordClause? ==> Render(c) == RenderScalar(c.word, c.qm)
    ensures (c.CommandClause? || c.ParameterClause?) && c.key == "" ==> Render(c) == RenderScalar(c.value, c.qm)
    ensures c.CommandClause? && c.key != "" ==> Render(c) == c.key + " " + RenderScalar(c.value, c.qm)
    ensures c.ParameterClause? && c.key != "" ==> Render(c) == c.key + " = " + RenderScalar(c.value, c.qm)
    ensures c.IdentifierClause? ==> Render(c) == c.id.fullyQualifiedName
    ensures c.ListClause? ==>
      Render(c) == (if c.key == "" then "" else c.key + " ")
                   + (if c.pm == Parentheses then "(" + Join(",", ElementTexts(c.elements)) + ")"
                      else Join(",", ElementTexts(c.elements)))
  {
    if c.ParameterClause? && c.key != "" {
      var v := RenderScalar(c.value, c.qm);
      assert c.key + " " + ("= " + v) == c.key + " = " + v;
    }
    if c.ListClause? && c.key == "" {
      var body := HandleParentheses(c.pm, Join(",", ElementTexts(c.elements)));
      assert "" + body == body;
    }
  }

  /** A single clause is its own statement fragment. */
  lemma SqlSingle(c: Clause)
    ensures Sql([c]) == Render(c)
  {
    TextsSingle(c);
    assert [Render(c)][1..] == [];
  }

  lemma {:induction false} TextsAppend(a: seq<Clause>, b: seq<Clause>)
    ensures Texts(a + b) == Texts(a) + Texts(b)
  {
    if a != [] {
      assert (a + b)[1..] == a[1..] + b;
      TextsAppend(a[1..], b);
    } else {
      assert a + b == b;
    }
  }

  lemma {:induction false} NonEmptyAppend(x: seq<string>, y: seq<string>)
    ensures NonEmpty(x + y) == NonEmpty(x) + NonEmpty(y)
  {
    if x != [] {
      assert (x + y)[1..] == x[1..] + y;
      NonEmptyAppend(x[1..], y);
    } else {
      assert x + y == y;
    }
  }

  /** A fragment is empty exactly when no clause renders any text. */
  lemma {:induction false} SqlEmpty(cs: seq<Clause>)
    ensures Sql(cs) == "" <==> forall i :: 0 <= i < |cs| ==> Render(cs[i]) == ""
  {
    var ts := NonEmpty(Texts(cs));
    if cs != [] {
      SqlEmpty(cs[1..]);
      assert Texts(cs) == [Render(cs[0])] + Texts(cs[1..]);
      if Render(cs[0]) != "" {
        assert ts[0] == Render(cs[0]);
        assert Sql(cs)[..|ts[0]|] == ts[0];
      } else {
        assert ts == NonEmpty(Texts(cs[1..]));
        forall i | 0 <= i < |cs[1..]|
          ensures cs[1..][i] == cs[i + 1]
        {
        }
      }
    }
  }

  /** The assembler is compositional: the fragment of two clause lists is
      the fragment of each, joined by exactly one space when both are
      non-empty. No clause is dropped, reordered or duplicated. */
  lemma SqlAppend(a: seq<Clause>, b: seq<Clause>)
    ensures Sql(a + b) ==
      if Sql(a) == "" then Sql(b)
      else if Sql(b) == "" then Sql(a)
      else Sql(a) + " " + Sql(b)
  {
    TextsAppend(a, b);
    NonEmptyAppend(Texts(a), Texts(b));
    var x, y := NonEmpty(Texts(a)), NonEmpty(Texts(b));
    assert NonEmpty(Texts(a + b)) == x + y;
    if x != [] && y != [] {
      JoinAppend(" ", x, y);
      assert Sql(a)[..|x[0]|] == x[0];
      assert Sql(b)[..|y[0]|] == y[0];
    } else if x == [] {
      assert x + y == y;
    } else {
      assert x + y == x;
    }
  }
}
