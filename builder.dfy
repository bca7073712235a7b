/** The tag-driven clause builder: `parseField` turns one field of a
    statement structure into zero or one clause, and `parseStruct` walks a
    structure's fields in declaration order, recursing into the entries of
    list fields.

    The source reads each field's `ddl` and `db` struct tags by reflection;
    here every field carries its directive explicitly. */
module Builder {
  import opened Modifiers
  import opened Clauses

  /** The clause kind named first in a field's `ddl` tag. */
  datatype Kind = Static | Keyword | Command | Parameter | Identifier | List

  /** Everything the tags of one field say: the kind, the `db` name ("" when
      the field has no `db` tag), the quote designator given in the `ddl`
      tag (`NoQuotes` when none is given) and, for lists, whether
      `no_parentheses` was given. */
  datatype Directive = Directive(kind: Kind, db: string, quotes: QuoteModifier, noParentheses: bool)

  /** The runtime value of a field. `Unset` is a nil pointer or nil slice. */
  datatype Value =
    | Unset
    | BoolValue(b: bool)
    | StringValue(s: string)
    | IntValue(i: int)
    | IdentifierValue(id: ObjectIdentifier)
    | ListValue(entries: seq<Record>)

  datatype Field = Field(name: string, directive: Directive, value: Value)

  /** A statement structure: its fields in declaration order, exported or
      not. */
  datatype Record = Record(fields: seq<Field>)

  datatype BuildError = MalformedDirective(field: string)

  datatype Result<T> = Success(value: T) | Failure(error: BuildError)

  /** Which value shapes a kind accepts. */
  predicate Accepts(kind: Kind, v: Value)
  {
    match kind
    case Static => true
    case Keyword | Command | Parameter =>
      v.Unset? || v.BoolValue? || v.StringValue? || v.IntValue?
    case Identifier => v.Unset? || v.IdentifierValue?
    case List => v.Unset? || v.ListValue?
  }

  /** A field whose directive fits its value, all the way down through the
      entries of a list. */
  predicate FieldWellFormed(f: Field)
    decreases f
  {
    && Accepts(f.directive.kind, f.value)
    && (f.directive.kind == List && f.value.ListValue? ==> RecordsWellFormed(f.value.entries))
  }

  predicate RecordWellFormed(r: Record)
    decreases r
  {
    FieldsWellFormed(r.fields)
  }

  predicate FieldsWellFormed(fs: seq<Field>)
    decreases fs
  {
    fs == [] || (FieldWellFormed(fs[0]) && FieldsWellFormed(fs[1..]))
  }

  predicate RecordsWellFormed(rs: seq<Record>)
    decreases rs
  {
    rs == [] || (RecordWellFormed(rs[0]) && RecordsWellFormed(rs[1..]))
  }

  /** Whether a field contributes a clause: a static field always does; a
      boolean keyword only when true; a list only when it has entries; any
      other field whenever it has a value. */
  predicate Present(f: Field)
  {
    match f.directive.kind
    case Static => true
    case Keyword => f.value.StringValue? || f.value.IntValue? || f.value == BoolValue(true)
    case Command | Parameter => f.value.BoolValue? || f.value.StringValue? || f.value.IntValue?
    case Identifier => f.value.IdentifierValue?
    case List => f.value.ListValue? && f.value.entries != []
  }

  /** Number of fields of `fs` that contribute a clause. */
  function PresentCount(fs: seq<Field>): nat
  {
    if fs == [] then 0 else (if Present(fs[0]) then 1 else 0) + PresentCount(fs[1..])
  }

  /** The scalar a keyword, command or parameter value renders from. */
  function ScalarOf(v: Value): Scalar
    requires v.BoolValue? || v.StringValue? || v.IntValue?
  {
    match v
    case BoolValue(b) => BoolScalar(b)
    case StringValue(s) => StringScalar(s)
    case IntValue(i) => IntScalar(i)
  }

  /** `parseField`: zero or one clause for one field. */
  function ParseField(f: Field): (r: Result<seq<Clause>>)
    decreases f
    ensures r.Success? <==> FieldWellFormed(f)
    ensures r.Success? ==> |r.value| == if Present(f) then 1 else 0
    ensures f.directive.kind == Static ==> r == Success([StaticClause(f.directive.db)])
    ensures f.directive.kind != Static && f.value.Unset? ==> r == Success([])
  {
    var d := f.directive;
    var scalar := f.value.BoolValue? || f.value.StringValue? || f.value.IntValue?;
    match d.kind
    case Static => Success([StaticClause(d.db)])
    case Keyword =>
      if f.value.Unset? then Success([])
      else if f.value.BoolValue? then
        if f.value.b then Success([KeywordClause(StringScalar(d.db), NoQuotes)]) else Success([])
      else if scalar then Success([KeywordClause(ScalarOf(f.value), d.quotes)])
      else Failure(MalformedDirective(f.name))
    case Command =>
      if f.value.Unset? then Success([])
      else if scalar then Success([CommandClause(d.db, ScalarOf(f.value), d.quotes)])
      else Failure(MalformedDirective(f.name))
    case Parameter =>
      if f.value.Unset? then Success([])
      else if scalar then Success([ParameterClause(d.db, ScalarOf(f.value), d.quotes)])
      else Failure(MalformedDirective(f.name))
    case Identifier =>
      if f.value.Unset? then Success([])
      else if f.value.IdentifierValue? then Success([IdentifierClause(f.value.id)])
      else Failure(MalformedDirective(f.name))
    case List =>
      if f.value.Unset? || (f.value.ListValue? && f.value.entries == []) then Success([])
      else if !f.value.ListValue? then Failure(MalformedDirective(f.name))
      else
        match ParseEntries(f.value.entries)
        case Failure(e) => Failure(e)
        case Success(elements) =>
          var pm := if d.noParentheses then NoParentheses else Parentheses;
          Success([ListClause(d.db, elements, pm)])
  }

  /** Every entry of a list parsed as a structure of its own; the first
      failure wins. */
  function ParseEntries(rs: seq<Record>): (r: Result<seq<ListElement>>)
    decreases rs
    ensures r.Success? <==> RecordsWellFormed(rs)
    ensures r.Success? ==> |r.value| == |rs|
  {
    if rs == [] then Success([])
    else
      match ParseStruct(rs[0])
      case Failure(e) => Failure(e)
      case Success(cs) =>
        match ParseEntries(rs[1..])
        case Failure(e) => Failure(e)
        case Success(rest) => Success([ListElement(cs)] + rest)
  }

  /** `parseStruct`: the clauses of all fields, in declaration order; the
      first failing field fails the whole structure. */
  function ParseStruct(rec: Record): (r: Result<seq<Clause>>)
    decreases rec
    ensures r.Success? <==> RecordWellFormed(rec)
    ensures r.Success? ==> |r.value| == PresentCount(rec.fields)
    ensures rec.fields == [] ==> r == Success([])
  {
    ParseFields(rec.fields)
  }

  function ParseFields(fs: seq<Field>): (r: Result<seq<Clause>>)
    decreases fs
    ensures r.Success? <==> FieldsWellFormed(fs)
    ensures r.Success? ==> |r.value| == PresentCount(fs)
  {
    if fs == [] then Success([])
    else
      match ParseField(fs[0])
      case Failure(e) => Failure(e)
      case Success(head) =>
        match ParseFields(fs[1..])
        case Failure(e) => Failure(e)
        case Success(tail) => Success(head + tail)
  }
}
