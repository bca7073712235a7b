/** The four rendering-modifier families of the SQL builder. Each family is a
    string-valued designator (as in the source, where every modifier type is
    a named string type), with a no-op designator, one active designator
    (two for quoting: `double_quotes` and `single_quotes`) and a handler that
    rewrites text. Every designator the family does not know behaves exactly
    like the no-op one. */
module Modifiers {
  import opened Text

  type ReverseModifier = string
  type EqualsModifier = string
  type ParenModifier = string
  type QuoteModifier = string

  const NoReverse: ReverseModifier := "no_reverse"
  const Reverse: ReverseModifier := "reverse"

  const NoEquals: EqualsModifier := "no_equals"
  const Equals: EqualsModifier := "equals"

  const NoParentheses: ParenModifier := "no_parentheses"
  const Parentheses: ParenModifier := "parentheses"

  const NoQuotes: QuoteModifier := "no_quotes"
  const DoubleQuotes: QuoteModifier := "double_quotes"
  const SingleQuotes: QuoteModifier := "single_quotes"

  /** `s` is `inner` with `open` in front and `close` behind. */
  predicate Wraps(s: string, open: char, inner: string, close: char)
  {
    |s| == |inner| + 2 && s[0] == open && s[|s| - 1] == close && s[1..|s| - 1] == inner
  }

  /** The designators that actually quote, and the character each uses. */
  predicate IsQuoting(qm: QuoteModifier)
  {
    qm == DoubleQuotes || qm == SingleQuotes
  }

  function QuoteChar(qm: QuoteModifier): char
    requires IsQuoting(qm)
  {
    if qm == DoubleQuotes then '"' else '\''
  }

  /** Token order: the words space-joined, last word first under `Reverse`
      and in their given order under any other designator. */
  function HandleReverse(rm: ReverseModifier, words: seq<string>): (r: string)
    ensures rm != Reverse ==> r == Join(" ", words)
    ensures rm == Reverse ==> r == Join(" ", Reversed(words))
    ensures rm == Reverse && |words| == 2 ==> r == words[1] + " " + words[0]
  {
    Join(" ", if rm == Reverse then Reversed(words) else words)
  }

  /** Equals sign: `= v` under `Equals`, `v` itself under any other
      designator. */
  function HandleEquals(em: EqualsModifier, v: string): (r: string)
    ensures em == Equals <==> r != v
    ensures em == Equals ==> |r| == |v| + 2 && r[..2] == "= " && r[2..] == v
  {
    if em == Equals then "= " + v else v
  }

  /** Parentheses: `(v)` under `Parentheses`, `v` itself under any other
      designator. */
  function HandleParentheses(pm: ParenModifier, v: string): (r: string)
    ensures pm == Parentheses <==> r != v
    ensures pm == Parentheses ==> Wraps(r, '(', v, ')')
  {
    if pm == Parentheses then "(" + v + ")" else v
  }

  /** Quoting: `"v"` under `DoubleQuotes`, `'v'` under `SingleQuotes`, `v`
      itself under `NoQuotes` and every unknown designator. */
  function HandleQuotes(qm: QuoteModifier, v: string): (r: string)
    ensures IsQuoting(qm) <==> r != v
    ensures IsQuoting(qm) ==> Wraps(r, QuoteChar(qm), v, QuoteChar(qm))
  {
    if qm == DoubleQuotes then "\"" + v + "\""
    else if qm == SingleQuotes then "'" + v + "'"
    else v
  }

  /** Under `Reverse` the words come out last first: reading them back and
      reversing again recovers the original list, so nothing is lost or
      merged, provided no word holds a space. */
  lemma {:induction false} ReverseWordsRecoverable(words: seq<string>)
    requires words != []
    requires forall i :: 0 <= i < |words| ==> ' ' !in words[i]
    ensures Reversed(Split(' ', HandleReverse(Reverse, words))) == words
  {
    var rev := Reversed(words);
    forall i | 0 <= i < |rev|
      ensures ' ' !in rev[i]
    {
      assert rev[i] == words[|words| - 1 - i];
    }
    SplitJoin(' ', rev);
    ReversedTwice(words);
  }

  /** A designator a family does not know renders exactly like that family's
      no-op designator, whatever the other families make of it. */
  lemma UnknownModifiersAreIdentity(d: string, words: seq<string>, v: string)
    ensures d !in {NoReverse, Reverse} ==>
      HandleReverse(d, words) == HandleReverse(NoReverse, words)
    ensures d !in {NoEquals, Equals} ==>
      HandleEquals(d, v) == HandleEquals(NoEquals, v) == v
    ensures d !in {NoParentheses, Parentheses} ==>
      HandleParentheses(d, v) == HandleParentheses(NoParentheses, v) == v
    ensures d !in {NoQuotes, DoubleQuotes, SingleQuotes} ==>
      HandleQuotes(d, v) == HandleQuotes(NoQuotes, v) == v
  {
  }
}
