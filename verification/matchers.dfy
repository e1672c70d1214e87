/** The matcher gates of beancount_hledger_import_hooks/matchers.py, built
    from match-clause records, and `resolve_matcher_type`. */
module Matchers {
  import opened Wrappers
  import opened Text
  import opened Mappers
  import opened Errors
  import opened Query

  /** `[MatcherTemplate(template) for template in mapper.value]`: one
      template per element of the clause's value, that is, per character. */
  function Templates(value: string): (ts: seq<Node>)
    ensures |ts| == |value|
    ensures forall i | 0 <= i < |value| :: ts[i] == Leaf([value[i]])
  {
    if value == [] then [] else [Leaf([value[0]])] + Templates(value[1..])
  }

  /** `resolve_matcher_type`: each clause kind builds its own gate
      (`MatcherAnd`, `MatcherOr`, `MatcherNot`) over the per-character
      templates of its value; anything that is not a clause is a
      `ValueError`. The `isinstance` tests are read against the record
      classes themselves, without the `[T]` subscript. */
  function ResolveMatcherType(v: Value): (r: Result<Node, Error>)
    ensures r.Success? <==> v.Matcher?
    ensures r.Failure? ==> r.error == UnknownMatcherType(ValueText(v))
    ensures r.Success? ==> !r.value.Leaf? && r.value.children == Templates(v.m.value)
    ensures r.Success? ==> (r.value.And? <==> v.m.AndIs?) && (r.value.Or? <==> v.m.OrIs?)
                           && (r.value.Not? <==> v.m.IsNot?)
  {
    match v
    case Matcher(AndIs(value)) => Success(And(Templates(value)))
    case Matcher(OrIs(value)) => Success(Or(Templates(value)))
    case Matcher(IsNot(value)) => Success(Not(Templates(value)))
    case _ => Failure(UnknownMatcherType(ValueText(v)))
  }

  /** A resolved gate tests the clause's characters one by one: And needs
      every character's template to hold, Or some, Not none. */
  lemma ResolvedGateSemantics<C>(m: MatcherMapper, ctx: C, leaf: (string, C) -> bool)
    ensures ResolveMatcherType(Matcher(m)).Success?
    ensures var g := ResolveMatcherType(Matcher(m)).value;
      match m
      case AndIs(x) => Eval(g, ctx, leaf) <==> forall i | 0 <= i < |x| :: leaf([x[i]], ctx)
      case OrIs(x) => Eval(g, ctx, leaf) <==> exists i | 0 <= i < |x| :: leaf([x[i]], ctx)
      case IsNot(x) => Eval(g, ctx, leaf) <==> forall i | 0 <= i < |x| :: !leaf([x[i]], ctx)
  {
    var g := ResolveMatcherType(Matcher(m)).value;
    var ts := Templates(m.value);
    GateSemantics(ts, ctx, leaf);
    forall i | 0 <= i < |ts|
      ensures Eval(ts[i], ctx, leaf) == leaf([m.value[i]], ctx)
    {
    }
  }

  /** The gate a clause evidently means: its kind over one leaf holding the
      clause's whole expression. */
  function Clause(m: MatcherMapper): (g: Node)
    ensures g.Leaf? == false && |g.children| == 1 && g.children[0] == Leaf(m.value)
    ensures (g.And? <==> m.AndIs?) && (g.Or? <==> m.OrIs?) && (g.Not? <==> m.IsNot?)
  {
    match m
    case AndIs(x) => And([Leaf(x)])
    case OrIs(x) => Or([Leaf(x)])
    case IsNot(x) => Not([Leaf(x)])
  }

  /** Whether a clause holds: And and Or clauses when their expression is
      true, Not clauses when it is false. */
  predicate ClauseHolds<C>(m: MatcherMapper, ctx: C, leaf: (string, C) -> bool) {
    if m.IsNot? then !leaf(m.value, ctx) else leaf(m.value, ctx)
  }

  lemma ClauseSemantics<C>(m: MatcherMapper, ctx: C, leaf: (string, C) -> bool)
    ensures Eval(Clause(m), ctx, leaf) == ClauseHolds(m, ctx, leaf)
  {
    GateSemantics([Leaf(m.value)], ctx, leaf);
  }

  /** The substring leaf: the expression occurs in the narration. The test
      suite's leaves all reduce to it. */
  function SubstringLeaf(expr: string, narration: string): bool {
    Contains(narration, expr)
  }

  /** Splitting a clause into characters changes its meaning: the And clause
      "ab" holds on narration "ba" character by character, though "ab" is
      not a substring of "ba". */
  lemma PerCharacterTemplatesDiffer()
    ensures Eval(ResolveMatcherType(Matcher(AndIs("ab"))).value, "ba", SubstringLeaf)
    ensures !Eval(Clause(AndIs("ab")), "ba", SubstringLeaf)
  {
    ResolvedGateSemantics(AndIs("ab"), "ba", SubstringLeaf);
    assert IsPrefix("a", "ba"[1..]);
    assert IsPrefix("b", "ba"[0..]);
    ClauseSemantics(AndIs("ab"), "ba", SubstringLeaf);
    forall i | 0 <= i <= |"ba"|
      ensures !IsPrefix("ab", "ba"[i..])
    {
      if i == 0 {
        assert "ba"[0..][0] == 'b';
      }
    }
  }
}
