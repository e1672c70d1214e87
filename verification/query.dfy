/** Boolean gate trees (beancount_hledger_import_hooks/query.py): Or is
    any-of, And is all-of and Not is none-of its children. A leaf is an
    expression string whose truth on a context is decided by the `leaf`
    oracle (the interrogator). */
module Query {

  datatype Node =
    | Leaf(expr: string)
    | Or(children: seq<Node>)
    | And(children: seq<Node>)
    | Not(children: seq<Node>)

  /** `satisfies(context)` of a tree. */
  function Eval<C>(q: Node, ctx: C, leaf: (string, C) -> bool): bool
    decreases q, 1
  {
    match q
    case Leaf(e) => leaf(e, ctx)
    case Or(cs) => AnyHolds(cs, q, ctx, leaf)
    case And(cs) => AllHold(cs, q, ctx, leaf)
    case Not(cs) => !AnyHolds(cs, q, ctx, leaf)
  }

  /** Python's `any(...)` over the children, left to right. */
  function AnyHolds<C>(cs: seq<Node>, ghost parent: Node, ctx: C, leaf: (string, C) -> bool): (b: bool)
    requires forall i | 0 <= i < |cs| :: cs[i] < parent
    ensures b <==> exists i | 0 <= i < |cs| :: Eval(cs[i], ctx, leaf)
    decreases parent, 0, |cs|
  {
    if cs == [] then false
    else Eval(cs[0], ctx, leaf) || AnyHolds(cs[1..], parent, ctx, leaf)
  }

  /** Python's `all(...)` over the children, left to right. */
  function AllHold<C>(cs: seq<Node>, ghost parent: Node, ctx: C, leaf: (string, C) -> bool): (b: bool)
    requires forall i | 0 <= i < |cs| :: cs[i] < parent
    ensures b <==> forall i | 0 <= i < |cs| :: Eval(cs[i], ctx, leaf)
    decreases parent, 0, |cs|
  {
    if cs == [] then true
    else Eval(cs[0], ctx, leaf) && AllHold(cs[1..], parent, ctx, leaf)
  }

  /** The three gates, including their values with no children: Or of
      nothing is false, And and Not of nothing are true. */
  lemma GateSemantics<C>(cs: seq<Node>, ctx: C, leaf: (string, C) -> bool)
    ensures Eval(Or(cs), ctx, leaf) <==> exists i | 0 <= i < |cs| :: Eval(cs[i], ctx, leaf)
    ensures Eval(And(cs), ctx, leaf) <==> forall i | 0 <= i < |cs| :: Eval(cs[i], ctx, leaf)
    ensures Eval(Not(cs), ctx, leaf) <==> forall i | 0 <= i < |cs| :: !Eval(cs[i], ctx, leaf)
    ensures cs == [] ==> !Eval(Or(cs), ctx, leaf) && Eval(And(cs), ctx, leaf) && Eval(Not(cs), ctx, leaf)
  {
  }

  /** Not is the negation of Or over the same children, and with a single
      child it is the ordinary negation of that child. */
  lemma NotIsNegatedOr<C>(cs: seq<Node>, q: Node, ctx: C, leaf: (string, C) -> bool)
    ensures Eval(Not(cs), ctx, leaf) == !Eval(Or(cs), ctx, leaf)
    ensures Eval(Not([q]), ctx, leaf) == !Eval(q, ctx, leaf)
  {
    assert [q][0] == q;
  }

  /** Not over several children is the And of one single-child Not per child. */
  lemma NotIsAndOfNegations<C>(cs: seq<Node>, ctx: C, leaf: (string, C) -> bool)
    ensures Eval(Not(cs), ctx, leaf)
         == Eval(And(seq(|cs|, i requires 0 <= i < |cs| => Not([cs[i]]))), ctx, leaf)
  {
    var ns := seq(|cs|, i requires 0 <= i < |cs| => Not([cs[i]]));
    forall i | 0 <= i < |cs|
      ensures Eval(ns[i], ctx, leaf) == !Eval(cs[i], ctx, leaf)
    {
      NotIsNegatedOr([], cs[i], ctx, leaf);
    }
  }

  /** The order of a gate's children never matters. */
  lemma PermutationInvariant<C>(cs: seq<Node>, ds: seq<Node>, ctx: C, leaf: (string, C) -> bool)
    requires multiset(cs) == multiset(ds)
    ensures Eval(Or(cs), ctx, leaf) == Eval(Or(ds), ctx, leaf)
    ensures Eval(And(cs), ctx, leaf) == Eval(And(ds), ctx, leaf)
    ensures Eval(Not(cs), ctx, leaf) == Eval(Not(ds), ctx, leaf)
  {
    SameMembers(cs, ds, ctx, leaf);
    SameMembers(ds, cs, ctx, leaf);
  }

  lemma SameMembers<C>(cs: seq<Node>, ds: seq<Node>, ctx: C, leaf: (string, C) -> bool)
    requires multiset(cs) == multiset(ds)
    ensures (exists i | 0 <= i < |cs| :: Eval(cs[i], ctx, leaf)) ==> (exists j | 0 <= j < |ds| :: Eval(ds[j], ctx, leaf))
    ensures (forall j | 0 <= j < |ds| :: Eval(ds[j], ctx, leaf)) ==> (forall i | 0 <= i < |cs| :: Eval(cs[i], ctx, leaf))
  {
    forall i | 0 <= i < |cs|
      ensures exists j | 0 <= j < |ds| :: ds[j] == cs[i]
    {
      assert cs[i] in multiset(cs);
      assert cs[i] in ds;
    }
  }
}
