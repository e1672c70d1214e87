/** Rules and rule sets (beancount_hledger_import_hooks/rules.py): a rule is
    an And over one gate per match clause plus an ordered list of
    transforms; a rule set threads each transaction through every rule. The
    interrogator is the `leaf` oracle and each transform is a function on
    transactions. */
module Rules {
  import opened Wrappers
  import opened Text
  import opened Mappers
  import opened Errors
  import opened Query
  import opened Matchers

  datatype Rule<!T> = Rule(matcher: Node, transforms: seq<T -> T>)

  /** One gate per clause, each tagged with the clause's own kind. */
  function Clauses(ms: seq<MatcherMapper>): (cs: seq<Node>)
    ensures |cs| == |ms|
    ensures forall i | 0 <= i < |ms| :: cs[i] == Clause(ms[i])
  {
    if ms == [] then [] else [Clause(ms[0])] + Clauses(ms[1..])
  }

  /** `Rule.__init__`: an include record is refused, a date-format record
      has no `matchers`, and a transaction rule becomes an And over its
      clauses. The transform list is never filled in. The `isinstance`
      tests are read against the record classes themselves, without the
      `[T]` subscript. */
  function FromMapper<T>(item: Item): (r: Result<Rule<T>, Error>)
    ensures r.Success? <==> item.TransactionRule?
    ensures item.Include? ==> r == Failure(IncludeNotSupported)
    ensures item.DateFormat? ==> r == Failure(NoMatchersAttribute)
    ensures r.Success? ==> r.value.transforms == []
  {
    match item
    case Include(_) => Failure(IncludeNotSupported)
    case DateFormat(_) => Failure(NoMatchersAttribute)
    case TransactionRule(m) => Success(Rule(And(Clauses(m.matchers)), []))
  }

  /** `Rule.satisfies`. */
  predicate Satisfies<T>(rule: Rule<T>, t: T, leaf: (string, T) -> bool) {
    Eval(rule.matcher, t, leaf)
  }

  /** A rule built from a record holds exactly when every And/Or clause's
      expression holds and every Not clause's expression fails. */
  lemma RuleHoldsIffEveryClause<T>(m: TransactionRuleMapper, t: T, leaf: (string, T) -> bool)
    ensures FromMapper<T>(TransactionRule(m)).Success?
    ensures Satisfies(FromMapper<T>(TransactionRule(m)).value, t, leaf)
        <==> forall i | 0 <= i < |m.matchers| :: ClauseHolds(m.matchers[i], t, leaf)
  {
    var cs := Clauses(m.matchers);
    GateSemantics(cs, t, leaf);
    forall i | 0 <= i < |cs|
      ensures Eval(cs[i], t, leaf) == ClauseHolds(m.matchers[i], t, leaf)
    {
      ClauseSemantics(m.matchers[i], t, leaf);
    }
  }

  /** One satisfied clause is not enough: with the two And clauses "Debit"
      and "Wholefoods", the narration "Debit" satisfies the first and the
      rule still does not hold. */
  lemma OneClauseIsNotEnough()
    ensures var m := TransactionRuleMapper([AndIs("Debit"), AndIs("Wholefoods")], []);
      && ClauseHolds(m.matchers[0], "Debit", SubstringLeaf)
      && !Satisfies(FromMapper<string>(TransactionRule(m)).value, "Debit", SubstringLeaf)
  {
    var m := TransactionRuleMapper([AndIs("Debit"), AndIs("Wholefoods")], []);
    assert IsPrefix("Debit", "Debit"[0..]);
    RuleHoldsIffEveryClause(m, "Debit", SubstringLeaf);
    assert !ClauseHolds(m.matchers[1], "Debit", SubstringLeaf) by {
      forall i | 0 <= i <= |"Debit"|
        ensures !IsPrefix("Wholefoods", "Debit"[i..])
      {
      }
    }
  }

  /** Runs the transforms left to right, each on the previous output. */
  function ApplyAll<T>(fs: seq<T -> T>, t: T): T
    decreases |fs|
  {
    if fs == [] then t else ApplyAll(fs[1..], fs[0](t))
  }

  /** Transforms compose in list order; the empty list is the identity. */
  lemma {:induction false} ApplyAllConcat<T>(a: seq<T -> T>, b: seq<T -> T>, t: T)
    ensures ApplyAll([], t) == t
    ensures ApplyAll(a + b, t) == ApplyAll(b, ApplyAll(a, t))
    decreases |a|
  {
    if a == [] {
      assert a + b == b;
    } else {
      assert (a + b)[0] == a[0];
      assert (a + b)[1..] == a[1..] + b;
      ApplyAllConcat(a[1..], b, a[0](t));
    }
  }

  /** `Rule.transform`. */
  function Transform<T>(rule: Rule<T>, t: T): T {
    ApplyAll(rule.transforms, t)
  }

  /** `Rule.process`: the transforms run only when the matcher holds. For a
      rule whose matcher is an And, as every rule built from a record is,
      that means: only when every child gate holds. A rule without
      transforms changes nothing either way. */
  function Process<T>(rule: Rule<T>, t: T, leaf: (string, T) -> bool): (r: T)
    ensures rule.matcher.And? ==>
      r == if forall i | 0 <= i < |rule.matcher.children| :: Eval(rule.matcher.children[i], t, leaf)
           then ApplyAll(rule.transforms, t) else t
    ensures rule.transforms == [] ==> r == t
  {
    ApplyAllConcat<T>([], [], t);
    if Satisfies(rule, t, leaf) then Transform(rule, t) else t
  }

  /** A rule with the clauses of record `m` and transforms `fs` runs `fs`,
      left to right, exactly when every And/Or clause's expression holds and
      every Not clause's expression fails; otherwise the transaction passes
      through unchanged. */
  lemma ProcessOfClauses<T>(m: TransactionRuleMapper, fs: seq<T -> T>, t: T, leaf: (string, T) -> bool)
    ensures Process(Rule(And(Clauses(m.matchers)), fs), t, leaf)
         == if forall i | 0 <= i < |m.matchers| :: ClauseHolds(m.matchers[i], t, leaf)
            then ApplyAll(fs, t) else t
  {
    var cs := Clauses(m.matchers);
    forall i | 0 <= i < |cs|
      ensures Eval(cs[i], t, leaf) == ClauseHolds(m.matchers[i], t, leaf)
    {
      ClauseSemantics(m.matchers[i], t, leaf);
    }
  }

  /** A rule built from a record changes no transaction, matched or not. */
  lemma LoadedRuleIsInert<T>(item: Item, t: T, leaf: (string, T) -> bool)
    requires item.TransactionRule?
    ensures Process(FromMapper<T>(item).value, t, leaf) == t
  {
  }

  /** The inner loop of `RuleSet.run`: one transaction through every rule, in
      order, each rule seeing the previous rule's output. */
  function ProcessAll<T>(rules: seq<Rule<T>>, t: T, leaf: (string, T) -> bool): T
    decreases |rules|
  {
    if rules == [] then t else ProcessAll(rules[1..], Process(rules[0], t, leaf), leaf)
  }

  /** Every rule is visited, with no stop at the first match: running `a`
      then `b` is running `a + b`. */
  lemma {:induction false} ProcessAllConcat<T>(a: seq<Rule<T>>, b: seq<Rule<T>>, t: T, leaf: (string, T) -> bool)
    ensures ProcessAll(a + b, t, leaf) == ProcessAll(b, ProcessAll(a, t, leaf), leaf)
    decreases |a|
  {
    if a == [] {
      assert a + b == b;
    } else {
      assert (a + b)[0] == a[0];
      assert (a + b)[1..] == a[1..] + b;
      ProcessAllConcat(a[1..], b, Process(a[0], t, leaf), leaf);
    }
  }

  /** `RuleSet.__init__`: one rule per record, in order; the first record
      that is not a transaction rule stops construction with its error. */
  function RuleSetFromMapper<T>(rs: seq<Item>): (r: Result<seq<Rule<T>>, Error>)
    ensures r.Success? <==> AllRules(rs)
    ensures r.Success? ==> |r.value| == |rs|
    ensures r.Success? ==> forall i | 0 <= i < |rs| :: FromMapper<T>(rs[i]) == Success(r.value[i])
    ensures r.Failure? ==>
      exists i | 0 <= i < |rs| ::
        && FromMapper<T>(rs[i]) == Failure(r.error)
        && forall j | 0 <= j < i :: rs[j].TransactionRule?
  {
    if rs == [] then Success([])
    else
      var rule :- FromMapper<T>(rs[0]);
      var rest :- RuleSetFromMapper<T>(rs[1..]);
      Success([rule] + rest)
  }

  /** Every rule of a rule set built from records leaves the transaction
      unchanged, so the whole set does too. */
  lemma {:induction false} LoadedRuleSetIsInert<T>(rs: seq<Item>, t: T, leaf: (string, T) -> bool)
    requires RuleSetFromMapper<T>(rs).Success?
    ensures ProcessAll(RuleSetFromMapper<T>(rs).value, t, leaf) == t
    decreases |rs|
  {
    if rs != [] {
      var rules := RuleSetFromMapper<T>(rs).value;
      assert rules[0].transforms == [];
      assert RuleSetFromMapper<T>(rs[1..]).value == rules[1..];
      LoadedRuleSetIsInert(rs[1..], t, leaf);
    }
  }

  /** `RuleSet.run`, as written: each transaction is threaded through the
      rules into a loop-local variable that is then dropped, and the input
      list is returned. */
  method Run<T>(rules: seq<Rule<T>>, transactions: seq<T>, leaf: (string, T) -> bool) returns (r: seq<T>)
    ensures r == transactions
  {
    for i := 0 to |transactions| {
      var transaction := transactions[i];
      for j := 0 to |rules| {
        transaction := Process(rules[j], transaction, leaf);
      }
    }
    r := transactions;
  }

  /** What `Run` drops: a rule with no clauses holds on every transaction,
      and with the transform "add one" it turns the transaction 0 into 1,
      while `Run` hands back [0]. */
  lemma RunDiscardsTransform(leaf: (string, int) -> bool)
    ensures ProcessAll([Rule(And([]), [(x: int) => x + 1])], 0, leaf) == 1
  {
    var rule := Rule(And([]), [(x: int) => x + 1]);
    GateSemantics([], 0, leaf);
    assert Satisfies(rule, 0, leaf);
    assert ApplyAll(rule.transforms, 0) == ApplyAll(rule.transforms[1..], 1);
    assert [rule][1..] == [];
  }

  /** `RuleSet.run` as its callers evidently expect it: the list of the
      processed transactions, each threaded through every rule in order. */
  method RunThreaded<T>(rules: seq<Rule<T>>, transactions: seq<T>, leaf: (string, T) -> bool) returns (r: seq<T>)
    ensures |r| == |transactions|
    ensures forall i | 0 <= i < |r| :: r[i] == ProcessAll(rules, transactions[i], leaf)
  {
    r := [];
    for i := 0 to |transactions|
      invariant |r| == i
      invariant forall k | 0 <= k < i :: r[k] == ProcessAll(rules, transactions[k], leaf)
    {
      var transaction := transactions[i];
      for j := 0 to |rules|
        invariant transaction == ProcessAll(rules[..j], transactions[i], leaf)
      {
        ProcessAllConcat(rules[..j], [rules[j]], transactions[i], leaf);
        assert rules[..j + 1] == rules[..j] + [rules[j]];
        transaction := Process(rules[j], transaction, leaf);
      }
      assert rules[..|rules|] == rules;
      r := r + [transaction];
    }
  }
}
