/** The gate truth tables of beancount_hledger_import_hooks/matchers_test.py,
    with each leaf `'<word>' in Transaction.narration` read as "the word is
    a substring of the narration". The context is the narration alone. */
module TruthTables {
  import opened Text
  import opened Query
  import Matchers

  const NarrationSuffix := "' in Transaction.narration"

  /** The test expression `'<word>' in Transaction.narration`. */
  function Term(word: string): string {
    "'" + word + NarrationSuffix
  }

  /** The interrogator for the tests' expressions: a quoted word followed
      by ` in Transaction.narration` is the substring leaf of that word;
      any other expression is false. */
  function NarrationLeaf(expr: string, narration: string): bool {
    if |expr| >= 1 + |NarrationSuffix| && expr[0] == '\''
       && expr[|expr| - |NarrationSuffix|..] == NarrationSuffix
    then Matchers.SubstringLeaf(expr[1..|expr| - |NarrationSuffix|], narration)
    else false
  }

  lemma TermMeansContains(word: string, narration: string)
    ensures NarrationLeaf(Term(word), narration) == Matchers.SubstringLeaf(word, narration)
    ensures NarrationLeaf(Term(word), narration) == Contains(narration, word)
  {
    var e := Term(word);
    assert e[|e| - |NarrationSuffix|..] == NarrationSuffix;
    assert e[1..|e| - |NarrationSuffix|] == word;
  }

  lemma Occurs(h: string, w: string, i: nat)
    requires i + |w| <= |h| && h[i..i + |w|] == w
    ensures Contains(h, w)
  {
    assert IsPrefix(w, h[i..]);
  }

  /** A word whose first letter is absent from the narration does not occur. */
  lemma FirstLetterAbsent(h: string, w: string)
    requires w != [] && forall k | 0 <= k < |h| :: h[k] != w[0]
    ensures !Contains(h, w)
  {
    forall i | 0 <= i <= |h|
      ensures !IsPrefix(w, h[i..])
    {
      if i < |h| {
        assert h[i..][0] == h[i];
      }
    }
  }

  const Debit := Term("Debit")
  const Wholefoods := Term("Wholefoods")
  const Groceries := Term("Groceries")

  lemma LeafHolds(w: string, n: string, i: nat)
    requires i + |w| <= |n| && n[i..i + |w|] == w
    ensures NarrationLeaf(Term(w), n)
  {
    TermMeansContains(w, n);
    Occurs(n, w, i);
  }

  lemma LeafFails(w: string, n: string)
    requires w != [] && forall k | 0 <= k < |n| :: n[k] != w[0]
    ensures !NarrationLeaf(Term(w), n)
  {
    TermMeansContains(w, n);
    FirstLetterAbsent(n, w);
  }

  /** Which of the three test words each test narration contains. */
  lemma LeavesDebitWholefoods()
    ensures NarrationLeaf(Debit, "Debit Wholefoods")
    ensures NarrationLeaf(Wholefoods, "Debit Wholefoods")
    ensures !NarrationLeaf(Groceries, "Debit Wholefoods")
  {
    DebitInDebitWholefoods();
    WholefoodsInDebitWholefoods();
    GroceriesNotInDebitWholefoods();
  }

  lemma DebitInDebitWholefoods()
    ensures NarrationLeaf(Debit, "Debit Wholefoods")
  {
    LeafHolds("Debit", "Debit Wholefoods", 0);
  }

  lemma WholefoodsInDebitWholefoods()
    ensures NarrationLeaf(Wholefoods, "Debit Wholefoods")
  {
    LeafHolds("Wholefoods", "Debit Wholefoods", 6);
  }

  lemma GroceriesNotInDebitWholefoods()
    ensures !NarrationLeaf(Groceries, "Debit Wholefoods")
  {
    LeafFails("Groceries", "Debit Wholefoods");
  }

  lemma LeavesDebit()
    ensures NarrationLeaf(Debit, "Debit")
    ensures !NarrationLeaf(Wholefoods, "Debit")
    ensures !NarrationLeaf(Groceries, "Debit")
  {
    assert NarrationLeaf(Debit, "Debit") by {
      LeafHolds("Debit", "Debit", 0);
    }
    assert !NarrationLeaf(Wholefoods, "Debit") by {
      LeafFails("Wholefoods", "Debit");
    }
    assert !NarrationLeaf(Groceries, "Debit") by {
      LeafFails("Groceries", "Debit");
    }
  }

  lemma LeavesWholefoods()
    ensures !NarrationLeaf(Debit, "Wholefoods")
    ensures NarrationLeaf(Wholefoods, "Wholefoods")
    ensures !NarrationLeaf(Groceries, "Wholefoods")
  {
    assert !NarrationLeaf(Debit, "Wholefoods") by {
      LeafFails("Debit", "Wholefoods");
    }
    assert NarrationLeaf(Wholefoods, "Wholefoods") by {
      LeafHolds("Wholefoods", "Wholefoods", 0);
    }
    assert !NarrationLeaf(Groceries, "Wholefoods") by {
      LeafFails("Groceries", "Wholefoods");
    }
  }

  lemma LeavesCredit()
    ensures !NarrationLeaf(Debit, "Credit")
    ensures !NarrationLeaf(Wholefoods, "Credit")
    ensures !NarrationLeaf(Groceries, "Credit")
  {
    assert !NarrationLeaf(Debit, "Credit") by {
      LeafFails("Debit", "Credit");
    }
    assert !NarrationLeaf(Wholefoods, "Credit") by {
      LeafFails("Wholefoods", "Credit");
    }
    assert !NarrationLeaf(Groceries, "Credit") by {
      LeafFails("Groceries", "Credit");
    }
  }

  lemma LeavesGroceries()
    ensures NarrationLeaf(Groceries, "Groceries")
    ensures NarrationLeaf(Groceries, "Groceries Wholefoods")
    ensures NarrationLeaf(Groceries, "Groceries Debit")
  {
    assert NarrationLeaf(Groceries, "Groceries") by {
      LeafHolds("Groceries", "Groceries", 0);
    }
    assert NarrationLeaf(Groceries, "Groceries Wholefoods") by {
      LeafHolds("Groceries", "Groceries Wholefoods", 0);
    }
    assert NarrationLeaf(Groceries, "Groceries Debit") by {
      LeafHolds("Groceries", "Groceries Debit", 0);
    }
  }

  /** Two-leaf and one-leaf gates in terms of their leaves. */
  lemma PairGates<C>(a: string, b: string, ctx: C, leaf: (string, C) -> bool)
    ensures Eval(And([Leaf(a), Leaf(b)]), ctx, leaf) == (leaf(a, ctx) && leaf(b, ctx))
    ensures Eval(Or([Leaf(a), Leaf(b)]), ctx, leaf) == (leaf(a, ctx) || leaf(b, ctx))
    ensures Eval(Not([Leaf(a)]), ctx, leaf) == !leaf(a, ctx)
  {
    var cs := [Leaf(a), Leaf(b)];
    GateSemantics(cs, ctx, leaf);
    GateSemantics([Leaf(a)], ctx, leaf);
    assert Eval(cs[0], ctx, leaf) == leaf(a, ctx);
    assert Eval(cs[1], ctx, leaf) == leaf(b, ctx);
    assert Eval([Leaf(a)][0], ctx, leaf) == leaf(a, ctx);
  }

  /** The nested gate of `test_nested_logic` in terms of its leaves. */
  lemma NestedGate<C>(a: string, b: string, c: string, ctx: C, leaf: (string, C) -> bool)
    ensures Eval(Or([And([Leaf(a), Leaf(b)]), Leaf(c)]), ctx, leaf)
         == ((leaf(a, ctx) && leaf(b, ctx)) || leaf(c, ctx))
  {
    var cs := [And([Leaf(a), Leaf(b)]), Leaf(c)];
    PairGates(a, b, ctx, leaf);
    GateSemantics(cs, ctx, leaf);
    assert Eval(cs[0], ctx, leaf) == (leaf(a, ctx) && leaf(b, ctx));
    assert Eval(cs[1], ctx, leaf) == leaf(c, ctx);
  }

  /** `test_logicgate_and`: And(Debit, Wholefoods) holds only for
      "Debit Wholefoods". */
  lemma AndTable()
    ensures Eval(And([Leaf(Debit), Leaf(Wholefoods)]), "Debit Wholefoods", NarrationLeaf)
    ensures !Eval(And([Leaf(Debit), Leaf(Wholefoods)]), "Debit", NarrationLeaf)
    ensures !Eval(And([Leaf(Debit), Leaf(Wholefoods)]), "Wholefoods", NarrationLeaf)
    ensures !Eval(And([Leaf(Debit), Leaf(Wholefoods)]), "Credit", NarrationLeaf)
  {
    PairGates(Debit, Wholefoods, "Debit Wholefoods", NarrationLeaf);
    PairGates(Debit, Wholefoods, "Debit", NarrationLeaf);
    PairGates(Debit, Wholefoods, "Wholefoods", NarrationLeaf);
    PairGates(Debit, Wholefoods, "Credit", NarrationLeaf);
    LeavesDebitWholefoods();
    LeavesDebit();
    LeavesWholefoods();
    LeavesCredit();
  }

  /** `test_logicgate_or`: Or(Debit, Wholefoods) fails only for "Credit". */
  lemma OrTable()
    ensures Eval(Or([Leaf(Debit), Leaf(Wholefoods)]), "Debit Wholefoods", NarrationLeaf)
    ensures Eval(Or([Leaf(Debit), Leaf(Wholefoods)]), "Debit", NarrationLeaf)
    ensures Eval(Or([Leaf(Debit), Leaf(Wholefoods)]), "Wholefoods", NarrationLeaf)
    ensures !Eval(Or([Leaf(Debit), Leaf(Wholefoods)]), "Credit", NarrationLeaf)
  {
    PairGates(Debit, Wholefoods, "Debit Wholefoods", NarrationLeaf);
    PairGates(Debit, Wholefoods, "Debit", NarrationLeaf);
    PairGates(Debit, Wholefoods, "Wholefoods", NarrationLeaf);
    PairGates(Debit, Wholefoods, "Credit", NarrationLeaf);
    LeavesDebitWholefoods();
    LeavesDebit();
    LeavesWholefoods();
    LeavesCredit();
  }

  /** `test_logicgate_not`: Not(Debit) holds for "Wholefoods" and "Credit". */
  lemma NotTable()
    ensures !Eval(Not([Leaf(Debit)]), "Debit Wholefoods", NarrationLeaf)
    ensures !Eval(Not([Leaf(Debit)]), "Debit", NarrationLeaf)
    ensures Eval(Not([Leaf(Debit)]), "Wholefoods", NarrationLeaf)
    ensures Eval(Not([Leaf(Debit)]), "Credit", NarrationLeaf)
  {
    PairGates(Debit, Wholefoods, "Debit Wholefoods", NarrationLeaf);
    PairGates(Debit, Wholefoods, "Debit", NarrationLeaf);
    PairGates(Debit, Wholefoods, "Wholefoods", NarrationLeaf);
    PairGates(Debit, Wholefoods, "Credit", NarrationLeaf);
    LeavesDebitWholefoods();
    LeavesDebit();
    LeavesWholefoods();
    LeavesCredit();
  }

  /** `test_nested_logic`: Or(And(Debit, Wholefoods), Groceries) holds for
      "Debit Wholefoods" and the three narrations mentioning "Groceries". */
  lemma NestedTable()
    ensures Eval(Or([And([Leaf(Debit), Leaf(Wholefoods)]), Leaf(Groceries)]), "Debit Wholefoods", NarrationLeaf)
    ensures !Eval(Or([And([Leaf(Debit), Leaf(Wholefoods)]), Leaf(Groceries)]), "Debit", NarrationLeaf)
    ensures !Eval(Or([And([Leaf(Debit), Leaf(Wholefoods)]), Leaf(Groceries)]), "Wholefoods", NarrationLeaf)
    ensures !Eval(Or([And([Leaf(Debit), Leaf(Wholefoods)]), Leaf(Groceries)]), "Credit", NarrationLeaf)
    ensures Eval(Or([And([Leaf(Debit), Leaf(Wholefoods)]), Leaf(Groceries)]), "Groceries", NarrationLeaf)
    ensures Eval(Or([And([Leaf(Debit), Leaf(Wholefoods)]), Leaf(Groceries)]), "Groceries Wholefoods", NarrationLeaf)
    ensures Eval(Or([And([Leaf(Debit), Leaf(Wholefoods)]), Leaf(Groceries)]), "Groceries Debit", NarrationLeaf)
  {
    NestedGate(Debit, Wholefoods, Groceries, "Debit Wholefoods", NarrationLeaf);
    NestedGate(Debit, Wholefoods, Groceries, "Debit", NarrationLeaf);
    NestedGate(Debit, Wholefoods, Groceries, "Wholefoods", NarrationLeaf);
    NestedGate(Debit, Wholefoods, Groceries, "Credit", NarrationLeaf);
    NestedGate(Debit, Wholefoods, Groceries, "Groceries", NarrationLeaf);
    NestedGate(Debit, Wholefoods, Groceries, "Groceries Wholefoods", NarrationLeaf);
    NestedGate(Debit, Wholefoods, Groceries, "Groceries Debit", NarrationLeaf);
    LeavesDebitWholefoods();
    LeavesDebit();
    LeavesWholefoods();
    LeavesCredit();
    LeavesGroceries();
  }
}
