/** `hledgerblocks` (beancount_hledger_import_hooks/hledger/loader.py), as
    written: a loop over the parsed items with an accumulator, whose body is
    two separate `if` chains. */
module HledgerLoader {
  import opened Wrappers
  import opened Mappers
  import opened Errors
  import opened Includes

  /** The rule set loaded from the DSL file at `pathname`. */
  function HledgerBlocks(fs: FileSystem, pathname: Path, fuel: nat): (r: Result<RuleSetMapper, Error>)
    ensures r.Success? ==> AllRules(r.value.rules)
    decreases fuel, 1, 0
  {
    if pathname !in fs then Failure(FileNotFound(PathText(pathname)))
    else Blocks(fs, Parent(pathname), fs[pathname], 0, [], fuel)
  }

  /** The loop from item `i` on, with `newBlocks` accumulated so far. */
  function Blocks(fs: FileSystem, parent: Path, ruleset: seq<Item>, i: nat, newBlocks: seq<Item>, fuel: nat)
    : (r: Result<RuleSetMapper, Error>)
    requires i <= |ruleset|
    ensures r.Success? && AllRules(newBlocks) ==> AllRules(r.value.rules)
    decreases fuel, 0, |ruleset| - i
  {
    if i == |ruleset| then Success(RuleSetMapper(newBlocks))
    else
      var rule := ruleset[i];
      // First chain: a date-format entry is appended ...
      var blocks := if rule.DateFormat? then newBlocks + [rule] else newBlocks;
      // ... and the second chain then sends it to the final `else`.
      if rule.Include? then
        var filepath := rule.value;
        if filepath == "" then Blocks(fs, parent, ruleset, i + 1, blocks, fuel)
        else if fuel == 0 then Failure(RecursionLimit)
        else
          var included :- HledgerBlocks(fs, JoinPath(parent, filepath), fuel - 1);
          Blocks(fs, parent, ruleset, i + 1, blocks + KeepRules(included.rules), fuel)
      else if rule.TransactionRule? then
        Blocks(fs, parent, ruleset, i + 1, blocks + [rule], fuel)
      else
        Failure(UnknownBlockType(ItemText(rule)))
  }

  /** The DSL loader computes the reference flattening: its output holds
      only transaction rules, each include spliced in place. */
  lemma {:induction false} HledgerBlocksFlattens(fs: FileSystem, pathname: Path, fuel: nat)
    ensures HledgerBlocks(fs, pathname, fuel) == AsRuleSet(Flatten(fs, pathname, fuel))
    decreases fuel, 1, 0
  {
    if pathname in fs {
      BlocksFlatten(fs, Parent(pathname), fs[pathname], 0, [], fuel);
      assert fs[pathname][0..] == fs[pathname];
      var r := Flatten(fs, pathname, fuel);
      if r.Success? {
        assert [] + r.value == r.value;
      }
    }
  }

  lemma {:induction false} BlocksFlatten(fs: FileSystem, parent: Path, ruleset: seq<Item>, i: nat, acc: seq<Item>, fuel: nat)
    requires i <= |ruleset|
    ensures Blocks(fs, parent, ruleset, i, acc, fuel)
         == AsRuleSet(Prepend(acc, FlattenItems(fs, parent, ruleset[i..], fuel)))
    decreases fuel, 0, |ruleset| - i, 3
  {
    if i == |ruleset| {
      assert acc + [] == acc;
    } else if ruleset[i].Include? {
      BlocksFlattenInclude(fs, parent, ruleset, i, acc, fuel);
    } else {
      var rule := ruleset[i];
      LoopStep(fs, parent, ruleset, i, acc, fuel);
      if rule.TransactionRule? {
        BlocksFlatten(fs, parent, ruleset, i + 1, acc + [rule], fuel);
      }
    }
  }

  /** The include arm of the loop: the included file's rules are spliced in
      at the include's position, and a blank include adds nothing. */
  lemma {:induction false} BlocksFlattenInclude(fs: FileSystem, parent: Path, ruleset: seq<Item>, i: nat, acc: seq<Item>, fuel: nat)
    requires i < |ruleset| && ruleset[i].Include?
    ensures Blocks(fs, parent, ruleset, i, acc, fuel)
         == AsRuleSet(Prepend(acc, FlattenItems(fs, parent, ruleset[i..], fuel)))
    decreases fuel, 0, |ruleset| - i, 2
  {
    var v := ruleset[i].value;
    var head := FlattenItem(fs, parent, ruleset[i], fuel);
    LoopStep(fs, parent, ruleset, i, acc, fuel);
    if v == "" {
      assert acc + [] == acc;
      assert Blocks(fs, parent, ruleset, i, acc, fuel) == Blocks(fs, parent, ruleset, i + 1, acc, fuel);
      BlocksFlatten(fs, parent, ruleset, i + 1, acc, fuel);
    } else if fuel > 0 {
      if head.Success? {
        BlocksFlattenChild(fs, parent, ruleset, i, acc, fuel);
      } else {
        assert Blocks(fs, parent, ruleset, i, acc, fuel) == Failure(head.error) by {
          var child := JoinPath(parent, v);
          assert head == Flatten(fs, child, fuel - 1);
          HledgerBlocksFlattens(fs, child, fuel - 1);
          IncludeStepFails(fs, parent, ruleset, i, acc, fuel);
        }
      }
    }
  }

  /** A non-blank include within the recursion limit whose file loads:
      the loop goes on with the included file's rules added to the
      accumulator. */
  lemma {:induction false} BlocksFlattenChild(fs: FileSystem, parent: Path, ruleset: seq<Item>, i: nat, acc: seq<Item>, fuel: nat)
    requires i < |ruleset| && ruleset[i].Include? && ruleset[i].value != "" && fuel > 0
    requires Flatten(fs, JoinPath(parent, ruleset[i].value), fuel - 1).Success?
    ensures Blocks(fs, parent, ruleset, i, acc, fuel)
         == AsRuleSet(Prepend(acc + Flatten(fs, JoinPath(parent, ruleset[i].value), fuel - 1).value,
                              FlattenItems(fs, parent, ruleset[i + 1..], fuel)))
    decreases fuel, 0, |ruleset| - i, 1
  {
    var head := Flatten(fs, JoinPath(parent, ruleset[i].value), fuel - 1);
    ChildStep(fs, parent, ruleset, i, acc, fuel);
    BlocksFlatten(fs, parent, ruleset, i + 1, acc + head.value, fuel);
  }

  /** The same iteration read through the reference: the accumulator grows
      by the included file's flattening. */
  lemma ChildStep(fs: FileSystem, parent: Path, ruleset: seq<Item>, i: nat, acc: seq<Item>, fuel: nat)
    requires i < |ruleset| && ruleset[i].Include? && ruleset[i].value != "" && fuel > 0
    requires Flatten(fs, JoinPath(parent, ruleset[i].value), fuel - 1).Success?
    ensures Blocks(fs, parent, ruleset, i, acc, fuel)
         == Blocks(fs, parent, ruleset, i + 1, acc + Flatten(fs, JoinPath(parent, ruleset[i].value), fuel - 1).value, fuel)
    decreases fuel, 0, |ruleset| - i, 0
  {
    var child := JoinPath(parent, ruleset[i].value);
    var head := Flatten(fs, child, fuel - 1);
    var included := HledgerBlocks(fs, child, fuel - 1);
    HledgerBlocksFlattens(fs, child, fuel - 1);
    assert included == Success(RuleSetMapper(head.value));
    assert KeepRules(head.value) == head.value;
    IncludeStep(fs, parent, ruleset, i, acc, fuel);
  }

  /** One iteration of the loop on a non-blank include within the
      recursion limit whose file loads: its transaction rules join the
      accumulator. */
  lemma IncludeStep(fs: FileSystem, parent: Path, ruleset: seq<Item>, i: nat, acc: seq<Item>, fuel: nat)
    requires i < |ruleset| && ruleset[i].Include? && ruleset[i].value != "" && fuel > 0
    requires HledgerBlocks(fs, JoinPath(parent, ruleset[i].value), fuel - 1).Success?
    ensures Blocks(fs, parent, ruleset, i, acc, fuel)
         == Blocks(fs, parent, ruleset, i + 1, acc + KeepRules(HledgerBlocks(fs, JoinPath(parent, ruleset[i].value), fuel - 1).value.rules), fuel)
  {
  }

  /** The same iteration when the included file fails to load: the loop
      stops with that failure. */
  lemma IncludeStepFails(fs: FileSystem, parent: Path, ruleset: seq<Item>, i: nat, acc: seq<Item>, fuel: nat)
    requires i < |ruleset| && ruleset[i].Include? && ruleset[i].value != "" && fuel > 0
    requires HledgerBlocks(fs, JoinPath(parent, ruleset[i].value), fuel - 1).Failure?
    ensures Blocks(fs, parent, ruleset, i, acc, fuel) == Failure(HledgerBlocks(fs, JoinPath(parent, ruleset[i].value), fuel - 1).error)
  {
  }
}
