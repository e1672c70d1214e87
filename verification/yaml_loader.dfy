/** `yamlblocks` (beancount_hledger_import_hooks/yamlledger/loader.py), as
    written: a loop over the deserialised items with an accumulator. */
module YamlLoader {
  import opened Wrappers
  import opened Mappers
  import opened Errors
  import opened Includes
  import HledgerLoader

  /** The rule set loaded from the structured rules file at `pathname`. */
  function YamlBlocks(fs: FileSystem, pathname: Path, fuel: nat): (r: Result<RuleSetMapper, Error>)
    ensures r.Success? ==> AllRules(r.value.rules)
    decreases fuel, 1, 0
  {
    if pathname !in fs then Failure(FileNotFound(PathText(pathname)))
    else Blocks(fs, Parent(pathname), fs[pathname], 0, [], fuel)
  }

  /** The loop from item `i` on, with `newBlocks` accumulated so far. */
  function Blocks(fs: FileSystem, parent: Path, rules: seq<Item>, i: nat, newBlocks: seq<Item>, fuel: nat)
    : (r: Result<RuleSetMapper, Error>)
    requires i <= |rules|
    ensures r.Success? && AllRules(newBlocks) ==> AllRules(r.value.rules)
    decreases fuel, 0, |rules| - i
  {
    if i == |rules| then Success(RuleSetMapper(newBlocks))
    else
      var rule := rules[i];
      if rule.Include? then
        var filepath := rule.value;
        if filepath == "" then Blocks(fs, parent, rules, i + 1, newBlocks, fuel)
        else if fuel == 0 then Failure(RecursionLimit)
        else
          var included :- YamlBlocks(fs, JoinPath(parent, filepath), fuel - 1);
          Blocks(fs, parent, rules, i + 1, newBlocks + KeepRules(included.rules), fuel)
      else if rule.TransactionRule? then
        Blocks(fs, parent, rules, i + 1, newBlocks + [rule], fuel)
      else
        Failure(UnknownBlockType(ItemText(rule)))
  }

  /** The structured-file loader computes the reference flattening. */
  lemma {:induction false} YamlBlocksFlattens(fs: FileSystem, pathname: Path, fuel: nat)
    ensures YamlBlocks(fs, pathname, fuel) == AsRuleSet(Flatten(fs, pathname, fuel))
    decreases fuel, 1, 0
  {
    if pathname in fs {
      BlocksFlatten(fs, Parent(pathname), fs[pathname], 0, [], fuel);
      assert fs[pathname][0..] == fs[pathname];
      var r := Flatten(fs, pathname, fuel);
      if r.Success? {
        assert [] + r.value == r.value;
      }
    }
  }

  lemma {:induction false} BlocksFlatten(fs: FileSystem, parent: Path, rules: seq<Item>, i: nat, acc: seq<Item>, fuel: nat)
    requires i <= |rules|
    ensures Blocks(fs, parent, rules, i, acc, fuel)
         == AsRuleSet(Prepend(acc, FlattenItems(fs, parent, rules[i..], fuel)))
    decreases fuel, 0, |rules| - i, 3
  {
    if i == |rules| {
      assert acc + [] == acc;
    } else if rules[i].Include? {
      BlocksFlattenInclude(fs, parent, rules, i, acc, fuel);
    } else {
      var rule := rules[i];
      LoopStep(fs, parent, rules, i, acc, fuel);
      if rule.TransactionRule? {
        BlocksFlatten(fs, parent, rules, i + 1, acc + [rule], fuel);
      }
    }
  }

  /** The include arm of the loop: the included file's rules are spliced in
      at the include's position, and a blank include adds nothing. */
  lemma {:induction false} BlocksFlattenInclude(fs: FileSystem, parent: Path, rules: seq<Item>, i: nat, acc: seq<Item>, fuel: nat)
    requires i < |rules| && rules[i].Include?
    ensures Blocks(fs, parent, rules, i, acc, fuel)
         == AsRuleSet(Prepend(acc, FlattenItems(fs, parent, rules[i..], fuel)))
    decreases fuel, 0, |rules| - i, 2
  {
    var v := rules[i].value;
    var head := FlattenItem(fs, parent, rules[i], fuel);
    LoopStep(fs, parent, rules, i, acc, fuel);
    if v == "" {
      assert acc + [] == acc;
      assert Blocks(fs, parent, rules, i, acc, fuel) == Blocks(fs, parent, rules, i + 1, acc, fuel);
      BlocksFlatten(fs, parent, rules, i + 1, acc, fuel);
    } else if fuel > 0 {
      if head.Success? {
        BlocksFlattenChild(fs, parent, rules, i, acc, fuel);
      } else {
        assert Blocks(fs, parent, rules, i, acc, fuel) == Failure(head.error) by {
          var child := JoinPath(parent, v);
          assert head == Flatten(fs, child, fuel - 1);
          YamlBlocksFlattens(fs, child, fuel - 1);
          IncludeStepFails(fs, parent, rules, i, acc, fuel);
        }
      }
    }
  }

  /** A non-blank include within the recursion limit whose file loads:
      the loop goes on with the included file's rules added to the
      accumulator. */
  lemma {:induction false} BlocksFlattenChild(fs: FileSystem, parent: Path, rules: seq<Item>, i: nat, acc: seq<Item>, fuel: nat)
    requires i < |rules| && rules[i].Include? && rules[i].value != "" && fuel > 0
    requires Flatten(fs, JoinPath(parent, rules[i].value), fuel - 1).Success?
    ensures Blocks(fs, parent, rules, i, acc, fuel)
         == AsRuleSet(Prepend(acc + Flatten(fs, JoinPath(parent, rules[i].value), fuel - 1).value,
                              FlattenItems(fs, parent, rules[i + 1..], fuel)))
    decreases fuel, 0, |rules| - i, 1
  {
    var head := Flatten(fs, JoinPath(parent, rules[i].value), fuel - 1);
    ChildStep(fs, parent, rules, i, acc, fuel);
    BlocksFlatten(fs, parent, rules, i + 1, acc + head.value, fuel);
  }

  /** The same iteration read through the reference: the accumulator grows
      by the included file's flattening. */
  lemma ChildStep(fs: FileSystem, parent: Path, rules: seq<Item>, i: nat, acc: seq<Item>, fuel: nat)
    requires i < |rules| && rules[i].Include? && rules[i].value != "" && fuel > 0
    requires Flatten(fs, JoinPath(parent, rules[i].value), fuel - 1).Success?
    ensures Blocks(fs, parent, rules, i, acc, fuel)
         == Blocks(fs, parent, rules, i + 1, acc + Flatten(fs, JoinPath(parent, rules[i].value), fuel - 1).value, fuel)
    decreases fuel, 0, |rules| - i, 0
  {
    var child := JoinPath(parent, rules[i].value);
    var head := Flatten(fs, child, fuel - 1);
    var included := YamlBlocks(fs, child, fuel - 1);
    YamlBlocksFlattens(fs, child, fuel - 1);
    assert included == Success(RuleSetMapper(head.value));
    assert KeepRules(head.value) == head.value;
    IncludeStep(fs, parent, rules, i, acc, fuel);
  }

  /** One iteration of the loop on a non-blank include within the
      recursion limit whose file loads: its transaction rules join the
      accumulator. */
  lemma IncludeStep(fs: FileSystem, parent: Path, rules: seq<Item>, i: nat, acc: seq<Item>, fuel: nat)
    requires i < |rules| && rules[i].Include? && rules[i].value != "" && fuel > 0
    requires YamlBlocks(fs, JoinPath(parent, rules[i].value), fuel - 1).Success?
    ensures Blocks(fs, parent, rules, i, acc, fuel)
         == Blocks(fs, parent, rules, i + 1, acc + KeepRules(YamlBlocks(fs, JoinPath(parent, rules[i].value), fuel - 1).value.rules), fuel)
  {
  }

  /** The same iteration when the included file fails to load: the loop
      stops with that failure. */
  lemma IncludeStepFails(fs: FileSystem, parent: Path, rules: seq<Item>, i: nat, acc: seq<Item>, fuel: nat)
    requires i < |rules| && rules[i].Include? && rules[i].value != "" && fuel > 0
    requires YamlBlocks(fs, JoinPath(parent, rules[i].value), fuel - 1).Failure?
    ensures Blocks(fs, parent, rules, i, acc, fuel) == Failure(YamlBlocks(fs, JoinPath(parent, rules[i].value), fuel - 1).error)
  {
  }

  /** The two loaders agree on every file map: the DSL loader's extra
      append of a date-format entry is never observable, since the entry is
      rejected on the same iteration. */
  lemma LoadersAgree(fs: FileSystem, pathname: Path, fuel: nat)
    ensures YamlBlocks(fs, pathname, fuel) == HledgerLoader.HledgerBlocks(fs, pathname, fuel)
  {
    YamlBlocksFlattens(fs, pathname, fuel);
    HledgerLoader.HledgerBlocksFlattens(fs, pathname, fuel);
  }
}
