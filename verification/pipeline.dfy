/** How the loaders and the rule set fit together, as the import hooks
    chain them: load a rules file, build a `RuleSet`, run it. */
module Pipeline {
  import opened Wrappers
  import opened Text
  import opened Mappers
  import opened Errors
  import opened Includes
  import opened Rules
  import HledgerTransformer
  import HledgerLoader
  import YamlLoader

  /** Whatever a loader returns is accepted by `RuleSet`, and since
      `Rule.__init__` never fills in transforms, the resulting rule set
      leaves every transaction unchanged. */
  lemma LoadedRulesAreAcceptedAndInert<T>(fs: FileSystem, path: Path, fuel: nat, t: T, leaf: (string, T) -> bool)
    requires Flatten(fs, path, fuel).Success?
    ensures RuleSetFromMapper<T>(Flatten(fs, path, fuel).value).Success?
    ensures ProcessAll(RuleSetFromMapper<T>(Flatten(fs, path, fuel).value).value, t, leaf) == t
  {
    LoadedRuleSetIsInert(Flatten(fs, path, fuel).value, t, leaf);
  }

  /** A `date-format` line of a DSL file reaches neither loader's output:
      once the entries before it are accepted, either loader fails with the
      unknown-block error naming the format, and that error is recovered
      from its message. */
  lemma DateFormatLineRejected(fs: FileSystem, path: Path, a: seq<Item>, token: string, b: seq<Item>, fuel: nat)
    requires path in fs && fs[path] == a + [HledgerTransformer.DateFormatLine(token)] + b
    requires FlattenItems(fs, Parent(path), a, fuel).Success?
    ensures HledgerLoader.HledgerBlocks(fs, path, fuel) == Failure(UnknownBlockType("value=" + Repr(token)))
    ensures YamlLoader.YamlBlocks(fs, path, fuel) == Failure(UnknownBlockType("value=" + Repr(token)))
    ensures Decode(Message(UnknownBlockType("value=" + Repr(token)))) == Some(UnknownBlockType("value=" + Repr(token)))
  {
    DateFormatRejected(fs, Parent(path), a, token, b, fuel);
    HledgerLoader.HledgerBlocksFlattens(fs, path, fuel);
    YamlLoader.YamlBlocksFlattens(fs, path, fuel);
    DecodeMessage(UnknownBlockType("value=" + Repr(token)));
  }

  /** An `include` line whose path token is all whitespace is skipped by the
      flattening: nothing is read and nothing is emitted. */
  lemma BlankIncludeLineSkipped(fs: FileSystem, dir: Path, a: seq<Item>, token: string, b: seq<Item>, fuel: nat)
    requires AllSpace(token)
    ensures FlattenItems(fs, dir, a + [HledgerTransformer.IncludeRule(token)] + b, fuel)
         == FlattenItems(fs, dir, a + b, fuel)
  {
    BlankIncludeSkipped(fs, dir, a, b, fuel);
  }
}
