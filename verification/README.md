# Rule pipeline of beancount-hledger-import-hooks, in Dafny

This project models the rule pipeline of `beancount_hledger_import_hooks`, starting where parsing ends:

- **The canonical rule records** (`mappers.py`). Match clauses are tagged `and_is`, `or_is` or `is_not`. A transform is a key/value pair. A rule-document item is a transaction rule, an include, or a date-format option.
- **The error kinds** (`exceptions.py`), with their messages.
- **The reduction callbacks of the hledger-style rules DSL** (`hledger/loader.py`). These build expression strings, dispatch on `or`/`and` field keys, and split a rule's children into clauses and transforms.
- **Include flattening** in both loaders (`hledgerblocks`, `yamlblocks`). A file map (`map<Path, seq<Item>>`) stands for the filesystem together with the parsers. A `fuel` bound stands for the interpreter's recursion limit. Both as-written loops are proved equal to one reference flattening, and so equal to each other.
- **The Or/And/Not gate trees** (`query.py`, `matchers.py`). Gates are evaluated against a leaf oracle `leaf: (string, C) -> bool`, which stands for the interrogator.
- **Rules and rule sets** (`rules.py`). A rule is an And over one kind-tagged gate per clause, followed by a left-to-right fold of its transforms. `run` threads every transaction through every rule.

The truth tables of `matchers_test.py` are replayed with the leaf "the quoted word occurs in the narration".

Files:

| file | content |
|---|---|
| `wrappers.dfy` | `Option` and `Result` |
| `text.dfy` | `str.strip()` over a character class, substring, a simplified `repr`, `str.join` |
| `mappers.dfy` | rule records and callback values |
| `errors.dfy` | error kinds and messages |
| `hledger_transformer.dfy` | DSL callbacks |
| `includes.dfy` | paths, the file map, reference flattening |
| `hledger_loader.dfy`, `yaml_loader.dfy` | the two loaders as written |
| `query.dfy` | gate trees |
| `matchers.dfy` | per-character gates, `resolve_matcher_type`, single-leaf clause gates |
| `rules.dfy` | rules, `process`, `run` |
| `truth_tables.dfy` | the gate truth tables |
| `pipeline.dfy` | loader output fed to a rule set |

Where the code and its docstrings disagree, the model follows the code: the docstrings of `Rule` say a rule applies "if any match" (`rules.py:36`, `rules.py:88-89`), while the code builds the top-level gate with `kind="And"` (`rules.py:79-82`).

The model also keeps one quirk of the hledger loader: its loop body is two separate `if` chains (`hledger/loader.py:153` and `:156`), so a date-format entry is first appended and then rejected by the second chain's final `else`.

## Model

| member | source | states |
|---|---|---|
| Mappers.MatcherField | beancount_hledger_import_hooks/mappers.py:6-15 | a match clause is written as one field whose value is the clause's expression |
| Mappers.MatcherFieldRoundTrip | beancount_hledger_import_hooks/mappers.py:6-15 | reading the field pair (alias, expr) gives clause m exactly when m is written as that pair; the three aliases pick the three kinds one-to-one |
| Mappers.ItemField | beancount_hledger_import_hooks/mappers.py:23-37 | include and date-format entries each have exactly one field, and a transaction rule has none |
| Mappers.ItemFieldRoundTrip | beancount_hledger_import_hooks/mappers.py:23-33 | the `include` and `date_format` aliases read back exactly the entry that was written |
| Mappers.ItemText | beancount_hledger_import_hooks/hledger/loader.py:180-181 | `str()` of a parsed entry as pydantic prints it, `field=repr(value)` separated by spaces; it is the text after "Unknown block type: " |
| Mappers.DictText | beancount_hledger_import_hooks/hledger/loader.py:87-88 | `str()` of a dict, `{'k': 'v', ...}`; it is the text after "Invalid match field key: " |
| Mappers.DictTextOfSingle | beancount_hledger_import_hooks/hledger/loader.py:80-88 | the one-entry key dicts the callbacks build print as `{'<key>': '<value>'}` |
| Mappers.ValueText | beancount_hledger_import_hooks/hledger/loader.py:56-57 | `str()` of a callback value: a string is itself and a record prints as pydantic prints it; it is the text after "Invalid rule type: " and "Unknown matcher type: " |
| Errors.Message | beancount_hledger_import_hooks/exceptions.py:4-28 | each of the three exceptions' message starts with its own prefix ("Unknown block type: ", "Invalid match field key: ", "Invalid rule type: ") |
| Errors.DecodeMessage | beancount_hledger_import_hooks/exceptions.py:4-28 | the message returned by `str()` determines the error: the prefix gives the kind and the rest is the offending object's text |
| Errors.MessageInjective | beancount_hledger_import_hooks/exceptions.py:4-28 | two of these errors have the same message if and only if they are the same error |
| Text.Strip | beancount_hledger_import_hooks/hledger/loader.py:24 | `str.strip()` leaves no whitespace at either end and never lengthens the string |
| Text.StripOfPadded | beancount_hledger_import_hooks/hledger/loader.py:24 | stripping whitespace padding around a trimmed string gives back exactly that string |
| Text.StripIdempotent | beancount_hledger_import_hooks/hledger/loader.py:41 | stripping twice is stripping once |
| Text.StripEmptyIff | beancount_hledger_import_hooks/hledger/loader.py:41 | a string strips to empty exactly when it is all whitespace |
| Text.IsSpace | beancount_hledger_import_hooks/hledger/loader.py:24 | the characters `str.isspace()` accepts and `strip()` removes: space, tab to carriage return, U+001C to U+001F, U+0085, U+00A0, U+1680, U+2000 to U+200A, U+2028, U+2029, U+202F, U+205F and U+3000 |
| Text.Trim | beancount_hledger_import_hooks/hledger/loader.py:24 | `strip` over any character class: neither end of the result is in the class, and the result is no longer than the input |
| Text.TrimOfPadded | beancount_hledger_import_hooks/hledger/loader.py:24 | for every class, padding of that class around a string whose ends lie outside it is removed exactly |
| Text.TrimIdempotent | beancount_hledger_import_hooks/hledger/loader.py:41 | for every class, trimming twice is trimming once |
| Text.TrimEmptyIff | beancount_hledger_import_hooks/hledger/loader.py:41 | for every class, the trim is empty exactly when every character is in the class |
| Text.Contains | beancount_hledger_import_hooks/matchers_test.py:37-40 | `needle in haystack`: the needle starts at some position of the haystack |
| Text.ContainsIffSplits | beancount_hledger_import_hooks/matchers_test.py:37-40 | `needle in haystack` holds exactly when the haystack is some text, the needle, then more text |
| Text.Repr | beancount_hledger_import_hooks/hledger/loader.py:180-181 | `repr` of a string: the string between single quotes |
| Text.ReprInjective | beancount_hledger_import_hooks/hledger/loader.py:180-181 | dropping the quotes gives the string back, so two strings have the same `repr` exactly when they are equal |
| Text.Join | beancount_hledger_import_hooks/hledger/loader.py:130 | `sep.join(parts)`: the pieces in order with the separator between neighbours |
| Text.JoinStarts | beancount_hledger_import_hooks/hledger/loader.py:130 | a joined string starts with its first piece |
| HledgerTransformer.FieldHas | beancount_hledger_import_hooks/hledger/loader.py:23-24 | the expression `Transaction.<field> \| matches "<pattern>"` over the stripped field and pattern; its meaning is given by the two lemmas below |
| HledgerTransformer.FieldHasIgnoresPadding | beancount_hledger_import_hooks/hledger/loader.py:23-24 | whitespace around the field or the pattern never changes the built expression |
| HledgerTransformer.FieldHasPatternInjective | beancount_hledger_import_hooks/hledger/loader.py:23-24 | for one field, two patterns give the same expression exactly when they are equal after stripping |
| HledgerTransformer.IncludeRule | beancount_hledger_import_hooks/hledger/loader.py:37-41 | an include path token becomes an include entry whose path is trimmed and equal to the token up to surrounding whitespace; the path is empty exactly when the token is all whitespace |
| HledgerTransformer.IncludeRuleOfPadded | beancount_hledger_import_hooks/hledger/loader.py:40-41 | a trimmed path padded with whitespace on either side gives an include of exactly that path |
| HledgerTransformer.MatchOrLine | beancount_hledger_import_hooks/hledger/loader.py:64-68 | a whole-line pattern becomes an Or clause on the `narration` field; stripping the token first changes nothing |
| HledgerTransformer.MatchAndLine | beancount_hledger_import_hooks/hledger/loader.py:72-76 | a whole-line And pattern becomes an And clause on the `narration` field |
| HledgerTransformer.MatchOrKey | beancount_hledger_import_hooks/hledger/loader.py:90-91 | the key dict has `or`, not `and`, and `or` looks up the field |
| HledgerTransformer.MatchAndKey | beancount_hledger_import_hooks/hledger/loader.py:93-94 | the key dict has `and`, not `or`, and `and` looks up the field |
| HledgerTransformer.HasKey | beancount_hledger_import_hooks/hledger/loader.py:83-85 | `k in d` on a dict: some entry has the key `k` |
| HledgerTransformer.Lookup | beancount_hledger_import_hooks/hledger/loader.py:84-86 | `key["or"]` / `key["and"]` returns a value stored under that key |
| HledgerTransformer.MatchField | beancount_hledger_import_hooks/hledger/loader.py:80-88 | succeeds exactly when the key dict has `or` or `and`; gives an Or clause exactly when `or` is present (so `or` wins over `and`); never gives a Not clause; any other key gives InvalidMatchFieldKey with the dict's text |
| HledgerTransformer.MatchFieldOfKeys | beancount_hledger_import_hooks/hledger/loader.py:80-94 | a field-match line built by `match_or_key` / `match_and_key` becomes an Or / And clause on that field |
| HledgerTransformer.TransformLine | beancount_hledger_import_hooks/hledger/loader.py:101-102 | the transform key is kept verbatim; the value is trimmed and equals the input up to surrounding whitespace |
| HledgerTransformer.DateFormatLine | beancount_hledger_import_hooks/hledger/loader.py:112-113 | the date-format token is kept verbatim, unstripped, as the single `date_format` field of the entry |
| HledgerTransformer.ImportRule | beancount_hledger_import_hooks/hledger/loader.py:46-60 | succeeds exactly when every child is an Or/And clause or a transform; on success every child lands in one of the two lists and no Not clause appears; on failure the error is InvalidRuleType of the first bad child |
| HledgerTransformer.ImportRuleConcat | beancount_hledger_import_hooks/hledger/loader.py:46-60 | children of each kind keep their relative order: reading a + b gives a's clauses then b's, and a's transforms then b's |
| HledgerTransformer.ImportRuleRoundTrip | beancount_hledger_import_hooks/hledger/loader.py:46-60 | any rule without Not clauses is rebuilt exactly from its clauses followed by its transforms |
| HledgerTransformer.MatchersOnly | beancount_hledger_import_hooks/hledger/loader.py:50-52 | a list of Or/And clauses alone gives a rule with exactly those clauses and no transforms |
| HledgerTransformer.TransformsOnly | beancount_hledger_import_hooks/hledger/loader.py:53-54 | a list of transforms alone gives a rule with exactly those transforms and no clauses |
| Includes.Parent | beancount_hledger_import_hooks/hledger/loader.py:150 | `pathname.parent` is the path without its last component; the current directory and the root are their own parents |
| Includes.JoinPath | beancount_hledger_import_hooks/hledger/loader.py:161 | a relative include path is read under the including directory, which stays a prefix; an absolute one starts at the root |
| Includes.AbsoluteIgnoresDir | beancount_hledger_import_hooks/yamlledger/loader.py:45 | an absolute include path replaces the including directory: it names the same file from every directory |
| Includes.JoinSibling | beancount_hledger_import_hooks/yamlledger/loader.py:34-45 | an include naming a plain file resolves to a sibling of the including file |
| Includes.SplitSlash | beancount_hledger_import_hooks/hledger/loader.py:161 | the pieces of a path string between its slashes; there is at least one, and none holds a slash |
| Includes.Components | beancount_hledger_import_hooks/hledger/loader.py:161 | the pieces a path keeps: empty and `.` pieces are dropped and the rest keep their order |
| Includes.SplitSlashAppend | beancount_hledger_import_hooks/hledger/loader.py:161 | splitting two strings joined by a slash splits each side |
| Includes.ComponentsAppend | beancount_hledger_import_hooks/hledger/loader.py:161 | the kept pieces of two piece lists are those of each, in order |
| Includes.JoinSplitSlash | beancount_hledger_import_hooks/hledger/loader.py:161 | joining the pieces with slashes gives the path string back |
| Includes.SplitJoinSlash | beancount_hledger_import_hooks/hledger/loader.py:161 | splitting slash-free pieces joined with slashes gives the pieces back |
| Includes.JoinInSteps | beancount_hledger_import_hooks/hledger/loader.py:161 | a relative include path with several components is read one step at a time: `dir / "a/b"` is `(dir / "a") / "b"` |
| Includes.JoinNested | beancount_hledger_import_hooks/hledger/loader.py:150-165 | the file `a/name` is the file `name` inside `dir / a`, and its parent, against which its own includes are read in the recursive call, is `dir / a` |
| Includes.PathText | beancount_hledger_import_hooks/hledger/loader.py:130 | `str()` of a path: `.` for the current directory, a leading `/` for an absolute path, components joined by `/` |
| Includes.PathTextRoundTrip | beancount_hledger_import_hooks/hledger/loader.py:130 | a path's text, read as an include path from the current directory, names that path again |
| Includes.KeepRules | beancount_hledger_import_hooks/hledger/loader.py:169-173 | the filter keeps exactly the transaction rules of its input (membership in both directions), never lengthens the list, and is the identity on a list of rules |
| Includes.KeepRulesConcat | beancount_hledger_import_hooks/hledger/loader.py:169-173 | the filter keeps order: the rules of a + b are the rules of a followed by those of b, and a single entry of any other kind vanishes |
| Includes.Flatten | beancount_hledger_import_hooks/yamlledger/loader.py:38-61 | a successful flattening holds only transaction rules |
| Includes.FlattenConcat | beancount_hledger_import_hooks/yamlledger/loader.py:38-58 | flattening a + b is flattening a then b; the first failure wins |
| Includes.FlattenPlainRules | beancount_hledger_import_hooks/yamlledger/loader.py:57-58 | transaction rules are kept unchanged, in order |
| Includes.IncludeSplicedInPlace | beancount_hledger_import_hooks/yamlledger/loader.py:41-55 | a non-blank include is replaced at its own position by the flattened rules of the file it names, resolved against the including file's directory |
| Includes.BlankIncludeSkipped | beancount_hledger_import_hooks/yamlledger/loader.py:41-43 | an include with an empty path contributes nothing and reads nothing |
| Includes.DateFormatRejected | beancount_hledger_import_hooks/yamlledger/loader.py:60-61 | once the items before it are accepted, a date-format entry fails with UnknownBlockType of its text |
| Includes.SingleIncludeYieldsChild | beancount_hledger_import_hooks/yamlledger/loader.py:18-30 | a file whose only entry is an include flattens to exactly the child's rules, in the child's order |
| Includes.FlattenFuelMonotone | beancount_hledger_import_hooks/hledger/loader.py:165 | unless the depth bound was hit, more fuel gives the same result |
| Includes.FlattenItemsFuelMonotone | beancount_hledger_import_hooks/yamlledger/loader.py:38-55 | the same, for a sequence of items |
| Includes.FlattenItemFuelMonotone | beancount_hledger_import_hooks/yamlledger/loader.py:39-49 | the same, for one item |
| HledgerLoader.HledgerBlocks | beancount_hledger_import_hooks/hledger/loader.py:140-185 | on success every entry of the loaded rule set is a transaction rule |
| HledgerLoader.Blocks | beancount_hledger_import_hooks/hledger/loader.py:152-181 | the two-chain loop keeps its output all transaction rules once the accumulator is |
| HledgerLoader.HledgerBlocksFlattens | beancount_hledger_import_hooks/hledger/loader.py:140-185 | the as-written DSL loader computes the reference flattening, errors included |
| HledgerLoader.BlocksFlatten | beancount_hledger_import_hooks/hledger/loader.py:152-181 | each iteration of the two-chain loop body matches the reference flattening of the remaining items, appended to what has been accumulated |
| YamlLoader.YamlBlocks | beancount_hledger_import_hooks/yamlledger/loader.py:14-65 | on success every entry of the loaded rule set is a transaction rule |
| YamlLoader.Blocks | beancount_hledger_import_hooks/yamlledger/loader.py:38-61 | the loop keeps its output all transaction rules once the accumulator is |
| YamlLoader.YamlBlocksFlattens | beancount_hledger_import_hooks/yamlledger/loader.py:14-65 | the as-written structured-file loader computes the reference flattening, errors included |
| YamlLoader.BlocksFlatten | beancount_hledger_import_hooks/yamlledger/loader.py:38-61 | each loop iteration matches the reference flattening of the remaining items, appended to the accumulator |
| YamlLoader.LoadersAgree | beancount_hledger_import_hooks/hledger/loader.py:152-156 | both loaders give the same result on every file map: the DSL loader's append of a date-format entry is never observable, because the entry is rejected in the same iteration |
| Query.Eval | beancount_hledger_import_hooks/query.py:36-58 | `satisfies` of a gate tree; its meaning per gate is stated by the rows below |
| Query.AnyHolds | beancount_hledger_import_hooks/query.py:36-42 | `any` over the children: true exactly when some child holds |
| Query.AllHold | beancount_hledger_import_hooks/query.py:45-50 | `all` over the children: true exactly when every child holds |
| Query.GateSemantics | beancount_hledger_import_hooks/query.py:36-58 | Or is any-of, And is all-of, Not is none-of; with no children Or is false and And and Not are true |
| Query.NotIsNegatedOr | beancount_hledger_import_hooks/query.py:53-58 | Not is the negation of Or over the same children; Not of one child negates that child |
| Query.NotIsAndOfNegations | beancount_hledger_import_hooks/query.py:53-58 | Not over several children is the And of one single-child Not per child |
| Query.PermutationInvariant | beancount_hledger_import_hooks/query.py:36-58 | reordering a gate's children never changes its value |
| Matchers.Templates | beancount_hledger_import_hooks/matchers.py:28-31 | the comprehension over `mapper.value` gives one template per character, holding that character |
| Matchers.ResolveMatcherType | beancount_hledger_import_hooks/matchers.py:64-81 | succeeds exactly on a clause record, with the gate of the clause's own kind over its per-character templates; anything else is a ValueError with the object's text |
| Matchers.ResolvedGateSemantics | beancount_hledger_import_hooks/matchers.py:25-58 | a resolved And gate holds when every character's template holds, Or when some does, Not when none does |
| Matchers.Clause | beancount_hledger_import_hooks/rules.py:53-77 | a clause's gate has the clause's own kind (And, Or or Not, one-to-one) and one child, the leaf of the clause's whole expression |
| Matchers.ClauseSemantics | beancount_hledger_import_hooks/rules.py:53-77 | a clause's gate holds when its expression holds for And/Or clauses, and when it fails for Not clauses |
| Matchers.SubstringLeaf | beancount_hledger_import_hooks/matchers_test.py:37-40 | the leaf the test expressions reduce to: the expression occurs in the narration |
| Matchers.PerCharacterTemplatesDiffer | beancount_hledger_import_hooks/matchers.py:29 | with substring leaves, the resolved And clause "ab" holds on "ba" though the clause's expression does not occur there |
| TruthTables.TermMeansContains | beancount_hledger_import_hooks/matchers_test.py:37-40 | the test expression `'<word>' in Transaction.narration` is the substring leaf of the word (`Matchers.SubstringLeaf`): it holds exactly when the word occurs in the narration |
| TruthTables.AndTable | beancount_hledger_import_hooks/matchers_test.py:36-46 | And(Debit, Wholefoods) holds for "Debit Wholefoods" and fails for "Debit", "Wholefoods" and "Credit" |
| TruthTables.OrTable | beancount_hledger_import_hooks/matchers_test.py:49-59 | Or(Debit, Wholefoods) fails only for "Credit" |
| TruthTables.NotTable | beancount_hledger_import_hooks/matchers_test.py:62-71 | Not(Debit) holds for "Wholefoods" and "Credit" only |
| TruthTables.NestedTable | beancount_hledger_import_hooks/matchers_test.py:74-89 | Or(And(Debit, Wholefoods), Groceries) holds for "Debit Wholefoods" and the three "Groceries" narrations and for no other test narration |
| Rules.Clauses | beancount_hledger_import_hooks/rules.py:53-77 | one gate per clause, tagged with the clause's own kind, with count and order kept |
| Rules.FromMapper | beancount_hledger_import_hooks/rules.py:46-85 | succeeds exactly on a transaction rule; an include is refused with "IncludeBlockMapper is not supported"; a date-format entry has no `matchers`; the transform list is never filled in |
| Rules.Satisfies | beancount_hledger_import_hooks/rules.py:87-95 | a rule holds when its matcher gate evaluates to true; its meaning for rules built from records is the next row |
| Rules.RuleHoldsIffEveryClause | beancount_hledger_import_hooks/rules.py:79-82 | a rule built from a record holds exactly when every And/Or clause's expression holds and every Not clause's expression fails |
| Rules.OneClauseIsNotEnough | beancount_hledger_import_hooks/rules.py:79-82 | contrary to the "if any match" docstring, one satisfied clause out of two does not make the rule hold |
| Rules.ApplyAll | beancount_hledger_import_hooks/rules.py:101-105 | the left-to-right accumulation of the transforms; its laws are the next row |
| Rules.Transform | beancount_hledger_import_hooks/rules.py:97-105 | `transform` runs the rule's own transforms |
| Rules.ApplyAllConcat | beancount_hledger_import_hooks/rules.py:97-105 | transforms compose in list order, each taking the previous output; the empty list is the identity |
| Rules.Process | beancount_hledger_import_hooks/rules.py:107-114 | for an And matcher the transforms run exactly when every child gate holds, and otherwise the transaction is returned unchanged; a rule without transforms is the identity |
| Rules.ProcessOfClauses | beancount_hledger_import_hooks/rules.py:107-114 | a rule with the clauses of a record runs its transforms exactly when every And/Or clause's expression holds and every Not clause's expression fails, and otherwise returns the transaction unchanged |
| Rules.LoadedRuleIsInert | beancount_hledger_import_hooks/rules.py:84-85 | a rule built from a record leaves every transaction unchanged, matched or not |
| Rules.ProcessAll | beancount_hledger_import_hooks/rules.py:132-133 | the inner loop of `run`: one transaction through every rule in order; its law is the next row |
| Rules.ProcessAllConcat | beancount_hledger_import_hooks/rules.py:131-133 | each transaction visits every rule in order, with no stop at the first match: rules a then b act as a + b |
| Rules.RuleSetFromMapper | beancount_hledger_import_hooks/rules.py:120-125 | one rule per record, in order; succeeds exactly when every record is a transaction rule, and otherwise fails with the error of the first record that is not one |
| Rules.LoadedRuleSetIsInert | beancount_hledger_import_hooks/rules.py:120-125 | a rule set built from records leaves every transaction unchanged |
| Rules.Run | beancount_hledger_import_hooks/rules.py:127-135 | as written: the input list is returned as given, whatever the rules do |
| Rules.RunDiscardsTransform | beancount_hledger_import_hooks/rules.py:131-135 | a rule that always holds and adds one turns transaction 0 into 1, which `run` drops |
| Rules.RunThreaded | beancount_hledger_import_hooks/rules.py:127-135 | corrected: same length as the input, and each output is its input threaded through every rule in order |
| Pipeline.DateFormatLineRejected | beancount_hledger_import_hooks/hledger/loader.py:152-181 | a DSL date-format entry reaches neither loader's output: once the entries before it are accepted, both fail with UnknownBlockType of `value='<format>'`, which is recovered from its message |
| Pipeline.BlankIncludeLineSkipped | beancount_hledger_import_hooks/hledger/loader.py:156-160 | an include line whose path token is all whitespace contributes nothing and reads nothing |
| Pipeline.LoadedRulesAreAcceptedAndInert | beancount_hledger_import_hooks/rules.py:117-135 | whatever a loader returns is accepted by the rule-set constructor, and the resulting rule set changes no transaction |

## Left out

- Interrogator (`interrogator.py`): Jinja compilation and evaluation and the `keys`/`values` filters are foreign code. Every leaf expression is decided by the `leaf` parameter. `MatcherTemplate.satisfies` raises `NotImplementedError`; the model gives it the same oracle.
- Parsing: the Lark grammar, `hledger_parser` and `parse()` file reading (`hledger/loader.py:116-137`), and the YAML deserialisation (`yamlledger/loader.py:32`) are left out. A rules file is given as its already-parsed items in the file map, and a missing path is `FileNotFound`.
- Output and integration: `rich` printing, the CLI, the host hooks (including the threading lock) and `transform.py` are left out. A transform is a function `T -> T`.
- Callbacks folded into their callers: `start`, `rule`, `match_field_value`, `transform_key` and `transform_value` only pass a child through. `include_path`, `match_or_line_value` and `match_and_line_value` strip their token, and that stripping is part of `HledgerTransformer.IncludeRule`, `MatchOrLine` and `MatchAndLine`. Each modelled callback receives its children as arguments.
- Python aliasing: the class-level `rules` and `transforms` lists shared across instances, and the never-assigned `interrogator`, are left out. Per-instance values and parameters are used instead.
- Undefined names, an uncallable alias and subscripted type tests: `ResolveQuery` and `RuleSet.from_mapper` do not exist in the code. `Matcher` is a `type` alias of a `Union` (`matchers.py:61`) and cannot be called, so `Matcher(...)` in `Rule.__init__` (`rules.py:57-82`) raises `TypeError`. The `isinstance` tests in `resolve_matcher_type` (`matchers.py:72-78`) and `Rule.__init__` (`rules.py:50-71`) subscript non-generic pydantic models (`MatcherAndMapper[T]`, `IncludeRuleMapper[T]`), which raises `TypeError`. So as written, neither function returns a gate or raises the `ValueError`/`AttributeError` the model gives. The model reads those tests against the classes themselves and builds a rule's gate from its clauses as the code evidently means it (`Rules.Clauses`).
- `Query(context, query).satisfies()` is `Eval` applied to its two fields, so it has no separate member.
- Date-format option merging does not exist in the code, and both loaders reject date-format entries.
- Includes.JoinPath: `..` is kept as an ordinary component, as `PurePath` keeps it, and the file map is not consulted to resolve it, so `a/../b` and `b` name different files. Symbolic links are not modelled either. A path is a list of components: empty and `.` components are dropped, and an absolute path starts with a root component. A leading `//`, which `PurePath` keeps as a distinct root, is read as `/`.
- Includes.Flatten: the interpreter's recursion limit is a `fuel` bound on include depth, so an include cycle ends in `RecursionLimit` rather than a real stack overflow.
- Errors.Message: the messages of the built-in exceptions (`ValueError` text aside) are approximations of CPython's wording.
- Mappers.ItemText: `str()` and `repr()` of records follow pydantic's `field=repr(value)` layout without Python's quote selection or escaping (`Text.Repr` always uses single quotes).
- Rules.Run: transforms are pure functions `T -> T`, so in-place mutation of a shared transaction object is not modelled. Such mutation is the one effect of `run` that would survive, since `rules.py:133` only rebinds a local; "whatever the rules do" in its row and the `run` finding assume transforms return new values, as beancount's immutable transactions and the accumulate-style `transform` do.
- HledgerTransformer.Lookup: a dict is an association list. The key dicts built by the callbacks have a single entry, so the first match is the only one.

## Findings

| source | as written | input that shows it | evidently intended | confidence | as-written member | corrected member |
|---|---|---|---|---|---|---|
| beancount_hledger_import_hooks/matchers.py:29 | `[MatcherTemplate(template) for template in mapper.value]` iterates a string, so a clause becomes one template per character | the And clause "ab" on narration "ba", with substring leaves: every character occurs, so the gate holds, though "ab" does not occur | one template holding the clause's whole expression | not executed; high | Matchers.ResolveMatcherType, Matchers.PerCharacterTemplatesDiffer | Matchers.Clause, Matchers.ClauseSemantics |
| beancount_hledger_import_hooks/rules.py:131-135 | `transaction = rule.process(transaction)` rebinds the loop variable, and the untouched input list is returned | one rule that always holds with the transform "add one", input [0]: `run` returns [0], not [1] | return the list of processed transactions | not executed; high | Rules.Run, Rules.RunDiscardsTransform | Rules.RunThreaded |
