/** The canonical rule records shared by both rule syntaxes
    (beancount_hledger_import_hooks/mappers.py), and `Value`, the kinds of
    object that flow through the DSL reduction callbacks. */
module Mappers {
  import opened Wrappers
  import opened Text

  /** A match clause: exactly one expression string, read from the field
      `and_is`, `or_is` or `is_not`. */
  datatype MatcherMapper =
    | AndIs(value: string)
    | OrIs(value: string)
    | IsNot(value: string)

  /** A transform: a field key and a template. */
  datatype TransformMapper = TransformMapper(key: string, value: string)

  /** A transaction rule: match clauses and transforms, both ordered and both
      possibly empty. */
  datatype TransactionRuleMapper =
    TransactionRuleMapper(matchers: seq<MatcherMapper>, transforms: seq<TransformMapper>)

  /** One entry of a rule document. */
  datatype Item =
    | TransactionRule(rule: TransactionRuleMapper)
    | Include(value: string)
    | DateFormat(value: string)

  datatype RuleSetMapper = RuleSetMapper(rules: seq<Item>)

  /** A Python value handed to a reduction callback or to
      `resolve_matcher_type`: a token or string, the one-entry dict built for
      a field key (an association list in insertion order), or a record. */
  datatype Value =
    | Str(s: string)
    | Dict(entries: seq<(string, string)>)
    | Matcher(m: MatcherMapper)
    | Transform(t: TransformMapper)
    | Block(item: Item)

  const AndAlias := "and_is"
  const OrAlias := "or_is"
  const NotAlias := "is_not"
  const IncludeAlias := "include"
  const DateFormatAlias := "date_format"

  /** The single (field name, expression) pair a match clause is written as. */
  function MatcherField(m: MatcherMapper): (f: (string, string))
    ensures f.1 == m.value
  {
    match m
    case AndIs(v) => (AndAlias, v)
    case OrIs(v) => (OrAlias, v)
    case IsNot(v) => (NotAlias, v)
  }

  /** Reads a match clause from its single field; any other field name is
      not a match clause. */
  function MatcherFromField(alias: string, expr: string): Option<MatcherMapper> {
    if alias == AndAlias then Some(AndIs(expr))
    else if alias == OrAlias then Some(OrIs(expr))
    else if alias == NotAlias then Some(IsNot(expr))
    else None
  }

  /** Writing a clause as its field and reading it back are inverse: a pair is
      read as `m` exactly when `m` is written as that pair. */
  lemma MatcherFieldRoundTrip(m: MatcherMapper, alias: string, expr: string)
    ensures MatcherFromField(alias, expr) == Some(m) <==> MatcherField(m) == (alias, expr)
  {
  }

  /** The single field of an include or date-format entry; a transaction rule
      has two fields and so none. */
  function ItemField(item: Item): (f: Option<(string, string)>)
    ensures f.Some? <==> !item.TransactionRule?
  {
    match item
    case TransactionRule(_) => None
    case Include(v) => Some((IncludeAlias, v))
    case DateFormat(v) => Some((DateFormatAlias, v))
  }

  function ItemFromField(alias: string, v: string): Option<Item> {
    if alias == IncludeAlias then Some(Include(v))
    else if alias == DateFormatAlias then Some(DateFormat(v))
    else None
  }

  lemma ItemFieldRoundTrip(item: Item, alias: string, v: string)
    ensures ItemFromField(alias, v) == Some(item) <==> ItemField(item) == Some((alias, v))
  {
  }

  predicate AllRules(items: seq<Item>) {
    forall i | 0 <= i < |items| :: items[i].TransactionRule?
  }

  // Python's str() and repr() of the records, as pydantic renders them:
  // str() is `field=repr(value)` joined by spaces, repr() is
  // `ClassName(field=repr(value), ...)`.

  function MatcherRepr(m: MatcherMapper): string {
    match m
    case AndIs(v) => "MatcherAndMapper(value=" + Repr(v) + ")"
    case OrIs(v) => "MatcherOrMapper(value=" + Repr(v) + ")"
    case IsNot(v) => "MatcherNotMapper(value=" + Repr(v) + ")"
  }

  function TransformRepr(t: TransformMapper): string {
    "TransformMapper(key=" + Repr(t.key) + ", value=" + Repr(t.value) + ")"
  }

  function ListRepr(parts: seq<string>): string {
    "[" + Text.Join(", ", parts) + "]"
  }

  function ItemText(item: Item): string {
    match item
    case TransactionRule(r) =>
      "matchers=" + ListRepr(seq(|r.matchers|, i requires 0 <= i < |r.matchers| => MatcherRepr(r.matchers[i])))
      + " transforms=" + ListRepr(seq(|r.transforms|, i requires 0 <= i < |r.transforms| => TransformRepr(r.transforms[i])))
    case Include(v) => "value=" + Repr(v)
    case DateFormat(v) => "value=" + Repr(v)
  }

  function DictText(entries: seq<(string, string)>): string {
    "{" + Text.Join(", ", seq(|entries|, i requires 0 <= i < |entries| => Repr(entries[i].0) + ": " + Repr(entries[i].1))) + "}"
  }

  /** `str()` of a one-entry dict, as the match-field callbacks build:
      `{'<key>': '<value>'}`. */
  lemma DictTextOfSingle(k: string, v: string)
    ensures DictText([(k, v)]) == "{'" + k + "': '" + v + "'}"
  {
    var parts := seq(1, i requires 0 <= i < 1 => Repr([(k, v)][i].0) + ": " + Repr([(k, v)][i].1));
    assert parts == [Repr(k) + ": " + Repr(v)];
  }

  function ValueText(v: Value): string {
    match v
    case Str(s) => s
    case Dict(entries) => DictText(entries)
    case Matcher(m) => "value=" + Repr(m.value)
    case Transform(t) => "key=" + Repr(t.key) + " value=" + Repr(t.value)
    case Block(item) => ItemText(item)
  }
}
