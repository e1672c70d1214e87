/** The reduction callbacks of `HledgerTransformer`
    (beancount_hledger_import_hooks/hledger/loader.py): they turn the values
    the DSL grammar has already tokenised into rule records. Each callback
    receives its grammar children as arguments rather than as a list. */
module HledgerTransformer {
  import opened Wrappers
  import opened Text
  import opened Mappers
  import opened Errors

  const FieldPrefix := "Transaction."
  const MatchesInfix := " | matches \""

  /** `transaction_field_has`: the expression testing that a transaction field
      matches a pattern; field and pattern are both stripped. */
  function FieldHas(field: string, value: string): string {
    FieldPrefix + Strip(field) + MatchesInfix + Strip(value) + "\""
  }

  /** Whitespace around either argument never changes the expression. */
  lemma FieldHasIgnoresPadding(field: string, value: string)
    ensures FieldHas(Strip(field), Strip(value)) == FieldHas(field, value)
  {
    StripIdempotent(field);
    StripIdempotent(value);
  }

  /** For one field, the expression determines the stripped pattern. */
  lemma FieldHasPatternInjective(field: string, v1: string, v2: string)
    ensures FieldHas(field, v1) == FieldHas(field, v2) <==> Strip(v1) == Strip(v2)
  {
    var p := FieldPrefix + Strip(field) + MatchesInfix;
    assert FieldHas(field, v1) == p + Strip(v1) + "\"";
    assert FieldHas(field, v2) == p + Strip(v2) + "\"";
    MiddleCancels(p, Strip(v1), Strip(v2), "\"");
  }

  /** Two strings with the same prefix and suffix are equal exactly when
      their middles are. */
  lemma MiddleCancels(p: string, x: string, y: string, q: string)
    ensures p + x + q == p + y + q <==> x == y
  {
    if p + x + q == p + y + q {
      assert |x| == |y|;
      forall i | 0 <= i < |x|
        ensures x[i] == y[i]
      {
        assert (p + x + q)[|p| + i] == x[i];
        assert (p + y + q)[|p| + i] == y[i];
      }
    }
  }

  /** `include_rule` applied to the `include_path` of a path token. */
  function IncludeRule(token: string): (r: Item)
    ensures r.Include?
    ensures Trimmed(r.value)
    ensures r.value == [] <==> AllSpace(token)
    ensures Strip(r.value) == Strip(token)
  {
    StripEmptyIff(token);
    StripIdempotent(token);
    Include(Strip(token))
  }

  /** The include path is the token without its surrounding whitespace:
      padding a trimmed path with whitespace on either side names the same
      file. */
  lemma IncludeRuleOfPadded(a: string, path: string, b: string)
    requires AllSpace(a) && AllSpace(b) && Trimmed(path)
    ensures IncludeRule(a + path + b) == Include(path)
  {
    StripOfPadded(a, path, b);
  }

  /** `match_or_line` applied to the `match_or_line_value` of a pattern line
      under `if`: the narration must match the pattern. */
  function MatchOrLine(token: string): (r: MatcherMapper)
    ensures r == OrIs(FieldHas("narration", token))
  {
    FieldHasIgnoresPadding("narration", token);
    OrIs(FieldHas("narration", Strip(token)))
  }

  /** `match_and_line` applied to the `match_and_line_value` of a pattern line. */
  function MatchAndLine(token: string): (r: MatcherMapper)
    ensures r == AndIs(FieldHas("narration", token))
  {
    FieldHasIgnoresPadding("narration", token);
    AndIs(FieldHas("narration", Strip(token)))
  }

  /** `match_or_key`: the one-entry dict naming the field under `or`. */
  function MatchOrKey(field: string): (d: seq<(string, string)>)
    ensures HasKey(d, "or") && !HasKey(d, "and") && Lookup(d, "or") == field
  {
    var d := [("or", field)];
    assert d[0].0 == "or";
    assert "or" != "and";
    d
  }

  /** `match_and_key`: the one-entry dict naming the field under `and`. */
  function MatchAndKey(field: string): (d: seq<(string, string)>)
    ensures HasKey(d, "and") && !HasKey(d, "or") && Lookup(d, "and") == field
  {
    var d := [("and", field)];
    assert d[0].0 == "and";
    assert "or" != "and";
    d
  }

  /** Python's `k in d` on a dict. */
  predicate HasKey(d: seq<(string, string)>, k: string) {
    exists i | 0 <= i < |d| :: d[i].0 == k
  }

  /** Python's `d[k]` on a dict whose keys are distinct. */
  function Lookup(d: seq<(string, string)>, k: string): (v: string)
    requires HasKey(d, k)
    ensures exists i | 0 <= i < |d| :: d[i] == (k, v)
  {
    if d[0].0 == k then d[0].1 else Lookup(d[1..], k)
  }

  /** `match_field`: dispatch on the field key's dict, `or` before `and`. */
  function MatchField(key: seq<(string, string)>, value: string): (r: Result<MatcherMapper, Error>)
    ensures r.Success? <==> HasKey(key, "or") || HasKey(key, "and")
    ensures r.Failure? ==> r.error == InvalidMatchFieldKey(DictText(key))
    ensures r.Success? ==> (r.value.OrIs? <==> HasKey(key, "or"))
    ensures r.Success? ==> !r.value.IsNot?
  {
    if HasKey(key, "or") then Success(OrIs(FieldHas(Lookup(key, "or"), value)))
    else if HasKey(key, "and") then Success(AndIs(FieldHas(Lookup(key, "and"), value)))
    else Failure(InvalidMatchFieldKey(DictText(key)))
  }

  /** A field-match line `<field> or <pattern>` or `<field> and <pattern>`
      becomes an Or or an And clause on that field. */
  lemma MatchFieldOfKeys(field: string, value: string)
    ensures MatchField(MatchOrKey(field), value) == Success(OrIs(FieldHas(field, value)))
    ensures MatchField(MatchAndKey(field), value) == Success(AndIs(FieldHas(field, value)))
  {
    assert MatchOrKey(field)[0].0 == "or";
    assert MatchAndKey(field)[0].0 == "and";
    assert !HasKey(MatchAndKey(field), "or") by {
      assert "and" != "or";
    }
  }

  /** `transform`: the key is kept verbatim and the template is stripped. */
  function TransformLine(key: string, value: string): (r: TransformMapper)
    ensures r.key == key
    ensures Trimmed(r.value)
    ensures Strip(r.value) == Strip(value)
  {
    StripIdempotent(value);
    TransformMapper(key, Strip(value))
  }

  /** `date_format`: the format token is kept verbatim, unstripped. */
  function DateFormatLine(token: string): (r: Item)
    ensures r.DateFormat? && r.value == token
    ensures ItemField(r) == Some((DateFormatAlias, token))
  {
    DateFormat(token)
  }

  /** What `import_rule` accepts among a rule's children. */
  predicate IsRulePart(v: Value) {
    (v.Matcher? && !v.m.IsNot?) || v.Transform?
  }

  /** `import_rule`: splits a rule's children into its Or/And clauses and its
      transforms, each in their original order; any other child, a Not
      clause included, is an invalid rule type. */
  function ImportRule(items: seq<Value>): (r: Result<TransactionRuleMapper, Error>)
    ensures r.Success? <==> forall i | 0 <= i < |items| :: IsRulePart(items[i])
    ensures r.Success? ==> |r.value.matchers| + |r.value.transforms| == |items|
    ensures r.Success? ==> forall j | 0 <= j < |r.value.matchers| :: !r.value.matchers[j].IsNot?
    ensures r.Failure? ==>
      exists i | 0 <= i < |items| ::
        && !IsRulePart(items[i])
        && r.error == InvalidRuleType(ValueText(items[i]))
        && forall j | 0 <= j < i :: IsRulePart(items[j])
  {
    if items == [] then Success(TransactionRuleMapper([], []))
    else
      var item := items[0];
      if item.Matcher? && (item.m.OrIs? || item.m.AndIs?) then
        var rest :- ImportRule(items[1..]);
        Success(TransactionRuleMapper([item.m] + rest.matchers, rest.transforms))
      else if item.Transform? then
        var rest :- ImportRule(items[1..]);
        Success(TransactionRuleMapper(rest.matchers, [item.t] + rest.transforms))
      else
        Failure(InvalidRuleType(ValueText(item)))
  }

  function ClauseValues(ms: seq<MatcherMapper>): (vs: seq<Value>)
    ensures |vs| == |ms| && forall i | 0 <= i < |ms| :: vs[i] == Matcher(ms[i])
  {
    if ms == [] then [] else [Matcher(ms[0])] + ClauseValues(ms[1..])
  }

  function TransformValues(ts: seq<TransformMapper>): (vs: seq<Value>)
    ensures |vs| == |ts| && forall i | 0 <= i < |ts| :: vs[i] == Transform(ts[i])
  {
    if ts == [] then [] else [Transform(ts[0])] + TransformValues(ts[1..])
  }

  /** The children a rule is written with: its clauses, then its transforms. */
  function RuleParts(rule: TransactionRuleMapper): seq<Value> {
    ClauseValues(rule.matchers) + TransformValues(rule.transforms)
  }

  /** `import_rule` keeps the children of one kind in order: reading
      `a + b` gives `a`'s clauses then `b`'s, and `a`'s transforms then `b`'s. */
  lemma {:induction false} ImportRuleConcat(a: seq<Value>, b: seq<Value>)
    requires ImportRule(a).Success? && ImportRule(b).Success?
    ensures ImportRule(a + b) == Success(TransactionRuleMapper(
      ImportRule(a).value.matchers + ImportRule(b).value.matchers,
      ImportRule(a).value.transforms + ImportRule(b).value.transforms))
    decreases |a|
  {
    if a == [] {
      assert a + b == b;
      var rb := ImportRule(b).value;
      assert [] + rb.matchers == rb.matchers && [] + rb.transforms == rb.transforms;
      assert TransactionRuleMapper(rb.matchers, rb.transforms) == rb;
    } else {
      assert IsRulePart(a[0]) && ImportRule(a[1..]).Success?;
      ImportRuleConcat(a[1..], b);
      var ra := ImportRule(a[1..]).value;
      var rb := ImportRule(b).value;
      var x := a[0];
      assert ImportRule(a) == Success(Push(x, ra)) by {
        ImportRuleStep(a);
      }
      assert ImportRule(a + b) == Success(Push(x, TransactionRuleMapper(ra.matchers + rb.matchers, ra.transforms + rb.transforms))) by {
        assert (a + b)[0] == x;
        assert (a + b)[1..] == a[1..] + b;
        ImportRuleStep(a + b);
      }
      if x.Matcher? {
        ConsAssoc(x.m, ra.matchers, rb.matchers);
      } else {
        ConsAssoc(x.t, ra.transforms, rb.transforms);
      }
    }
  }

  lemma ConsAssoc<X>(x: X, p: seq<X>, q: seq<X>)
    ensures [x] + (p + q) == ([x] + p) + q
  {
  }

  /** A rule part in front of an accepted rule: a clause joins the clauses,
      a transform the transforms. */
  function Push(x: Value, rest: TransactionRuleMapper): TransactionRuleMapper
    requires IsRulePart(x)
  {
    if x.Matcher? then TransactionRuleMapper([x.m] + rest.matchers, rest.transforms)
    else TransactionRuleMapper(rest.matchers, [x.t] + rest.transforms)
  }

  /** One step of `import_rule`: a rule part followed by an accepted rest. */
  lemma ImportRuleStep(items: seq<Value>)
    requires items != [] && IsRulePart(items[0]) && ImportRule(items[1..]).Success?
    ensures ImportRule(items) == Success(Push(items[0], ImportRule(items[1..]).value))
  {
  }

  /** Any rule whose clauses are all Or/And is rebuilt exactly from its
      clauses followed by its transforms. */
  lemma ImportRuleRoundTrip(rule: TransactionRuleMapper)
    requires forall j | 0 <= j < |rule.matchers| :: !rule.matchers[j].IsNot?
    ensures ImportRule(RuleParts(rule)) == Success(rule)
  {
    MatchersOnly(rule.matchers);
    TransformsOnly(rule.transforms);
    ImportRuleConcat(ClauseValues(rule.matchers), TransformValues(rule.transforms));
    assert rule.matchers + [] == rule.matchers;
    assert [] + rule.transforms == rule.transforms;
  }

  lemma {:induction false} MatchersOnly(ms: seq<MatcherMapper>)
    requires forall j | 0 <= j < |ms| :: !ms[j].IsNot?
    ensures ImportRule(ClauseValues(ms)) == Success(TransactionRuleMapper(ms, []))
    decreases |ms|
  {
    if ms != [] {
      var vs := ClauseValues(ms);
      assert vs[1..] == ClauseValues(ms[1..]);
      MatchersOnly(ms[1..]);
      assert IsRulePart(vs[0]);
      ImportRuleStep(vs);
      assert [ms[0]] + ms[1..] == ms;
    }
  }

  lemma {:induction false} TransformsOnly(ts: seq<TransformMapper>)
    ensures ImportRule(TransformValues(ts)) == Success(TransactionRuleMapper([], ts))
    decreases |ts|
  {
    if ts != [] {
      var vs := TransformValues(ts);
      assert vs[1..] == TransformValues(ts[1..]);
      TransformsOnly(ts[1..]);
      assert IsRulePart(vs[0]);
      ImportRuleStep(vs);
      assert [ts[0]] + ts[1..] == ts;
    }
  }
}
