/** The error kinds the pipeline raises: the three exceptions of
    beancount_hledger_import_hooks/exceptions.py, the two `ValueError`s of
    matchers.py and rules.py, and the built-in failures of the loaders. */
module Errors {
  import opened Wrappers
  import opened Text

  /** Each payload is Python's `str()` of the offending object. */
  datatype Error =
    | UnknownBlockType(block: string)
    | InvalidMatchFieldKey(key: string)
    | InvalidRuleType(item: string)
      /** `ValueError` from `resolve_matcher_type` */
    | UnknownMatcherType(mapper: string)
      /** `ValueError` from `Rule.__init__` given an include record */
    | IncludeNotSupported
      /** `AttributeError` from `Rule.__init__` given a date-format record */
    | NoMatchersAttribute
      /** `FileNotFoundError` from opening a rules file */
    | FileNotFound(path: string)
      /** `RecursionError` from an include chain deeper than the interpreter allows */
    | RecursionLimit

  const UnknownBlockPrefix := "Unknown block type: "
  const InvalidKeyPrefix := "Invalid match field key: "
  const InvalidRulePrefix := "Invalid rule type: "

  /** The three kinds declared in exceptions.py. */
  predicate IsRuleError(e: Error) {
    e.UnknownBlockType? || e.InvalidMatchFieldKey? || e.InvalidRuleType?
  }

  /** The message each exception stores, which is also what `str()` returns. */
  function Message(e: Error): (msg: string)
    ensures e.UnknownBlockType? ==> IsPrefix(UnknownBlockPrefix, msg)
    ensures e.InvalidMatchFieldKey? ==> IsPrefix(InvalidKeyPrefix, msg)
    ensures e.InvalidRuleType? ==> IsPrefix(InvalidRulePrefix, msg)
  {
    match e
    case UnknownBlockType(b) => UnknownBlockPrefix + b
    case InvalidMatchFieldKey(k) => InvalidKeyPrefix + k
    case InvalidRuleType(i) => InvalidRulePrefix + i
    case UnknownMatcherType(m) => "Unknown matcher type: " + m
    case IncludeNotSupported => "IncludeBlockMapper is not supported"
    case NoMatchersAttribute => "'DateFormatOptionMapper' object has no attribute 'matchers'"
    case FileNotFound(p) => "[Errno 2] No such file or directory: " + Repr(p)
    case RecursionLimit => "maximum recursion depth exceeded"
  }

  /** Recovers an exceptions.py error from its message by its prefix. */
  function Decode(msg: string): Option<Error> {
    if IsPrefix(UnknownBlockPrefix, msg) then Some(UnknownBlockType(msg[|UnknownBlockPrefix|..]))
    else if IsPrefix(InvalidKeyPrefix, msg) then Some(InvalidMatchFieldKey(msg[|InvalidKeyPrefix|..]))
    else if IsPrefix(InvalidRulePrefix, msg) then Some(InvalidRuleType(msg[|InvalidRulePrefix|..]))
    else None
  }

  /** The message of each exceptions.py error determines the error: its kind
      by the prefix and the offending object's text by the rest. */
  lemma DecodeMessage(e: Error)
    requires IsRuleError(e)
    ensures Decode(Message(e)) == Some(e)
  {
    var msg := Message(e);
    match e
    case UnknownBlockType(b) =>
      assert msg[|UnknownBlockPrefix|..] == b;
    case InvalidMatchFieldKey(k) =>
      assert msg[0] == 'I';
      assert msg[|InvalidKeyPrefix|..] == k;
    case InvalidRuleType(i) =>
      assert msg[0] == 'I';
      assert msg[8] == 'r';
      assert msg[|InvalidRulePrefix|..] == i;
  }

  /** Distinct exceptions.py errors never share a message. */
  lemma MessageInjective(e1: Error, e2: Error)
    requires IsRuleError(e1) && IsRuleError(e2)
    ensures Message(e1) == Message(e2) <==> e1 == e2
  {
    DecodeMessage(e1);
    DecodeMessage(e2);
  }
}
