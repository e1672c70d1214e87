/** Include flattening shared by both loaders: paths, the file map, and the
    reference flattening that the two as-written loaders are proved to
    compute. A rules file is read as its already-parsed items; the file map
    stands for the filesystem together with the parser. */
module Includes {
  import opened Wrappers
  import opened Mappers
  import opened Errors
  import Text

  /** A path as its components; the empty path is the current directory,
      and an absolute path starts with the component `Root`. */
  type Path = seq<string>

  /** The root component of an absolute path. No component of a split
      string is `Root`, since splitting removes every `/`. */
  const Root: string := "/"

  /** Every readable rules file, with the items its parser produces. */
  type FileSystem = map<Path, seq<Item>>

  /** `PurePath.parent`: the path without its last component; the current
      directory and the root are their own parents. */
  function Parent(p: Path): (r: Path)
    ensures p == [] || p == [Root] ==> r == p
    ensures p != [] && p != [Root] ==> r + [p[|p| - 1]] == p
  {
    if p == [] || p == [Root] then p else p[..|p| - 1]
  }

  /** `str.split('/')`: the pieces between slashes, none holding a slash. */
  function SplitSlash(s: string): (parts: seq<string>)
    ensures |parts| >= 1
    ensures forall i | 0 <= i < |parts| :: '/' !in parts[i]
  {
    if s == [] then [""]
    else
      var rest := SplitSlash(s[1..]);
      if s[0] == '/' then [""] + rest else [[s[0]] + rest[0]] + rest[1..]
  }

  /** The components of a relative path: empty and `.` components vanish,
      and the others keep their order. */
  function Components(parts: seq<string>): (r: seq<string>)
    ensures |r| <= |parts|
    ensures forall x | x in r :: x in parts && x != "" && x != "."
  {
    if parts == [] then []
    else if parts[0] == "" || parts[0] == "." then Components(parts[1..])
    else [parts[0]] + Components(parts[1..])
  }

  /** Whether a path string is absolute. */
  predicate IsAbsolute(rel: string) {
    rel != [] && rel[0] == '/'
  }

  /** `PurePath.joinpath(rel)`: a relative `rel` is read under the
      directory, an absolute one replaces it. `..` stays an ordinary
      component, as `PurePath` keeps it. */
  function JoinPath(dir: Path, rel: string): (r: Path)
    ensures !IsAbsolute(rel) ==> |dir| <= |r| && r[..|dir|] == dir
    ensures IsAbsolute(rel) ==> r != [] && r[0] == Root
  {
    if IsAbsolute(rel) then [Root] + Components(SplitSlash(rel))
    else dir + Components(SplitSlash(rel))
  }

  /** An absolute include names the same file whatever directory the
      including file sits in. */
  lemma AbsoluteIgnoresDir(dir1: Path, dir2: Path, rel: string)
    requires IsAbsolute(rel)
    ensures JoinPath(dir1, rel) == JoinPath(dir2, rel)
    ensures dir1 != [] && dir1[0] != Root ==> JoinPath(dir1, rel)[0] != dir1[0]
  {
  }

  /** `str()` of a path. */
  function PathText(p: Path): string {
    if p == [] then "."
    else if p[0] == Root then "/" + Text.Join("/", p[1..])
    else Text.Join("/", p)
  }

  lemma {:induction false} SplitWithoutSlash(s: string)
    requires '/' !in s
    ensures SplitSlash(s) == [s]
    decreases |s|
  {
    if s != [] {
      SplitWithoutSlash(s[1..]);
      assert [s[0]] + s[1..] == s;
    }
  }

  /** An include naming a file beside the including one resolves to a
      sibling: its parent is the including file's parent. */
  lemma JoinSibling(dir: Path, name: string)
    requires name != "" && name != "."
    requires forall i | 0 <= i < |name| :: name[i] != '/'
    ensures JoinPath(dir, name) == dir + [name]
    ensures Parent(JoinPath(dir, name)) == dir
  {
    SplitWithoutSlash(name);
    assert Components([name]) == [name] + Components([]);
  }

  /** Splitting at a slash between two strings splits each side. */
  lemma {:induction false} SplitSlashAppend(x: string, y: string)
    ensures SplitSlash(x + "/" + y) == SplitSlash(x) + SplitSlash(y)
    decreases |x|
  {
    var s := x + "/" + y;
    if x == [] {
      assert s[0] == '/' && s[1..] == y;
    } else {
      assert s[0] == x[0];
      assert s[1..] == x[1..] + "/" + y;
      SplitSlashAppend(x[1..], y);
      var px, py := SplitSlash(x[1..]), SplitSlash(y);
      if x[0] == '/' {
        ConsAssoc("", px, py);
      } else {
        assert (px + py)[0] == px[0];
        assert (px + py)[1..] == px[1..] + py;
        ConsAssoc([x[0]] + px[0], px[1..], py);
      }
    }
  }

  lemma ConsAssoc<X>(x: X, p: seq<X>, q: seq<X>)
    ensures [x] + (p + q) == ([x] + p) + q
  {
  }

  lemma {:induction false} ComponentsAppend(p: seq<string>, q: seq<string>)
    ensures Components(p + q) == Components(p) + Components(q)
    decreases |p|
  {
    if p == [] {
      assert p + q == q;
    } else {
      assert (p + q)[0] == p[0];
      assert (p + q)[1..] == p[1..] + q;
      ComponentsAppend(p[1..], q);
      if p[0] != "" && p[0] != "." {
        ConsAssoc(p[0], Components(p[1..]), Components(q));
      }
    }
  }

  /** A relative include path with several components is read one step at
      a time: `dir / "a/b"` is `(dir / "a") / "b"`, as `PurePath` joins. */
  lemma JoinInSteps(dir: Path, a: string, b: string)
    requires a != "" && !IsAbsolute(a) && !IsAbsolute(b)
    ensures JoinPath(dir, a + "/" + b) == JoinPath(JoinPath(dir, a), b)
  {
    assert (a + "/" + b)[0] == a[0];
    SplitSlashAppend(a, b);
    var ca, cb := Components(SplitSlash(a)), Components(SplitSlash(b));
    ComponentsAppend(SplitSlash(a), SplitSlash(b));
    assert dir + (ca + cb) == (dir + ca) + cb;
  }

  /** The file `a/name` named by a relative include sits in the directory
      `a` under the including directory, so its own includes are resolved
      there. */
  lemma JoinNested(dir: Path, a: string, name: string)
    requires a != "" && !IsAbsolute(a)
    requires name != "" && name != "."
    requires forall i | 0 <= i < |name| :: name[i] != '/'
    ensures JoinPath(dir, a + "/" + name) == JoinPath(dir, a) + [name]
    ensures Parent(JoinPath(dir, a + "/" + name)) == JoinPath(dir, a)
  {
    JoinInSteps(dir, a, name);
    JoinSibling(JoinPath(dir, a), name);
  }

  /** `str.join` undoes `str.split`: a path string is its pieces joined by
      slashes. */
  lemma {:induction false} JoinSplitSlash(s: string)
    ensures Text.Join("/", SplitSlash(s)) == s
    decreases |s|
  {
    if s != [] {
      var rest := SplitSlash(s[1..]);
      JoinSplitSlash(s[1..]);
      if s[0] == '/' {
        assert Text.Join("/", [""] + rest) == "" + "/" + Text.Join("/", rest);
      } else if |rest| == 1 {
        assert [[s[0]] + rest[0]] + rest[1..] == [[s[0]] + rest[0]];
      } else {
        var parts := [[s[0]] + rest[0]] + rest[1..];
        assert parts[1..] == rest[1..];
        assert Text.Join("/", rest) == rest[0] + "/" + Text.Join("/", rest[1..]);
      }
    }
  }

  /** `str.split` undoes `str.join` on slash-free pieces. */
  lemma {:induction false} SplitJoinSlash(parts: seq<string>)
    requires parts != []
    requires forall i | 0 <= i < |parts| :: '/' !in parts[i]
    ensures SplitSlash(Text.Join("/", parts)) == parts
    decreases |parts|
  {
    SplitWithoutSlash(parts[0]);
    if |parts| > 1 {
      SplitJoinSlash(parts[1..]);
      SplitSlashAppend(parts[0], Text.Join("/", parts[1..]));
    }
  }

  /** A component a path string can produce: not empty, not `.`, and
      free of slashes. */
  predicate Proper(x: string) {
    x != "" && x != "." && '/' !in x
  }

  lemma {:induction false} ComponentsOfProper(parts: seq<string>)
    requires forall i | 0 <= i < |parts| :: Proper(parts[i])
    ensures Components(parts) == parts
    decreases |parts|
  {
    if parts != [] {
      ComponentsOfProper(parts[1..]);
    }
  }

  /** The text of a path names that path again: reading `str(p)` as an
      include path from the current directory gives back `p`. */
  lemma PathTextRoundTrip(p: Path)
    requires p != [] && p[0] == Root ==> forall i | 1 <= i < |p| :: Proper(p[i])
    requires p != [] && p[0] != Root ==> forall i | 0 <= i < |p| :: Proper(p[i])
    ensures JoinPath([], PathText(p)) == p
  {
    if p == [] {
      SplitWithoutSlash(".");
    } else if p[0] == Root {
      AbsoluteTextRoundTrip(p);
    } else {
      RelativeTextRoundTrip(p);
    }
  }

  lemma AbsoluteTextRoundTrip(p: Path)
    requires p != [] && p[0] == Root
    requires forall i | 1 <= i < |p| :: Proper(p[i])
    ensures JoinPath([], PathText(p)) == p
  {
    var t := Text.Join("/", p[1..]);
    assert PathText(p) == "" + "/" + t;
    SplitSlashAppend("", t);
    if |p| == 1 {
      assert Components([""] + [""]) == [];
    } else {
      SplitJoinSlash(p[1..]);
      ComponentsOfProper(p[1..]);
      assert Components([""] + p[1..]) == Components(p[1..]);
    }
    assert [Root] + p[1..] == p;
  }

  lemma RelativeTextRoundTrip(p: Path)
    requires p != [] && forall i | 0 <= i < |p| :: Proper(p[i])
    ensures JoinPath([], PathText(p)) == p
  {
    assert Root[0] == '/';
    assert p[0] != Root;
    var t := Text.Join("/", p);
    Text.JoinStarts("/", p);
    assert t[0] == p[0][0];
    SplitJoinSlash(p);
    ComponentsOfProper(p);
    assert [] + p == p;
  }

  /** The transaction rules of `items`, in order (the comprehension both
      loaders apply to an included file's result). */
  function KeepRules(items: seq<Item>): (r: seq<Item>)
    ensures AllRules(r)
    ensures |r| <= |items|
    ensures AllRules(items) ==> r == items
    ensures forall x {:trigger x in r} :: x in r <==> x in items && x.TransactionRule?
  {
    if items == [] then []
    else if items[0].TransactionRule? then [items[0]] + KeepRules(items[1..])
    else KeepRules(items[1..])
  }

  /** The filter keeps order: the rules of `a + b` are the rules of `a`
      followed by the rules of `b`, and any other single entry vanishes. */
  lemma {:induction false} KeepRulesConcat(a: seq<Item>, b: seq<Item>)
    ensures KeepRules(a + b) == KeepRules(a) + KeepRules(b)
    ensures forall x: Item :: !x.TransactionRule? ==> KeepRules([x]) == []
    decreases |a|
  {
    if a == [] {
      assert a + b == b;
    } else {
      assert (a + b)[0] == a[0];
      assert (a + b)[1..] == a[1..] + b;
      KeepRulesConcat(a[1..], b);
      if a[0].TransactionRule? {
        assert [a[0]] + (KeepRules(a[1..]) + KeepRules(b)) == ([a[0]] + KeepRules(a[1..])) + KeepRules(b);
      }
    }
    forall x: Item | !x.TransactionRule?
      ensures KeepRules([x]) == []
    {
      assert [x][1..] == [];
    }
  }

  // Reference flattening. `fuel` bounds the include depth and stands for the
  // interpreter's recursion limit: a chain of includes deeper than `fuel`
  // (in particular any cycle) ends in `RecursionLimit`.

  /** The flattened rules of the file at `path`. */
  function Flatten(fs: FileSystem, path: Path, fuel: nat): (r: Result<seq<Item>, Error>)
    ensures r.Success? ==> AllRules(r.value)
    decreases fuel, 2, 0
  {
    if path !in fs then Failure(FileNotFound(PathText(path)))
    else FlattenItems(fs, Parent(path), fs[path], fuel)
  }

  /** The flattened rules of the items of a file in directory `dir`. */
  function FlattenItems(fs: FileSystem, dir: Path, items: seq<Item>, fuel: nat): (r: Result<seq<Item>, Error>)
    ensures r.Success? ==> AllRules(r.value)
    decreases fuel, 1, |items|
  {
    if items == [] then Success([])
    else
      var head :- FlattenItem(fs, dir, items[0], fuel);
      var tail :- FlattenItems(fs, dir, items[1..], fuel);
      Success(head + tail)
  }

  /** What one item contributes: a rule itself, a blank include nothing, a
      non-blank include the flattened rules of the file it names, and a
      date-format entry an unknown-block error. */
  function FlattenItem(fs: FileSystem, dir: Path, item: Item, fuel: nat): (r: Result<seq<Item>, Error>)
    ensures r.Success? ==> AllRules(r.value)
    decreases fuel, 0, 0
  {
    match item
    case TransactionRule(_) => Success([item])
    case Include(v) =>
      if v == "" then Success([])
      else if fuel == 0 then Failure(RecursionLimit)
      else Flatten(fs, JoinPath(dir, v), fuel - 1)
    case DateFormat(_) => Failure(UnknownBlockType(ItemText(item)))
  }

  /** Sequencing of two flattening results: the first failure wins,
      otherwise the rules are concatenated. */
  function Then(x: Result<seq<Item>, Error>, y: Result<seq<Item>, Error>): Result<seq<Item>, Error> {
    if x.Failure? then x
    else if y.Failure? then y
    else Success(x.value + y.value)
  }

  /** A flattening result as the `RuleSetMapper` a loader returns. */
  function AsRuleSet(r: Result<seq<Item>, Error>): Result<RuleSetMapper, Error> {
    if r.Failure? then Failure(r.error) else Success(RuleSetMapper(r.value))
  }

  /** A loader's accumulated rules in front of a flattening result. */
  function Prepend(acc: seq<Item>, r: Result<seq<Item>, Error>): Result<seq<Item>, Error> {
    if r.Failure? then r else Success(acc + r.value)
  }

  /** One step of the flattening of a non-empty item list: its first item,
      then the rest. */
  lemma FlattenItemsStep(fs: FileSystem, dir: Path, items: seq<Item>, fuel: nat)
    requires items != []
    ensures FlattenItems(fs, dir, items, fuel)
         == Then(FlattenItem(fs, dir, items[0], fuel), FlattenItems(fs, dir, items[1..], fuel))
  {
  }

  /** A loader's accumulator absorbs a successful head: putting `acc` in
      front of head-then-tail is putting `acc + head` in front of the tail,
      and a failed head is the whole result. */
  lemma PrependThen(acc: seq<Item>, head: Result<seq<Item>, Error>, tail: Result<seq<Item>, Error>)
    ensures head.Success? ==> Prepend(acc, Then(head, tail)) == Prepend(acc + head.value, tail)
    ensures head.Failure? ==> Prepend(acc, Then(head, tail)) == head
  {
    if head.Success? && tail.Success? {
      assert (acc + head.value) + tail.value == acc + (head.value + tail.value);
    }
  }

  /** What one iteration of either loader's loop owes the reference: the
      flattening of `items[i..]` behind the accumulator is the flattening
      of `items[i + 1..]` behind the accumulator grown by item `i`'s own
      flattening, or item `i`'s failure. */
  lemma LoopStep(fs: FileSystem, dir: Path, items: seq<Item>, i: nat, acc: seq<Item>, fuel: nat)
    requires i < |items|
    ensures FlattenItem(fs, dir, items[i], fuel).Success? ==>
      Prepend(acc, FlattenItems(fs, dir, items[i..], fuel))
        == Prepend(acc + FlattenItem(fs, dir, items[i], fuel).value, FlattenItems(fs, dir, items[i + 1..], fuel))
    ensures FlattenItem(fs, dir, items[i], fuel).Failure? ==>
      Prepend(acc, FlattenItems(fs, dir, items[i..], fuel)) == FlattenItem(fs, dir, items[i], fuel)
  {
    assert items[i..][0] == items[i];
    assert items[i..][1..] == items[i + 1..];
    FlattenItemsStep(fs, dir, items[i..], fuel);
    PrependThen(acc, FlattenItem(fs, dir, items[i], fuel), FlattenItems(fs, dir, items[i + 1..], fuel));
  }

  /** Flattening distributes over concatenation of a file's items. */
  lemma {:induction false} FlattenConcat(fs: FileSystem, dir: Path, a: seq<Item>, b: seq<Item>, fuel: nat)
    ensures FlattenItems(fs, dir, a + b, fuel)
         == Then(FlattenItems(fs, dir, a, fuel), FlattenItems(fs, dir, b, fuel))
    decreases |a|
  {
    if a == [] {
      assert a + b == b;
      var tb := FlattenItems(fs, dir, b, fuel);
      if tb.Success? {
        assert [] + tb.value == tb.value;
      }
    } else {
      assert (a + b)[0] == a[0];
      assert (a + b)[1..] == a[1..] + b;
      FlattenConcat(fs, dir, a[1..], b, fuel);
      var h := FlattenItem(fs, dir, a[0], fuel);
      var ta := FlattenItems(fs, dir, a[1..], fuel);
      var tb := FlattenItems(fs, dir, b, fuel);
      if h.Success? && ta.Success? && tb.Success? {
        assert h.value + (ta.value + tb.value) == (h.value + ta.value) + tb.value;
      }
    }
  }

  /** A file without includes or date-format entries flattens to itself. */
  lemma {:induction false} FlattenPlainRules(fs: FileSystem, dir: Path, items: seq<Item>, fuel: nat)
    requires AllRules(items)
    ensures FlattenItems(fs, dir, items, fuel) == Success(items)
    decreases |items|
  {
    if items != [] {
      FlattenPlainRules(fs, dir, items[1..], fuel);
      assert [items[0]] + items[1..] == items;
    }
  }

  /** A non-blank include is replaced, in place, by the rules of the file it
      names, resolved against the including file's directory. */
  lemma IncludeSplicedInPlace(fs: FileSystem, dir: Path, a: seq<Item>, v: string, b: seq<Item>, fuel: nat)
    requires v != "" && fuel > 0
    ensures FlattenItems(fs, dir, a + [Include(v)] + b, fuel)
         == Then(Then(FlattenItems(fs, dir, a, fuel), Flatten(fs, JoinPath(dir, v), fuel - 1)),
                 FlattenItems(fs, dir, b, fuel))
  {
    FlattenConcat(fs, dir, a + [Include(v)], b, fuel);
    FlattenConcat(fs, dir, a, [Include(v)], fuel);
    var child := Flatten(fs, JoinPath(dir, v), fuel - 1);
    assert FlattenItems(fs, dir, [], fuel) == Success([]);
    assert [Include(v)][1..] == [];
    if child.Success? {
      assert child.value + [] == child.value;
    }
  }

  /** A blank include is skipped: nothing is read and nothing is emitted. */
  lemma BlankIncludeSkipped(fs: FileSystem, dir: Path, a: seq<Item>, b: seq<Item>, fuel: nat)
    ensures FlattenItems(fs, dir, a + [Include("")] + b, fuel) == FlattenItems(fs, dir, a + b, fuel)
  {
    FlattenConcat(fs, dir, a + [Include("")], b, fuel);
    FlattenConcat(fs, dir, a, [Include("")], fuel);
    FlattenConcat(fs, dir, a, b, fuel);
    assert [Include("")][1..] == [];
    var fa := FlattenItems(fs, dir, a, fuel);
    if fa.Success? {
      assert fa.value + ([] + []) == fa.value;
    }
  }

  /** A date-format entry is rejected once the items before it are accepted. */
  lemma DateFormatRejected(fs: FileSystem, dir: Path, a: seq<Item>, f: string, b: seq<Item>, fuel: nat)
    requires FlattenItems(fs, dir, a, fuel).Success?
    ensures FlattenItems(fs, dir, a + [DateFormat(f)] + b, fuel)
         == Failure(UnknownBlockType(ItemText(DateFormat(f))))
  {
    FlattenConcat(fs, dir, a + [DateFormat(f)], b, fuel);
    FlattenConcat(fs, dir, a, [DateFormat(f)], fuel);
  }

  /** A file whose only entry includes a child flattens to exactly the
      child's rules, in the child's order. */
  lemma SingleIncludeYieldsChild(fs: FileSystem, path: Path, v: string, fuel: nat)
    requires path in fs && fs[path] == [Include(v)] && v != ""
    ensures Flatten(fs, path, fuel + 1) == Flatten(fs, JoinPath(Parent(path), v), fuel)
  {
    var child := Flatten(fs, JoinPath(Parent(path), v), fuel);
    assert [Include(v)][1..] == [];
    assert FlattenItem(fs, Parent(path), Include(v), fuel + 1) == child;
    assert FlattenItems(fs, Parent(path), [], fuel + 1) == Success([]);
    if child.Success? {
      assert child.value + [] == child.value;
      assert child == Success(child.value);
    } else {
      assert child == Failure(child.error);
    }
  }

  /** More fuel changes nothing once a result is reached without exhausting
      it: the depth bound only ever shows up as `RecursionLimit`. */
  lemma {:induction false} FlattenFuelMonotone(fs: FileSystem, path: Path, fuel: nat)
    requires Flatten(fs, path, fuel) != Failure(RecursionLimit)
    ensures Flatten(fs, path, fuel + 1) == Flatten(fs, path, fuel)
    decreases fuel, 2, 0
  {
    if path in fs {
      FlattenItemsFuelMonotone(fs, Parent(path), fs[path], fuel);
    }
  }

  lemma {:induction false} FlattenItemsFuelMonotone(fs: FileSystem, dir: Path, items: seq<Item>, fuel: nat)
    requires FlattenItems(fs, dir, items, fuel) != Failure(RecursionLimit)
    ensures FlattenItems(fs, dir, items, fuel + 1) == FlattenItems(fs, dir, items, fuel)
    decreases fuel, 1, |items|
  {
    if items != [] {
      var h := FlattenItem(fs, dir, items[0], fuel);
      if h.Success? {
        FlattenItemFuelMonotone(fs, dir, items[0], fuel);
        FlattenItemsFuelMonotone(fs, dir, items[1..], fuel);
      } else {
        assert h.error != RecursionLimit;
        FlattenItemFuelMonotone(fs, dir, items[0], fuel);
      }
    }
  }

  lemma {:induction false} FlattenItemFuelMonotone(fs: FileSystem, dir: Path, item: Item, fuel: nat)
    requires FlattenItem(fs, dir, item, fuel) != Failure(RecursionLimit)
    ensures FlattenItem(fs, dir, item, fuel + 1) == FlattenItem(fs, dir, item, fuel)
    decreases fuel, 0, 0
  {
    if item.Include? && item.value != "" {
      FlattenFuelMonotone(fs, JoinPath(dir, item.value), fuel - 1);
    }
  }
}
