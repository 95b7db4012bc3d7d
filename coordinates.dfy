/**
 * Dotted coordinates (`path.join(".")`) and the string tests the argument
 * façade applies to them: `includes`, `startsWith`, and the JavaScript `in`
 * operator used on the coordinate array.
 */
module Coordinates {

  /** `path.join(".")` */
  function Join(path: seq<string>): string {
    if |path| == 0 then ""
    else if |path| == 1 then path[0]
    else Join(path[..|path| - 1]) + "." + path[|path| - 1]
  }

  /** The text every coordinate below `parentPath` starts with: `""` at the root, `"a.b."` below. */
  function PrefixOf(parentPath: seq<string>): string {
    if parentPath == [] then "" else Join(parentPath) + "."
  }

  lemma JoinSnoc(parentPath: seq<string>, name: string)
    ensures Join(parentPath + [name]) == PrefixOf(parentPath) + name
  {
    var p := parentPath + [name];
    if parentPath != [] {
      assert p[..|p| - 1] == parentPath;
    }
  }

  lemma PrefixSnoc(parentPath: seq<string>, name: string)
    ensures PrefixOf(parentPath + [name]) == PrefixOf(parentPath) + name + "."
    ensures PrefixOf(parentPath + [name]) == PrefixOf(parentPath) + (name + ".")
  {
    JoinSnoc(parentPath, name);
    assert (PrefixOf(parentPath) + name) + "." == PrefixOf(parentPath) + (name + ".");
  }

  /** `coordinates.includes(id) ? coordinates : [...coordinates, id]` */
  function Record(coordinates: seq<string>, id: string): (r: seq<string>)
    ensures id in r
    ensures id in coordinates ==> r == coordinates
    ensures id !in coordinates ==> r == coordinates + [id]
  {
    if id in coordinates then coordinates else coordinates + [id]
  }

  /**
   * Recording keeps the coordinates already there, in order, adds at most
   * the one new entry, holds exactly the old entries and `id`, and a second
   * recording of the same path changes nothing.
   */
  lemma RecordOnce(coordinates: seq<string>, id: string)
    ensures coordinates <= Record(coordinates, id)
    ensures |Record(coordinates, id)| <= |coordinates| + 1
    ensures forall c :: c in Record(coordinates, id) <==> c in coordinates || c == id
    ensures Record(Record(coordinates, id), id) == Record(coordinates, id)
  {
  }

  predicate StartsWith(s: string, prefix: string) {
    |prefix| <= |s| && s[..|prefix|] == prefix
  }

  predicate DotFree(s: string) {
    forall i :: 0 <= i < |s| ==> s[i] != '.'
  }

  /** `c` is the coordinate `s` or one below it. */
  predicate Under(c: string, s: string) {
    c == s || StartsWith(c, s + ".")
  }

  predicate AnyStartsWith(coordinates: seq<string>, prefix: string) {
    exists i :: 0 <= i < |coordinates| && StartsWith(coordinates[i], prefix)
  }

  lemma StartsWithTrans(s: string, p: string, q: string)
    requires StartsWith(s, p + q)
    ensures StartsWith(s, p)
  {
    assert s[..|p|] == (s[..|p| + |q|])[..|p|];
  }

  /**
   * Below one common prefix, a coordinate under segment `g` extends segment
   * `f` only if `f` and `g` are the same segment, when segments carry no dot.
   */
  lemma {:induction false} SameSegment(q: string, f: string, g: string, c: string)
    requires DotFree(f) && DotFree(g)
    requires Under(c, q + g) && StartsWith(c, q + f + ".")
    ensures f == g
  {
    var n := |q|;
    var pf := q + f + ".";
    assert c[..|pf|] == pf;
    assert c[n + |f|] == pf[n + |f|] == '.';
    forall i | 0 <= i < |f|
      ensures c[n + i] == f[i] && c[n + i] != '.'
    {
      assert c[n + i] == pf[n + i];
    }
    var pg := if c == q + g then q + g else q + g + ".";
    assert c[..|pg|] == pg;
    forall i | 0 <= i < |g|
      ensures c[n + i] == g[i] && c[n + i] != '.'
    {
      assert c[n + i] == pg[n + i];
    }
    assert |g| <= |f|;
    assert c != q + g;
    assert c[n + |g|] == pg[n + |g|] == '.';
    assert |f| == |g|;
    assert forall i :: 0 <= i < |f| ==> f[i] == g[i];
  }

  // ---------------------------------------------------------------------------
  // The JavaScript `key in array` test

  /** The number of property names every array has through its prototypes. */
  const PrototypeKeyCount := 49

  /**
   * The `i`-th property name every array has through its prototypes (Array
   * and Object), as of current JavaScript engines; the exact list varies
   * with the engine version.
   */
  function PrototypeKey(i: nat): string
    requires i < PrototypeKeyCount
  {
    match i
    case 0 => "at"
    case 1 => "pop"
    case 2 => "map"
    case 3 => "fill"
    case 4 => "find"
    case 5 => "push"
    case 6 => "sort"
    case 7 => "join"
    case 8 => "keys"
    case 9 => "flat"
    case 10 => "some"
    case 11 => "with"
    case 12 => "shift"
    case 13 => "slice"
    case 14 => "every"
    case 15 => "length"
    case 16 => "concat"
    case 17 => "splice"
    case 18 => "values"
    case 19 => "filter"
    case 20 => "reduce"
    case 21 => "reverse"
    case 22 => "unshift"
    case 23 => "indexOf"
    case 24 => "entries"
    case 25 => "forEach"
    case 26 => "flatMap"
    case 27 => "valueOf"
    case 28 => "findLast"
    case 29 => "includes"
    case 30 => "toString"
    case 31 => "toSorted"
    case 32 => "findIndex"
    case 33 => "toSpliced"
    case 34 => "__proto__"
    case 35 => "copyWithin"
    case 36 => "toReversed"
    case 37 => "constructor"
    case 38 => "lastIndexOf"
    case 39 => "reduceRight"
    case 40 => "findLastIndex"
    case 41 => "isPrototypeOf"
    case 42 => "toLocaleString"
    case 43 => "hasOwnProperty"
    case 44 => "__defineGetter__"
    case 45 => "__defineSetter__"
    case 46 => "__lookupGetter__"
    case 47 => "__lookupSetter__"
    case 48 => "propertyIsEnumerable"
    case _ => assert false; ""
  }

  /** `key` is one of the prototype names from the `i`-th on. */
  predicate PrototypeKeyFrom(key: string, i: nat)
    requires i <= PrototypeKeyCount
    decreases PrototypeKeyCount - i
  {
    i < PrototypeKeyCount && (key == PrototypeKey(i) || PrototypeKeyFrom(key, i + 1))
  }

  /** A property name every array has. */
  predicate IsArrayPrototypeKey(key: string) {
    PrototypeKeyFrom(key, 0)
  }

  /** Every prototype name has at least two characters. */
  lemma {:induction false} ShortKeysAreNotPrototypeKeys(key: string, i: nat)
    requires |key| < 2 && i <= PrototypeKeyCount
    ensures !PrototypeKeyFrom(key, i)
    decreases PrototypeKeyCount - i
  {
    if i < PrototypeKeyCount {
      assert |PrototypeKey(i)| >= 2;
      ShortKeysAreNotPrototypeKeys(key, i + 1);
    }
  }

  predicate IsDigit(c: char) { '0' <= c <= '9' }

  function DecimalValue(s: string): nat
    requires forall i :: 0 <= i < |s| ==> IsDigit(s[i])
  {
    if s == [] then 0
    else
      assert IsDigit(s[|s| - 1]);
      DecimalValue(s[..|s| - 1]) * 10 + (s[|s| - 1] as int - '0' as int)
  }

  /** A canonical array index: `"0"` or digits without a leading zero. */
  predicate IsCanonicalIndex(s: string) {
    && |s| > 0
    && (forall i :: 0 <= i < |s| ==> IsDigit(s[i]))
    && (s[0] == '0' ==> |s| == 1)
  }

  /** `key in array` for an array of `length` elements. */
  predicate InArray(key: string, length: nat) {
    IsArrayPrototypeKey(key) || (IsCanonicalIndex(key) && DecimalValue(key) < length)
  }

  /** A GraphQL name is never an index, so `in` sees only the prototype keys. */
  lemma NameInArrayOnlyIfPrototypeKey(key: string, length: nat)
    requires |key| > 0 && !IsDigit(key[0])
    ensures InArray(key, length) <==> IsArrayPrototypeKey(key)
  {
  }

  // ---------------------------------------------------------------------------
  // A measure for the reconciliation recursion

  /** The length of the longest coordinate. */
  function Longest(coordinates: seq<string>): nat {
    if coordinates == [] then 0
    else
      var rest := Longest(coordinates[1..]);
      if |coordinates[0]| > rest then |coordinates[0]| else rest
  }

  lemma {:induction false} LongestAbove(coordinates: seq<string>, i: nat)
    requires i < |coordinates|
    ensures |coordinates[i]| <= Longest(coordinates)
  {
    if i > 0 {
      LongestAbove(coordinates[1..], i - 1);
      assert coordinates[1..][i - 1] == coordinates[i];
    }
  }

  /**
   * Every coordinate below `prefix + names[m] + "."`, for the segments still
   * to be visited (`m >= k`), is at most `budget` characters longer than
   * `prefix`. Descending into a segment spends its length plus the dot.
   */
  predicate BudgetHolds(coordinates: seq<string>, prefix: string, names: seq<string>, k: nat, budget: nat) {
    forall i, m :: 0 <= i < |coordinates| && k <= m < |names| && StartsWith(coordinates[i], prefix + names[m] + ".") ==>
      |coordinates[i]| <= |prefix| + budget
  }

  lemma BudgetInitial(coordinates: seq<string>, names: seq<string>)
    ensures BudgetHolds(coordinates, "", names, 0, Longest(coordinates))
  {
    forall i, m | 0 <= i < |coordinates| && 0 <= m < |names| && StartsWith(coordinates[i], "" + names[m] + ".")
      ensures |coordinates[i]| <= |""| + Longest(coordinates)
    {
      LongestAbove(coordinates, i);
    }
  }

  /** Skipping segment `k` keeps the budget for the segments after it. */
  lemma BudgetSkip(coordinates: seq<string>, prefix: string, names: seq<string>, k: nat, budget: nat)
    requires BudgetHolds(coordinates, prefix, names, k, budget)
    ensures BudgetHolds(coordinates, prefix, names, k + 1, budget)
  {
  }

  /** Some coordinate lies below segment `k`, so descending into it leaves a smaller budget. */
  lemma BudgetForChild(coordinates: seq<string>, prefix: string, names: seq<string>, k: nat, budget: nat)
    requires k < |names| && BudgetHolds(coordinates, prefix, names, k, budget)
    requires AnyStartsWith(coordinates, prefix + names[k] + ".")
    ensures |names[k]| + 1 <= budget
    ensures BudgetHolds(coordinates, prefix + names[k] + ".", names, 0, budget - |names[k]| - 1)
  {
    var j :| 0 <= j < |coordinates| && StartsWith(coordinates[j], prefix + names[k] + ".");
    var child := prefix + names[k] + ".";
    forall i, m | 0 <= i < |coordinates| && 0 <= m < |names| && StartsWith(coordinates[i], child + names[m] + ".")
      ensures |coordinates[i]| <= |child| + (budget - |names[k]| - 1)
    {
      assert child + names[m] + "." == child + (names[m] + ".");
      StartsWithTrans(coordinates[i], child, names[m] + ".");
    }
  }

  /**
   * Coordinates recorded while visiting segment `k` all lie under it, so they
   * cannot lie below any later segment: the budget still holds for those.
   */
  lemma BudgetAfterStep(before: seq<string>, after: seq<string>, prefix: string, names: seq<string>, k: nat, budget: nat)
    requires k < |names|
    requires forall m :: 0 <= m < |names| ==> DotFree(names[m])
    requires forall m, n :: 0 <= m < n < |names| ==> names[m] != names[n]
    requires before <= after
    requires forall i :: |before| <= i < |after| ==> Under(after[i], prefix + names[k])
    requires BudgetHolds(before, prefix, names, k, budget)
    ensures BudgetHolds(after, prefix, names, k + 1, budget)
  {
    forall i, m | 0 <= i < |after| && k + 1 <= m < |names| && StartsWith(after[i], prefix + names[m] + ".")
      ensures |after[i]| <= |prefix| + budget
    {
      if i < |before| {
        assert after[i] == before[i];
      } else {
        SameSegment(prefix, names[m], names[k], after[i]);
        assert false;
      }
    }
  }

  /** Coordinates that start with `prefix + more` start with `prefix`. */
  lemma AddedStartWith(before: seq<string>, after: seq<string>, prefix: string, more: string)
    requires forall i :: |before| <= i < |after| ==> StartsWith(after[i], prefix + more)
    ensures forall i :: |before| <= i < |after| ==> StartsWith(after[i], prefix)
  {
    forall i | |before| <= i < |after|
      ensures StartsWith(after[i], prefix)
    {
      StartsWithTrans(after[i], prefix, more);
    }
  }
}
