/**
 * The `@interface` smart tag of a PostgreSQL table (PgPolymorphismPlugin's
 * `pgCodecs_recordType_extensions` gather hook): the column specifications
 * of `@type` tags, and the polymorphism description of the table's codec
 * that the hook builds from the tags and the table's attributes.
 *
 * `parseSmartTagsOptsString` is a parameter `parse`; the relational mode's
 * lookup of the referenced table is a parameter `resolve`.
 */
module Polymorphism {
  import opened Wrappers

  // ---------------------------------------------------------------------------
  // `String.prototype.split` with a one-character separator, and its inverse

  /** `s.split(sep)`: the pieces between the separators, never none. */
  function Split(s: string, sep: char): (pieces: seq<string>)
    ensures |pieces| >= 1
    ensures forall i :: 0 <= i < |pieces| ==> sep !in pieces[i]
    decreases |s|
  {
    if s == [] then [""]
    else
      var rest := Split(s[1..], sep);
      if s[0] == sep then [""] + rest
      else [[s[0]] + rest[0]] + rest[1..]
  }

  /** `pieces.join(sep)` */
  function JoinWith(pieces: seq<string>, sep: char): string
    requires |pieces| >= 1
    decreases |pieces|
  {
    if |pieces| == 1 then pieces[0] else pieces[0] + [sep] + JoinWith(pieces[1..], sep)
  }

  /** Joining the pieces again gives back the string that was split. */
  lemma {:induction false} SplitRejoins(s: string, sep: char)
    ensures JoinWith(Split(s, sep), sep) == s
    decreases |s|
  {
    if s != [] {
      var rest := Split(s[1..], sep);
      SplitRejoins(s[1..], sep);
      if s[0] == sep {
        var ps := [""] + rest;
        assert ps[1..] == rest;
        assert s == [sep] + s[1..];
      } else {
        var ps := [[s[0]] + rest[0]] + rest[1..];
        assert Split(s, sep) == ps;
        if |rest| > 1 {
          assert ps[1..] == rest[1..];
          assert JoinWith(ps, sep) == ([s[0]] + rest[0]) + [sep] + JoinWith(rest[1..], sep);
          assert JoinWith(rest, sep) == rest[0] + [sep] + JoinWith(rest[1..], sep);
        }
        assert s == [s[0]] + s[1..];
      }
    }
  }

  /** There is exactly one piece when the separator does not occur. */
  lemma {:induction false} SplitCount(s: string, sep: char)
    ensures |Split(s, sep)| == 1 <==> sep !in s
    decreases |s|
  {
    if s != [] {
      SplitCount(s[1..], sep);
      assert s == [s[0]] + s[1..];
    }
  }

  /** A string without the separator is one piece. */
  lemma {:induction false} SplitWithoutSeparator(a: string, sep: char)
    requires sep !in a
    ensures Split(a, sep) == [a]
    decreases |a|
  {
    if a != [] {
      assert a == [a[0]] + a[1..];
      SplitWithoutSeparator(a[1..], sep);
    }
  }

  /** Splitting after a first piece that holds no separator. */
  lemma {:induction false} SplitAfterPiece(a: string, t: string, sep: char)
    requires sep !in a
    ensures Split(a + [sep] + t, sep) == [a] + Split(t, sep)
    decreases |a|
  {
    var s := a + [sep] + t;
    if a == [] {
      assert s[0] == sep && s[1..] == t;
    } else {
      assert s[0] == a[0] && s[1..] == a[1..] + [sep] + t;
      assert a == [a[0]] + a[1..];
      SplitAfterPiece(a[1..], t, sep);
    }
  }

  /** Splitting a join of separator-free pieces gives back the pieces. */
  lemma {:induction false} SplitJoin(ps: seq<string>, sep: char)
    requires |ps| >= 1 && forall i :: 0 <= i < |ps| ==> sep !in ps[i]
    ensures Split(JoinWith(ps, sep), sep) == ps
    decreases |ps|
  {
    if |ps| == 1 {
      SplitWithoutSeparator(ps[0], sep);
    } else {
      SplitAfterPiece(ps[0], JoinWith(ps[1..], sep), sep);
      SplitJoin(ps[1..], sep);
      assert [ps[0]] + ps[1..] == ps;
    }
  }

  // ---------------------------------------------------------------------------
  // parseColumn

  /** One entry of a `columns:` list: `column`, `column>rename`, either with a trailing `!`. */
  datatype ColumnSpec = ColumnSpec(column: string, isNotNull: bool, rename: Option<string>)

  predicate EndsWithBang(s: string) {
    |s| > 0 && s[|s| - 1] == '!'
  }

  /** The specification with one trailing `!` removed. */
  function WithoutBang(colSpec: string): (spec: string)
    ensures EndsWithBang(colSpec) ==> colSpec == spec + "!"
    ensures !EndsWithBang(colSpec) ==> colSpec == spec
  {
    if EndsWithBang(colSpec) then colSpec[..|colSpec| - 1] else colSpec
  }

  /**
   * `parseColumn`: a trailing `!` marks the column not-null; the rest is
   * split at `>` into the column and its rename, any further segment being
   * dropped.
   */
  function ParseColumn(colSpec: string): (c: ColumnSpec)
    ensures c.isNotNull <==> EndsWithBang(colSpec)
    ensures '>' !in c.column
    ensures c.rename.Some? ==> '>' !in c.rename.value
  {
    var pieces := Split(WithoutBang(colSpec), '>');
    ColumnSpec(pieces[0], EndsWithBang(colSpec), if |pieces| >= 2 then Some(pieces[1]) else None)
  }

  /** The column and its rename as written in a specification, without the `!`. */
  function Body(c: ColumnSpec): string {
    c.column + (if c.rename.Some? then ">" + c.rename.value else "")
  }

  /** The specification text that describes a column specification. */
  function FormatColumn(c: ColumnSpec): string {
    Body(c) + (if c.isNotNull then "!" else "")
  }

  /**
   * The column is the text before the first `>`; the rename, present exactly
   * when there is a `>`, is the text up to the next `>` or the end.
   */
  lemma ParseColumnShape(colSpec: string)
    ensures ParseColumn(colSpec).rename.None? <==> '>' !in WithoutBang(colSpec)
    ensures ParseColumn(colSpec).rename.None? ==> ParseColumn(colSpec).column == WithoutBang(colSpec)
    ensures ParseColumn(colSpec).rename.Some? ==>
      var body := Body(ParseColumn(colSpec));
      var spec := WithoutBang(colSpec);
      body <= spec && (|body| == |spec| || spec[|body|] == '>')
  {
    var spec := WithoutBang(colSpec);
    var ps := Split(spec, '>');
    SplitCount(spec, '>');
    SplitRejoins(spec, '>');
    if |ps| >= 2 {
      var body := Body(ParseColumn(colSpec));
      assert body == ps[0] + [ '>' ] + ps[1];
      if |ps| > 2 {
        assert ps[1..][1..] == ps[2..];
        assert JoinWith(ps, '>') == body + ['>'] + JoinWith(ps[2..], '>');
      } else {
        assert JoinWith(ps, '>') == body;
      }
    }
  }

  /** Parsing the text of a column specification gives it back. */
  lemma ParseFormat(c: ColumnSpec)
    requires '>' !in c.column && (c.rename.Some? ==> '>' !in c.rename.value)
    requires !c.isNotNull ==> !EndsWithBang(Body(c))
    ensures ParseColumn(FormatColumn(c)) == c
  {
    var ps := if c.rename.Some? then [c.column, c.rename.value] else [c.column];
    if c.rename.Some? {
      assert ps[1..] == [c.rename.value];
    }
    assert JoinWith(ps, '>') == Body(c);
    SplitJoin(ps, '>');
    assert WithoutBang(FormatColumn(c)) == Body(c);
  }

  /** A specification with at most one `>` is reproduced from what it parses to. */
  lemma FormatParse(colSpec: string)
    requires |Split(WithoutBang(colSpec), '>')| <= 2
    ensures FormatColumn(ParseColumn(colSpec)) == colSpec
  {
    var spec := WithoutBang(colSpec);
    var ps := Split(spec, '>');
    SplitRejoins(spec, '>');
    if |ps| == 2 {
      assert ps[1..] == [ps[1]];
    }
    assert Body(ParseColumn(colSpec)) == spec;
  }

  /** A third segment is dropped: `a>b>c!` is the not-null column `a`, renamed `b`. */
  lemma ParseColumnDropsSegments()
    ensures ParseColumn("a>b>c!") == ColumnSpec("a", true, Some("b"))
  {
    assert WithoutBang("a>b>c!") == "a" + ['>'] + ("b" + ['>'] + "c");
    SplitAfterPiece("a", "b" + ['>'] + "c", '>');
    SplitAfterPiece("b", "c", '>');
    SplitWithoutSeparator("c", '>');
  }

  /** `columns?.split(",").map(parseColumn) ?? []` */
  function ColumnsOf(columns: Option<string>): seq<ColumnSpec> {
    if columns.None? then []
    else
      var pieces := Split(columns.value, ',');
      seq(|pieces|, i requires 0 <= i < |pieces| => ParseColumn(pieces[i]))
  }

  /** The names of the columns specified. */
  function ColumnNames(cs: seq<ColumnSpec>): set<string>
    decreases |cs|
  {
    if cs == [] then {} else {cs[0].column} + ColumnNames(cs[1..])
  }

  /** A name is among the column names exactly when some column specification has it. */
  lemma {:induction false} ColumnNamesMembers(cs: seq<ColumnSpec>, c: string)
    ensures c in ColumnNames(cs) <==> exists i :: 0 <= i < |cs| && cs[i].column == c
    decreases |cs|
  {
    if cs != [] {
      ColumnNamesMembers(cs[1..], c);
      if cs[0].column == c {
        assert 0 <= 0 < |cs| && cs[0].column == c;
      }
      if exists i :: 0 <= i < |cs| && cs[i].column == c {
        var i :| 0 <= i < |cs| && cs[i].column == c;
        if i > 0 {
          assert cs[1..][i - 1].column == c;
        }
      }
    }
  }

  /** The column names of two runs of column specifications. */
  lemma {:induction false} ColumnNamesAppend(a: seq<ColumnSpec>, b: seq<ColumnSpec>)
    ensures ColumnNames(a + b) == ColumnNames(a) + ColumnNames(b)
    decreases |a|
  {
    if a == [] {
      assert a + b == b;
    } else {
      assert (a + b)[0] == a[0] && (a + b)[1..] == a[1..] + b;
      ColumnNamesAppend(a[1..], b);
    }
  }

  // ---------------------------------------------------------------------------
  // Smart tags and attributes

  /** A smart tag's value: absent, a bare flag (`true`), one string, or several strings. */
  datatype TagValue = Absent | Flag | Text(text: string) | Texts(texts: seq<string>)

  /** JavaScript truthiness of a tag value. */
  predicate TagTruthy(v: TagValue) {
    match v
    case Absent => false
    case Flag => true
    case Text(s) => s != ""
    case Texts(_) => true
  }

  /** `extensions.tags.interface ?? pgClass.getTagsAndDescription().tags.interface` */
  function InterfaceTag(extensionTag: TagValue, classTag: TagValue): (v: TagValue)
    ensures extensionTag.Absent? ==> v == classTag
    ensures !extensionTag.Absent? ==> v == extensionTag
  {
    if extensionTag.Absent? then classTag else extensionTag
  }

  /**
   * `Array.isArray(rawTypeTags) ? rawTypeTags.map(String) : [String(rawTypeTags)]`:
   * an absent tag becomes the text `undefined` and a flag the text `true`.
   */
  function TypeTags(raw: TagValue): (tags: seq<string>)
    ensures raw.Texts? ==> tags == raw.texts
    ensures raw.Text? ==> tags == [raw.text]
    ensures raw.Absent? ==> tags == ["undefined"]
    ensures raw.Flag? ==> tags == ["true"]
  {
    match raw
    case Absent => ["undefined"]
    case Flag => ["true"]
    case Text(s) => [s]
    case Texts(ss) => ss
  }

  /** A column of the table: its name and its `attnum` (system columns have `attnum < 1`). */
  datatype Attribute = Attribute(attname: string, attnum: int)

  /** `pgClass.getAttribute({ name })` finds an attribute. */
  predicate HasAttribute(attrs: seq<Attribute>, name: string) {
    exists i :: 0 <= i < |attrs| && attrs[i].attname == name
  }

  /** The names of the table's user columns (`attnum >= 1`), in attribute order. */
  function AttributeNames(attrs: seq<Attribute>): (names: seq<string>)
    ensures |names| <= |attrs|
    decreases |attrs|
  {
    if attrs == [] then []
    else (if attrs[0].attnum >= 1 then [attrs[0].attname] else []) + AttributeNames(attrs[1..])
  }

  /** A name is a user column name exactly when some attribute with `attnum >= 1` has it. */
  lemma {:induction false} AttributeNamesMembers(attrs: seq<Attribute>, n: string)
    ensures n in AttributeNames(attrs) <==> exists i :: 0 <= i < |attrs| && attrs[i].attnum >= 1 && attrs[i].attname == n
    decreases |attrs|
  {
    if attrs != [] {
      AttributeNamesMembers(attrs[1..], n);
      if exists i :: 0 <= i < |attrs| && attrs[i].attnum >= 1 && attrs[i].attname == n {
        var i :| 0 <= i < |attrs| && attrs[i].attnum >= 1 && attrs[i].attname == n;
        if i > 0 {
          assert attrs[1..][i - 1] == attrs[i];
        }
      }
      if exists i :: 0 <= i < |attrs| - 1 && attrs[1..][i].attnum >= 1 && attrs[1..][i].attname == n {
        var i :| 0 <= i < |attrs| - 1 && attrs[1..][i].attnum >= 1 && attrs[1..][i].attname == n;
        assert attrs[i + 1] == attrs[1..][i];
      }
    }
  }

  /** The user column names of two runs of attributes are those of each, in order. */
  lemma {:induction false} AttributeNamesAppend(a: seq<Attribute>, b: seq<Attribute>)
    ensures AttributeNames(a + b) == AttributeNames(a) + AttributeNames(b)
    decreases |a|
  {
    if a != [] {
      assert (a + b)[0] == a[0] && (a + b)[1..] == a[1..] + b;
      AttributeNamesAppend(a[1..], b);
      var head := if a[0].attnum >= 1 then [a[0].attname] else [];
      assert AttributeNames(a + b) == head + AttributeNames(a[1..] + b);
      assert head + (AttributeNames(a[1..]) + AttributeNames(b)) == (head + AttributeNames(a[1..])) + AttributeNames(b);
    } else {
      assert a + b == b;
    }
  }

  /** `attributeNames.filter((n) => !specificColumns.has(n))` */
  function CommonColumns(names: seq<string>, specific: set<string>): (common: seq<string>)
    ensures |common| <= |names|
    decreases |names|
  {
    if names == [] then []
    else (if names[0] in specific then [] else [names[0]]) + CommonColumns(names[1..], specific)
  }

  /** The filter keeps exactly the names outside the set. */
  lemma {:induction false} CommonColumnsMembers(names: seq<string>, specific: set<string>, n: string)
    ensures n in CommonColumns(names, specific) <==> n in names && n !in specific
    decreases |names|
  {
    if names != [] {
      CommonColumnsMembers(names[1..], specific, n);
      assert names == [names[0]] + names[1..];
    }
  }

  /** The filter keeps the order of the names. */
  lemma {:induction false} CommonColumnsAppend(a: seq<string>, b: seq<string>, specific: set<string>)
    ensures CommonColumns(a + b, specific) == CommonColumns(a, specific) + CommonColumns(b, specific)
    decreases |a|
  {
    if a != [] {
      assert (a + b)[0] == a[0] && (a + b)[1..] == a[1..] + b;
      CommonColumnsAppend(a[1..], b, specific);
      var head := if a[0] in specific then [] else [a[0]];
      assert CommonColumns(a + b, specific) == head + CommonColumns(a[1..] + b, specific);
      assert head + (CommonColumns(a[1..], specific) + CommonColumns(b, specific)) == (head + CommonColumns(a[1..], specific)) + CommonColumns(b, specific);
    } else {
      assert a + b == b;
    }
  }

  // ---------------------------------------------------------------------------
  // The `@type` tags

  /** What `parseSmartTagsOptsString(text, n)` yields: `n` leading arguments and named parameters. */
  datatype Parsed = Parsed(args: seq<string>, params: map<string, string>)

  datatype PolyError =
    | InterfaceNotString                 // the `interface` tag is not a string
    | MissingTypeColumn(column: string)  // no attribute holds the type
    | TypeWithoutName                    // a single-mode `@type` tag has no `name:`
    | MissingReferences                  // a relational-mode `@type` tag has no `references:`
    | ReferencedClassNotFound(references: string)
    | UnsupportedMode                    // `mode:` is none of single, relational, union

  /** One single-table type: its GraphQL name and the columns specific to it. */
  datatype TypeSpec = TypeSpec(name: string, columns: seq<ColumnSpec>)

  /** `args: [typeValue]`, used as a key of `types`; a missing argument is the key `undefined`. */
  function TypeKey(p: Parsed): string {
    if |p.args| > 0 then p.args[0] else "undefined"
  }

  /** A named parameter, `undefined` when absent. */
  function Param(p: Parsed, name: string): (v: Option<string>)
    ensures v.Some? <==> name in p.params
  {
    if name in p.params then Some(p.params[name]) else None
  }

  /** The entry of `types` for one single-mode `@type` tag; a missing or empty `name` throws. */
  function TypeOf(p: Parsed): Result<TypeSpec, PolyError> {
    var name := Param(p, "name");
    if name.None? || name.value == "" then Err(TypeWithoutName)
    else Ok(TypeSpec(name.value, ColumnsOf(Param(p, "columns"))))
  }

  /** The columns a `@type` tag names (none when it throws). */
  function TagColumns(parse: (string, nat) -> Parsed, tag: string): set<string> {
    var t := TypeOf(parse(tag, 1));
    if t.Ok? then ColumnNames(t.value.columns) else {}
  }

  /** The `types` dictionary and the `specificColumns` set the single-mode loop builds. */
  datatype SingleTypes = SingleTypes(types: map<string, TypeSpec>, specificColumns: set<string>)

  /** The single-mode loop from the `i`-th type tag on, over what the earlier tags built. */
  function SingleTypesFrom(parse: (string, nat) -> Parsed, tags: seq<string>, i: nat, acc: SingleTypes): Result<SingleTypes, PolyError>
    requires i <= |tags|
    decreases |tags| - i
  {
    if i == |tags| then Ok(acc)
    else
      var p := parse(tags[i], 1);
      var t :- TypeOf(p);
      SingleTypesFrom(parse, tags, i + 1, SingleTypes(acc.types[TypeKey(p) := t], acc.specificColumns + ColumnNames(t.columns)))
  }

  /** The loop throws exactly when some type tag has no name. */
  lemma {:induction false} SingleTypesFails(parse: (string, nat) -> Parsed, tags: seq<string>, i: nat, acc: SingleTypes)
    requires i <= |tags|
    ensures SingleTypesFrom(parse, tags, i, acc).Err? <==> exists j :: i <= j < |tags| && TypeOf(parse(tags[j], 1)).Err?
    ensures SingleTypesFrom(parse, tags, i, acc).Err? ==> SingleTypesFrom(parse, tags, i, acc).error == TypeWithoutName
    decreases |tags| - i
  {
    if i < |tags| {
      var p := parse(tags[i], 1);
      var t := TypeOf(p);
      if t.Ok? {
        SingleTypesFails(parse, tags, i + 1, SingleTypes(acc.types[TypeKey(p) := t.value], acc.specificColumns + ColumnNames(t.value.columns)));
      }
    }
  }

  /** The union of the sets from the `i`-th on. */
  function UnionFrom(sets: seq<set<string>>, i: nat): set<string>
    requires i <= |sets|
    decreases |sets| - i
  {
    if i == |sets| then {} else sets[i] + UnionFrom(sets, i + 1)
  }

  /** A name is in the union exactly when it is in one of the sets. */
  lemma {:induction false} UnionFromMembers(sets: seq<set<string>>, i: nat, c: string)
    requires i <= |sets|
    ensures c in UnionFrom(sets, i) <==> exists j :: i <= j < |sets| && c in sets[j]
    decreases |sets| - i
  {
    if i < |sets| {
      UnionFromMembers(sets, i + 1, c);
      if c in sets[i] {
        assert i <= i < |sets| && c in sets[i];
      }
      if exists j :: i <= j < |sets| && c in sets[j] {
        var j :| i <= j < |sets| && c in sets[j];
        if j > i {
          assert i + 1 <= j < |sets| && c in sets[j];
        }
      }
    }
  }

  /** Only an array of tags can give other than exactly one tag. */
  lemma TypeTagsSingleUnlessArray(raw: TagValue)
    ensures raw.Texts? || |TypeTags(raw)| == 1
    ensures raw.Texts? ==> TypeTags(raw) == raw.texts
  {
  }

  /** The columns each type tag names, tag by tag. */
  function TagColumnSets(parse: (string, nat) -> Parsed, tags: seq<string>): (sets: seq<set<string>>)
    ensures |sets| == |tags|
    ensures forall j :: 0 <= j < |tags| ==> sets[j] == TagColumns(parse, tags[j])
  {
    seq(|tags|, j requires 0 <= j < |tags| => TagColumns(parse, tags[j]))
  }

  /** `specificColumns` holds the columns of every type tag, including tags whose entry a later tag replaced. */
  lemma {:induction false} SingleTypesColumns(parse: (string, nat) -> Parsed, tags: seq<string>, i: nat, acc: SingleTypes)
    requires i <= |tags|
    ensures SingleTypesFrom(parse, tags, i, acc).Ok? ==>
      SingleTypesFrom(parse, tags, i, acc).value.specificColumns == acc.specificColumns + UnionFrom(TagColumnSets(parse, tags), i)
    decreases |tags| - i
  {
    if i < |tags| {
      var p := parse(tags[i], 1);
      var t := TypeOf(p);
      if t.Ok? {
        var next := SingleTypes(acc.types[TypeKey(p) := t.value], acc.specificColumns + ColumnNames(t.value.columns));
        assert SingleTypesFrom(parse, tags, i, acc) == SingleTypesFrom(parse, tags, i + 1, next);
        SingleTypesColumns(parse, tags, i + 1, next);
        var sets := TagColumnSets(parse, tags);
        assert sets[i] == ColumnNames(t.value.columns);
        assert UnionFrom(sets, i) == sets[i] + UnionFrom(sets, i + 1);
      }
    }
  }

  /** The type values of the tags from the `i`-th on. */
  function AllTagKeys(parse: (string, nat) -> Parsed, tags: seq<string>, i: nat): set<string>
    requires i <= |tags|
    decreases |tags| - i
  {
    if i == |tags| then {} else {TypeKey(parse(tags[i], 1))} + AllTagKeys(parse, tags, i + 1)
  }

  /** A key is a type value of the tags from the `i`-th on exactly when one of them has it. */
  lemma {:induction false} AllTagKeysMembers(parse: (string, nat) -> Parsed, tags: seq<string>, i: nat, key: string)
    requires i <= |tags|
    ensures key in AllTagKeys(parse, tags, i) <==> exists j :: i <= j < |tags| && TypeKey(parse(tags[j], 1)) == key
    decreases |tags| - i
  {
    if i < |tags| {
      AllTagKeysMembers(parse, tags, i + 1, key);
      if key == TypeKey(parse(tags[i], 1)) {
        assert i <= i < |tags| && TypeKey(parse(tags[i], 1)) == key;
      }
      if exists j :: i <= j < |tags| && TypeKey(parse(tags[j], 1)) == key {
        var j :| i <= j < |tags| && TypeKey(parse(tags[j], 1)) == key;
        if j > i {
          assert i + 1 <= j < |tags| && TypeKey(parse(tags[j], 1)) == key;
        }
      }
    }
  }

  /** The keys of `types` are the type values of the tags. */
  lemma {:induction false} SingleTypesKeys(parse: (string, nat) -> Parsed, tags: seq<string>, i: nat, acc: SingleTypes)
    requires i <= |tags|
    ensures SingleTypesFrom(parse, tags, i, acc).Ok? ==>
      SingleTypesFrom(parse, tags, i, acc).value.types.Keys == acc.types.Keys + AllTagKeys(parse, tags, i)
    decreases |tags| - i
  {
    if i < |tags| {
      var p := parse(tags[i], 1);
      var t := TypeOf(p);
      if t.Ok? {
        var next := SingleTypes(acc.types[TypeKey(p) := t.value], acc.specificColumns + ColumnNames(t.value.columns));
        assert SingleTypesFrom(parse, tags, i, acc) == SingleTypesFrom(parse, tags, i + 1, next);
        SingleTypesKeys(parse, tags, i + 1, next);
        assert next.types.Keys == acc.types.Keys + {TypeKey(p)};
      }
    }
  }

  /** No later type tag than the `j`-th has the same type value. */
  predicate LastOfItsKey(parse: (string, nat) -> Parsed, tags: seq<string>, j: nat)
    requires j < |tags|
  {
    forall l :: j < l < |tags| ==> TypeKey(parse(tags[l], 1)) != TypeKey(parse(tags[j], 1))
  }

  /** A repeated type value keeps the entry of its last tag; a key no tag names keeps its earlier entry. */
  lemma {:induction false} SingleTypesLastWins(parse: (string, nat) -> Parsed, tags: seq<string>, i: nat, acc: SingleTypes)
    requires i <= |tags|
    ensures SingleTypesFrom(parse, tags, i, acc).Ok? ==>
      var types := SingleTypesFrom(parse, tags, i, acc).value.types;
      && (forall j :: i <= j < |tags| && LastOfItsKey(parse, tags, j) ==>
            TypeKey(parse(tags[j], 1)) in types && TypeOf(parse(tags[j], 1)) == Ok(types[TypeKey(parse(tags[j], 1))]))
      && (forall key :: key in acc.types && (forall j :: i <= j < |tags| ==> TypeKey(parse(tags[j], 1)) != key) ==>
            key in types && types[key] == acc.types[key])
    decreases |tags| - i
  {
    if i < |tags| {
      var p := parse(tags[i], 1);
      var t := TypeOf(p);
      if t.Ok? {
        var next := SingleTypes(acc.types[TypeKey(p) := t.value], acc.specificColumns + ColumnNames(t.value.columns));
        var r := SingleTypesFrom(parse, tags, i + 1, next);
        assert SingleTypesFrom(parse, tags, i, acc) == r;
        SingleTypesLastWins(parse, tags, i + 1, next);
        if r.Ok? {
          var types := r.value.types;
          forall j | i <= j < |tags| && LastOfItsKey(parse, tags, j)
            ensures TypeKey(parse(tags[j], 1)) in types && TypeOf(parse(tags[j], 1)) == Ok(types[TypeKey(parse(tags[j], 1))])
          {
            if j == i {
              assert forall l :: i + 1 <= l < |tags| ==> TypeKey(parse(tags[l], 1)) != TypeKey(p);
              assert TypeKey(p) in next.types && next.types[TypeKey(p)] == t.value;
            } else {
              assert LastOfItsKey(parse, tags, j);
            }
          }
          forall key | key in acc.types && (forall j :: i <= j < |tags| ==> TypeKey(parse(tags[j], 1)) != key)
            ensures key in types && types[key] == acc.types[key]
          {
            assert TypeKey(parse(tags[i], 1)) != key;
            assert key in next.types && next.types[key] == acc.types[key];
          }
        }
      }
    }
  }

  /** The relational-mode loop from the `i`-th type tag on: each type value to the table its `references:` names. */
  function RelationalTypesFrom(parse: (string, nat) -> Parsed, resolve: string -> Option<string>, tags: seq<string>, i: nat, acc: map<string, string>): Result<map<string, string>, PolyError>
    requires i <= |tags|
    decreases |tags| - i
  {
    if i == |tags| then Ok(acc)
    else
      var p := parse(tags[i], 1);
      var references := Param(p, "references");
      if references.None? || references.value == "" then Err(MissingReferences)
      else
        var table := resolve(references.value);
        if table.None? then Err(ReferencedClassNotFound(references.value))
        else RelationalTypesFrom(parse, resolve, tags, i + 1, acc[TypeKey(p) := table.value])
  }

  /** The relational loop throws at the first tag without `references:` or whose table is not found. */
  lemma {:induction false} RelationalTypesFails(parse: (string, nat) -> Parsed, resolve: string -> Option<string>, tags: seq<string>, i: nat, acc: map<string, string>)
    requires i <= |tags|
    ensures RelationalTypesFrom(parse, resolve, tags, i, acc).Err? <==>
      exists j :: i <= j < |tags| && RelationalTypeFails(parse, resolve, tags[j])
    ensures RelationalTypesFrom(parse, resolve, tags, i, acc).Ok? ==>
      RelationalTypesFrom(parse, resolve, tags, i, acc).value.Keys == acc.Keys + AllTagKeys(parse, tags, i)
    decreases |tags| - i
  {
    if i < |tags| {
      var p := parse(tags[i], 1);
      var references := Param(p, "references");
      if references.Some? && references.value != "" && resolve(references.value).Some? {
        RelationalTypesFails(parse, resolve, tags, i + 1, acc[TypeKey(p) := resolve(references.value).value]);
      }
    }
  }

  /** A relational `@type` tag that throws: no `references:`, or a table not found. */
  predicate RelationalTypeFails(parse: (string, nat) -> Parsed, resolve: string -> Option<string>, tag: string) {
    var references := Param(parse(tag, 1), "references");
    references.None? || references.value == "" || resolve(references.value).None?
  }

  // ---------------------------------------------------------------------------
  // The hook

  /** `extensions.polymorphism`: the mode and what the mode needs. */
  datatype PolymorphismSpec =
    | Single(commonColumns: seq<string>, typeColumns: seq<string>, types: map<string, TypeSpec>)
    | Relational(typeColumns: seq<string>, references: map<string, string>)
    | Union

  /** `const { type = "type" } = params` */
  function TypeColumn(params: map<string, string>): (column: string)
    ensures "type" !in params ==> column == "type"
    ensures "type" in params ==> column == params["type"]
  {
    if "type" in params then params["type"] else "type"
  }

  /**
   * The hook: `Ok(None)` when the table has no `interface` tag (the
   * extensions are left as they are), else the polymorphism it records or
   * the exception it throws.
   */
  function ExtensionsSpec(parse: (string, nat) -> Parsed, resolve: string -> Option<string>,
                          extensionTag: TagValue, classTag: TagValue, rawTypeTags: TagValue, attrs: seq<Attribute>): Result<Option<PolymorphismSpec>, PolyError>
  {
    var tag := InterfaceTag(extensionTag, classTag);
    if !TagTruthy(tag) then Ok(None)
    else if !tag.Text? then Err(InterfaceNotString)
    else
      var params := parse(tag.text, 0).params;
      var mode := if "mode" in params then params["mode"] else "";
      if mode == "single" then
        var typ := TypeColumn(params);
        if !HasAttribute(attrs, typ) then Err(MissingTypeColumn(typ))
        else
          var st :- SingleTypesFrom(parse, TypeTags(rawTypeTags), 0, SingleTypes(map[], {}));
          Ok(Some(Single(CommonColumns(AttributeNames(attrs), st.specificColumns), [typ], st.types)))
      else if mode == "relational" then
        var typ := TypeColumn(params);
        if !HasAttribute(attrs, typ) then Err(MissingTypeColumn(typ))
        else
          var types :- RelationalTypesFrom(parse, resolve, TypeTags(rawTypeTags), 0, map[]);
          Ok(Some(Relational([typ], types)))
      else if mode == "union" then Ok(Some(Union))
      else Err(UnsupportedMode)
  }

  /** The hook does nothing exactly when there is no truthy `interface` tag, and rejects the tags it cannot use. */
  lemma HookDispatch(parse: (string, nat) -> Parsed, resolve: string -> Option<string>,
                     extensionTag: TagValue, classTag: TagValue, rawTypeTags: TagValue, attrs: seq<Attribute>)
    ensures var r := ExtensionsSpec(parse, resolve, extensionTag, classTag, rawTypeTags, attrs);
      var tag := InterfaceTag(extensionTag, classTag);
      && (r == Ok(None) <==> !TagTruthy(tag))
      && (TagTruthy(tag) && !tag.Text? ==> r == Err(InterfaceNotString))
      && (tag.Text? && tag.text != "" ==>
            var params := parse(tag.text, 0).params;
            && ("mode" in params && params["mode"] == "union" <==> r == Ok(Some(Union)))
            && (("mode" !in params || params["mode"] !in {"single", "relational", "union"}) ==> r == Err(UnsupportedMode)))
  {
  }

  /**
   * Single mode: the type column must be an attribute; the type tags all
   * need a name; the common columns are the user columns, in order, that no
   * type tag lists.
   */
  lemma HookSingle(parse: (string, nat) -> Parsed, resolve: string -> Option<string>,
                   extensionTag: TagValue, classTag: TagValue, rawTypeTags: TagValue, attrs: seq<Attribute>)
    requires InterfaceTag(extensionTag, classTag).Text? && InterfaceTag(extensionTag, classTag).text != ""
    requires var params := parse(InterfaceTag(extensionTag, classTag).text, 0).params; "mode" in params && params["mode"] == "single"
    ensures var r := ExtensionsSpec(parse, resolve, extensionTag, classTag, rawTypeTags, attrs);
      var typ := TypeColumn(parse(InterfaceTag(extensionTag, classTag).text, 0).params);
      var tags := TypeTags(rawTypeTags);
      && (!HasAttribute(attrs, typ) ==> r == Err(MissingTypeColumn(typ)))
      && (HasAttribute(attrs, typ) ==> (r.Err? <==> exists j :: 0 <= j < |tags| && TypeOf(parse(tags[j], 1)).Err?))
      && (r.Ok? ==> r.value.Some? && r.value.value.Single? && r.value.value.typeColumns == [typ])
      && (r.Ok? ==> r.value.value.commonColumns == CommonColumns(AttributeNames(attrs), UnionFrom(TagColumnSets(parse, tags), 0)))
      && (r.Ok? ==> forall n :: n in r.value.value.commonColumns <==>
            && (exists i :: 0 <= i < |attrs| && attrs[i].attnum >= 1 && attrs[i].attname == n)
            && (forall j :: 0 <= j < |tags| ==> n !in TagColumns(parse, tags[j])))
  {
    var tags := TypeTags(rawTypeTags);
    SingleTypesFails(parse, tags, 0, SingleTypes(map[], {}));
    SingleTypesColumns(parse, tags, 0, SingleTypes(map[], {}));
    var r := ExtensionsSpec(parse, resolve, extensionTag, classTag, rawTypeTags, attrs);
    if r.Ok? {
      var st := SingleTypesFrom(parse, tags, 0, SingleTypes(map[], {}));
      assert st.value.specificColumns == {} + UnionFrom(TagColumnSets(parse, tags), 0) == UnionFrom(TagColumnSets(parse, tags), 0);
      assert r.value.value.commonColumns == CommonColumns(AttributeNames(attrs), st.value.specificColumns);
      forall n
        ensures n in r.value.value.commonColumns <==>
          && (exists i :: 0 <= i < |attrs| && attrs[i].attnum >= 1 && attrs[i].attname == n)
          && (forall j :: 0 <= j < |tags| ==> n !in TagColumns(parse, tags[j]))
      {
        CommonColumnsMembers(AttributeNames(attrs), st.value.specificColumns, n);
        AttributeNamesMembers(attrs, n);
        UnionFromMembers(TagColumnSets(parse, tags), 0, n);
      }
    }
  }

  // ---------------------------------------------------------------------------
  // The imperative form of the hook

  /** The single-mode loop: fills `types` and `specificColumns` tag by tag. */
  method BuildSingleTypes(parse: (string, nat) -> Parsed, tags: seq<string>) returns (r: Result<SingleTypes, PolyError>)
    ensures r == SingleTypesFrom(parse, tags, 0, SingleTypes(map[], {}))
  {
    var types: map<string, TypeSpec> := map[];
    var specificColumns: set<string> := {};
    var i := 0;
    while i < |tags|
      invariant 0 <= i <= |tags|
      invariant SingleTypesFrom(parse, tags, 0, SingleTypes(map[], {})) == SingleTypesFrom(parse, tags, i, SingleTypes(types, specificColumns))
    {
      var p := parse(tags[i], 1);
      var name := Param(p, "name");
      if name.None? || name.value == "" {
        return Err(TypeWithoutName);
      }
      var typeValue := TypeKey(p);
      types := types[typeValue := TypeSpec(name.value, ColumnsOf(Param(p, "columns")))];
      specificColumns := AddColumns(specificColumns, types[typeValue].columns);
      i := i + 1;
    }
    r := Ok(SingleTypes(types, specificColumns));
  }

  /** `for (const col of columns) specificColumns.add(col.column)` */
  method AddColumns(specificColumns: set<string>, columns: seq<ColumnSpec>) returns (s: set<string>)
    ensures s == specificColumns + ColumnNames(columns)
  {
    s := specificColumns;
    var j := 0;
    while j < |columns|
      invariant 0 <= j <= |columns|
      invariant s == specificColumns + ColumnNames(columns[..j])
    {
      assert columns[..j + 1] == columns[..j] + [columns[j]];
      ColumnNamesAppend(columns[..j], [columns[j]]);
      assert ColumnNames([columns[j]]) == {columns[j].column};
      s := s + {columns[j].column};
      j := j + 1;
    }
    assert columns[..j] == columns;
  }

  /** The relational-mode loop. */
  method BuildRelationalTypes(parse: (string, nat) -> Parsed, resolve: string -> Option<string>, tags: seq<string>) returns (r: Result<map<string, string>, PolyError>)
    ensures r == RelationalTypesFrom(parse, resolve, tags, 0, map[])
  {
    var types: map<string, string> := map[];
    var i := 0;
    while i < |tags|
      invariant 0 <= i <= |tags|
      invariant RelationalTypesFrom(parse, resolve, tags, 0, map[]) == RelationalTypesFrom(parse, resolve, tags, i, types)
    {
      var p := parse(tags[i], 1);
      var references := Param(p, "references");
      if references.None? || references.value == "" {
        return Err(MissingReferences);
      }
      var referencedClass := resolve(references.value);
      if referencedClass.None? {
        return Err(ReferencedClassNotFound(references.value));
      }
      types := types[TypeKey(p) := referencedClass.value];
      i := i + 1;
    }
    r := Ok(types);
  }

  /** `pgCodecs_recordType_extensions`: what it records in `extensions.polymorphism`, or what it throws. */
  method RecordTypeExtensions(parse: (string, nat) -> Parsed, resolve: string -> Option<string>,
                              extensionTag: TagValue, classTag: TagValue, rawTypeTags: TagValue, attrs: seq<Attribute>)
    returns (r: Result<Option<PolymorphismSpec>, PolyError>)
    ensures r == ExtensionsSpec(parse, resolve, extensionTag, classTag, rawTypeTags, attrs)
  {
    var tag := InterfaceTag(extensionTag, classTag);
    if !TagTruthy(tag) {
      return Ok(None);
    }
    if !tag.Text? {
      return Err(InterfaceNotString);
    }
    var params := parse(tag.text, 0).params;
    var mode := if "mode" in params then params["mode"] else "";
    if mode == "single" {
      var typ := TypeColumn(params);
      if !HasAttribute(attrs, typ) {
        return Err(MissingTypeColumn(typ));
      }
      var st := BuildSingleTypes(parse, TypeTags(rawTypeTags));
      if st.Err? {
        return Err(st.error);
      }
      var commonColumns := CommonColumns(AttributeNames(attrs), st.value.specificColumns);
      r := Ok(Some(Single(commonColumns, [typ], st.value.types)));
    } else if mode == "relational" {
      var typ := TypeColumn(params);
      if !HasAttribute(attrs, typ) {
        return Err(MissingTypeColumn(typ));
      }
      var types := BuildRelationalTypes(parse, resolve, TypeTags(rawTypeTags));
      if types.Err? {
        return Err(types.error);
      }
      r := Ok(Some(Relational([typ], types.value)));
    } else if mode == "union" {
      r := Ok(Some(Union));
    } else {
      r := Err(UnsupportedMode);
    }
  }
}
