/**
 * The front end's environment helpers: the application base path, the
 * CSV-style value escaping and the shaping of export rows.
 */
module Environment {
  import opened Wrappers
  import opened Text
  import opened Lookup

  // ---------------------------------------------------------------- base path

  /** `isEmptyPath`: the configured base path is nil or empty. */
  predicate IsEmptyPath(basePath: Option<string>) {
    basePath.None? || basePath.value == ""
  }

  /**
   * `APP_BASE_PATH`: no base path gives `''`, `'/'` gives back `'/'`,
   * a path starting with `/` is kept and any other path gets a leading `/`.
   */
  function AppBasePath(basePath: Option<string>): (r: string)
    ensures r == "" <==> IsEmptyPath(basePath)
    ensures r != "" ==> r[0] == '/'
    ensures basePath == Some("/") ==> r == "/"
    ensures !IsEmptyPath(basePath) && basePath.value[0] == '/' ==> r == basePath.value
    ensures !IsEmptyPath(basePath) && basePath.value[0] != '/' ==> r == "/" + basePath.value
  {
    var contextPath := if IsEmptyPath(basePath) || basePath.value == "/" then "" else basePath.value;
    if IsEmptyPath(basePath) || StartsWith(contextPath, "/") then contextPath else "/" + contextPath
  }

  /** Normalising an already normalised base path changes nothing. */
  lemma {:induction false} AppBasePathIdempotent(basePath: Option<string>)
    ensures AppBasePath(Some(AppBasePath(basePath))) == AppBasePath(basePath)
  {
  }

  // ---------------------------------------------------------------- escape

  /** The text of `escape`: quotes doubled first, then newlines written as `\n`. */
  function EscapeText(s: string): string {
    ReplaceAll(ReplaceAll(s, "\"", "\"\""), "\n", "\\n")
  }

  /** `escape`: `undefined` stays `undefined`, any other value is escaped text. */
  function Escape(value: Option<string>): (r: Option<string>)
    ensures r.None? <==> value.None?
    ensures r.Some? ==> '\n' !in r.value
  {
    match value
    case None => None
    case Some(s) =>
      ReplaceAllRemovesChar(ReplaceAll(s, "\"", "\"\""), '\n', "\\n");
      Some(EscapeText(s))
  }

  /** The escaped form of one character, as a reader of the export expects it. */
  function EscapedChar(c: char): string {
    if c == '"' then "\"\"" else if c == '\n' then "\\n" else [c]
  }

  /** Reference definition of the escaping, one character at a time. */
  function EscapedChars(s: string): string
    decreases |s|
  {
    if |s| == 0 then "" else EscapedChar(s[0]) + EscapedChars(s[1..])
  }

  function Occurrences(s: string, c: char): nat
    decreases |s|
  {
    if |s| == 0 then 0 else (if s[0] == c then 1 else 0) + Occurrences(s[1..], c)
  }

  lemma {:induction false} ReplaceCharCons(x: char, rest: string, c: char, r: string)
    ensures ReplaceAll([x] + rest, [c], r) == (if x == c then r else [x]) + ReplaceAll(rest, [c], r)
  {
    var s := [x] + rest;
    assert s[..1] == [x];
    assert s[1..] == rest;
  }

  /** Replacing a single character distributes over concatenation. */
  lemma {:induction false} ReplaceCharAppend(a: string, b: string, c: char, r: string)
    ensures ReplaceAll(a + b, [c], r) == ReplaceAll(a, [c], r) + ReplaceAll(b, [c], r)
    decreases |a|
  {
    if |a| == 0 {
      assert a + b == b;
    } else {
      assert a + b == [a[0]] + (a[1..] + b);
      assert a == [a[0]] + a[1..];
      ReplaceCharCons(a[0], a[1..] + b, c, r);
      ReplaceCharCons(a[0], a[1..], c, r);
      ReplaceCharAppend(a[1..], b, c, r);
    }
  }

  /** The two chained `replaceAll` calls escape each character independently. */
  lemma {:induction false} EscapeTextIsPerCharacter(s: string)
    ensures EscapeText(s) == EscapedChars(s)
    decreases |s|
  {
    if |s| > 0 {
      var x, rest := s[0], s[1..];
      assert s == [x] + rest;
      var p := if x == '"' then "\"\"" else [x];
      ReplaceCharCons(x, rest, '"', "\"\"");
      ReplaceCharAppend(p, ReplaceAll(rest, "\"", "\"\""), '\n', "\\n");
      EscapeTextIsPerCharacter(rest);
      if x == '"' {
        ReplaceCharCons('"', "\"", '\n', "\\n");
        ReplaceCharCons('"', "", '\n', "\\n");
        assert p == ['"'] + ['"'];
      } else {
        ReplaceCharCons(x, "", '\n', "\\n");
        assert p == [x] + "";
      }
    }
  }

  lemma {:induction false} OccurrencesAppend(a: string, b: string, c: char)
    ensures Occurrences(a + b, c) == Occurrences(a, c) + Occurrences(b, c)
    decreases |a|
  {
    if |a| == 0 {
      assert a + b == b;
    } else {
      assert (a + b)[1..] == a[1..] + b;
      OccurrencesAppend(a[1..], b, c);
    }
  }

  /**
   * Every quote is doubled, every newline becomes the two characters `\n`
   * and the escaped text grows by one character for each of them.
   */
  lemma {:induction false} EscapedCounts(s: string)
    ensures '\n' !in EscapedChars(s)
    ensures Occurrences(EscapedChars(s), '"') == 2 * Occurrences(s, '"')
    ensures Occurrences(EscapedChars(s), '\\') == Occurrences(s, '\\') + Occurrences(s, '\n')
    ensures |EscapedChars(s)| == |s| + Occurrences(s, '"') + Occurrences(s, '\n')
    decreases |s|
  {
    if |s| > 0 {
      EscapedCounts(s[1..]);
      var e := EscapedChar(s[0]);
      OccurrencesAppend(e, EscapedChars(s[1..]), '"');
      OccurrencesAppend(e, EscapedChars(s[1..]), '\\');
      assert Occurrences(e, '"') == if s[0] == '"' then 2 else 0;
      assert Occurrences(e, '\\') == if s[0] == '\\' || s[0] == '\n' then 1 else 0;
    }
  }

  /** Text without quotes or newlines is exported as it is. */
  lemma {:induction false} EscapePlain(s: string)
    requires '"' !in s && '\n' !in s
    ensures EscapedChars(s) == s
    decreases |s|
  {
    if |s| > 0 {
      EscapePlain(s[1..]);
      assert s == [s[0]] + s[1..];
    }
  }

  /** `escape` doubles quotes and writes newlines out, and nothing else. */
  lemma {:induction false} EscapeMeaning(s: string)
    ensures Escape(Some(s)) == Some(EscapedChars(s))
    ensures Occurrences(Escape(Some(s)).value, '"') == 2 * Occurrences(s, '"')
    ensures |Escape(Some(s)).value| == |s| + Occurrences(s, '"') + Occurrences(s, '\n')
    ensures '"' !in s && '\n' !in s ==> Escape(Some(s)) == Some(s)
  {
    EscapeTextIsPerCharacter(s);
    EscapedCounts(s);
    if '"' !in s && '\n' !in s {
      EscapePlain(s);
    }
  }

  // ---------------------------------------------------------------- export rows

  /**
   * The values an exported property can hold: JavaScript `undefined` and
   * `null`, a string, an array of strings (ids, or names once resolved), or
   * any other value, known by its `toString` text and its truthiness.
   */
  datatype Value =
    | Undefined
    | Null
    | Text(s: string)
    | Strings(items: seq<string>)
    | Other(shown: string, truthy: bool)

  type Row = map<string, Value>

  /** JavaScript truthiness; arrays are truthy even when empty. */
  predicate Truthy(v: Value) {
    match v
    case Undefined => false
    case Null => false
    case Text(s) => s != ""
    case Strings(_) => true
    case Other(_, truthy) => truthy
  }

  /** `value?.toString()`; an array's text is its items joined with `,`. */
  function Shown(v: Value): (r: Option<string>)
    ensures r.None? <==> v.Undefined? || v.Null?
  {
    match v
    case Undefined => None
    case Null => None
    case Text(s) => Some(s)
    case Strings(items) => Some(Join(items, ","))
    case Other(shown, _) => Some(shown)
  }

  /** `R.pick(keys, d)`: the listed keys the row has, with their values. */
  function Pick(keys: seq<string>, d: Row): (r: Row)
    ensures r.Keys == d.Keys * set k | k in keys
    ensures forall k :: k in r ==> r[k] == d[k]
  {
    map k | k in d && k in keys :: d[k]
  }

  /** `organizationsMap[key]?.organization_name || ''`. */
  function OrganisationName(table: NameTable, key: string): (r: string)
    ensures Named(table, key) ==> r == table[key].value
    ensures !Named(table, key) ==> r == ""
  {
    if Named(table, key) then table[key].value else ""
  }

  /** The tables `exportData` resolves ids against (each defaults to `{}`). */
  datatype Tables = Tables(tags: NameTable, organisations: NameTable, exercises: NameTable, scenarios: NameTable)

  /** A property that holds an array when it is set, as the cast to `string[]` demands. */
  predicate ArrayWhenSet(d: Row, key: string) {
    key in d && Truthy(d[key]) ==> d[key].Strings?
  }

  /** The id-list properties of a picked row hold arrays of ids when they are set. */
  predicate ListsAreArrays(kind: string, d: Row) {
    ArrayWhenSet(d, kind + "_tags") && ArrayWhenSet(d, kind + "_exercises") && ArrayWhenSet(d, kind + "_scenarios")
  }

  /** `if (entry[key] === null) entry[key] = 'deleted'`. */
  function MarkDeleted(entry: Row, key: string): (r: Row)
    ensures r.Keys == entry.Keys
    ensures forall k :: k in entry && k != key ==> r[k] == entry[k]
    ensures key in entry ==> r[key] == if entry[key] == Null then Text("deleted") else entry[key]
  {
    if key in entry && entry[key] == Null then entry[key := Text("deleted")] else entry
  }

  /** `R.assoc(key, ids resolved against table, entry)` when the property is set. */
  function ResolveList(entry: Row, key: string, table: NameTable): (r: Row)
    requires ArrayWhenSet(entry, key)
    ensures r.Keys == entry.Keys
    ensures forall k :: k in entry && k != key ==> r[k] == entry[k]
    ensures key in entry ==> r[key] == if Truthy(entry[key]) then Strings(KnownNames(entry[key].items, table)) else entry[key]
  {
    if key in entry && Truthy(entry[key]) then entry[key := Strings(KnownNames(entry[key].items, table))] else entry
  }

  /** `R.assoc(key, organizationsMap[entry[key]]?.organization_name || '', entry)` when the property is set. */
  function ResolveOrganisation(entry: Row, key: string, table: NameTable): (r: Row)
    ensures r.Keys == entry.Keys
    ensures forall k :: k in entry && k != key ==> r[k] == entry[k]
    ensures key in entry ==> r[key] == if Truthy(entry[key]) then Text(OrganisationName(table, Shown(entry[key]).value)) else entry[key]
  {
    if key in entry && Truthy(entry[key]) then entry[key := Text(OrganisationName(table, Shown(entry[key]).value))] else entry
  }

  /** `R.assoc('inject_content', JSON.stringify(entry.inject_content), entry)` when it is set. */
  function StringifyContent(entry: Row, stringify: Value -> string): (r: Row)
    ensures r.Keys == entry.Keys
    ensures forall k :: k in entry && k != "inject_content" ==> r[k] == entry[k]
    ensures "inject_content" in entry ==>
      r["inject_content"] == if Truthy(entry["inject_content"]) then Text(stringify(entry["inject_content"])) else entry["inject_content"]
  {
    if "inject_content" in entry && Truthy(entry["inject_content"]) then entry["inject_content" := Text(stringify(entry["inject_content"]))] else entry
  }

  /** The body of the second `map` of `exportData`, before escaping: the rewrites in source order. */
  function Shape(kind: string, d: Row, tables: Tables, stringify: Value -> string): (r: Row)
    requires ListsAreArrays(kind, d)
    ensures r.Keys == d.Keys
  {
    SuffixesDiffer(kind);
    var e0 := MarkDeleted(d, kind + "_type");
    var e1 := ResolveList(e0, kind + "_tags", tables.tags);
    var e2 := ResolveList(e1, kind + "_exercises", tables.exercises);
    var e3 := ResolveList(e2, kind + "_scenarios", tables.scenarios);
    var e4 := ResolveOrganisation(e3, kind + "_organization", tables.organisations);
    StringifyContent(e4, stringify)
  }

  /** `R.mapObjIndexed(escape, entry)`. */
  function EscapeRow(entry: Row): (r: map<string, Option<string>>)
    ensures r.Keys == entry.Keys
    ensures forall k :: k in r ==> r[k] == Escape(Shown(entry[k]))
  {
    map k | k in entry :: Escape(Shown(entry[k]))
  }

  predicate RowArrays(kind: string, keys: seq<string>, data: seq<Row>) {
    forall i :: 0 <= i < |data| ==> ListsAreArrays(kind, Pick(keys, data[i]))
  }

  /** `exportData(type, keys, data, ...)`: one exported row per item, in order. */
  function ExportData(kind: string, keys: seq<string>, data: seq<Row>, tables: Tables, stringify: Value -> string)
    : (r: seq<map<string, Option<string>>>)
    requires RowArrays(kind, keys, data)
    ensures |r| == |data|
    ensures forall i :: 0 <= i < |data| ==> r[i] == EscapeRow(Shape(kind, Pick(keys, data[i]), tables, stringify))
    decreases |data|
  {
    if |data| == 0 then []
    else
      [EscapeRow(Shape(kind, Pick(keys, data[0]), tables, stringify))]
      + ExportData(kind, keys, data[1..], tables, stringify)
  }

  /** The exported property names are exactly the listed ones the item has. */
  lemma {:induction false} ExportKeys(kind: string, keys: seq<string>, data: seq<Row>, tables: Tables, stringify: Value -> string, i: nat)
    requires RowArrays(kind, keys, data) && i < |data|
    ensures ExportData(kind, keys, data, tables, stringify)[i].Keys == data[i].Keys * set k | k in keys
  {
  }

  /** No exported value contains a raw newline. */
  lemma {:induction false} ExportEscaped(kind: string, keys: seq<string>, data: seq<Row>, tables: Tables, stringify: Value -> string, i: nat, k: string)
    requires RowArrays(kind, keys, data) && i < |data|
    requires k in ExportData(kind, keys, data, tables, stringify)[i]
    ensures var v := ExportData(kind, keys, data, tables, stringify)[i][k]; v.Some? ==> '\n' !in v.value
  {
  }

  /** A `null` type property is exported as `deleted`. */
  lemma {:induction false} DeletedType(kind: string, d: Row, tables: Tables, stringify: Value -> string)
    requires ListsAreArrays(kind, d)
    requires kind + "_type" in d && d[kind + "_type"] == Null
    ensures Shape(kind, d, tables, stringify)[kind + "_type"] == Text("deleted")
  {
    SuffixesDiffer(kind);
  }

  /** Set tags are replaced by the names of the tags the table knows. */
  lemma {:induction false} TagsResolved(kind: string, d: Row, tables: Tables, stringify: Value -> string)
    requires ListsAreArrays(kind, d)
    requires kind + "_tags" in d && Truthy(d[kind + "_tags"])
    ensures Shape(kind, d, tables, stringify)[kind + "_tags"] == Strings(KnownNames(d[kind + "_tags"].items, tables.tags))
  {
    SuffixesDiffer(kind);
  }

  /** A set organisation the table does not name is exported as the empty text. */
  lemma {:induction false} UnknownOrganisation(kind: string, d: Row, tables: Tables, stringify: Value -> string)
    requires ListsAreArrays(kind, d)
    requires kind + "_organization" in d && Truthy(d[kind + "_organization"])
    requires !Named(tables.organisations, Shown(d[kind + "_organization"]).value)
    ensures Shape(kind, d, tables, stringify)[kind + "_organization"] == Text("")
  {
    SuffixesDiffer(kind);
  }

  /** The property names `exportData` rewrites are pairwise distinct. */
  lemma {:induction false} SuffixesDiffer(kind: string)
    ensures kind + "_type" != kind + "_tags" && kind + "_type" != kind + "_exercises"
    ensures kind + "_type" != kind + "_scenarios" && kind + "_type" != kind + "_organization"
    ensures kind + "_tags" != kind + "_exercises" && kind + "_tags" != kind + "_scenarios"
    ensures kind + "_tags" != kind + "_organization" && kind + "_exercises" != kind + "_scenarios"
    ensures kind + "_exercises" != kind + "_organization" && kind + "_scenarios" != kind + "_organization"
    ensures kind + "_type" != "inject_content" && kind + "_tags" != "inject_content"
    ensures kind + "_exercises" != "inject_content" && kind + "_scenarios" != "inject_content"
    ensures kind + "_organization" != "inject_content"
  {
    var n := |kind|;
    assert (kind + "_type")[n + 1] == 't' && (kind + "_tags")[n + 1] == 't';
    assert (kind + "_type")[n + 2] == 'y' && (kind + "_tags")[n + 2] == 'a';
    assert (kind + "_exercises")[n + 1] == 'e' && (kind + "_scenarios")[n + 1] == 's';
    assert (kind + "_organization")[n + 1] == 'o';
    assert |kind + "_type"| == n + 5 && |kind + "_tags"| == n + 5;
    assert |kind + "_exercises"| == n + 10 && |kind + "_scenarios"| == n + 10 && |kind + "_organization"| == n + 13;
    // "inject_content" ends in "content", which none of the suffixes does.
    var ic := "inject_content";
    assert ic[13] == 't' && ic[12] == 'n' && ic[11] == 'e';
    assert (kind + "_type")[n + 4] == 'e' && (kind + "_tags")[n + 4] == 's';
    assert (kind + "_exercises")[n + 9] == 's' && (kind + "_scenarios")[n + 9] == 's';
    assert (kind + "_organization")[n + 12] == 'n' && (kind + "_organization")[n + 11] == 'o';
  }
}
