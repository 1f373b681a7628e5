// The code generator's setup in pkg/database/gen.go: the table-name to
// model-name conversion (`toCamelCase` behind the model-name strategy) and
// the configuration defaults NewGenerator applies. Opening the database
// connection is a parameter: its error, if any.
module Gen {
  import opened Wrappers

  // ---------------------------------------------------------------------------
  // Splitting and joining on one separator character
  // ---------------------------------------------------------------------------

  /** How many times `c` occurs in `s`. */
  function Occurrences(s: string, c: char): nat {
    if s == [] then 0 else (if s[0] == c then 1 else 0) + Occurrences(s[1..], c)
  }

  /** The parts joined back together with the separator between them. */
  function JoinWith(parts: seq<string>, sep: char): string
    requires |parts| >= 1
  {
    if |parts| == 1 then parts[0] else parts[0] + [sep] + JoinWith(parts[1..], sep)
  }

  /**
   * `strings.Split(s, sep)`: the maximal runs between separators, with an
   * empty part where two separators meet or the string starts or ends with
   * one; "" splits into [""].
   */
  function Split(s: string, sep: char): (parts: seq<string>)
    ensures |parts| == Occurrences(s, sep) + 1
    ensures forall i :: 0 <= i < |parts| ==> sep !in parts[i]
    ensures JoinWith(parts, sep) == s
    decreases |s|
  {
    if s == [] then [""]
    else
      var rest := Split(s[1..], sep);
      if s[0] == sep then
        assert s == [sep] + s[1..];
        [""] + rest
      else
        var parts := [[s[0]] + rest[0]] + rest[1..];
        assert |rest| == 1 ==> JoinWith(parts, sep) == [s[0]] + JoinWith(rest, sep);
        assert |rest| > 1 ==> JoinWith(parts, sep) == [s[0]] + rest[0] + [sep] + JoinWith(rest[1..], sep);
        assert s == [s[0]] + s[1..];
        parts
  }

  /** `strings.Join(parts, "")`. */
  function Concat(parts: seq<string>): string {
    if parts == [] then [] else parts[0] + Concat(parts[1..])
  }

  // ---------------------------------------------------------------------------
  // toCamelCase
  // ---------------------------------------------------------------------------

  predicate IsLowerLetter(c: char) {
    'a' <= c <= 'z'
  }

  predicate IsUpperLetter(c: char) {
    'A' <= c <= 'Z'
  }

  /** `strings.ToUpper` on one ASCII character. */
  function ToUpper(c: char): char {
    if IsLowerLetter(c) then (c as int - 32) as char else c
  }

  function ToLower(c: char): char {
    if IsUpperLetter(c) then (c as int + 32) as char else c
  }

  /** A non-empty part with its first character upper-cased; the empty part stays empty. */
  function Capitalize(part: string): string {
    if |part| > 0 then [ToUpper(part[0])] + part[1..] else part
  }

  function CapitalizeAll(parts: seq<string>): (r: seq<string>)
    ensures |r| == |parts|
    ensures forall i :: 0 <= i < |parts| ==> r[i] == Capitalize(parts[i])
  {
    if parts == [] then [] else [Capitalize(parts[0])] + CapitalizeAll(parts[1..])
  }

  /** What `toCamelCase` returns. */
  function CamelCase(s: string): string {
    Concat(CapitalizeAll(Split(s, '_')))
  }

  /** `toCamelCase`: split on "_", upper-case each non-empty part's first character in place, join. */
  method ToCamelCase(s: string) returns (out: string)
    ensures out == CamelCase(s)
  {
    var split := Split(s, '_');
    var parts := new string[|split|](i requires 0 <= i < |split| => split[i]);
    for i := 0 to parts.Length
      invariant forall j :: 0 <= j < i ==> parts[j] == Capitalize(split[j])
      invariant forall j :: i <= j < parts.Length ==> parts[j] == split[j]
    {
      if |parts[i]| > 0 {
        parts[i] := [ToUpper(parts[i][0])] + parts[i][1..];
      }
    }
    assert parts[..] == CapitalizeAll(split);
    out := Concat(parts[..]);
  }

  lemma {:induction false} ConcatHasNo(parts: seq<string>, c: char)
    requires forall i :: 0 <= i < |parts| ==> c !in parts[i]
    ensures c !in Concat(parts)
  {
    if parts != [] {
      ConcatHasNo(parts[1..], c);
    }
  }

  /** The output contains no underscore: each one was a split point. */
  lemma CamelCaseHasNoUnderscore(s: string)
    ensures '_' !in CamelCase(s)
  {
    var parts := CapitalizeAll(Split(s, '_'));
    forall i | 0 <= i < |parts|
      ensures '_' !in parts[i]
    {
      var p := Split(s, '_')[i];
      if |p| > 0 {
        assert parts[i] == [ToUpper(p[0])] + p[1..];
        assert p[0] in p;
      }
    }
    ConcatHasNo(parts, '_');
  }

  function TotalLength(parts: seq<string>): nat {
    if parts == [] then 0 else |parts[0]| + TotalLength(parts[1..])
  }

  lemma {:induction false} JoinLength(parts: seq<string>, sep: char)
    requires |parts| >= 1
    ensures |JoinWith(parts, sep)| == TotalLength(parts) + |parts| - 1
  {
    if |parts| > 1 {
      JoinLength(parts[1..], sep);
    }
  }

  lemma {:induction false} CapitalizedConcatLength(parts: seq<string>)
    ensures |Concat(CapitalizeAll(parts))| == TotalLength(parts)
  {
    if parts != [] {
      CapitalizedConcatLength(parts[1..]);
      assert CapitalizeAll(parts)[1..] == CapitalizeAll(parts[1..]);
    }
  }

  /** Each underscore is dropped and every other character kept, so the length shrinks by the underscores. */
  lemma CamelCaseLength(s: string)
    ensures |CamelCase(s)| == |s| - Occurrences(s, '_')
  {
    var parts := Split(s, '_');
    JoinLength(parts, '_');
    CapitalizedConcatLength(parts);
  }

  // ---------------------------------------------------------------------------
  // Back from camel case to snake case
  // ---------------------------------------------------------------------------

  /**
   * snake_case from CamelCase: an underscore before every upper-case letter
   * except at the start, and every letter lower-cased.
   */
  function Snake(t: string, atStart: bool): string {
    if t == [] then []
    else (if IsUpperLetter(t[0]) && !atStart then "_" else "") + [ToLower(t[0])] + Snake(t[1..], false)
  }

  lemma {:induction false} SnakeAppend(a: string, b: string, atStart: bool)
    ensures Snake(a + b, atStart) == Snake(a, atStart) + Snake(b, atStart && a == [])
  {
    if a != [] {
      assert (a + b)[1..] == a[1..] + b;
      SnakeAppend(a[1..], b, false);
    } else {
      assert a + b == b;
    }
  }

  /** A part a snake-case name is made of: a lower-case letter, then lower-case letters and digits. */
  predicate LowerWord(p: string) {
    && |p| > 0 && IsLowerLetter(p[0])
    && forall i :: 0 <= i < |p| ==> IsLowerLetter(p[i]) || '0' <= p[i] <= '9'
  }

  /** A table name in plain snake case: non-empty lower-case words joined by single underscores. */
  predicate SnakeName(s: string) {
    forall p | p in Split(s, '_') :: LowerWord(p)
  }

  lemma {:induction false} SnakeOfLowerTail(q: string)
    requires forall i :: 0 <= i < |q| ==> IsLowerLetter(q[i]) || '0' <= q[i] <= '9'
    ensures Snake(q, false) == q
  {
    if q != [] {
      SnakeOfLowerTail(q[1..]);
      assert q == [q[0]] + q[1..];
    }
  }

  lemma SnakeOfCapitalized(p: string, atStart: bool)
    requires LowerWord(p)
    ensures Snake(Capitalize(p), atStart) == (if atStart then "" else "_") + p
  {
    SnakeOfLowerTail(p[1..]);
    assert Capitalize(p)[1..] == p[1..];
    assert p == [p[0]] + p[1..];
  }

  lemma {:induction false} SnakeOfCamelParts(parts: seq<string>, atStart: bool)
    requires |parts| >= 1 && forall i :: 0 <= i < |parts| ==> LowerWord(parts[i])
    ensures Snake(Concat(CapitalizeAll(parts)), atStart) == (if atStart then "" else "_") + JoinWith(parts, '_')
  {
    var caps := CapitalizeAll(parts);
    assert caps[1..] == CapitalizeAll(parts[1..]);
    assert Concat(caps) == caps[0] + Concat(caps[1..]);
    SnakeAppend(caps[0], Concat(caps[1..]), atStart);
    SnakeOfCapitalized(parts[0], atStart);
    if |parts| > 1 {
      SnakeOfCamelParts(parts[1..], false);
      assert JoinWith(parts, '_') == parts[0] + ['_'] + JoinWith(parts[1..], '_');
    }
  }

  /** For a plain snake-case table name, the camel-case name leads back to it: no two such names collide. */
  lemma CamelCaseRoundTrip(s: string)
    requires SnakeName(s)
    ensures Snake(CamelCase(s), true) == s
  {
    var parts := Split(s, '_');
    assert forall i :: 0 <= i < |parts| ==> parts[i] in parts;
    SnakeOfCamelParts(parts, true);
  }

  // ---------------------------------------------------------------------------
  // The model-name strategy
  // ---------------------------------------------------------------------------

  /** Drop the table prefix when one is configured and the name starts with it, then camel-case. */
  function ModelName(tableName: string, tablePrefix: string): (r: string)
    ensures '_' !in r
  {
    var name := if tablePrefix != "" && tablePrefix <= tableName then tableName[|tablePrefix|..] else tableName;
    CamelCaseHasNoUnderscore(name);
    CamelCase(name)
  }

  /** The prefix is dropped exactly when configured and present; the rest is camel-cased, underscores gone. */
  lemma ModelNameStripsOnlyAPresentPrefix(tableName: string, tablePrefix: string)
    ensures tablePrefix != "" && tablePrefix <= tableName ==>
      ModelName(tableName, tablePrefix) == CamelCase(tableName[|tablePrefix|..])
    ensures !(tablePrefix != "" && tablePrefix <= tableName) ==>
      ModelName(tableName, tablePrefix) == CamelCase(tableName)
    ensures '_' !in ModelName(tableName, tablePrefix)
  {
    CamelCaseHasNoUnderscore(if tablePrefix != "" && tablePrefix <= tableName then tableName[|tablePrefix|..] else tableName);
  }

  /** Splitting a word that holds no separator, alone or followed by a separator. */
  lemma {:induction false} SplitWord(w: string, rest: string, sep: char)
    requires sep !in w
    ensures Split(w, sep) == [w]
    ensures Split(w + [sep] + rest, sep) == [w] + Split(rest, sep)
  {
    if w != [] {
      SplitWord(w[1..], rest, sep);
      assert (w + [sep] + rest)[1..] == w[1..] + [sep] + rest;
      assert w == [w[0]] + w[1..];
    } else {
      assert w + [sep] + rest == [sep] + rest;
    }
  }

  /** The two words of the user-role join table, capitalized. */
  lemma CapitalizedWords()
    ensures Capitalize("user") == "User" && Capitalize("role") == "Role"
  {
    assert ToUpper('u') == 'U' && ToUpper('r') == 'R';
    assert "user"[1..] == "ser" && "role"[1..] == "ole";
  }

  /** Two words joined by an underscore split back into the two words. */
  lemma SplitTwoWords(a: string, b: string)
    requires '_' !in a && '_' !in b
    ensures Split(a + "_" + b, '_') == [a, b]
  {
    SplitWord(b, "", '_');
    SplitWord(a, b, '_');
    assert a + "_" + b == a + ['_'] + b;
  }

  /** Concatenating two parts is appending them. */
  lemma ConcatPair(a: string, b: string)
    ensures Concat([a, b]) == a + b
  {
    assert [a, b][1..] == [b];
    assert Concat([b]) == b + Concat([]);
  }

  /** A two-word snake_case name becomes both words capitalized, run together. */
  lemma CamelCaseOfTwoWords(a: string, b: string)
    requires '_' !in a && '_' !in b
    ensures CamelCase(a + "_" + b) == Capitalize(a) + Capitalize(b)
  {
    SplitTwoWords(a, b);
    var caps := CapitalizeAll([a, b]);
    assert caps == [Capitalize(a), Capitalize(b)];
    ConcatPair(Capitalize(a), Capitalize(b));
  }

  /**
   * A two-word table name gives the same model name with the configured
   * prefix in front of it as without: the prefix is stripped when present,
   * and a name that lacks it is camel-cased whole.
   */
  lemma ModelNameOfTwoWords(prefix: string, a: string, b: string)
    requires prefix != "" && '_' !in a && '_' !in b
    ensures ModelName(prefix + a + "_" + b, prefix) == Capitalize(a) + Capitalize(b)
    ensures !(prefix <= a + "_" + b) ==> ModelName(a + "_" + b, prefix) == Capitalize(a) + Capitalize(b)
  {
    var name := a + "_" + b;
    assert prefix + a + "_" + b == prefix + name;
    assert prefix <= prefix + name && (prefix + name)[|prefix|..] == name;
    CamelCaseOfTwoWords(a, b);
  }

  /**
   * With the generator's table prefix "sys_", the join table sys_user_role
   * and a bare user_role both get the model name UserRole.
   */
  lemma UserRoleModelName()
    ensures ModelName("sys_user_role", "sys_") == "UserRole"
    ensures ModelName("user_role", "sys_") == "UserRole"
  {
    ModelNameOfTwoWords("sys_", "user", "role");
    assert "sys_" + "user" + "_" + "role" == "sys_user_role";
    assert "user" + "_" + "role" == "user_role";
    CapitalizedWords();
  }

  // ---------------------------------------------------------------------------
  // NewGenerator
  // ---------------------------------------------------------------------------

  /** `GenConfig`, which NewGenerator reads and updates. */
  class GenConfig {
    var dsn: string
    var outPath: string
    var modelPkgPath: string
    var withUnitTest: bool
    var withQueryFilter: bool
    var tablePrefix: string
    var singularTable: bool

    constructor (dsn: string, outPath: string, modelPkgPath: string, tablePrefix: string, singularTable: bool)
      ensures this.dsn == dsn && this.outPath == outPath && this.modelPkgPath == modelPkgPath
      ensures this.tablePrefix == tablePrefix && this.singularTable == singularTable
      ensures !withUnitTest && !withQueryFilter
    {
      this.dsn := dsn;
      this.outPath := outPath;
      this.modelPkgPath := modelPkgPath;
      this.tablePrefix := tablePrefix;
      this.singularTable := singularTable;
      withUnitTest := false;
      withQueryFilter := false;
    }
  }

  /** The part of GORM's naming strategy NewGenerator sets. */
  datatype NamingStrategy = NamingStrategy(singularTable: bool, tablePrefix: string)

  /** The column types mapped to a Go type of the generator's choosing: every integer width to int64. */
  function IntegerTypeMap(): map<string, string> {
    map["tinyint" := "int64", "smallint" := "int64", "mediumint" := "int64",
        "bigint" := "int64", "int" := "int64"]
  }

  lemma IntegerTypesMapToInt64()
    ensures IntegerTypeMap().Keys == {"tinyint", "smallint", "mediumint", "bigint", "int"}
    ensures forall t | t in IntegerTypeMap() :: IntegerTypeMap()[t] == "int64"
  {
  }

  /** `Generator`: the configuration it was built from and what it set on the generator. */
  class Generator {
    const config: GenConfig
    const naming: NamingStrategy
    const dataMap: map<string, string>

    constructor (config: GenConfig, naming: NamingStrategy, dataMap: map<string, string>)
      ensures this.config == config && this.naming == naming && this.dataMap == dataMap
    {
      this.config := config;
      this.naming := naming;
      this.dataMap := dataMap;
    }

    /** The model-name strategy; it reads the prefix from the configuration when it runs. */
    function ModelNameFor(tableName: string): string
      reads config
    {
      ModelName(tableName, config.tablePrefix)
    }
  }

  /**
   * `NewGenerator`: refuse a nil configuration, force singular table names,
   * set the naming strategy (with the prefix when one is given), connect
   * (`connectErr` is the driver's answer) and install the integer type map.
   */
  method NewGenerator(config: GenConfig?, connectErr: Option<string>) returns (g: Generator?, err: Option<string>)
    modifies config
    ensures config == null ==> g == null && err == Some("config cannot be nil")
    ensures config != null ==> config.singularTable
    ensures config != null ==>
      config.withUnitTest == old(config.withUnitTest) && config.withQueryFilter == old(config.withQueryFilter)
    ensures config != null ==>
      && config.dsn == old(config.dsn) && config.tablePrefix == old(config.tablePrefix)
      && config.outPath == old(config.outPath) && config.modelPkgPath == old(config.modelPkgPath)
    ensures config != null && connectErr.Some? ==>
      g == null && err == Some("failed to connect database: " + connectErr.value)
    ensures config != null && connectErr.None? ==>
      && err.None? && g != null && fresh(g) && g.config == config
      && g.naming == NamingStrategy(true, config.tablePrefix)
      && g.dataMap == IntegerTypeMap()
  {
    if config == null {
      return null, Some("config cannot be nil");
    }
    if !config.singularTable {
      config.singularTable := true;
    }
    var naming := NamingStrategy(config.singularTable, "");
    if config.tablePrefix != "" {
      naming := naming.(tablePrefix := config.tablePrefix);
    }
    if connectErr.Some? {
      return null, Some("failed to connect database: " + connectErr.value);
    }
    var dataMap := IntegerTypeMap();
    g := new Generator(config, naming, dataMap);
    err := None;
  }
}
