// The pure and step-by-step parts of pkg/logger/logger.go: the level
// parser, the rotation defaults of the file writer and the fields taken
// from a context map. Building the zap cores and writing log lines are
// left to the logging library and are not modelled.
module Logger {
  import opened Wrappers
  import Gen

  /** zap's levels, from least to most severe. */
  datatype Level = DebugLevel | InfoLevel | WarnLevel | ErrorLevel | DPanicLevel | PanicLevel | FatalLevel

  /** `strings.ToLower` on ASCII text. */
  function Lower(s: string): (t: string)
    ensures |t| == |s|
    ensures forall i :: 0 <= i < |s| ==> t[i] == Gen.ToLower(s[i])
  {
    if s == [] then [] else [Gen.ToLower(s[0])] + Lower(s[1..])
  }

  /** Lower-casing twice changes nothing more than lower-casing once. */
  lemma LowerIsIdempotent(s: string)
    ensures Lower(Lower(s)) == Lower(s)
  {
    var t := Lower(s);
    assert forall i :: 0 <= i < |t| ==> Gen.ToLower(t[i]) == t[i];
  }

  /** The name the parser accepts for each level, in lower case. */
  function LevelName(l: Level): string {
    match l
    case DebugLevel => "debug"
    case InfoLevel => "info"
    case WarnLevel => "warn"
    case ErrorLevel => "error"
    case DPanicLevel => "dpanic"
    case PanicLevel => "panic"
    case FatalLevel => "fatal"
  }

  /** The seven names the parser accepts after lower-casing. */
  predicate KnownName(s: string) {
    s in {"debug", "info", "warn", "error", "dpanic", "panic", "fatal"}
  }

  /**
   * `parseLevel`: lower-case the text and match the seven names; anything
   * else gives InfoLevel together with an error naming the text as given.
   */
  function ParseLevel(level: string): (r: (Level, Option<string>))
    ensures r.1.None? <==> KnownName(Lower(level))
    ensures r.1.None? ==> LevelName(r.0) == Lower(level)
    ensures r.1.Some? ==> r.0 == InfoLevel && r.1.value == "未知的日志级别: " + level
  {
    match Lower(level)
    case "debug" => (DebugLevel, None)
    case "info" => (InfoLevel, None)
    case "warn" => (WarnLevel, None)
    case "error" => (ErrorLevel, None)
    case "dpanic" => (DPanicLevel, None)
    case "panic" => (PanicLevel, None)
    case "fatal" => (FatalLevel, None)
    case _ => (InfoLevel, Some("未知的日志级别: " + level))
  }

  /** Every level's name parses back to that level without an error. */
  lemma LevelNameRoundTrip(l: Level)
    ensures ParseLevel(LevelName(l)) == (l, None)
  {
    var n := LevelName(l);
    assert Lower(n) == n;
  }

  /**
   * The parser ignores case: a text and its lower-cased form select the same
   * level, and one is refused exactly when the other is; "WARN" and "Warn",
   * for instance, both give WarnLevel.
   */
  lemma ParseLevelIgnoresCase(level: string)
    ensures ParseLevel(level).0 == ParseLevel(Lower(level)).0
    ensures ParseLevel(level).1.None? <==> ParseLevel(Lower(level)).1.None?
  {
    LowerIsIdempotent(level);
  }

  /** `Rotate` of `LogConfig`: the sizes in MB, counts and days as configured. */
  datatype RotateConfig = RotateConfig(enabled: bool, maxSize: int, maxBackups: int, maxAge: int, compress: bool)

  /** The settings of the rotating file writer (`lumberjack.Logger`). */
  datatype LogWriter = LogWriter(filename: string, maxSize: int, maxBackups: int, maxAge: int, compress: bool)

  const DefaultMaxSize := 100
  const DefaultMaxBackups := 30
  const DefaultMaxAge := 30

  /**
   * `getLogWriter`: start from 100 MB, 30 backups, 30 days and compression;
   * with rotation enabled, a strictly positive setting replaces its default
   * and `Compress` is taken as configured. Creating the directory is left
   * out; its failure is only printed and changes nothing here.
   */
  method GetLogWriter(path: string, rotate: RotateConfig) returns (w: LogWriter)
    ensures w.filename == path
    ensures !rotate.enabled ==>
      w.maxSize == 100 && w.maxBackups == 30 && w.maxAge == 30 && w.compress
    ensures rotate.enabled ==>
      && w.maxSize == (if rotate.maxSize > 0 then rotate.maxSize else 100)
      && w.maxBackups == (if rotate.maxBackups > 0 then rotate.maxBackups else 30)
      && w.maxAge == (if rotate.maxAge > 0 then rotate.maxAge else 30)
      && w.compress == rotate.compress
    ensures w.maxSize > 0 && w.maxBackups > 0 && w.maxAge > 0
  {
    var maxSize := DefaultMaxSize;
    var maxBackups := DefaultMaxBackups;
    var maxAge := DefaultMaxAge;
    var compress := true;
    if rotate.enabled {
      if rotate.maxSize > 0 {
        maxSize := rotate.maxSize;
      }
      if rotate.maxBackups > 0 {
        maxBackups := rotate.maxBackups;
      }
      if rotate.maxAge > 0 {
        maxAge := rotate.maxAge;
      }
      compress := rotate.compress;
    }
    w := LogWriter(path, maxSize, maxBackups, maxAge, compress);
  }

  /** A structured field `zap.Any(key, value)`. */
  datatype Field<V> = Field(key: string, value: V)

  /** No key occurs twice among the fields. */
  predicate DistinctKeys<V>(fields: seq<Field<V>>) {
    forall i, j :: 0 <= i < j < |fields| ==> fields[i].key != fields[j].key
  }

  /** The map the fields describe, a later field winning on a repeated key. */
  function FieldMap<V>(fields: seq<Field<V>>): map<string, V> {
    if fields == [] then map[]
    else FieldMap(fields[..|fields| - 1])[fields[|fields| - 1].key := fields[|fields| - 1].value]
  }

  /**
   * `getContextFields`: one field per entry of the context, in the map's
   * iteration order, which Go leaves unspecified; any order is allowed here.
   */
  method GetContextFields<V>(ctx: map<string, V>) returns (fields: seq<Field<V>>)
    ensures |fields| == |ctx|
    ensures DistinctKeys(fields)
    ensures forall i :: 0 <= i < |fields| ==> fields[i].key in ctx && fields[i].value == ctx[fields[i].key]
    ensures forall k :: k in ctx ==> exists i :: 0 <= i < |fields| && fields[i].key == k
  {
    fields := [];
    var remaining := ctx.Keys;
    while remaining != {}
      invariant remaining <= ctx.Keys
      invariant |fields| + |remaining| == |ctx|
      invariant DistinctKeys(fields)
      invariant forall i :: 0 <= i < |fields| ==>
        fields[i].key in ctx && fields[i].key !in remaining && fields[i].value == ctx[fields[i].key]
      invariant forall k :: k in ctx && k !in remaining ==> exists i :: 0 <= i < |fields| && fields[i].key == k
      decreases |remaining|
    {
      var k :| k in remaining;
      ghost var before, left := fields, remaining;
      fields := fields + [Field(k, ctx[k])];
      remaining := remaining - {k};
      forall k' | k' in ctx && k' !in remaining
        ensures exists i :: 0 <= i < |fields| && fields[i].key == k'
      {
        if k' == k {
          assert fields[|fields| - 1].key == k';
        } else {
          assert k' !in left;
          var i :| 0 <= i < |before| && before[i].key == k';
          assert fields[i].key == k';
        }
      }
    }
  }

  /** Fields with distinct keys, each agreeing with a map, describe exactly their own keys of that map. */
  lemma {:induction false} FieldMapOfAgreeingFields<V>(fields: seq<Field<V>>, ctx: map<string, V>)
    requires forall i :: 0 <= i < |fields| ==> fields[i].key in ctx && fields[i].value == ctx[fields[i].key]
    ensures FieldMap(fields).Keys == set i | 0 <= i < |fields| :: fields[i].key
    ensures forall k :: k in FieldMap(fields) ==> k in ctx && FieldMap(fields)[k] == ctx[k]
  {
    if fields != [] {
      var init := fields[..|fields| - 1];
      FieldMapOfAgreeingFields(init, ctx);
      var last := fields[|fields| - 1];
      assert (set i | 0 <= i < |fields| :: fields[i].key) ==
             (set i | 0 <= i < |init| :: init[i].key) + {last.key} by {
        forall i | 0 <= i < |init|
          ensures init[i].key in (set j | 0 <= j < |fields| :: fields[j].key)
        {
          assert init[i].key == fields[i].key;
        }
        forall i | 0 <= i < |fields|
          ensures fields[i].key in (set j | 0 <= j < |init| :: init[j].key) + {last.key}
        {
          if i < |init| {
            assert init[i].key == fields[i].key;
          }
        }
      }
    }
  }

  /**
   * What GetContextFields returns describes the context again, whatever
   * order the map yields its entries in: nothing is lost or changed.
   */
  lemma ContextFieldsDescribeContext<V>(ctx: map<string, V>, fields: seq<Field<V>>)
    requires forall i :: 0 <= i < |fields| ==> fields[i].key in ctx && fields[i].value == ctx[fields[i].key]
    requires forall k :: k in ctx ==> exists i :: 0 <= i < |fields| && fields[i].key == k
    ensures FieldMap(fields) == ctx
  {
    FieldMapOfAgreeingFields(fields, ctx);
    var m := FieldMap(fields);
    forall k | k in ctx
      ensures k in m
    {
      var i :| 0 <= i < |fields| && fields[i].key == k;
      assert k in (set j | 0 <= j < |fields| :: fields[j].key);
    }
    assert m.Keys == ctx.Keys;
    assert forall k | k in m :: m[k] == ctx[k];
  }

  /**
   * `DebugWithCtx` and its siblings: the context's fields come first, then
   * the call's own fields, all passed to the logger in that order.
   */
  method FieldsWithContext<V>(ctx: map<string, V>, own: seq<Field<V>>) returns (all: seq<Field<V>>)
    ensures |all| == |ctx| + |own|
    ensures all[|ctx|..] == own
    ensures FieldMap(all[..|ctx|]) == ctx
  {
    var contextFields := GetContextFields(ctx);
    ContextFieldsDescribeContext(ctx, contextFields);
    all := contextFields + own;
    assert all[..|ctx|] == contextFields;
  }
}
