/**
 * The configuration of the queue system: a JSON document, looked up with
 * dotted key paths (`Config.get`) and merged over built-in defaults
 * (`Config._deep_merge`, `Config.load_config`).
 */
module Config {
  import opened Wrappers

  /** A JSON value as `json.load` produces it. */
  datatype Json =
    | Null
    | Bool(b: bool)
    | Int(i: int)
    | Num(r: real)
    | Str(s: string)
    | Arr(elems: seq<Json>)
    | Obj(fields: map<string, Json>)

  // ---------------------------------------------------------------------
  // Key paths: `key_path.split('.')`
  // ---------------------------------------------------------------------

  /** Python's `s.split(sep)` with an explicit separator: never empty, and
      empty pieces are kept ("a..b" has three pieces). */
  function Split(s: string, sep: char): (parts: seq<string>)
    ensures |parts| >= 1
  {
    if |s| == 0 then [""]
    else
      var rest := Split(s[1..], sep);
      if s[0] == sep then [""] + rest
      else [[s[0]] + rest[0]] + rest[1..]
  }

  /** Python's `sep.join(parts)`. */
  function Join(parts: seq<string>, sep: char): string
    requires |parts| >= 1
  {
    if |parts| == 1 then parts[0] else parts[0] + [sep] + Join(parts[1..], sep)
  }

  /** No piece of a split holds the separator. */
  lemma {:induction false} SplitPiecesPlain(s: string, sep: char)
    ensures forall i :: 0 <= i < |Split(s, sep)| ==> sep !in Split(s, sep)[i]
  {
    if |s| > 0 {
      SplitPiecesPlain(s[1..], sep);
      var rest := Split(s[1..], sep);
      if s[0] != sep {
        assert sep !in [s[0]] + rest[0];
      }
    }
  }

  /** Joining the pieces of a split gives back the string. */
  lemma {:induction false} JoinSplit(s: string, sep: char)
    ensures Join(Split(s, sep), sep) == s
  {
    if |s| > 0 {
      JoinSplit(s[1..], sep);
      var rest := Split(s[1..], sep);
      if s[0] != sep {
        if |rest| == 1 {
          assert Join(Split(s, sep), sep) == [s[0]] + rest[0];
        } else {
          assert Join(rest, sep) == rest[0] + [sep] + Join(rest[1..], sep);
        }
        assert s == [s[0]] + s[1..];
      }
    }
  }

  /** A piece free of the separator splits to itself. */
  lemma {:induction false} SplitPlain(p: string, sep: char)
    requires sep !in p
    ensures Split(p, sep) == [p]
  {
    if |p| > 0 {
      SplitPlain(p[1..], sep);
      assert p == [p[0]] + p[1..];
    }
  }

  /** The first separator ends the first piece. */
  lemma {:induction false} SplitAtSeparator(p: string, sep: char, t: string)
    requires sep !in p
    ensures Split(p + [sep] + t, sep) == [p] + Split(t, sep)
  {
    if |p| == 0 {
      assert p + [sep] + t == [sep] + t;
      assert ([sep] + t)[1..] == t;
    } else {
      SplitAtSeparator(p[1..], sep, t);
      assert (p + [sep] + t)[1..] == p[1..] + [sep] + t;
      assert p == [p[0]] + p[1..];
    }
  }

  /** Splitting a join of separator-free pieces gives back the pieces. */
  lemma {:induction false} SplitJoin(parts: seq<string>, sep: char)
    requires |parts| >= 1
    requires forall i :: 0 <= i < |parts| ==> sep !in parts[i]
    ensures Split(Join(parts, sep), sep) == parts
  {
    if |parts| == 1 {
      SplitPlain(parts[0], sep);
    } else {
      SplitJoin(parts[1..], sep);
      SplitAtSeparator(parts[0], sep, Join(parts[1..], sep));
      assert parts == [parts[0]] + parts[1..];
    }
  }

  // ---------------------------------------------------------------------
  // Lookup: `Config.get`
  // ---------------------------------------------------------------------

  /** The value reached by following `keys` from `value`, or None as soon as
      the current value is not an object or lacks the next key. */
  function Find(value: Json, keys: seq<string>): (r: Option<Json>)
    ensures keys == [] ==> r == Some(value)
    ensures keys != [] && r.Some? ==> value.Obj? && keys[0] in value.fields
    ensures keys != [] && !(value.Obj? && keys[0] in value.fields) ==> r.None?
  {
    if keys == [] then Some(value)
    else if value.Obj? && keys[0] in value.fields then Find(value.fields[keys[0]], keys[1..])
    else None
  }

  /** Following a path in two stages is following it at once. */
  lemma {:induction false} FindAppend(value: Json, p: seq<string>, q: seq<string>)
    ensures Find(value, p + q) == match Find(value, p)
                                  case None => None
                                  case Some(v) => Find(v, q)
  {
    if p != [] {
      assert (p + q)[0] == p[0] && (p + q)[1..] == p[1..] + q;
      if value.Obj? && p[0] in value.fields {
        FindAppend(value.fields[p[0]], p[1..], q);
      }
    } else {
      assert p + q == q;
    }
  }

  /** The value at a dotted path, or `default` when the walk fails. */
  function Lookup(config: Json, keyPath: string, default: Json): Json
  {
    Find(config, Split(keyPath, '.')).GetOr(default)
  }

  /** `Config.get(key_path, default)`: walks the dotted path one key at a
      time and returns `default` as soon as a step fails. */
  method Get(config: Json, keyPath: string, default: Json) returns (r: Json)
    ensures r == Lookup(config, keyPath, default)
  {
    var keys := Split(keyPath, '.');
    var value := config;
    var i := 0;
    while i < |keys|
      invariant 0 <= i <= |keys|
      invariant Find(config, keys[..i]) == Some(value)
    {
      var key := keys[i];
      FindAppend(config, keys[..i], [key]);
      assert keys[..i + 1] == keys[..i] + [key];
      if value.Obj? && key in value.fields {
        value := value.fields[key];
      } else {
        FindAppend(config, keys[..i + 1], keys[i + 1..]);
        assert keys[..i + 1] + keys[i + 1..] == keys;
        return default;
      }
      i := i + 1;
    }
    assert keys[..i] == keys;
    r := value;
  }

  /** Looking up a dotted path built from dot-free keys walks those keys. */
  lemma LookupJoined(config: Json, keys: seq<string>, default: Json)
    requires |keys| >= 1
    requires forall i :: 0 <= i < |keys| ==> '.' !in keys[i]
    ensures Lookup(config, Join(keys, '.'), default) == Find(config, keys).GetOr(default)
  {
    SplitJoin(keys, '.');
  }

  // ---------------------------------------------------------------------
  // Merge: `Config._deep_merge`
  // ---------------------------------------------------------------------

  /** The object `_deep_merge(base, update)` leaves in `base`: every key of
      either; where both hold objects they are merged recursively, otherwise
      the update's value replaces the base's. */
  function Merged(base: map<string, Json>, update: map<string, Json>): (r: map<string, Json>)
    ensures r.Keys == base.Keys + update.Keys
    ensures forall k :: k in base && k !in update ==> r[k] == base[k]
    ensures forall k :: k in update && !(k in base && base[k].Obj? && update[k].Obj?) ==> r[k] == update[k]
    decreases Obj(update)
  {
    map k | k in base.Keys + update.Keys ::
      if k in update then
        (if k in base && base[k].Obj? && update[k].Obj?
         then Obj(Merged(base[k].fields, update[k].fields))
         else update[k])
      else base[k]
  }

  /** Adding one key to an update changes the merge at that key alone. */
  lemma MergedAddKey(base: map<string, Json>, done: map<string, Json>, key: string, v: Json)
    requires key !in done
    ensures Merged(base, done[key := v]) ==
            Merged(base, done)[key := if key in base && base[key].Obj? && v.Obj?
                                      then Obj(Merged(base[key].fields, v.fields)) else v]
  {
  }

  /** `_deep_merge` as the source runs it: one key of the update at a time,
      recursing into objects present on both sides. */
  method DeepMerge(base: map<string, Json>, update: map<string, Json>) returns (merged: map<string, Json>)
    ensures merged == Merged(base, update)
    decreases Obj(update)
  {
    merged := base;
    var todo := update.Keys;
    ghost var done: map<string, Json> := map[];
    while todo != {}
      invariant todo <= update.Keys
      invariant done.Keys == update.Keys - todo
      invariant forall k :: k in done ==> done[k] == update[k]
      invariant merged == Merged(base, done)
      decreases todo
    {
      var key :| key in todo;
      var value := update[key];
      MergedAddKey(base, done, key, value);
      if key in merged && merged[key].Obj? && value.Obj? {
        var sub := DeepMerge(merged[key].fields, value.fields);
        merged := merged[key := Obj(sub)];
      } else {
        merged := merged[key := value];
      }
      done := done[key := value];
      todo := todo - {key};
    }
    assert done == update;
  }

  /** Merging an empty update leaves the base as it was. */
  lemma MergedEmptyUpdate(base: map<string, Json>)
    ensures Merged(base, map[]) == base
  {
  }

  /** Where the update holds a non-object value at a path, the merged
      configuration holds that value there: the update wins at its leaves. */
  lemma {:induction false} FindMergedUpdateWins(base: map<string, Json>, update: map<string, Json>, path: seq<string>, v: Json)
    requires Find(Obj(update), path) == Some(v)
    requires !v.Obj?
    ensures Find(Obj(Merged(base, update)), path) == Some(v)
    decreases |path|
  {
    var k := path[0];
    var m := Merged(base, update);
    if k in base && base[k].Obj? && update[k].Obj? {
      FindMergedUpdateWins(base[k].fields, update[k].fields, path[1..], v);
    } else {
      assert m[k] == update[k];
    }
  }

  /** The update does not reach `path`: at some step the update lacks the
      key, and every earlier step of the update is an object. */
  predicate Misses(update: map<string, Json>, path: seq<string>)
    decreases |path|
  {
    |path| > 0 &&
    (path[0] !in update ||
     (update[path[0]].Obj? && Misses(update[path[0]].fields, path[1..])))
  }

  /** A base value at a path the update does not reach survives the merge. */
  lemma {:induction false} FindMergedKeepsBase(base: map<string, Json>, update: map<string, Json>, path: seq<string>, v: Json)
    requires Find(Obj(base), path) == Some(v)
    requires Misses(update, path)
    ensures Find(Obj(Merged(base, update)), path) == Some(v)
    decreases |path|
  {
    var k := path[0];
    if k in update {
      FindMergedKeepsBase(base[k].fields, update[k].fields, path[1..], v);
    }
  }

  // ---------------------------------------------------------------------
  // Defaults and loading: `Config.__init__`, `Config.load_config`
  // ---------------------------------------------------------------------

  /** The built-in `default_config`. */
  function DefaultConfig(): (d: map<string, Json>)
    ensures d.Keys == {"obs", "discord", "tts", "server", "database"}
    ensures forall k :: k in d ==> d[k].Obj?
  {
    map[
      "obs" := Obj(map[
        "host" := Str("localhost"),
        "port" := Int(4455),
        "password" := Str(""),
        "queue_scene" := Str("Stream"),
        "queue_text_source" := Str("TTS Queue Counter")]),
      "discord" := Obj(map[
        "webhook_url" := Str(""),
        "enabled" := Bool(true)]),
      "tts" := Obj(map[
        "language" := Str("en"),
        "slow" := Bool(false),
        "volume" := Num(0.8)]),
      "server" := Obj(map[
        "host" := Str("localhost"),
        "port" := Int(5000)]),
      "database" := Obj(map[
        "path" := Str("tts_queue.db")])
    ]
  }

  /** The configuration `load_config` settles on, given what was read from
      the configuration file (None: missing or unreadable). A document whose
      top level is not an object makes the merge fail, and the defaults are
      used. */
  function LoadConfig(file: Option<Json>): (r: Json)
    ensures r.Obj? && DefaultConfig().Keys <= r.fields.Keys
    ensures file.Some? && file.value.Obj? ==> r == Obj(Merged(DefaultConfig(), file.value.fields))
    ensures file.None? || !file.value.Obj? ==> r == Obj(DefaultConfig())
  {
    match file
    case Some(Obj(fields)) => Obj(Merged(DefaultConfig(), fields))
    case _ => Obj(DefaultConfig())
  }
}
