/** `load_env` of backend/verify_neo4j_connect.py: reads `.env` lines of
    the form `KEY=VALUE` into the process environment, never overriding a
    variable that is already set. The file is given as its sequence of
    lines (None when it does not exist); the environment is a class whose
    one field is the variable map the loader updates in place. */
module EnvLoader {
  import opened Wrappers
  import opened Text

  datatype Entry = Entry(key: string, value: string)

  /** True when `v` both starts and ends with the same quote character
      (`"` or `'`); a one-character `v` that is a quote counts. */
  predicate IsQuoted(v: string) {
    (StartsWith(v, "\"") && EndsWith(v, "\"")) || (StartsWith(v, "'") && EndsWith(v, "'"))
  }

  /** Python `v[1:-1]` when the value is quoted, else `v`. */
  function Unquote(v: string): (r: string)
    ensures IsQuoted(v) && |v| >= 2 ==> v == [v[0]] + r + [v[|v| - 1]]
    ensures IsQuoted(v) && |v| < 2 ==> r == []
    ensures !IsQuoted(v) ==> r == v
  {
    if IsQuoted(v) then (if |v| >= 2 then v[1..|v| - 1] else []) else v
  }

  /** The effect of one line of the file, or None when the line is
      skipped. */
  function ParseLine(raw: string): Option<Entry> {
    var line := PyStrip(raw);
    if line == [] || line[0] == '#' then None
    else if '=' !in line then None
    else
      var kv := SplitOnce(line, '=');
      Some(Entry(PyStrip(kv.0), Unquote(PyStrip(kv.1))))
  }

  /** A line is skipped exactly when, once stripped, it is empty, starts
      with `#`, or has no `=`. */
  lemma SkippedLines(raw: string)
    ensures ParseLine(raw).None? <==>
      var line := PyStrip(raw); line == [] || line[0] == '#' || '=' !in line
  {
  }

  /** A parsed key is stripped and holds no `=`. */
  lemma ParsedKeyIsClean(raw: string)
    requires ParseLine(raw).Some?
    ensures var k := ParseLine(raw).value.key;
            '=' !in k && PyStrip(k) == k
  {
    var kv := SplitOnce(PyStrip(raw), '=');
    TrimKeepsAbsent(kv.0, IsPySpace, '=');
    TrimIdempotent(kv.0, IsPySpace);
  }

  /** A line splits at its FIRST `=`: everything after it, further `=`
      signs included, is the value. */
  lemma SplitsAtFirstEquals(raw: string, a: string, b: string)
    requires PyStrip(raw) == a + "=" + b
    requires '=' !in a
    requires a == [] || a[0] != '#'
    ensures ParseLine(raw) == Some(Entry(PyStrip(a), Unquote(PyStrip(b))))
  {
    var line := PyStrip(raw);
    assert line[0] == if a == [] then '=' else a[0];
    assert line[|a|] == '=';
    SplitOnceUnique(a, b, '=');
  }

  /** A line made of a key and a value with nothing to strip parses to
      that key and the value, unquoted. */
  lemma CleanLineParses(k: string, q: string)
    requires k != [] && k[0] != '#' && '=' !in k
    requires !IsPySpace(k[0]) && !IsPySpace(k[|k| - 1])
    requires q != [] && !IsPySpace(q[0]) && !IsPySpace(q[|q| - 1])
    ensures ParseLine(k + "=" + q) == Some(Entry(k, Unquote(q)))
  {
    var line := k + "=" + q;
    assert line[0] == k[0] && line[|line| - 1] == q[|q| - 1];
    TrimOfTrimmed(line, IsPySpace);
    TrimOfTrimmed(k, IsPySpace);
    TrimOfTrimmed(q, IsPySpace);
    SplitsAtFirstEquals(line, k, q);
  }

  /** A key with nothing to strip, a `=`, and a double-quoted value: the
      value comes back exactly, whatever it contains. */
  lemma QuotedRoundTrip(k: string, v: string)
    requires k != [] && k[0] != '#' && '=' !in k
    requires !IsPySpace(k[0]) && !IsPySpace(k[|k| - 1])
    ensures ParseLine(k + "=" + "\"" + v + "\"") == Some(Entry(k, v))
  {
    var q := "\"" + v + "\"";
    assert q[0] == '"' && q[|q| - 1] == '"' && q[1..|q| - 1] == v;
    assert IsQuoted(q);
    assert k + "=" + q == k + "=" + "\"" + v + "\"";
    CleanLineParses(k, q);
  }

  /** The same for a single-quoted value. */
  lemma SingleQuotedRoundTrip(k: string, v: string)
    requires k != [] && k[0] != '#' && '=' !in k
    requires !IsPySpace(k[0]) && !IsPySpace(k[|k| - 1])
    ensures ParseLine(k + "=" + "'" + v + "'") == Some(Entry(k, v))
  {
    var q := "'" + v + "'";
    assert q[0] == '\'' && q[|q| - 1] == '\'' && q[1..|q| - 1] == v;
    assert IsQuoted(q);
    assert k + "=" + q == k + "=" + "'" + v + "'";
    CleanLineParses(k, q);
  }

  /** Mismatched quotes are kept: `"x'` stays as written. */
  lemma MismatchedQuotesKept(k: string, x: string)
    requires k != [] && k[0] != '#' && '=' !in k
    requires !IsPySpace(k[0]) && !IsPySpace(k[|k| - 1])
    ensures ParseLine(k + "=" + "\"" + x + "'") == Some(Entry(k, "\"" + x + "'"))
  {
    var q := "\"" + x + "'";
    assert q[0] == '"' && q[|q| - 1] == '\'';
    assert !IsQuoted(q);
    assert k + "=" + q == k + "=" + "\"" + x + "'";
    CleanLineParses(k, q);
  }

  /** The environment after one parsed line: a key is added only when it
      is not already set. */
  function Apply(env: map<string, string>, entry: Option<Entry>): map<string, string> {
    match entry
    case None => env
    case Some(e) => if e.key in env then env else env[e.key := e.value]
  }

  /** The environment after the given parsed lines, in file order. */
  function ApplyAll(env: map<string, string>, entries: seq<Option<Entry>>): map<string, string> {
    if entries == [] then env
    else Apply(ApplyAll(env, entries[..|entries| - 1]), entries[|entries| - 1])
  }

  /** Each line of the file, parsed. */
  function Entries(lines: seq<string>): (r: seq<Option<Entry>>)
    ensures |r| == |lines|
    ensures forall i :: 0 <= i < |lines| ==> r[i] == ParseLine(lines[i])
  {
    seq(|lines|, i requires 0 <= i < |lines| => ParseLine(lines[i]))
  }

  lemma ApplyAllStep(env: map<string, string>, entries: seq<Option<Entry>>, i: nat)
    requires i < |entries|
    ensures ApplyAll(env, entries[..i + 1]) == Apply(ApplyAll(env, entries[..i]), entries[i])
  {
    assert entries[..i + 1][..i] == entries[..i];
  }

  /** The environment after loading the given lines. */
  function Loaded(env: map<string, string>, lines: seq<string>): map<string, string> {
    ApplyAll(env, Entries(lines))
  }

  /** The keys the parsed lines define. */
  function KeysOf(entries: seq<Option<Entry>>): set<string> {
    set i | 0 <= i < |entries| && entries[i].Some? :: entries[i].value.key
  }

  lemma {:induction false} ApplyAllKeepsExisting(env: map<string, string>, entries: seq<Option<Entry>>, k: string)
    requires k in env
    ensures k in ApplyAll(env, entries) && ApplyAll(env, entries)[k] == env[k]
  {
    if entries != [] {
      ApplyAllKeepsExisting(env, entries[..|entries| - 1], k);
    }
  }

  lemma {:induction false} ApplyAllKeys(env: map<string, string>, entries: seq<Option<Entry>>)
    ensures ApplyAll(env, entries).Keys == env.Keys + KeysOf(entries)
  {
    if entries != [] {
      var init := entries[..|entries| - 1];
      var last := entries[|entries| - 1];
      ApplyAllKeys(env, init);
      assert KeysOf(entries) == KeysOf(init) + (if last.Some? then {last.value.key} else {}) by {
        forall k | k in KeysOf(entries)
          ensures k in KeysOf(init) || (last.Some? && k == last.value.key)
        {
          var i :| 0 <= i < |entries| && entries[i].Some? && entries[i].value.key == k;
          if i < |init| { assert entries[i] == init[i]; }
        }
        forall k | k in KeysOf(init) ensures k in KeysOf(entries) {
          var i :| 0 <= i < |init| && init[i].Some? && init[i].value.key == k;
          assert entries[i] == init[i];
        }
      }
    }
  }

  lemma {:induction false} ApplyAllFirstWins(env: map<string, string>, entries: seq<Option<Entry>>, i: nat)
    requires i < |entries| && entries[i].Some? && entries[i].value.key !in env
    requires forall j :: 0 <= j < i && entries[j].Some? ==> entries[j].value.key != entries[i].value.key
    ensures var e := entries[i].value;
            e.key in ApplyAll(env, entries) && ApplyAll(env, entries)[e.key] == e.value
  {
    var e := entries[i].value;
    var init := entries[..|entries| - 1];
    if i < |entries| - 1 {
      ApplyAllFirstWins(env, init, i);
    } else {
      ApplyAllKeys(env, init);
      assert e.key !in KeysOf(init);
    }
  }

  /** Loading never changes a variable that was already set. */
  lemma LoadedKeepsExisting(env: map<string, string>, lines: seq<string>, k: string)
    requires k in env
    ensures k in Loaded(env, lines) && Loaded(env, lines)[k] == env[k]
  {
    ApplyAllKeepsExisting(env, Entries(lines), k);
  }

  /** Only keys parsed from the file's lines are added. */
  lemma LoadedKeys(env: map<string, string>, lines: seq<string>)
    ensures Loaded(env, lines).Keys == env.Keys +
      set i | 0 <= i < |lines| && ParseLine(lines[i]).Some? :: ParseLine(lines[i]).value.key
  {
    ApplyAllKeys(env, Entries(lines));
    assert KeysOf(Entries(lines)) ==
      set i | 0 <= i < |lines| && ParseLine(lines[i]).Some? :: ParseLine(lines[i]).value.key;
  }

  /** For a key not set before loading, the first line that defines it
      decides its value; later lines with the same key are ignored. */
  lemma FirstOccurrenceWins(env: map<string, string>, lines: seq<string>, i: nat)
    requires i < |lines| && ParseLine(lines[i]).Some?
    requires ParseLine(lines[i]).value.key !in env
    requires forall j :: 0 <= j < i && ParseLine(lines[j]).Some? ==>
               ParseLine(lines[j]).value.key != ParseLine(lines[i]).value.key
    ensures var e := ParseLine(lines[i]).value;
            e.key in Loaded(env, lines) && Loaded(env, lines)[e.key] == e.value
  {
    ApplyAllFirstWins(env, Entries(lines), i);
  }

  /** The process environment that `load_env` writes into. */
  class Environment {
    var vars: map<string, string>

    constructor(initial: map<string, string>)
      ensures vars == initial
    {
      vars := initial;
    }

    /** Reads the file line by line; a missing file changes nothing. */
    method LoadEnv(file: Option<seq<string>>)
      modifies this
      ensures file.None? ==> vars == old(vars)
      ensures file.Some? ==> vars == Loaded(old(vars), file.value)
    {
      if file.None? {
        return;
      }
      var lines := file.value;
      ghost var entries := Entries(lines);
      var i := 0;
      while i < |lines|
        invariant 0 <= i <= |lines|
        invariant vars == ApplyAll(old(vars), entries[..i])
      {
        ApplyAllStep(old(vars), entries, i);
        vars := Apply(vars, ParseLine(lines[i]));
        i := i + 1;
      }
      assert entries[..i] == entries;
    }
  }
}
