/**
 * The `.env` codec (load, save, masking) and the decisions of the
 * configuration editor: which input values count, which required
 * variables are missing, and how the saved map is merged from the old one.
 */
module ConfigEditor {
  import opened Wrappers
  import opened Text
  import opened StringOrder
  import opened Models

  // ---------------------------------------------------------------------
  // Loading

  /** One `KEY=value` assignment read from a line. */
  datatype Assignment = Assignment(key: string, value: string)

  /** The index of the first `=` in `s`: `str.partition("=")` splits there. */
  function FirstEquals(s: string): (i: nat)
    requires '=' in s
    ensures i < |s| && s[i] == '='
    ensures '=' !in s[..i]
  {
    if s[0] == '=' then 0
    else
      var j := FirstEquals(s[1..]);
      assert s[..1 + j] == [s[0]] + s[1..][..j];
      1 + j
  }

  /** Wrapped in a matching pair of double or single quotes (a lone quote character counts). */
  predicate Quoted(v: string) {
    v != [] && ((v[0] == '"' && v[|v| - 1] == '"') || (v[0] == '\'' && v[|v| - 1] == '\''))
  }

  /** `value[1:-1]` when the value is quoted, else the value itself. */
  function Unquote(v: string): (r: string)
    ensures !Quoted(v) ==> r == v
    ensures Quoted(v) && |v| >= 2 ==> v == [v[0]] + r + [v[0]]
    ensures Quoted(v) && |v| < 2 ==> r == ""
  {
    if !Quoted(v) then v
    else if |v| < 2 then ""
    else
      assert v == [v[0]] + v[1..|v| - 1] + [v[|v| - 1]];
      v[1..|v| - 1]
  }

  /**
   * `line.partition("=")` on a line holding `=`: the stripped text before
   * the first `=` is the key, the stripped and unquoted text after it the
   * value. The key holds no `=` and has no surrounding whitespace.
   */
  function Split(line: string): (a: Assignment)
    requires '=' in line
    ensures '=' !in a.key
    ensures a.key == [] || (!IsSpace(a.key[0]) && !IsSpace(a.key[|a.key| - 1]))
  {
    var i := FirstEquals(line);
    StripKeepsOut(line[..i], '=');
    Assignment(Strip(line[..i]), Unquote(Strip(line[i + 1..])))
  }

  /** One line of a `.env` file: blank lines, comments and lines without `=` assign nothing. */
  function ParseLine(raw: string): (r: Option<Assignment>)
    ensures r.None? <==> var line := Strip(raw); line == "" || line[0] == '#' || '=' !in line
  {
    var line := Strip(raw);
    if line == "" || line[0] == '#' || '=' !in line then None
    else Some(Split(line))
  }

  /** Applies one line's assignment, if any, to the map read so far. */
  function Apply(env: map<string, string>, a: Option<Assignment>): map<string, string> {
    match a
    case None => env
    case Some(Assignment(key, value)) => env[key := value]
  }

  /** What each line assigns. */
  function ParseLines(lines: seq<string>): (r: seq<Option<Assignment>>)
    ensures |r| == |lines|
  {
    if lines == [] then [] else ParseLines(lines[..|lines| - 1]) + [ParseLine(lines[|lines| - 1])]
  }

  /** Parsing one more line leaves the earlier results where they were. */
  lemma ParseLinesStep(lines: seq<string>, i: nat)
    requires i < |lines| - 1
    requires ParseLines(lines[..|lines| - 1])[i] == ParseLine(lines[..|lines| - 1][i])
    ensures ParseLines(lines)[i] == ParseLine(lines[i])
  {
    assert lines[..|lines| - 1][i] == lines[i];
  }

  /** The `i`th parse result is the `i`th line's. */
  lemma {:induction false} ParseLinesAt(lines: seq<string>, i: nat)
    requires i < |lines|
    ensures ParseLines(lines)[i] == ParseLine(lines[i])
    decreases |lines|
  {
    if i < |lines| - 1 {
      ParseLinesAt(lines[..|lines| - 1], i);
      ParseLinesStep(lines, i);
    }
  }

  /** Each line is parsed on its own: the results are the lines' own parses, in order. */
  lemma ParseLinesSpec(lines: seq<string>)
    ensures forall i :: 0 <= i < |lines| ==> ParseLines(lines)[i] == ParseLine(lines[i])
  {
    forall i | 0 <= i < |lines| ensures ParseLines(lines)[i] == ParseLine(lines[i]) {
      ParseLinesAt(lines, i);
    }
  }

  /** The map a sequence of assignments builds: later assignments overwrite earlier ones. */
  function Assign(assignments: seq<Option<Assignment>>): map<string, string> {
    if assignments == [] then map[]
    else Apply(Assign(assignments[..|assignments| - 1]), assignments[|assignments| - 1])
  }

  /** The map a sequence of lines loads to. */
  function ParseEnv(lines: seq<string>): map<string, string> {
    Assign(ParseLines(lines))
  }

  /** `load_env_file`: `content` is the file's text, `None` when it does not exist. */
  method LoadEnvFile(content: Option<string>) returns (env: map<string, string>)
    ensures content.None? ==> env == map[]
    ensures content.Some? ==> env == ParseEnv(FileLines(content.value))
  {
    env := map[];
    if content.None? {
      return;
    }
    var lines := FileLines(content.value);
    for i := 0 to |lines|
      invariant env == Assign(ParseLines(lines[..i]))
    {
      assert lines[..i + 1][..i] == lines[..i];
      assert ParseLines(lines[..i + 1]) == ParseLines(lines[..i]) + [ParseLine(lines[i])];
      env := Apply(env, ParseLine(lines[i]));
    }
    assert lines[..|lines|] == lines;
  }

  /** `assignments[i]` assigns a key that no later assignment assigns again. */
  predicate LastAssignmentOf(assignments: seq<Option<Assignment>>, i: nat)
    requires i < |assignments|
  {
    && assignments[i].Some?
    && forall j :: i < j < |assignments| ==> !(assignments[j].Some? && assignments[j].value.key == assignments[i].value.key)
  }

  /** A key is in the loaded map exactly when some line assigns it; the last line that does gives its value. */
  lemma {:induction false} LastAssignmentWins(assignments: seq<Option<Assignment>>)
    ensures forall k :: k in Assign(assignments) <==>
      exists i :: 0 <= i < |assignments| && assignments[i].Some? && assignments[i].value.key == k
    ensures forall i | 0 <= i < |assignments| && LastAssignmentOf(assignments, i) ::
      Assign(assignments)[assignments[i].value.key] == assignments[i].value.value
  {
    if assignments != [] {
      var n := |assignments| - 1;
      LastAssignmentWins(assignments[..n]);
      forall i | 0 <= i < n ensures assignments[..n][i] == assignments[i] { }
    }
  }

  // ---------------------------------------------------------------------
  // Saving

  /** Values holding a space, `=` or `"` are written in double quotes. */
  predicate NeedsQuotes(v: string) {
    ' ' in v || '=' in v || '"' in v
  }

  function FormatValue(v: string): string {
    if NeedsQuotes(v) then "\"" + v + "\"" else v
  }

  /** The `KEY=value` line written for one entry. */
  function FormatEntry(key: string, value: string): string {
    key + "=" + FormatValue(value)
  }

  /** The lines written for `keys`, in that order. */
  function FormatLines(env: map<string, string>, keys: seq<string>): (r: seq<string>)
    requires forall i :: 0 <= i < |keys| ==> keys[i] in env
    ensures |r| == |keys|
  {
    if keys == [] then []
    else FormatLines(env, keys[..|keys| - 1]) + [FormatEntry(keys[|keys| - 1], env[keys[|keys| - 1]])]
  }

  /** The text `save_env_file` writes: one line per entry in sorted key order, newline-joined, with a final newline. */
  ghost function Serialize(env: map<string, string>): string {
    JoinLines(FormatLines(env, SortedKeys(env))) + "\n"
  }

  /** `sorted(env)`. */
  ghost function SortedKeys(env: map<string, string>): (keys: seq<string>)
    ensures forall i :: 0 <= i < |keys| ==> keys[i] in env
  {
    SortedSetSpec(env.Keys);
    SortedSet(env.Keys)
  }

  /** `save_env_file`, returning the text it writes. */
  method SaveEnvFile(env: map<string, string>) returns (text: string)
    ensures text == Serialize(env)
  {
    var lines: seq<string> := [];
    var remaining := env.Keys;
    ghost var done: seq<string> := [];
    while remaining != {}
      invariant remaining <= env.Keys
      invariant forall i :: 0 <= i < |done| ==> done[i] in env
      invariant SortedSet(env.Keys) == done + SortedSet(remaining)
      invariant lines == FormatLines(env, done)
      decreases |remaining|
    {
      LeastExists(remaining);
      var key :| IsLeast(key, remaining);
      AdvanceSorted(env.Keys, done, remaining, key);
      lines := lines + [FormatEntry(key, env[key])];
      done := done + [key];
      remaining := remaining - {key};
    }
    assert done == SortedSet(env.Keys);
    text := JoinLines(lines) + "\n";
  }

  // ---------------------------------------------------------------------
  // Save, then load

  /** Keys the file format can carry: non-empty, no `=`, no line break, no surrounding whitespace, not a comment. */
  predicate KeyOk(k: string) {
    && k != ""
    && '=' !in k
    && NoLineBreak(k)
    && !IsSpace(k[0]) && !IsSpace(k[|k| - 1])
    && k[0] != '#'
  }

  /**
   * Values the file format can carry: no line break, and either written in
   * quotes or free of surrounding whitespace and not itself quoted.
   */
  predicate ValueOk(v: string) {
    && NoLineBreak(v)
    && (NeedsQuotes(v) || (!Quoted(v) && (v == "" || (!IsSpace(v[0]) && !IsSpace(v[|v| - 1])))))
  }

  lemma FormatEntryNoBreak(k: string, v: string)
    requires NoLineBreak(k) && NoLineBreak(v)
    ensures NoLineBreak(FormatEntry(k, v))
  {
    var line := FormatEntry(k, v);
    forall i | 0 <= i < |line| ensures !IsLineBreak(line[i]) {
      if i < |k| {
        assert line[i] == k[i];
      } else if i > |k| {
        var f := FormatValue(v);
        assert line[i] == f[i - |k| - 1];
        if NeedsQuotes(v) && 0 < i - |k| - 1 < |f| - 1 {
          assert f[i - |k| - 1] == v[i - |k| - 2];
        }
      }
    }
  }

  lemma FormatValueLoads(v: string)
    requires ValueOk(v)
    ensures Unquote(Strip(FormatValue(v))) == v
  {
    var f := FormatValue(v);
    if NeedsQuotes(v) {
      assert f[0] == '"' && f[|f| - 1] == '"';
      assert Strip(f) == f;
      assert f[1..|f| - 1] == v;
    } else if v == "" {
      assert AllSpace(v);
    }
  }

  /** How `ParseLine` reads a line that is already stripped and splits as `key=rest`. */
  lemma ParseSplitLine(line: string, key: string, rest: string)
    requires line == key + "=" + rest && '=' !in key
    requires Strip(line) == line && line[0] != '#'
    ensures ParseLine(line) == Some(Assignment(Strip(key), Unquote(Strip(rest))))
  {
    assert line[|key|] == '=';
    var i := FirstEquals(line);
    assert i == |key|;
    assert line[..i] == key && line[i + 1..] == rest;
  }

  /** The line written for a well-formed entry has nothing to strip and is not a comment. */
  lemma FormatEntryStripped(k: string, v: string)
    requires KeyOk(k) && ValueOk(v)
    ensures FormatEntry(k, v) == k + "=" + FormatValue(v)
    ensures Strip(FormatEntry(k, v)) == FormatEntry(k, v) && FormatEntry(k, v)[0] != '#'
  {
    var f := FormatValue(v);
    var line := k + "=" + f;
    assert line[0] == k[0];
    assert line[|line| - 1] == if f == "" then '=' else f[|f| - 1];
    if f != "" && NeedsQuotes(v) {
      assert f[|f| - 1] == '"';
    }
  }

  /** The line written for a well-formed entry loads back to that entry. */
  lemma ParseFormatEntry(k: string, v: string)
    requires KeyOk(k) && ValueOk(v)
    ensures ParseLine(FormatEntry(k, v)) == Some(Assignment(k, v))
  {
    FormatEntryStripped(k, v);
    ParseSplitLine(FormatEntry(k, v), k, FormatValue(v));
    assert Strip(k) == k;
    FormatValueLoads(v);
  }

  /** The assignments that the lines written for `keys` should load as. */
  function Entries(env: map<string, string>, keys: seq<string>): (r: seq<Option<Assignment>>)
    requires forall i :: 0 <= i < |keys| ==> keys[i] in env
    ensures |r| == |keys|
  {
    if keys == [] then []
    else Entries(env, keys[..|keys| - 1]) + [Some(Assignment(keys[|keys| - 1], env[keys[|keys| - 1]]))]
  }

  /** Each line written for a well-formed entry reads back as that entry. */
  lemma {:induction false} ParseFormatLines(env: map<string, string>, keys: seq<string>)
    requires forall i :: 0 <= i < |keys| ==> keys[i] in env
    requires forall k :: k in env ==> KeyOk(k) && ValueOk(env[k])
    ensures ParseLines(FormatLines(env, keys)) == Entries(env, keys)
  {
    if keys != [] {
      var n := |keys| - 1;
      var lines := FormatLines(env, keys);
      ParseFormatLines(env, keys[..n]);
      assert lines[..n] == FormatLines(env, keys[..n]);
      ParseFormatEntry(keys[n], env[keys[n]]);
    }
  }

  /** Assigning the entries for `keys` builds the part of `env` under those keys. */
  lemma {:induction false} AssignEntries(env: map<string, string>, keys: seq<string>)
    requires forall i :: 0 <= i < |keys| ==> keys[i] in env
    ensures Assign(Entries(env, keys)) == map k | k in env && k in keys :: env[k]
  {
    if keys != [] {
      var n := |keys| - 1;
      var entries := Entries(env, keys);
      AssignEntries(env, keys[..n]);
      assert entries[..n] == Entries(env, keys[..n]);
      assert forall k :: k in keys <==> k in keys[..n] || k == keys[n];
    }
  }

  /** The lines read back from the saved text: the formatted entries, or one empty line for an empty map. */
  lemma SavedLines(env: map<string, string>)
    requires forall k :: k in env ==> NoLineBreak(k) && NoLineBreak(env[k])
    ensures FileLines(Serialize(env)) == if env.Keys == {} then [""] else FormatLines(env, SortedKeys(env))
  {
    var keys := SortedKeys(env);
    SortedSetSpec(env.Keys);
    var lines := FormatLines(env, keys);
    if env.Keys == {} {
      assert Serialize(env) == "\n";
      assert FileLines("\n") == [""];
    } else {
      forall i | 0 <= i < |lines| ensures NoLineBreak(lines[i]) {
        FormatLinesAt(env, keys, i);
        FormatEntryNoBreak(keys[i], env[keys[i]]);
      }
      JoinLinesTerminated(lines);
      FileLinesOfTerminated(lines);
    }
  }

  /** A file holding one empty line loads as the empty map. */
  lemma LoadBlankLine()
    ensures ParseEnv([""]) == map[]
  {
    assert AllSpace("");
    assert ParseLine("") == None;
    assert ParseLines([""]) == ParseLines([]) + [ParseLine("")];
  }

  /**
   * Saving a map of well-formed entries and loading the file back gives the
   * same map.
   */
  lemma SaveLoadRoundTrip(env: map<string, string>)
    requires forall k :: k in env ==> KeyOk(k) && ValueOk(env[k])
    ensures ParseEnv(FileLines(Serialize(env))) == env
  {
    SavedLines(env);
    var keys := SortedKeys(env);
    var lines := FileLines(Serialize(env));
    if env.Keys == {} {
      LoadBlankLine();
      assert env == map[];
    } else {
      assert lines == FormatLines(env, keys);
      ParseFormatLines(env, keys);
      assert ParseEnv(lines) == Assign(Entries(env, keys));
      AssignEntries(env, keys);
      SortedSetSpec(env.Keys);
      RestrictToAll(env, keys);
    }
  }

  lemma RestrictToAll(env: map<string, string>, keys: seq<string>)
    requires forall k :: k in env <==> k in keys
    ensures (map k | k in env && k in keys :: env[k]) == env
  {
  }

  lemma {:induction false} FormatLinesAt(env: map<string, string>, keys: seq<string>, i: nat)
    requires forall j :: 0 <= j < |keys| ==> keys[j] in env
    requires i < |keys|
    ensures FormatLines(env, keys)[i] == FormatEntry(keys[i], env[keys[i]])
  {
    var n := |keys| - 1;
    if i < n {
      FormatLinesAt(env, keys[..n], i);
    }
  }

  lemma ParseOneLine(line: string)
    ensures ParseLines([line]) == [ParseLine(line)]
  {
    assert [line][..0] == [];
  }

  lemma AssignOne(a: Assignment)
    ensures Assign([Some(a)]) == map[a.key := a.value]
  {
    assert [Some(a)][..0] == [];
  }

  lemma SortedKeysSingleton(k: string, v: string)
    ensures SortedKeys(map[k := v]) == [k]
  {
    var keys := map[k := v].Keys;
    assert IsLeast(k, keys);
    SortedSetStep(keys, k);
    assert keys - {k} == {};
  }

  /** A value in single quotes with no space, `=` or `"` is written as it is, and loads without its quotes. */
  predicate SingleQuotedBare(v: string) {
    |v| >= 2 && v[0] == '\'' && v[|v| - 1] == '\'' && !NeedsQuotes(v) && NoLineBreak(v)
  }

  /** The line written for such a value: `k=v`, with nothing to strip in the line, the key or the value. */
  lemma SingleQuotedStripped(k: string, v: string)
    requires KeyOk(k) && SingleQuotedBare(v)
    ensures FormatEntry(k, v) == k + "=" + v
    ensures Strip(k + "=" + v) == k + "=" + v && Strip(k) == k && Strip(v) == v
  {
    var line := k + "=" + v;
    assert line[0] == k[0] && line[|line| - 1] == '\'';
  }

  lemma SingleQuotedLine(k: string, v: string)
    requires KeyOk(k) && SingleQuotedBare(v)
    ensures ParseLine(FormatEntry(k, v)) == Some(Assignment(k, v[1..|v| - 1]))
  {
    SingleQuotedStripped(k, v);
    ParseSplitLine(k + "=" + v, k, v);
  }

  /**
   * Such a value does not survive a save and a load: a map holding it loads
   * back with the quotes removed.
   */
  lemma SingleQuotedValueLosesQuotes(k: string, v: string)
    requires KeyOk(k) && SingleQuotedBare(v)
    ensures ParseEnv(FileLines(Serialize(map[k := v]))) == map[k := v[1..|v| - 1]]
    ensures ParseEnv(FileLines(Serialize(map[k := v]))) != map[k := v]
  {
    var env := map[k := v];
    var w := v[1..|v| - 1];
    var lines := FileLines(Serialize(env));
    assert lines == [FormatEntry(k, v)] by {
      SortedKeysSingleton(k, v);
      SavedLines(env);
      assert FormatLines(env, [k]) == [FormatEntry(k, v)];
    }
    assert ParseLines(lines) == [Some(Assignment(k, w))] by {
      SingleQuotedLine(k, v);
      ParseOneLine(FormatEntry(k, v));
    }
    AssignOne(Assignment(k, w));
    assert map[k := w][k] != map[k := v][k] by {
      assert |w| < |v|;
    }
  }

  // ---------------------------------------------------------------------
  // Masking

  function Stars(n: nat): (r: string)
    ensures |r| == n && forall i :: 0 <= i < n ==> r[i] == '*'
  {
    seq(n, _ => '*')
  }

  /** `mask_value`: a secret shown with all but its first and last four characters hidden. */
  function MaskValue(value: string): (r: string)
    ensures |r| == |value|
    ensures |value| <= 8 ==> forall i :: 0 <= i < |r| ==> r[i] == '*'
    ensures |value| > 8 ==>
      && r[..4] == value[..4]
      && r[|r| - 4..] == value[|value| - 4..]
      && forall i :: 4 <= i < |r| - 4 ==> r[i] == '*'
  {
    if value == "" then ""
    else if |value| <= 8 then Stars(|value|)
    else
      var r := value[..4] + Stars(|value| - 8) + value[|value| - 4..];
      assert r[..4] == value[..4];
      assert r[|r| - 4..] == value[|value| - 4..];
      r
  }

  // ---------------------------------------------------------------------
  // The editor screen

  /** The names of the declared variables, in declaration order. */
  function Names(vars: seq<EnvVarConfig>): (r: seq<string>)
    ensures |r| == |vars| && forall i :: 0 <= i < |vars| ==> r[i] == vars[i].name
  {
    seq(|vars|, i requires 0 <= i < |vars| => vars[i].name)
  }

  /** An input row of an editor screen: the variable, the value it is prefilled with, and the input id. */
  datatype EnvInput = EnvInput(config: EnvVarConfig, currentValue: string, inputId: string)

  /** `current.get(name, "")`. */
  function CurrentValue(current: map<string, string>, name: string): (r: string)
    ensures name in current ==> r == current[name]
    ensures name !in current ==> r == ""
  {
    if name in current then current[name] else ""
  }

  /** `_compose_env_inputs`: one row per declared variable, prefilled from the current `.env`. */
  method ComposeEnvInputs(vars: seq<EnvVarConfig>, current: map<string, string>) returns (inputs: seq<EnvInput>)
    ensures |inputs| == |vars|
    ensures forall i :: 0 <= i < |vars| ==>
      inputs[i] == EnvInput(vars[i], CurrentValue(current, vars[i].name), "env-" + vars[i].name)
  {
    inputs := [];
    for i := 0 to |vars|
      invariant |inputs| == i
      invariant forall j :: 0 <= j < i ==>
        inputs[j] == EnvInput(vars[j], CurrentValue(current, vars[j].name), "env-" + vars[j].name)
    {
      var currentValue := CurrentValue(current, vars[i].name);
      var inputId := "env-" + vars[i].name;
      inputs := inputs + [EnvInput(vars[i], currentValue, inputId)];
    }
  }

  /** The text of input `id` with surrounding whitespace dropped, if the input exists and is not blank. */
  function Entered(widgets: map<string, string>, id: string): (r: Option<string>)
    ensures r.Some? ==> r.value != ""
    ensures r.None? <==> id !in widgets || AllSpace(widgets[id])
  {
    if id in widgets && Strip(widgets[id]) != "" then Some(Strip(widgets[id])) else None
  }

  /**
   * The values typed into the inputs for `names`. `widgets` maps an input
   * id to its current text; a name whose input cannot be found is skipped,
   * and so is a blank one.
   */
  function Provided(prefix: string, names: seq<string>, widgets: map<string, string>): map<string, string> {
    if names == [] then map[]
    else
      var n := |names| - 1;
      var values := Provided(prefix, names[..n], widgets);
      match Entered(widgets, prefix + names[n])
      case Some(v) => values[names[n] := v]
      case None => values
  }

  /** A name has a value exactly when its input holds more than whitespace; the value is the input's stripped text. */
  lemma {:induction false} ProvidedSpec(prefix: string, names: seq<string>, widgets: map<string, string>)
    ensures forall k :: k in Provided(prefix, names, widgets) <==> k in names && Entered(widgets, prefix + k).Some?
    ensures forall k :: k in Provided(prefix, names, widgets) ==>
      Provided(prefix, names, widgets)[k] == Entered(widgets, prefix + k).value
  {
    if names != [] {
      var n := |names| - 1;
      ProvidedSpec(prefix, names[..n], widgets);
      assert forall k :: k in names <==> k in names[..n] || k == names[n];
    }
  }

  /** Every collected value is non-empty. */
  lemma ProvidedNonEmpty(prefix: string, names: seq<string>, widgets: map<string, string>)
    ensures forall k :: k in Provided(prefix, names, widgets) ==> Provided(prefix, names, widgets)[k] != ""
  {
    ProvidedSpec(prefix, names, widgets);
  }

  /** The loop of `_get_env_values` and `_get_wizard_values`: collect the non-blank input values. */
  method CollectValues(prefix: string, names: seq<string>, widgets: map<string, string>) returns (values: map<string, string>)
    ensures values == Provided(prefix, names, widgets)
  {
    values := map[];
    for i := 0 to |names|
      invariant values == Provided(prefix, names[..i], widgets)
    {
      assert names[..i + 1][..i] == names[..i];
      var inputId := prefix + names[i];
      if inputId in widgets {
        var value := Strip(widgets[inputId]);
        if value != "" {
          values := values[names[i] := value];
        }
      }
      assert values == Provided(prefix, names[..i + 1], widgets);
    }
    assert names[..|names|] == names;
  }

  /** Python's `not values.get(name)`: no value, or an empty one. */
  predicate Blank(values: map<string, string>, name: string) {
    name !in values || values[name] == ""
  }

  /** `a` is `b` with some of its elements dropped and the rest kept in order. */
  predicate Subsequence<T(==)>(a: seq<T>, b: seq<T>) {
    || a == []
    || (&& b != []
        && (|| (a != [] && a[|a| - 1] == b[|b| - 1] && Subsequence(a[..|a| - 1], b[..|b| - 1]))
            || Subsequence(a, b[..|b| - 1])))
  }

  /** Appending the same element to both sides keeps a subsequence. */
  lemma SubsequenceKeep<T>(a: seq<T>, b: seq<T>, x: T)
    requires Subsequence(a, b)
    ensures Subsequence(a + [x], b + [x])
  {
  }


  /** Appending an element to the longer side only keeps a subsequence. */
  lemma SubsequenceDrop<T>(a: seq<T>, b: seq<T>, x: T)
    requires Subsequence(a, b)
    ensures Subsequence(a, b + [x])
  {
  }


  /** The names of the required variables with no value, in declaration order. */
  function MissingRequired(vars: seq<EnvVarConfig>, values: map<string, string>): seq<string> {
    if vars == [] then []
    else
      var n := |vars| - 1;
      MissingRequired(vars[..n], values) + (if vars[n].required && Blank(values, vars[n].name) then [vars[n].name] else [])
  }

  /** `_validate_required`, given the collected values. */
  method ValidateRequired(vars: seq<EnvVarConfig>, values: map<string, string>) returns (missing: seq<string>)
    ensures missing == MissingRequired(vars, values)
  {
    missing := [];
    for i := 0 to |vars|
      invariant missing == MissingRequired(vars[..i], values)
    {
      assert vars[..i + 1][..i] == vars[..i];
      if vars[i].required && Blank(values, vars[i].name) {
        missing := missing + [vars[i].name];
      }
    }
    assert vars[..|vars|] == vars;
  }

  /** A name is reported missing exactly when some required variable has it and has no value. */
  lemma {:induction false} MissingRequiredSpec(vars: seq<EnvVarConfig>, values: map<string, string>)
    ensures |MissingRequired(vars, values)| <= |vars|
    ensures forall x :: x in MissingRequired(vars, values) <==>
      exists i :: 0 <= i < |vars| && vars[i].required && vars[i].name == x && Blank(values, x)
  {
    if vars != [] {
      var n := |vars| - 1;
      MissingRequiredSpec(vars[..n], values);
      forall i | 0 <= i < n ensures vars[..n][i] == vars[i] { }
    }
  }

  /** The missing names keep the declaration order of the variables. */
  lemma {:induction false} MissingRequiredInOrder(vars: seq<EnvVarConfig>, values: map<string, string>)
    ensures Subsequence(MissingRequired(vars, values), Names(vars))
  {
    if vars != [] {
      var n := |vars| - 1;
      MissingRequiredInOrder(vars[..n], values);
      assert Names(vars) == Names(vars[..n]) + [vars[n].name];
      if vars[n].required && Blank(values, vars[n].name) {
        assert MissingRequired(vars, values) == MissingRequired(vars[..n], values) + [vars[n].name];
        SubsequenceKeep(MissingRequired(vars[..n], values), Names(vars[..n]), vars[n].name);
      } else {
        assert MissingRequired(vars, values) == MissingRequired(vars[..n], values);
        SubsequenceDrop(MissingRequired(vars[..n], values), Names(vars[..n]), vars[n].name);
      }
    }
  }

  /** With nothing missing, every required variable has a non-empty value. */
  lemma NothingMissing(vars: seq<EnvVarConfig>, values: map<string, string>)
    requires MissingRequired(vars, values) == []
    ensures forall i :: 0 <= i < |vars| && vars[i].required ==> vars[i].name in values && values[vars[i].name] != ""
  {
    MissingRequiredSpec(vars, values);
    forall i | 0 <= i < |vars| && vars[i].required ensures !Blank(values, vars[i].name) {
      assert vars[i].name !in MissingRequired(vars, values);
    }
  }

  /** The merge of `action_save`, one declared name at a time: set it if it has a value, else delete it. */
  function MergeDeclared(current: map<string, string>, names: seq<string>, values: map<string, string>): map<string, string> {
    if names == [] then current
    else
      var n := |names| - 1;
      var merged := MergeDeclared(current, names[..n], values);
      if names[n] in values then merged[names[n] := values[names[n]]]
      else if names[n] in merged then merged - {names[n]}
      else merged
  }

  /**
   * The merge keeps every undeclared key as it was, sets each declared name
   * that has a value, and deletes each declared name that has none.
   */
  lemma {:induction false} MergeDeclaredSpec(current: map<string, string>, names: seq<string>, values: map<string, string>)
    ensures forall k :: k !in names ==>
      (k in MergeDeclared(current, names, values) <==> k in current)
      && (k in current ==> MergeDeclared(current, names, values)[k] == current[k])
    ensures forall k :: k in names && k in values ==>
      k in MergeDeclared(current, names, values) && MergeDeclared(current, names, values)[k] == values[k]
    ensures forall k :: k in names && k !in values ==> k !in MergeDeclared(current, names, values)
  {
    if names != [] {
      var n := |names| - 1;
      MergeDeclaredSpec(current, names[..n], values);
      assert forall k :: k in names <==> k in names[..n] || k == names[n];
    }
  }

  /** What saving the editor does: refuse, naming the missing variables, or write the merged map. */
  datatype SaveOutcome = Rejected(missing: seq<string>) | Saved(env: map<string, string>, text: string)

  /** `action_save` of the configuration editor. */
  method ActionSave(config: ServiceConfig, currentEnv: map<string, string>, widgets: map<string, string>)
    returns (r: SaveOutcome)
    ensures var values := Provided("env-", Names(config.envVars), widgets);
      var missing := MissingRequired(config.envVars, values);
      && (missing != [] ==> r == Rejected(missing))
      && (missing == [] ==> r == Saved(MergeDeclared(currentEnv, Names(config.envVars), values),
                                       Serialize(MergeDeclared(currentEnv, Names(config.envVars), values))))
    ensures r.Saved? ==> forall i :: 0 <= i < |config.envVars| && config.envVars[i].required ==>
      config.envVars[i].name in r.env && r.env[config.envVars[i].name] != ""
  {
    var names := Names(config.envVars);
    var values := CollectValues("env-", names, widgets);
    var missing := ValidateRequired(config.envVars, values);
    if missing != [] {
      return Rejected(missing);
    }
    var merged := currentEnv;
    for i := 0 to |names|
      invariant merged == MergeDeclared(currentEnv, names[..i], values)
    {
      assert names[..i + 1][..i] == names[..i];
      if names[i] in values {
        merged := merged[names[i] := values[names[i]]];
      } else if names[i] in merged {
        merged := merged - {names[i]};
      }
    }
    assert names[..|names|] == names;
    var text := SaveEnvFile(merged);
    r := Saved(merged, text);
    NothingMissing(config.envVars, values);
    MergeDeclaredSpec(currentEnv, names, values);
    forall i | 0 <= i < |config.envVars| && config.envVars[i].required
      ensures config.envVars[i].name in merged && merged[config.envVars[i].name] != ""
    {
      assert config.envVars[i].name == names[i];
    }
  }
}
