/** Reading and patching the .env file: readEnvFile, readEnvLines and Save of internal/config/config.go. */
module EnvFile {
  import opened Basics
  import opened Text

  type Env = map<string, string>

  // ---------------------------------------------------------------- one line

  /** A line that sets a key; blank lines, comments and lines without "=" set nothing. */
  datatype Setting = Setting(key: string, value: string)

  function Unquoted(value: string): string {
    Trim(Trim(value, Spaces), Quotes)
  }

  function ParseLine(line: string): Option<Setting> {
    var trimmed := Trim(line, Spaces);
    if trimmed == "" || trimmed[0] == '#' then None
    else
      match Cut(trimmed, '=')
      case None => None
      case Some(p) => Some(Setting(Trim(p.before, Spaces), Unquoted(p.after)))
  }

  function LineOf(key: string, value: string): string {
    key + ['='] + value
  }

  // ---------------------------------------------------------------- whole files

  function Apply(env: Env, parsed: Option<Setting>): Env {
    match parsed
    case None => env
    case Some(s) => env[s.key := s.value]
  }

  /** The later of two lines for a key wins. */
  function ReadLines(lines: seq<string>): Env {
    if lines == [] then map[] else Apply(ReadLines(lines[..|lines| - 1]), ParseLine(lines[|lines| - 1]))
  }

  function PatchLine(line: string, patch: Env): string {
    match ParseLine(line)
    case None => line
    case Some(s) => if s.key in patch then LineOf(s.key, patch[s.key]) else line
  }

  /** Every line that sets a key of the patch is rewritten, the others stay as they are. */
  function PatchLines(lines: seq<string>, patch: Env): (r: seq<string>)
    ensures |r| == |lines|
  {
    if lines == [] then [] else PatchLines(lines[..|lines| - 1], patch) + [PatchLine(lines[|lines| - 1], patch)]
  }

  /** Comments, blank lines and lines for other keys stay where they are, as they are. */
  lemma {:induction false} OtherLinesKept(lines: seq<string>, patch: Env, i: nat)
    requires i < |lines|
    requires ParseLine(lines[i]).None? || ParseLine(lines[i]).value.key !in patch
    ensures PatchLines(lines, patch)[i] == lines[i]
  {
    if i < |lines| - 1 {
      OtherLinesKept(lines[..|lines| - 1], patch, i);
    }
  }

  /** Lines for these keys of the patch, in this order. */
  function NewLines(patch: Env, order: seq<string>): seq<string>
    requires forall k | k in order :: k in patch
  {
    if order == [] then []
    else NewLines(patch, order[..|order| - 1]) + [LineOf(order[|order| - 1], patch[order[|order| - 1]])]
  }

  /** The keys of the patch that no line sets, each once. */
  ghost predicate Missing(lines: seq<string>, patch: Env, order: seq<string>) {
    && (forall k :: k in order <==> k in patch && k !in ReadLines(lines))
    && (forall i, j | 0 <= i < j < |order| :: order[i] != order[j])
  }

  /** The file that Save writes, given the order in which it met the keys it had to add. */
  function Written(lines: seq<string>, patch: Env, order: seq<string>): string
    requires forall k | k in order :: k in patch
  {
    Join(PatchLines(lines, patch) + NewLines(patch, order)) + [NEWLINE]
  }

  /** A line for a key of the patch is rewritten as that key, an equals sign and the new value. */
  lemma {:induction false} PatchedLine(lines: seq<string>, patch: Env, i: nat)
    requires i < |lines| && ParseLine(lines[i]).Some? && ParseLine(lines[i]).value.key in patch
    ensures var k := ParseLine(lines[i]).value.key; PatchLines(lines, patch)[i] == k + "=" + patch[k]
  {
    if i < |lines| - 1 {
      PatchedLine(lines[..|lines| - 1], patch, i);
    }
  }

  /** So is each line that is added. */
  lemma {:induction false} AddedLine(patch: Env, order: seq<string>, i: nat)
    requires (forall k | k in order :: k in patch) && i < |order|
    ensures |NewLines(patch, order)| == |order| && NewLines(patch, order)[i] == order[i] + "=" + patch[order[i]]
  {
    assert order[|order| - 1] in order;
    if i < |order| - 1 {
      AddedLine(patch, order[..|order| - 1], i);
    } else if |order| > 1 {
      AddedLine(patch, order[..|order| - 1], 0);
    }
  }

  predicate Sets(line: string, key: string) {
    ParseLine(line).Some? && ParseLine(line).value.key == key
  }

  /** Of two lines for a key the later one wins. */
  lemma {:induction false} LaterLineWins(lines: seq<string>, i: nat)
    requires i < |lines| && ParseLine(lines[i]).Some?
    requires forall j | i < j < |lines| :: !Sets(lines[j], ParseLine(lines[i]).value.key)
    ensures var s := ParseLine(lines[i]).value; s.key in ReadLines(lines) && ReadLines(lines)[s.key] == s.value
  {
    if i < |lines| - 1 {
      var front := lines[..|lines| - 1];
      assert forall j | 0 <= j < |front| :: front[j] == lines[j];
      LaterLineWins(front, i);
      assert !Sets(lines[|lines| - 1], ParseLine(lines[i]).value.key);
    }
  }

  lemma {:induction false} LineSetsKey(lines: seq<string>, i: nat, key: string)
    requires i < |lines| && Sets(lines[i], key)
    ensures key in ReadLines(lines)
  {
    if i < |lines| - 1 {
      assert lines[..|lines| - 1][i] == lines[i];
      LineSetsKey(lines[..|lines| - 1], i, key);
    }
  }

  lemma {:induction false} KeyHasLine(lines: seq<string>, key: string) returns (i: nat)
    requires key in ReadLines(lines)
    ensures i < |lines| && Sets(lines[i], key)
  {
    i := |lines| - 1;
    if !Sets(lines[i], key) {
      i := KeyHasLine(lines[..|lines| - 1], key);
    }
  }

  /** Nothing but a line sets a key. */
  lemma LineForEveryKey(lines: seq<string>, key: string)
    ensures key in ReadLines(lines) <==> exists i | 0 <= i < |lines| :: Sets(lines[i], key)
  {
    if key in ReadLines(lines) {
      var i := KeyHasLine(lines, key);
    } else if i :| 0 <= i < |lines| && Sets(lines[i], key) {
      LineSetsKey(lines, i, key);
    }
  }

  // ---------------------------------------------------------------- what can be written and read back

  predicate CleanKey(key: string) {
    Trimmed(key, Spaces) && '=' !in key && NEWLINE !in key && (key != [] ==> key[0] != '#')
  }

  predicate CleanValue(value: string) {
    NEWLINE !in value && Trimmed(value, Spaces) && Trimmed(value, Quotes)
  }

  ghost predicate CleanPatch(patch: Env) {
    forall k | k in patch :: CleanKey(k) && CleanValue(patch[k])
  }

  /** What can be read at all: keys are clean, values have no line break. */
  ghost predicate Readable(env: Env) {
    forall k | k in env :: CleanKey(k) && NEWLINE !in env[k]
  }

  lemma UnquotedExact(value: string)
    ensures NEWLINE !in value ==> NEWLINE !in Unquoted(value)
    ensures Unquoted(value) == value <==> Trimmed(value, Spaces) && Trimmed(value, Quotes)
  {
    TrimExact(value, Spaces);
    TrimExact(Trim(value, Spaces), Quotes);
    TrimExact(value, Quotes);
  }

  lemma ParsedIsReadable(line: string)
    requires OneLine(line)
    ensures var p := ParseLine(line); p.Some? ==> CleanKey(p.value.key) && NEWLINE !in p.value.value
  {
    TrimExact(line, Spaces);
    var trimmed := Trim(line, Spaces);
    CutExact(trimmed, '=');
    var p := ParseLine(line);
    if p.Some? {
      var parts := Cut(trimmed, '=').value;
      ReadableParts(trimmed, parts.before, parts.after);
    }
  }

  lemma ReadableParts(trimmed: string, before: string, after: string)
    requires OneLine(trimmed) && trimmed != "" && trimmed[0] != '#' && Trimmed(trimmed, Spaces)
    requires trimmed == before + ['='] + after && '=' !in before
    ensures CleanKey(Trim(before, Spaces)) && NEWLINE !in Unquoted(after)
  {
    TrimExact(before, Spaces);
    forall c | c in before || c in after
      ensures c in trimmed
    {
    }
    UnquotedExact(after);
    if before != [] {
      assert before[0] == trimmed[0];
      TrimRightShrinks(before, Spaces);
    }
  }

  lemma {:induction false} ReadLinesReadable(lines: seq<string>)
    requires forall ln | ln in lines :: OneLine(ln)
    ensures Readable(ReadLines(lines))
  {
    if lines != [] {
      ReadLinesReadable(lines[..|lines| - 1]);
      ParsedIsReadable(lines[|lines| - 1]);
    }
  }

  // ---------------------------------------------------------------- a written line, read

  /** A line written for a clean key reads as that key, and as the value without surrounding white space and
      quotes. */
  lemma ParseLineOf(key: string, value: string)
    requires CleanKey(key)
    ensures ParseLine(LineOf(key, value)) == Some(Setting(key, Unquoted(value)))
  {
    var trimmed := key + ['='] + TrimRight(value, Spaces);
    TrimLineOf(key, value);
    CutFirst(key, '=', TrimRight(value, Spaces));
    TrimExact(key, Spaces);
    TrimOfTrimRight(value, Spaces);
    assert trimmed[0] == if key == [] then '=' else key[0];
  }

  lemma TrimLineOf(key: string, value: string)
    requires CleanKey(key)
    ensures Trim(LineOf(key, value), Spaces) == key + ['='] + TrimRight(value, Spaces)
  {
    var line := LineOf(key, value);
    assert line[0] == if key == [] then '=' else key[0];
    assert TrimLeft(line, Spaces) == line;
    var head := key + ['='];
    TrimRightTail(head, value, Spaces);
    assert line == head + value;
  }

  ghost predicate Blank(s: string) {
    forall c | c in s :: IsSpace(c)
  }

  ghost predicate Quoting(s: string) {
    forall c | c in s :: c == '"' || c == '\''
  }

  lemma PaddedValueReads(p: string, q1: string, value: string, q2: string)
    requires Trimmed(value, Quotes) && Trimmed(q1 + value + q2, Spaces) && Blank(p) && Quoting(q1) && Quoting(q2)
    ensures Unquoted(p + (q1 + value + q2)) == value
  {
    var quoted := q1 + value + q2;
    assert p + quoted + [] == p + quoted;
    TrimBetween(p, quoted, [], Spaces);
    TrimBetween(q1, value, q2, Quotes);
  }

  lemma PaddedKeyReads(p1: string, key: string, p2: string, tail: string, p3: string)
    requires CleanKey(key) && key != "" && Blank(p1) && Blank(p2) && Blank(p3)
    requires tail == "" || !IsSpace(tail[|tail| - 1])
    ensures ParseLine(p1 + (key + p2 + ['='] + tail) + p3) == Some(Setting(key, Unquoted(tail)))
  {
    var core := key + p2 + ['='] + tail;
    assert core[0] == key[0] && (tail != "" ==> core[|core| - 1] == tail[|tail| - 1]);
    TrimBetween(p1, core, p3, Spaces);
    CutFirst(key + p2, '=', tail);
    assert [] + key + p2 == key + p2;
    TrimBetween([], key, p2, Spaces);
  }

  /** A line with white space around key and value, and quotes around the value, sets that key to that value. */
  lemma PaddedLineReads(p1: string, key: string, p2: string, p3: string, q1: string, value: string, q2: string,
                        p4: string)
    requires CleanKey(key) && key != "" && Trimmed(value, Quotes) && Trimmed(q1 + value + q2, Spaces)
    requires Blank(p1) && Blank(p2) && Blank(p3) && Blank(p4) && Quoting(q1) && Quoting(q2)
    ensures ParseLine(p1 + (key + p2 + ['='] + (p3 + (q1 + value + q2))) + p4) == Some(Setting(key, value))
  {
    var quoted := q1 + value + q2;
    var line := p1 + (key + p2 + ['='] + (p3 + quoted)) + p4;
    if quoted == "" {
      assert line == p1 + (key + p2 + ['='] + "") + (p3 + p4);
      PaddedKeyReads(p1, key, p2, "", p3 + p4);
      PaddedValueReads("", "", "", "");
    } else {
      PaddedKeyReads(p1, key, p2, p3 + quoted, p4);
      PaddedValueReads(p3, q1, value, q2);
    }
  }

  /** A blank line, one that starts with "#" after any white space, and one without "=" set nothing. */
  lemma LinesThatSetNothing(p1: string, rest: string)
    requires Blank(p1)
    ensures ParseLine(p1) == None
    ensures Trimmed(rest, Spaces) && rest != "" && (rest[0] == '#' || '=' !in rest) ==> ParseLine(p1 + rest) == None
  {
    AllCut(p1, Spaces);
    if Trimmed(rest, Spaces) && rest != "" && (rest[0] == '#' || '=' !in rest) {
      assert p1 + rest + [] == p1 + rest;
      TrimBetween(p1, rest, [], Spaces);
      CutExact(rest, '=');
    }
  }

  // ---------------------------------------------------------------- a written file, read

  ghost predicate CleanKeys(patch: Env) {
    forall k | k in patch :: CleanKey(k)
  }

  function UnquotedAll(patch: Env): Env {
    map k | k in patch :: Unquoted(patch[k])
  }

  /** `env` with the values of `patch` where both have a key. */
  function Overridden(env: Env, patch: Env): Env {
    map k | k in env :: if k in patch then patch[k] else env[k]
  }

  function OverriddenSetting(parsed: Option<Setting>, patch: Env): Option<Setting> {
    match parsed
    case None => None
    case Some(s) => Some(if s.key in patch then Setting(s.key, patch[s.key]) else s)
  }

  lemma ApplyOverridden(env: Env, parsed: Option<Setting>, patch: Env)
    ensures Apply(Overridden(env, patch), OverriddenSetting(parsed, patch)) == Overridden(Apply(env, parsed), patch)
  {
  }

  lemma ParsePatched(line: string, patch: Env)
    requires CleanKeys(patch)
    ensures ParseLine(PatchLine(line, patch)) == OverriddenSetting(ParseLine(line), UnquotedAll(patch))
  {
    var p := ParseLine(line);
    if p.Some? && p.value.key in patch {
      ParseLineOf(p.value.key, patch[p.value.key]);
    }
  }

  lemma {:induction false} PatchLinesOverride(lines: seq<string>, patch: Env)
    requires CleanKeys(patch)
    ensures ReadLines(PatchLines(lines, patch)) == Overridden(ReadLines(lines), UnquotedAll(patch))
  {
    if lines != [] {
      var front, last := lines[..|lines| - 1], lines[|lines| - 1];
      PatchLinesOverride(front, patch);
      ParsePatched(last, patch);
      ApplyOverridden(ReadLines(front), ParseLine(last), UnquotedAll(patch));
      var r := PatchLines(lines, patch);
      assert r[..|r| - 1] == PatchLines(front, patch);
    }
  }

  function Restricted(patch: Env, order: seq<string>): Env
    requires forall k | k in order :: k in patch
  {
    map k | k in order :: patch[k]
  }

  lemma RestrictedMore(env: Env, patch: Env, order: seq<string>, k: string)
    requires k in patch && forall x | x in order :: x in patch
    ensures env + Restricted(patch, order + [k]) == (env + Restricted(patch, order))[k := patch[k]]
  {
  }

  lemma OneMoreLine(lines: seq<string>, more: seq<string>, line: string)
    ensures ReadLines(lines + (more + [line])) == Apply(ReadLines(lines + more), ParseLine(line))
  {
    var all := lines + (more + [line]);
    assert all[..|all| - 1] == lines + more;
  }

  lemma NewLinesMore(patch: Env, order: seq<string>, k: string)
    requires k in patch && forall x | x in order :: x in patch
    ensures NewLines(patch, order + [k]) == NewLines(patch, order) + [LineOf(k, patch[k])]
  {
    assert (order + [k])[..|order|] == order;
  }

  lemma {:induction false} NewLinesAdd(lines: seq<string>, patch: Env, order: seq<string>)
    requires CleanKeys(patch) && forall k | k in order :: k in patch
    ensures ReadLines(lines + NewLines(patch, order)) == ReadLines(lines) + Restricted(UnquotedAll(patch), order)
  {
    if order == [] {
      assert lines + [] == lines;
    } else {
      var front, k := order[..|order| - 1], order[|order| - 1];
      assert order == front + [k];
      NewLinesAdd(lines, patch, front);
      NewLinesMore(patch, front, k);
      OneMoreLine(lines, NewLines(patch, front), LineOf(k, patch[k]));
      ParseLineOf(k, patch[k]);
      RestrictedMore(ReadLines(lines), UnquotedAll(patch), front, k);
    }
  }

  lemma OverriddenOrAdded(env: Env, patch: Env, order: seq<string>)
    requires forall k :: k in order <==> k in patch && k !in env
    ensures Overridden(env, patch) + Restricted(patch, order) == env + patch
  {
  }

  lemma WrittenLinesRead(lines: seq<string>, patch: Env, order: seq<string>)
    requires CleanKeys(patch) && Missing(lines, patch, order)
    ensures ReadLines(PatchLines(lines, patch) + NewLines(patch, order)) == ReadLines(lines) + UnquotedAll(patch)
  {
    PatchLinesOverride(lines, patch);
    NewLinesAdd(PatchLines(lines, patch), patch, order);
    OverriddenOrAdded(ReadLines(lines), UnquotedAll(patch), order);
  }

  ghost predicate OneLines(lines: seq<string>) {
    forall i | 0 <= i < |lines| :: OneLine(lines[i])
  }

  lemma {:induction false} PatchLinesOneLine(lines: seq<string>, patch: Env)
    requires OneLines(lines) && CleanKeys(patch) && forall k | k in patch :: OneLine(patch[k])
    ensures OneLines(PatchLines(lines, patch))
  {
    if lines != [] {
      PatchLinesOneLine(lines[..|lines| - 1], patch);
    }
  }

  lemma {:induction false} NewLinesOneLine(patch: Env, order: seq<string>)
    requires CleanKeys(patch) && forall k | k in patch :: OneLine(patch[k])
    requires forall k | k in order :: k in patch
    ensures OneLines(NewLines(patch, order))
  {
    if order != [] {
      assert order[|order| - 1] in order;
      NewLinesOneLine(patch, order[..|order| - 1]);
    }
  }

  lemma {:induction false} JoinBlank(lines: seq<string>)
    requires lines != []
    ensures Join(lines + [""]) == Join(lines) + [NEWLINE]
  {
    if |lines| > 1 {
      assert (lines + [""])[1..] == lines[1..] + [""];
      JoinBlank(lines[1..]);
    } else {
      assert lines + [""] == [lines[0], ""];
      assert [lines[0], ""][1..] == [""];
    }
  }

  lemma BlankLineSetsNothing(lines: seq<string>)
    ensures ReadLines(lines + [""]) == ReadLines(lines)
  {
    assert (lines + [""])[..|lines|] == lines;
  }

  /** A file of these lines reads as the lines do. */
  lemma FileReadsAsLines(lines: seq<string>)
    requires OneLines(lines)
    ensures ReadLines(Split(Join(lines) + [NEWLINE])) == ReadLines(lines)
  {
    if lines == [] {
      SplitJoin(["", ""]);
      assert ["", ""] == [""] + [""] && [""] == [] + [""];
      assert Join(["", ""]) == Join([""]) + [NEWLINE] by {
        JoinBlank([""]);
      }
      BlankLineSetsNothing([""]);
      BlankLineSetsNothing([]);
    } else {
      JoinBlank(lines);
      forall ln | ln in lines + [""]
        ensures OneLine(ln)
      {
      }
      SplitJoin(lines + [""]);
      BlankLineSetsNothing(lines);
    }
  }

  lemma ContentIsReadable(content: string)
    ensures Readable(ReadLines(Split(content)))
  {
    SplitIntoLines(content);
    ReadLinesReadable(Split(content));
  }

  /** The file ends with a line break, and split at line breaks it is the patched lines, the added ones and nothing. */
  lemma WrittenSplits(lines: seq<string>, patch: Env, order: seq<string>)
    requires OneLines(lines) && (forall k | k in order :: k in patch) && lines + order != []
    requires CleanKeys(patch) && forall k | k in patch :: OneLine(patch[k])
    ensures Split(Written(lines, patch, order)) == PatchLines(lines, patch) + NewLines(patch, order) + [""]
  {
    var all := PatchLines(lines, patch) + NewLines(patch, order);
    PatchLinesOneLine(lines, patch);
    NewLinesOneLine(patch, order);
    if order != [] {
      AddedLine(patch, order, 0);
    }
    assert all != [];
    JoinBlank(all);
    forall ln | ln in all + [""]
      ensures OneLine(ln)
    {
    }
    SplitJoin(all + [""]);
  }

  /** For every file, every patch and every order of adding keys: reading what Save wrote gives the old settings
      overridden by the patch exactly when the patch is clean. */
  lemma SaveReadsBack(lines: seq<string>, patch: Env, order: seq<string>)
    requires OneLines(lines) && Missing(lines, patch, order)
    ensures ReadLines(Split(Written(lines, patch, order))) == ReadLines(lines) + patch <==> CleanPatch(patch)
  {
    var read := ReadLines(Split(Written(lines, patch, order)));
    ContentIsReadable(Written(lines, patch, order));
    if read == ReadLines(lines) + patch {
      forall k | k in patch
        ensures CleanKey(k) && OneLine(patch[k])
      {
        assert k in read && read[k] == patch[k];
      }
    }
    if CleanKeys(patch) && forall k | k in patch :: OneLine(patch[k]) {
      WrittenReads(lines, patch, order);
      forall k | k in patch
        ensures Unquoted(patch[k]) == patch[k] <==> CleanValue(patch[k])
      {
        UnquotedExact(patch[k]);
      }
      SameOverride(ReadLines(lines), UnquotedAll(patch), patch);
    }
  }

  lemma SameOverride(env: Env, a: Env, b: Env)
    requires a.Keys == b.Keys
    ensures env + a == env + b <==> forall k | k in b :: a[k] == b[k]
  {
    if env + a == env + b {
      forall k | k in b
        ensures a[k] == b[k]
      {
        assert (env + a)[k] == (env + b)[k];
      }
    }
  }

  lemma WrittenReads(lines: seq<string>, patch: Env, order: seq<string>)
    requires OneLines(lines) && Missing(lines, patch, order)
    requires CleanKeys(patch) && forall k | k in patch :: OneLine(patch[k])
    ensures ReadLines(Split(Written(lines, patch, order))) == ReadLines(lines) + UnquotedAll(patch)
  {
    PatchLinesOneLine(lines, patch);
    NewLinesOneLine(patch, order);
    FileReadsAsLines(PatchLines(lines, patch) + NewLines(patch, order));
    WrittenLinesRead(lines, patch, order);
  }

  // ---------------------------------------------------------------- the source's form

  function LinesOf(file: Option<string>): seq<string> {
    if file.None? then [] else Split(file.value)
  }

  class Dir {
    var file: Option<string>          // .env, if it is there
    const template: seq<string>       // the commented lines of a new one

    constructor (file: Option<string>, template: seq<string>)
      ensures this.file == file && this.template == template
    {
      this.file, this.template := file, template;
    }

    /** readEnvLines: a missing file is created, with nothing but comments, and read as no lines at all. */
    method ReadEnvLines() returns (lines: seq<string>)
      modifies this
      ensures lines == LinesOf(old(file))
      ensures file == if old(file).Some? then old(file) else Some(Join(template) + [NEWLINE])
    {
      if file.None? {
        file := Some(Join(template) + [NEWLINE]);
        return [];
      }
      return Split(file.value);
    }

    method ReadEnvFile() returns (env: Env)
      modifies this
      ensures env == ReadLines(LinesOf(old(file)))
      ensures file == if old(file).Some? then old(file) else Some(Join(template) + [NEWLINE])
    {
      var lines := ReadEnvLines();
      env := map[];
      for i := 0 to |lines|
        invariant env == ReadLines(lines[..i])
      {
        assert lines[..i + 1][..i] == lines[..i];
        var trimmed := Trim(lines[i], Spaces);
        if trimmed == "" || trimmed[0] == '#' {
          continue;
        }
        var parts := Cut(trimmed, '=');
        if parts.None? {
          continue;
        }
        env := env[Trim(parts.value.before, Spaces) := Trim(Trim(parts.value.after, Spaces), Quotes)];
      }
      assert lines[..|lines|] == lines;
    }

    /** The lines of the new file that stand for old ones, and the keys of the patch met on the way. */
    method RewriteLines(lines: seq<string>, patch: Env) returns (out: seq<string>, seen: set<string>)
      ensures out == PatchLines(lines, patch)
      ensures forall k :: k in seen <==> k in patch && k in ReadLines(lines)
    {
      out, seen := [], {};
      for i := 0 to |lines|
        invariant out == PatchLines(lines[..i], patch)
        invariant forall k :: k in seen <==> k in patch && k in ReadLines(lines[..i])
      {
        assert lines[..i + 1][..i] == lines[..i];
        var trimmed := Trim(lines[i], Spaces);
        if trimmed == "" || trimmed[0] == '#' {
          out := out + [lines[i]];
          continue;
        }
        var parts := Cut(trimmed, '=');
        if parts.None? {
          out := out + [lines[i]];
          continue;
        }
        var key := Trim(parts.value.before, Spaces);
        if key in patch {
          seen := seen + {key};
          out := out + [LineOf(key, patch[key])];
        } else {
          out := out + [lines[i]];
        }
      }
      assert lines[..|lines|] == lines;
    }

    /** The lines for the keys not met, in any order. */
    method AddLines(patch: Env, missing: set<string>) returns (out: seq<string>, ghost order: seq<string>)
      requires missing <= patch.Keys
      ensures forall k :: k in order <==> k in missing
      ensures forall i, j | 0 <= i < j < |order| :: order[i] != order[j]
      ensures out == NewLines(patch, order)
    {
      out, order := [], [];
      var rest := missing;
      while rest != {}
        invariant rest <= missing && forall k :: k in order <==> k in missing && k !in rest
        invariant forall i, j | 0 <= i < j < |order| :: order[i] != order[j]
        invariant out == NewLines(patch, order)
        decreases |rest|
      {
        var k :| k in rest;
        NewLinesMore(patch, order, k);
        out := out + [LineOf(k, patch[k])];
        order := order + [k];
        rest := rest - {k};
      }
    }

    /** Save, up to reading the file back. */
    method Save(patch: Env) returns (env: Env, ghost order: seq<string>)
      modifies this
      ensures Missing(LinesOf(old(file)), patch, order)
      ensures file == Some(Written(LinesOf(old(file)), patch, order))
      ensures env == ReadLines(Split(file.value))
    {
      var lines := ReadEnvLines();
      var out, seen := RewriteLines(lines, patch);
      var added;
      added, order := AddLines(patch, patch.Keys - seen);
      out := out + added;
      file := Some(Join(out) + [NEWLINE]);
      env := ReadEnvFile();
    }
  }

  /** A file just created reads as empty, as the missing one did. */
  lemma {:induction false} TemplateSetsNothing(template: seq<string>)
    requires OneLines(template) && forall i | 0 <= i < |template| :: template[i] != "" && template[i][0] == '#'
    ensures ReadLines(Split(Join(template) + [NEWLINE])) == map[]
  {
    FileReadsAsLines(template);
    CommentsSetNothing(template);
  }

  lemma {:induction false} CommentsSetNothing(lines: seq<string>)
    requires forall i | 0 <= i < |lines| :: lines[i] != "" && lines[i][0] == '#'
    ensures ReadLines(lines) == map[]
  {
    if lines != [] {
      var last := lines[|lines| - 1];
      CommentsSetNothing(lines[..|lines| - 1]);
      assert TrimLeft(last, Spaces) == last;
      TrimRightTail([last[0]], last[1..], Spaces);
      assert [last[0]] + last[1..] == last;
    }
  }
}
