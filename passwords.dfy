/**
 * The password side of `KapybanFileManager` in backends/php/kapyban.php:
 * `nanoYAML`, a line-oriented parser for a two-level `key: value` file,
 * `loadPasswords`, which keeps the `passwords` section and the
 * `fallback_password` entry of the parse, and `validatePassword`, a lookup
 * with a fallback followed by a strict comparison.
 *
 * Reading the file (`file()` with FILE_IGNORE_NEW_LINES | FILE_SKIP_EMPTY_LINES)
 * is not modelled: the parser is given the lines. A PHP array is modelled as
 * a map, so the order of its keys is not kept; nothing here depends on it.
 */
module Passwords {
  import opened Wrappers

  /** What `$result[$key]` holds: a string, or (for a section) an array of strings. */
  datatype Value = Str(s: string) | Section(entries: map<string, string>)

  /** The two variables of the `foreach` loop: `$result` and `$current_key`. */
  datatype Parser = Parser(result: map<string, Value>, current: string)

  /** The characters PHP's `trim` strips by default. */
  const Whitespace: set<char> := {' ', '\t', '\n', '\r', '\0', '\U{B}'}

  /** The characters of `trim($value, ' "')`. */
  const QuoteSpace: set<char> := {' ', '"'}

  // ---------------------------------------------------------------------------
  // String helpers: `trim`, `strpos`

  function TrimLeft(s: string, cs: set<char>): string
    decreases |s|
  {
    if s != [] && s[0] in cs then TrimLeft(s[1..], cs) else s
  }

  function TrimRight(s: string, cs: set<char>): string
    decreases |s|
  {
    if s != [] && s[|s| - 1] in cs then TrimRight(s[..|s| - 1], cs) else s
  }

  /** `trim($s, $cs)`. */
  function Trim(s: string, cs: set<char>): string {
    TrimRight(TrimLeft(s, cs), cs)
  }

  /** Trimming on the left removes a leading run of characters of `cs`, and only that. */
  lemma {:induction false} TrimLeftSpec(s: string, cs: set<char>)
    ensures var r := TrimLeft(s, cs);
      && |r| <= |s| && r == s[|s| - |r|..]
      && (r == [] || r[0] !in cs)
      && forall i :: 0 <= i < |s| - |r| ==> s[i] in cs
    decreases |s|
  {
    if s != [] && s[0] in cs {
      TrimLeftSpec(s[1..], cs);
    }
  }

  /** Trimming on the right removes a trailing run of characters of `cs`, and only that. */
  lemma {:induction false} TrimRightSpec(s: string, cs: set<char>)
    ensures var r := TrimRight(s, cs);
      && |r| <= |s| && r == s[..|r|]
      && (r == [] || r[|r| - 1] !in cs)
      && forall i :: |r| <= i < |s| ==> s[i] in cs
    decreases |s|
  {
    if s != [] && s[|s| - 1] in cs {
      TrimRightSpec(s[..|s| - 1], cs);
    }
  }

  /**
   * `trim` keeps the middle of the string: the result is a slice whose ends
   * are not in the trim set, and everything cut off on either side is.
   */
  lemma TrimSpec(s: string, cs: set<char>)
    ensures var r, a := Trim(s, cs), |s| - |TrimLeft(s, cs)|;
      && (r == [] || (r[0] !in cs && r[|r| - 1] !in cs))
      && 0 <= a <= |s| - |r| && r == s[a..a + |r|]
      && (forall i :: 0 <= i < a ==> s[i] in cs)
      && (forall i :: a + |r| <= i < |s| ==> s[i] in cs)
  {
    var l := TrimLeft(s, cs);
    TrimLeftSpec(s, cs);
    TrimRightSpec(l, cs);
    var r := Trim(s, cs);
    var a := |s| - |l|;
    assert r == s[a..a + |r|];
    assert forall i :: a + |r| <= i < |s| ==> s[i] == l[i - a];
  }

  /** Leading characters of the trim set make no difference to `trim`. */
  lemma {:induction false} TrimLeftSkips(ws: string, s: string, cs: set<char>)
    requires forall i :: 0 <= i < |ws| ==> ws[i] in cs
    ensures TrimLeft(ws + s, cs) == TrimLeft(s, cs)
    decreases |ws|
  {
    if ws == [] {
      assert ws + s == s;
    } else {
      assert (ws + s)[0] == ws[0] && ws[0] in cs;
      assert (ws + s)[1..] == ws[1..] + s;
      assert forall i :: 0 <= i < |ws| - 1 ==> ws[1..][i] == ws[i + 1];
      TrimLeftSkips(ws[1..], s, cs);
    }
  }

  /** `strpos($line, ':')`: the position of the first colon, if any. */
  function FirstColon(line: string): (r: Option<nat>)
    ensures r.None? <==> ':' !in line
    ensures r.Some? ==> r.value < |line| && line[r.value] == ':' && ':' !in line[..r.value]
  {
    if line == [] then None
    else if line[0] == ':' then Some(0)
    else
      var t := FirstColon(line[1..]);
      assert line == [line[0]] + line[1..];
      if t.None? then None
      else
        assert line[..t.value + 1] == [line[0]] + line[1..][..t.value];
        Some(t.value + 1)
  }

  // ---------------------------------------------------------------------------
  // The parser

  /** A section is open only under a key whose entry is an array. */
  predicate Inv(p: Parser) {
    p.current == "" || (p.current in p.result && p.result[p.current].Section?)
  }

  /** One `key: value` pair, already trimmed, as the body of the loop stores it. */
  function Store(p: Parser, key: string, value: string): (r: Parser)
    requires Inv(p)
    ensures Inv(r)
  {
    if value == "" then Parser(p.result[key := Section(map[])], key)
    else if p.current == "" then Parser(p.result[key := Str(Trim(value, QuoteSpace))], "")
    else Parser(p.result[p.current := Section(p.result[p.current].entries[key := Trim(value, QuoteSpace)])], p.current)
  }

  /** `explode(':', $line, 2)` followed by `trim` on both halves. */
  function SplitLine(line: string): (string, string)
    requires ':' in line
  {
    var i := FirstColon(line).value;
    (Trim(line[..i], Whitespace), Trim(line[i + 1..], Whitespace))
  }

  /** One iteration of the loop: a line without a colon is skipped. */
  function Step(p: Parser, line: string): (r: Parser)
    requires Inv(p)
    ensures Inv(r)
  {
    if ':' in line then Store(p, SplitLine(line).0, SplitLine(line).1) else p
  }

  /** The state of the loop after all of `lines`. */
  function Parse(lines: seq<string>): (r: Parser)
    ensures Inv(r)
    decreases |lines|
  {
    if lines == [] then Parser(map[], "")
    else Step(Parse(lines[..|lines| - 1]), lines[|lines| - 1])
  }

  /** `nanoYAML` as the loop over the file's lines it is. */
  method NanoYaml(lines: seq<string>) returns (result: map<string, Value>)
    ensures result == Parse(lines).result
  {
    result := map[];
    var currentKey := "";
    for n := 0 to |lines|
      invariant Parse(lines[..n]) == Parser(result, currentKey)
    {
      var line := lines[n];
      assert lines[..n + 1][..n] == lines[..n];
      var colon := FirstColon(line);
      if colon.Some? {
        var key := Trim(line[..colon.value], Whitespace);
        var value := Trim(line[colon.value + 1..], Whitespace);
        if value == "" {
          currentKey := key;
          result := result[key := Section(map[])];
        } else if currentKey == "" {
          result := result[key := Str(Trim(value, QuoteSpace))];
        } else {
          result := result[currentKey := Section(result[currentKey].entries[key := Trim(value, QuoteSpace)])];
        }
      }
    }
    assert lines[..|lines|] == lines;
  }

  // ---------------------------------------------------------------------------
  // Reference definitions

  /** A line that opens a section: it has a colon and nothing but whitespace after the first one. */
  predicate Opens(line: string) {
    ':' in line && SplitLine(line).1 == ""
  }

  predicate NoOpening(lines: seq<string>) {
    forall k :: 0 <= k < |lines| ==> !Opens(lines[k])
  }

  /** The key of the last line that opens a section ("" when none does). */
  function LastOpened(lines: seq<string>): string
    decreases |lines|
  {
    if lines == [] then ""
    else if Opens(lines[|lines| - 1]) then SplitLine(lines[|lines| - 1]).0
    else LastOpened(lines[..|lines| - 1])
  }

  /** The `key: value` pairs of `lines`, values stripped of spaces and quotes; a later pair wins. */
  function Entries(lines: seq<string>): map<string, string>
    decreases |lines|
  {
    if lines == [] then map[]
    else
      var e := Entries(lines[..|lines| - 1]);
      var line := lines[|lines| - 1];
      if ':' in line && SplitLine(line).1 != "" then e[SplitLine(line).0 := Trim(SplitLine(line).1, QuoteSpace)] else e
  }

  function AsStrings(m: map<string, string>): map<string, Value> {
    map k | k in m :: Str(m[k])
  }

  // ---------------------------------------------------------------------------
  // Properties of the parser

  lemma ParseSnoc(a: seq<string>, line: string)
    ensures Parse(a + [line]) == Step(Parse(a), line)
  {
  }

  /** A line without a colon contributes nothing, wherever it stands. */
  lemma {:induction false} ParseIgnoresNoColon(a: seq<string>, line: string, b: seq<string>)
    requires ':' !in line
    ensures Parse(a + [line] + b) == Parse(a + b)
    decreases |b|
  {
    if b == [] {
      assert a + [line] + b == a + [line];
      assert a + b == a;
      ParseSnoc(a, line);
    } else {
      var b' := b[..|b| - 1];
      var x := b[|b| - 1];
      assert a + [line] + b == (a + [line] + b') + [x];
      assert a + b == (a + b') + [x];
      ParseIgnoresNoColon(a, line, b');
      ParseSnoc(a + [line] + b', x);
      ParseSnoc(a + b', x);
    }
  }

  /** A line is split at its first colon only: the value may contain colons of its own. */
  lemma StepSplitsAtFirstColon(p: Parser, k: string, v: string)
    requires Inv(p) && ':' !in k
    ensures Step(p, k + ":" + v) == Store(p, Trim(k, Whitespace), Trim(v, Whitespace))
  {
    var line := k + ":" + v;
    assert line[|k|] == ':';
    assert line[..|k|] == k;
    assert line[|k| + 1..] == v;
    assert forall j :: 0 <= j < |k| ==> line[j] == k[j];
    assert FirstColon(line).value == |k|;
  }

  /** Indentation has no effect: keys are trimmed, so nesting is not read from it. */
  lemma StepIgnoresIndentation(p: Parser, ws: string, line: string)
    requires Inv(p) && forall i :: 0 <= i < |ws| ==> ws[i] in Whitespace
    ensures Step(p, ws + line) == Step(p, line)
  {
    assert ':' !in ws;
    var full := ws + line;
    assert ':' in line <==> ':' in full by {
      if ':' in line {
        var j :| 0 <= j < |line| && line[j] == ':';
        assert full[|ws| + j] == ':';
      }
      if ':' in full {
        var j :| 0 <= j < |full| && full[j] == ':';
        assert j >= |ws|;
        assert line[j - |ws|] == ':';
      }
    }
    if ':' in line {
      var i := FirstColon(line).value;
      var f := FirstColon(full).value;
      assert full[|ws| + i] == ':';
      assert f == |ws| + i;
      assert full[..f] == ws + line[..i];
      assert full[f + 1..] == line[i + 1..];
      TrimLeftSkips(ws, line[..i], Whitespace);
    }
  }

  /** `$current_key` is the key of the last line that opened a section; it is never reset otherwise. */
  lemma {:induction false} CurrentIsLastOpened(lines: seq<string>)
    ensures Parse(lines).current == LastOpened(lines)
    decreases |lines|
  {
    if lines != [] {
      CurrentIsLastOpened(lines[..|lines| - 1]);
    }
  }

  /** Before any section is opened, every pair is stored at top level, quotes and spaces stripped. */
  lemma {:induction false} TopLevelBeforeSection(lines: seq<string>)
    requires NoOpening(lines)
    ensures Parse(lines) == Parser(AsStrings(Entries(lines)), "")
    decreases |lines|
  {
    if lines != [] {
      var init := lines[..|lines| - 1];
      var line := lines[|lines| - 1];
      assert NoOpening(init) by {
        forall k | 0 <= k < |init| ensures !Opens(init[k]) {
          assert init[k] == lines[k];
        }
      }
      assert !Opens(line);
      TopLevelBeforeSection(init);
      if ':' in line {
        var (key, value) := SplitLine(line);
        assert AsStrings(Entries(lines)) == AsStrings(Entries(init))[key := Str(Trim(value, QuoteSpace))];
      }
    }
  }

  /**
   * Once a section under a non-empty key is opened, every later pair up to the
   * next opening line goes into it: the section holds exactly those pairs
   * (stripped, a later one winning), and the rest of the result is as before
   * the opening line.
   */
  lemma {:induction false} SectionCollects(pre: seq<string>, opener: string, post: seq<string>)
    requires Opens(opener) && SplitLine(opener).0 != "" && NoOpening(post)
    ensures Parse(pre + [opener] + post) ==
      Parser(Parse(pre).result[SplitLine(opener).0 := Section(Entries(post))], SplitLine(opener).0)
    decreases |post|
  {
    var key := SplitLine(opener).0;
    if post == [] {
      assert pre + [opener] + post == pre + [opener];
      ParseSnoc(pre, opener);
    } else {
      var init := post[..|post| - 1];
      var line := post[|post| - 1];
      assert NoOpening(init) by {
        forall k | 0 <= k < |init| ensures !Opens(init[k]) {
          assert init[k] == post[k];
        }
      }
      assert !Opens(line);
      SectionCollects(pre, opener, init);
      assert pre + [opener] + post == (pre + [opener] + init) + [line];
      ParseSnoc(pre + [opener] + init, line);
    }
  }

  /** A colon line always leaves an entry in the result, and entries are never deleted. */
  lemma StepKeepsKeys(p: Parser, line: string)
    requires Inv(p)
    ensures p.result.Keys <= Step(p, line).result.Keys
    ensures ':' in line ==> Step(p, line).result != map[]
  {
    if ':' in line {
      var r := Step(p, line);
      var (key, value) := SplitLine(line);
      if value == "" || p.current == "" {
        assert key in r.result;
      } else {
        assert p.current in r.result;
      }
    }
  }

  /** The parse is empty exactly when no line contains a colon. */
  lemma {:induction false} ParseEmptyIff(lines: seq<string>)
    ensures Parse(lines).result == map[] <==> forall k :: 0 <= k < |lines| ==> ':' !in lines[k]
    decreases |lines|
  {
    if lines != [] {
      var init := lines[..|lines| - 1];
      var line := lines[|lines| - 1];
      ParseEmptyIff(init);
      StepKeepsKeys(Parse(init), line);
      assert forall k :: 0 <= k < |init| ==> init[k] == lines[k];
      if Parse(init).result != map[] {
        var x :| x in Parse(init).result;
        assert x in Parse(lines).result;
      }
    }
  }

  // ---------------------------------------------------------------------------
  // Loading and checking passwords

  /** `$expected_password = $this->passwords[$file_name] ?? $this->fallback_password`. */
  function Expected(passwords: Option<Value>, fallback: Option<Value>, fileName: string): Option<Value> {
    if passwords.Some? && passwords.value.Section? && fileName in passwords.value.entries
    then Some(Str(passwords.value.entries[fileName]))
    else fallback
  }

  class FileManager {
    /** `$this->passwords`; `None` is PHP's `null` before anything is loaded. */
    var passwords: Option<Value>
    /** `$this->fallback_password`. */
    var fallbackPassword: Option<Value>

    constructor()
      ensures passwords == None && fallbackPassword == None
    {
      passwords := None;
      fallbackPassword := None;
    }

    /**
     * `loadPasswords()` on the lines of the passwords file: it raises (and
     * assigns nothing) exactly when no line contains a colon; otherwise
     * `passwords` is the `passwords` entry or an empty array, and the
     * fallback the `fallback_password` entry or null.
     */
    method LoadPasswords(lines: seq<string>) returns (ok: bool)
      modifies this
      ensures ok <==> exists k :: 0 <= k < |lines| && ':' in lines[k]
      ensures var r := Parse(lines).result;
        ok ==>
          && passwords == Some(if "passwords" in r then r["passwords"] else Section(map[]))
          && fallbackPassword == (if "fallback_password" in r then Some(r["fallback_password"]) else None)
      ensures !ok ==> passwords == old(passwords) && fallbackPassword == old(fallbackPassword)
    {
      var yaml := NanoYaml(lines);
      ParseEmptyIff(lines);
      if yaml == map[] {
        return false;
      }
      passwords := Some(if "passwords" in yaml then yaml["passwords"] else Section(map[]));
      fallbackPassword := if "fallback_password" in yaml then Some(yaml["fallback_password"]) else None;
      return true;
    }

    /**
     * `validatePassword($file_name, $password)` succeeds (does not raise)
     * exactly when the password equals the file's own entry when there is
     * one, and the fallback password (a string, not null) otherwise.
     */
    function ValidatePassword(fileName: string, password: string): (ok: bool)
      reads this
      ensures ok <==>
        if passwords.Some? && passwords.value.Section? && fileName in passwords.value.entries
        then passwords.value.entries[fileName] == password
        else fallbackPassword == Some(Str(password))
    {
      Expected(passwords, fallbackPassword, fileName) == Some(Str(password))
    }
  }

  /** What a successful load followed by `validatePassword` accepts, in terms of the parse. */
  predicate Accepts(r: map<string, Value>, fileName: string, password: string) {
    var passwords := if "passwords" in r then r["passwords"] else Section(map[]);
    var fallback := if "fallback_password" in r then Some(r["fallback_password"]) else None;
    Expected(Some(passwords), fallback, fileName) == Some(Str(password))
  }

  /**
   * The constructor (which loads the passwords file and raises when it parses
   * to nothing) followed by the check of an upload's password: the request
   * gets through exactly when the file has a colon line and the parse accepts
   * the password for that file name.
   */
  method Authorize(lines: seq<string>, fileName: string, password: string) returns (ok: bool)
    ensures ok <==> (exists k :: 0 <= k < |lines| && ':' in lines[k]) && Accepts(Parse(lines).result, fileName, password)
  {
    var manager := new FileManager();
    var loaded := manager.LoadPasswords(lines);
    if !loaded {
      return false;
    }
    ok := manager.ValidatePassword(fileName, password);
  }

  /** `trim` leaves alone a string whose ends are not in the trim set. */
  lemma TrimKeeps(s: string, cs: set<char>)
    requires s == [] || (s[0] !in cs && s[|s| - 1] !in cs)
    ensures Trim(s, cs) == s
  {
  }

  /** `trim` drops one leading character of the set from a string that otherwise keeps. */
  lemma TrimDropsFirst(c: char, s: string, cs: set<char>)
    requires c in cs && s != [] && s[0] !in cs && s[|s| - 1] !in cs
    ensures Trim([c] + s, cs) == s
  {
    assert ([c] + s)[1..] == s;
    assert TrimLeft([c] + s, cs) == TrimLeft(s, cs) == s;
    assert TrimRight(s, cs) == s;
  }

  /** A double-quoted value loses its quotes under `trim($value, ' "')`. */
  lemma TrimQuotes(s: string)
    requires s != [] && s[0] !in QuoteSpace && s[|s| - 1] !in QuoteSpace
    ensures Trim("\"" + s + "\"", QuoteSpace) == s
  {
    var q := "\"" + s + "\"";
    assert q[1..] == s + "\"";
    assert TrimLeft(q, QuoteSpace) == TrimLeft(s + "\"", QuoteSpace) == s + "\"";
    assert (s + "\"")[..|s|] == s;
    assert TrimRight(s, QuoteSpace) == s;
  }

  lemma ParseThree(a: string, b: string, c: string)
    ensures Parse([a, b, c]) == Step(Step(Step(Parser(map[], ""), a), b), c)
  {
    assert [a, b, c] == [a, b] + [c];
    assert [a, b] == [a] + [b];
    assert [a] == [] + [a];
    ParseSnoc([a, b], c);
    ParseSnoc([a], b);
    ParseSnoc([], a);
  }

  /** Three lines read one after the other from the empty state. */
  lemma ParseThreeSteps(a: string, b: string, c: string, p1: Parser, p2: Parser, p3: Parser)
    requires Inv(p1) && Inv(p2)
    requires Step(Parser(map[], ""), a) == p1 && Step(p1, b) == p2 && Step(p2, c) == p3
    ensures Parse([a, b, c]) == p3
  {
    ParseThree(a, b, c);
  }

  /** A value or key with nothing `trim` would strip at either end. */
  predicate Plain(s: string) {
    s != [] && s[0] !in Whitespace + QuoteSpace && s[|s| - 1] !in Whitespace + QuoteSpace
  }

  /** The line `key: value` (after optional indentation) stores the pair `key`, `value`. */
  lemma PairLine(p: Parser, ws: string, key: string, value: string)
    requires Inv(p) && Plain(key) && ':' !in key
    requires value != [] && value[0] !in Whitespace && value[|value| - 1] !in Whitespace
    requires forall i :: 0 <= i < |ws| ==> ws[i] in Whitespace
    ensures Step(p, ws + key + ": " + value) == Store(p, key, value)
  {
    assert ws + key + ": " + value == (ws + key) + ":" + ([' '] + value);
    assert ':' !in ws + key by {
      assert forall i :: 0 <= i < |ws| ==> (ws + key)[i] == ws[i];
      assert forall i :: |ws| <= i < |ws + key| ==> (ws + key)[i] == key[i - |ws|];
    }
    StepSplitsAtFirstColon(p, ws + key, [' '] + value);
    TrimLeftSkips(ws, key, Whitespace);
    TrimKeeps(key, Whitespace);
    TrimDropsFirst(' ', value, Whitespace);
  }

  /** The line `key:` opens the section `key`. */
  lemma SectionLine(p: Parser, key: string)
    requires Inv(p) && Plain(key) && ':' !in key
    ensures Step(p, key + ":") == Parser(p.result[key := Section(map[])], key)
  {
  }

  /** The line `fallback_password: <value>`, at top level. */
  lemma FallbackLine(p: Parser, value: string)
    requires Inv(p) && p.current == "" && Plain(value)
    ensures Step(p, "fallback_password: " + value) == Parser(p.result["fallback_password" := Str(value)], "")
  {
    assert "fallback_password: " + value == "" + "fallback_password" + ": " + value;
    PairLine(p, "", "fallback_password", value);
    TrimKeeps(value, QuoteSpace);
  }

  /** The line `fallback_password: <value>` inside an open section. */
  lemma NestedFallbackLine(p: Parser, value: string)
    requires Inv(p) && p.current != "" && Plain(value)
    ensures Step(p, "fallback_password: " + value) ==
      Parser(p.result[p.current := Section(p.result[p.current].entries["fallback_password" := value])], p.current)
  {
    assert "fallback_password: " + value == "" + "fallback_password" + ": " + value;
    PairLine(p, "", "fallback_password", value);
    TrimKeeps(value, QuoteSpace);
  }

  /** The line `passwords:`. */
  lemma PasswordsLine(p: Parser)
    requires Inv(p)
    ensures Step(p, "passwords:") == Parser(p.result["passwords" := Section(map[])], "passwords")
  {
    assert "passwords:" == "passwords" + ":";
    SectionLine(p, "passwords");
  }

  /** An indented line `<file>: <secret>` inside an open section, the secret bare or double-quoted. */
  lemma EntryLine(p: Parser, file: string, secret: string, quoted: bool)
    requires Inv(p) && p.current != "" && Plain(file) && ':' !in file && Plain(secret)
    ensures var value := if quoted then "\"" + secret + "\"" else secret;
      Step(p, "  " + file + ": " + value) ==
        Parser(p.result[p.current := Section(p.result[p.current].entries[file := secret])], p.current)
  {
    var value := if quoted then "\"" + secret + "\"" else secret;
    PairLine(p, "  ", file, value);
    if quoted {
      TrimQuotes(secret);
    } else {
      TrimKeeps(secret, QuoteSpace);
    }
  }

  /** The parser state after each line of the file `FallbackFirstParse` reads. */
  function FallbackFirstState(n: nat, fallback: string, file: string, secret: string): Parser
  {
    if n == 0 then Parser(map[], "")
    else if n == 1 then Parser(map["fallback_password" := Str(fallback)], "")
    else if n == 2 then Parser(map["fallback_password" := Str(fallback)]["passwords" := Section(map[])], "passwords")
    else Parser(map["fallback_password" := Str(fallback)]["passwords" := Section(map[file := secret])], "passwords")
  }

  lemma FallbackFirstStep1(fallback: string, file: string, secret: string)
    requires Plain(fallback)
    ensures Step(FallbackFirstState(0, fallback, file, secret), "fallback_password: " + fallback) ==
      FallbackFirstState(1, fallback, file, secret)
  {
    FallbackLine(FallbackFirstState(0, fallback, file, secret), fallback);
  }

  lemma FallbackFirstStep2(fallback: string, file: string, secret: string)
    ensures Step(FallbackFirstState(1, fallback, file, secret), "passwords:") == FallbackFirstState(2, fallback, file, secret)
  {
    PasswordsLine(FallbackFirstState(1, fallback, file, secret));
  }

  lemma FallbackFirstStep3(fallback: string, file: string, secret: string)
    requires Plain(file) && Plain(secret) && ':' !in file
    ensures Step(FallbackFirstState(2, fallback, file, secret), "  " + file + ": " + "\"" + secret + "\"") ==
      FallbackFirstState(3, fallback, file, secret)
  {
    var p := FallbackFirstState(2, fallback, file, secret);
    EntryLine(p, file, secret, true);
    assert "  " + file + ": " + "\"" + secret + "\"" == "  " + file + ": " + ("\"" + secret + "\"");
    assert p.result[p.current].entries[file := secret] == map[file := secret];
    assert p.result[p.current := Section(map[file := secret])] == FallbackFirstState(3, fallback, file, secret).result;
  }

  /** A file that names the fallback first, then opens the section and lists one file with a quoted secret. */
  lemma FallbackFirstParse(fallback: string, file: string, secret: string)
    requires Plain(fallback) && Plain(file) && Plain(secret) && ':' !in file
    ensures Parse(["fallback_password: " + fallback, "passwords:", "  " + file + ": " + "\"" + secret + "\""]) ==
      FallbackFirstState(3, fallback, file, secret)
  {
    FallbackFirstStep1(fallback, file, secret);
    FallbackFirstStep2(fallback, file, secret);
    FallbackFirstStep3(fallback, file, secret);
    ParseThreeSteps("fallback_password: " + fallback, "passwords:", "  " + file + ": " + "\"" + secret + "\"",
      FallbackFirstState(1, fallback, file, secret), FallbackFirstState(2, fallback, file, secret),
      FallbackFirstState(3, fallback, file, secret));
  }

  /** With such a file, a listed file needs its own password and any other file the fallback. */
  lemma FallbackFirstScenario(fallback: string, file: string, secret: string, other: string)
    requires other != file
    ensures var r := FallbackFirstState(3, fallback, file, secret).result;
      && Accepts(r, file, secret)
      && (secret != fallback ==> !Accepts(r, file, fallback))
      && Accepts(r, other, fallback)
  {
  }

  /** The file the next two lemmas read, as the parser state after each of its three lines. */
  function AfterSectionState(n: nat, fallback: string, file: string, secret: string): Parser
  {
    if n == 0 then Parser(map[], "")
    else if n == 1 then Parser(map["passwords" := Section(map[])], "passwords")
    else if n == 2 then Parser(map["passwords" := Section(map[file := secret])], "passwords")
    else Parser(map["passwords" := Section(map[file := secret]["fallback_password" := fallback])], "passwords")
  }

  lemma AfterSectionStep1(fallback: string, file: string, secret: string)
    ensures Step(AfterSectionState(0, fallback, file, secret), "passwords:") == AfterSectionState(1, fallback, file, secret)
  {
    PasswordsLine(AfterSectionState(0, fallback, file, secret));
  }

  lemma AfterSectionStep2(fallback: string, file: string, secret: string)
    requires Plain(file) && Plain(secret) && ':' !in file
    ensures Step(AfterSectionState(1, fallback, file, secret), "  " + file + ": " + secret) == AfterSectionState(2, fallback, file, secret)
  {
    EntryLine(AfterSectionState(1, fallback, file, secret), file, secret, false);
  }

  lemma AfterSectionStep3(fallback: string, file: string, secret: string)
    requires Plain(fallback)
    ensures Step(AfterSectionState(2, fallback, file, secret), "fallback_password: " + fallback) == AfterSectionState(3, fallback, file, secret)
  {
    NestedFallbackLine(AfterSectionState(2, fallback, file, secret), fallback);
  }

  /**
   * A `fallback_password` line after the section is read as one more entry of
   * the section: indentation is ignored.
   */
  lemma FallbackAfterSectionParse(fallback: string, file: string, secret: string)
    requires Plain(fallback) && Plain(file) && Plain(secret) && ':' !in file
    ensures Parse(["passwords:", "  " + file + ": " + secret, "fallback_password: " + fallback]).result ==
      map["passwords" := Section(map[file := secret]["fallback_password" := fallback])]
  {
    AfterSectionStep1(fallback, file, secret);
    AfterSectionStep2(fallback, file, secret);
    AfterSectionStep3(fallback, file, secret);
    ParseThreeSteps("passwords:", "  " + file + ": " + secret, "fallback_password: " + fallback,
      AfterSectionState(1, fallback, file, secret), AfterSectionState(2, fallback, file, secret),
      AfterSectionState(3, fallback, file, secret));
  }

  /** With such a file there is no fallback, so a file without its own entry is refused whatever the password. */
  lemma FallbackAfterSectionScenario(fallback: string, file: string, secret: string, other: string, password: string)
    requires other != file && other != "fallback_password"
    ensures !Accepts(map["passwords" := Section(map[file := secret]["fallback_password" := fallback])], other, password)
  {
  }
}
