/**
  The runner's systemd unit: the printer that writes it and the parser that checks it against an
  account.
 */
module SystemdUnit {
  import opened Common

  datatype Error = InvalidAccount | IncompatibleContract

  datatype Account = Account(username: string, group: string, homeDirectory: string, workingDirectory: string)

  // ---- Accounts ----

  predicate IsLower(c: char) { 'a' <= c <= 'z' }
  predicate IsDigit(c: char) { '0' <= c <= '9' }
  predicate IsLetter(c: char) { IsLower(c) || 'A' <= c <= 'Z' }

  predicate IsAccountName(s: string) {
    && 1 <= |s| <= 32 && (IsLower(s[0]) || s[0] == '_')
    && forall c | c in s :: IsLower(c) || IsDigit(c) || c == '_' || c == '-'
  }

  predicate IsPathChar(c: char) { IsLetter(c) || IsDigit(c) || c == '.' || c == '_' || c == '-' }

  /** A slash, then names separated by single slashes, perhaps with one at the end. */
  predicate IsSafePath(p: string) {
    && |p| >= 2 && p[0] == '/' && p[1] != '/'
    && (forall c | c in p :: IsPathChar(c) || c == '/')
    && forall k | 0 <= k < |p| - 1 :: !(p[k] == '/' && p[k + 1] == '/')
  }

  predicate IsSafeAccount(a: Account) {
    IsAccountName(a.username) && IsAccountName(a.group) && IsSafePath(a.homeDirectory) && IsSafePath(a.workingDirectory)
  }

  // ---- Text ----

  predicate IsSpace(c: char) {
    || c == ' ' || '\t' <= c <= '\r' || c == '\U{00A0}' || c == '\U{1680}' || '\U{2000}' <= c <= '\U{200A}'
    || c == '\U{2028}' || c == '\U{2029}' || c == '\U{202F}' || c == '\U{205F}' || c == '\U{3000}' || c == '\U{FEFF}'
  }

  function TrimStart(s: string): string { if s != "" && IsSpace(s[0]) then TrimStart(s[1..]) else s }

  function TrimEnd(s: string): string { if s != "" && IsSpace(s[|s| - 1]) then TrimEnd(s[..|s| - 1]) else s }

  function Trim(s: string): string { TrimEnd(TrimStart(s)) }

  /** The lines between line feeds. */
  function Split(s: string): (lines: seq<string>)
    ensures lines != []
  {
    if s == "" then [""]
    else
      var rest := Split(s[1..]);
      if s[0] == '\n' then [""] + rest else [[s[0]] + rest[0]] + rest[1..]
  }

  function JoinLines(lines: seq<string>): string
    requires lines != []
  {
    if |lines| == 1 then lines[0] else lines[0] + "\n" + JoinLines(lines[1..])
  }

  /** Splitting takes joined lines apart again. */
  lemma {:induction false} SplitJoined(lines: seq<string>)
    requires lines != [] && forall l | l in lines :: '\n' !in l
    ensures Split(JoinLines(lines)) == lines
  {
    assert lines[0] in lines;
    if |lines| == 1 {
      SplitOneLine(lines[0]);
    } else {
      SplitJoined(lines[1..]);
      SplitFirstLine(lines[0], JoinLines(lines[1..]));
    }
  }

  lemma {:induction false} SplitOneLine(line: string)
    requires '\n' !in line
    ensures Split(line) == [line]
  {
    if line != "" {
      SplitOneLine(line[1..]);
      assert [line[0]] + line[1..] == line;
    }
  }

  lemma {:induction false} SplitFirstLine(line: string, rest: string)
    requires '\n' !in line
    ensures Split(line + "\n" + rest) == [line] + Split(rest)
  {
    var s := line + "\n" + rest;
    if line == "" {
      assert s[1..] == rest;
    } else {
      SplitFirstLine(line[1..], rest);
      assert s[1..] == line[1..] + "\n" + rest;
      assert [line[0]] + line[1..] == line;
    }
  }

  /** The first position of a character, or the length. */
  function IndexOf(s: string, c: char): (i: nat)
    ensures i <= |s| && c !in s[..i] && (i < |s| ==> s[i] == c)
  {
    if s == "" || s[0] == c then 0
    else
      var i := 1 + IndexOf(s[1..], c);
      assert s[..i] == [s[0]] + s[1..][..i - 1];
      i
  }

  lemma IndexOfIs(a: string, c: char, b: string)
    requires c !in a
    ensures IndexOf(a + [c] + b, c) == |a|
  {
    var s := a + [c] + b;
    var i := IndexOf(s, c);
    assert forall k | 0 <= k < |a| :: s[k] == a[k] && a[k] in a;
    assert s[|a|] == c && forall k | 0 <= k < i :: s[k] in s[..i];
  }

  // ---- Words ----

  predicate IsBlank(c: char) { c == ' ' || c == '\t' }

  predicate IsQuote(c: char) { c == '"' || c == '\'' }

  function SkipBlanks(v: string, i: nat): (j: nat)
    requires i <= |v|
    ensures i <= j <= |v| && (j < |v| ==> !IsBlank(v[j])) && forall k | i <= k < j :: IsBlank(v[k])
    decreases |v| - i
  {
    if i < |v| && IsBlank(v[i]) then SkipBlanks(v, i + 1) else i
  }

  /** Whether a word that `quote` opened, if any, goes on at this character. */
  predicate GoesOn(c: char, quote: Option<char>) { if quote.Some? then c != quote.value else !IsBlank(c) }

  predicate IsForbidden(c: char, quote: Option<char>) { c == '\\' || (quote.None? && IsQuote(c)) }

  /** The end of a word, or nothing if it holds a character that words may not. */
  function WordEnd(v: string, i: nat, quote: Option<char>): (r: Option<nat>)
    requires i <= |v|
    ensures r.Some? ==> i <= r.value <= |v| && (r.value < |v| ==> !GoesOn(v[r.value], quote))
    ensures r.Some? ==> forall k | i <= k < r.value :: GoesOn(v[k], quote) && !IsForbidden(v[k], quote)
    decreases |v| - i
  {
    if i == |v| || !GoesOn(v[i], quote) then Some(i)
    else if IsForbidden(v[i], quote) then None
    else WordEnd(v, i + 1, quote)
  }

  /** The word that starts at `at`, and where the value goes on after it. */
  function WordAt(v: string, at: nat): (r: Result<(string, nat), Error>)
    requires at < |v| && !IsBlank(v[at])
    ensures r.Ok? ==> at < r.value.1 <= |v|
  {
    var quote := if IsQuote(v[at]) then Some(v[at]) else None;
    var start := if quote.Some? then at + 1 else at;
    var end := WordEnd(v, start, quote);
    if end.None? || (quote.Some? && end.value == |v|) then Err(IncompatibleContract)
    else
      var next := if quote.Some? then end.value + 1 else end.value;
      if quote.Some? && next < |v| && !IsBlank(v[next]) then Err(IncompatibleContract)
      else Ok((v[start..end.value], next))
  }

  /** The words of a value from `i` on. */
  function Words(v: string, i: nat): Result<seq<string>, Error>
    requires i <= |v|
    decreases |v| - i
  {
    var at := SkipBlanks(v, i);
    if at == |v| then Ok([])
    else
      var word :- WordAt(v, at);
      var rest :- Words(v, word.1);
      Ok([word.0] + rest)
  }

  /** Reads one word. */
  method ReadWord(v: string, at: nat) returns (r: Result<(string, nat), Error>)
    requires at < |v| && !IsBlank(v[at])
    ensures r == WordAt(v, at)
  {
    var index := at;
    var quote := if IsQuote(v[index]) then Some(v[index]) else None;
    if quote.Some? { index := index + 1; }
    var start := index;
    while index < |v| && GoesOn(v[index], quote)
      invariant start <= index <= |v| && WordEnd(v, index, quote) == WordEnd(v, start, quote)
    {
      if IsForbidden(v[index], quote) { return Err(IncompatibleContract); }
      index := index + 1;
    }
    if quote.Some? && index == |v| { return Err(IncompatibleContract); }
    var word := v[start..index];
    if quote.Some? {
      index := index + 1;
      if index < |v| && !IsBlank(v[index]) { return Err(IncompatibleContract); }
    }
    return Ok((word, index));
  }

  /** The words found so far and those still to come make up the value's words. */
  ghost predicate SoFar(v: string, words: seq<string>, index: nat)
    requires index <= |v|
  {
    Words(v, 0) == match Words(v, index) case Ok(rest) => Ok(words + rest) case Err(e) => Err(e)
  }

  lemma OneMoreWord(v: string, words: seq<string>, index: nat, word: string, next: nat)
    requires index <= |v| && SoFar(v, words, index)
    requires SkipBlanks(v, index) < |v| && WordAt(v, SkipBlanks(v, index)) == Ok((word, next))
    ensures SoFar(v, words + [word], next)
  {
    if Words(v, next).Ok? { assert words + [word] + Words(v, next).value == words + ([word] + Words(v, next).value); }
  }

  lemma NoWordYet(v: string)
    ensures SoFar(v, [], 0)
  {
    if Words(v, 0).Ok? { assert [] + Words(v, 0).value == Words(v, 0).value; }
  }

  lemma NoMoreWords(v: string, words: seq<string>, index: nat)
    requires index <= |v| && SoFar(v, words, index) && SkipBlanks(v, index) == |v|
    ensures Words(v, 0) == Ok(words)
  {
    assert words + [] == words;
  }

  /** Splits a value into words. */
  method ParseUnitWords(v: string) returns (r: Result<seq<string>, Error>)
    ensures r == Words(v, 0)
  {
    hide Words, SoFar, WordAt;
    var words: seq<string> := [];
    var index := 0;
    NoWordYet(v);
    while index < |v|
      invariant index <= |v| && SoFar(v, words, index)
      decreases |v| - index
    {
      var at := index;
      while at < |v| && IsBlank(v[at])
        invariant index <= at <= |v| && SkipBlanks(v, at) == SkipBlanks(v, index)
      {
        at := at + 1;
      }
      if at == |v| { break; }
      var word := ReadWord(v, at);
      if word.Err? {
        RefusedWord(v, words, index);
        return Err(word.error);
      }
      OneMoreWord(v, words, index, word.value.0, word.value.1);
      words := words + [word.value.0];
      index := word.value.1;
    }
    NoMoreWords(v, words, index);
    return Ok(words);
  }

  lemma RefusedWord(v: string, words: seq<string>, index: nat)
    requires index <= |v| && SoFar(v, words, index)
    requires SkipBlanks(v, index) < |v| && WordAt(v, SkipBlanks(v, index)).Err?
    ensures Words(v, 0) == Err(WordAt(v, SkipBlanks(v, index)).error)
  {}

  predicate IsPlain(w: string) { w != "" && forall c | c in w :: !IsBlank(c) && !IsQuote(c) && c != '\\' }

  /** A word as a unit file can hold it. */
  function Quoted(w: string): string { if IsPlain(w) then w else "\"" + w + "\"" }

  function PrintWords(words: seq<string>): string {
    if words == [] then "" else " " + Quoted(words[0]) + PrintWords(words[1..])
  }

  /** Every list of words without double quotes and backslashes is read back as it was printed. */
  lemma {:induction false} PrintedWords(pre: string, words: seq<string>)
    requires forall w | w in words :: '"' !in w && '\\' !in w
    ensures Words(pre + PrintWords(words), |pre|) == Ok(words)
    decreases |words|
  {
    var v := pre + PrintWords(words);
    if words == [] {
      EndOfWords(v);
    } else {
      var w, rest := words[0], PrintWords(words[1..]);
      var next := pre + (" " + Quoted(w));
      Reassociated(pre, " " + Quoted(w), rest);
      assert w in words;
      PrintedWords(next, words[1..]);
      PrintedWord(pre, w, rest);
      assert [w] + words[1..] == words;
    }
  }

  lemma Reassociated(a: string, b: string, c: string)
    ensures a + b + c == a + (b + c)
  {}

  lemma PrintedWord(pre: string, w: string, rest: string)
    requires '"' !in w && '\\' !in w && (rest == "" || rest[0] == ' ')
    ensures var v := pre + (" " + Quoted(w)) + rest;
            var next := |pre + (" " + Quoted(w))|;
            Words(v, |pre|) == match Words(v, next) case Ok(ws) => Ok([w] + ws) case Err(e) => Err(e)
  {
    hide Words;
    var q := Quoted(w);
    var v := pre + (" " + q) + rest;
    var i := |pre|;
    assert v[i] == ' ' && v[i + 1..i + 1 + |q|] == q;
    assert rest != "" ==> v[i + 1 + |q|] == rest[0];
    if IsPlain(w) {
      PlainWordAt(v, i, w);
    } else {
      InsideQuotes(v, i + 1, w);
      QuotedWordAt(v, i, w);
    }
  }

  lemma InsideQuotes(v: string, i: nat, w: string)
    requires var q := "\"" + w + "\""; i + |q| <= |v| && v[i..i + |q|] == q
    ensures v[i] == '"' && v[i + 1..i + 1 + |w|] == w && v[i + 1 + |w|] == '"'
  {
    var q := "\"" + w + "\"";
    var s := v[i..i + |q|];
    assert s[0] == v[i] && s[1 + |w|] == v[i + 1 + |w|];
    assert s[1..1 + |w|] == v[i + 1..i + 1 + |w|];
    assert q[1..1 + |w|] == w;
  }

  lemma EndOfWords(v: string)
    ensures Words(v, |v|) == Ok([])
  {}

  lemma PlainWordAt(v: string, i: nat, w: string)
    requires IsPlain(w) && i + 1 + |w| <= |v| && v[i] == ' ' && v[i + 1..i + 1 + |w|] == w
    requires i + 1 + |w| < |v| ==> v[i + 1 + |w|] == ' '
    ensures Words(v, i) == match Words(v, i + 1 + |w|) case Ok(ws) => Ok([w] + ws) case Err(e) => Err(e)
  {
    forall k | i + 1 <= k < i + 1 + |w| ensures GoesOn(v[k], None) && !IsForbidden(v[k], None) {
      assert v[k] == w[k - i - 1] && v[k] in w;
    }
    assert v[i + 1] == w[0] && w[0] in w;
    OneBlank(v, i);
    WordEndIs(v, i + 1, i + 1 + |w|, None);
  }

  lemma QuotedWordAt(v: string, i: nat, w: string)
    requires '"' !in w && '\\' !in w && i + 3 + |w| <= |v|
    requires v[i] == ' ' && v[i + 1] == '"' && v[i + 2..i + 2 + |w|] == w && v[i + 2 + |w|] == '"'
    requires i + 3 + |w| < |v| ==> v[i + 3 + |w|] == ' '
    ensures Words(v, i) == match Words(v, i + 3 + |w|) case Ok(ws) => Ok([w] + ws) case Err(e) => Err(e)
  {
    var quote := Some('"');
    forall k | i + 2 <= k < i + 2 + |w| ensures GoesOn(v[k], quote) && !IsForbidden(v[k], quote) {
      assert v[k] == w[k - i - 2] && v[k] in w;
    }
    OneBlank(v, i);
    WordEndIs(v, i + 2, i + 2 + |w|, quote);
    hide SkipBlanks, WordEnd;
    assert WordAt(v, i + 1) == Ok((w, i + 3 + |w|));
  }

  lemma OneBlank(v: string, i: nat)
    requires i + 1 < |v| && v[i] == ' ' && !IsBlank(v[i + 1])
    ensures SkipBlanks(v, i) == i + 1
  {
    assert SkipBlanks(v, i + 1) == i + 1;
  }

  lemma {:induction false} WordEndIs(v: string, i: nat, end: nat, quote: Option<char>)
    requires i <= end <= |v| && (end < |v| ==> !GoesOn(v[end], quote))
    requires forall k | i <= k < end :: GoesOn(v[k], quote) && !IsForbidden(v[k], quote)
    ensures WordEnd(v, i, quote) == Some(end)
    decreases end - i
  {
    if i < end { WordEndIs(v, i + 1, end, quote); }
  }

  /** A value that is one plain word. */
  lemma PlainWord(w: string)
    requires IsPlain(w)
    ensures Words(w, 0) == Ok([w])
  {
    assert w[0] in w;
    assert SkipBlanks(w, 0) == 0;
    WordEndIs(w, 0, |w|, None);
    assert SkipBlanks(w, |w|) == |w|;
    assert w[0..|w|] == w && [w] + [] == [w];
  }

  // ---- The contract ----

  type Variables = map<string, string>

  predicate IsEnvironmentName(s: string) {
    && s != "" && (IsLetter(s[0]) || s[0] == '_') && forall c | c in s :: IsLetter(c) || IsDigit(c) || c == '_'
  }

  /** One word as NAME=value. */
  function Assign(environment: Variables, word: string): Result<Variables, Error> {
    var separator := IndexOf(word, '=');
    if separator == |word| || !IsEnvironmentName(word[..separator]) then Err(IncompatibleContract)
    else Ok(environment[word[..separator] := word[separator + 1..]])
  }

  function AssignAll(environment: Variables, words: seq<string>): Result<Variables, Error>
    decreases |words|
  {
    if words == [] then Ok(environment)
    else
      var next :- Assign(environment, words[0]);
      AssignAll(next, words[1..])
  }

  /** The effect of an Environment setting: an empty one clears everything. */
  function Applied(environment: Variables, value: string): Result<Variables, Error> {
    var words :- Words(value, 0);
    if words == [] then Ok(map[]) else AssignAll(environment, words)
  }

  method ApplyEnvironment(environment: Variables, value: string) returns (r: Result<Variables, Error>)
    ensures r == Applied(environment, value)
  {
    var words :- ParseUnitWords(value);
    var result := if words == [] then map[] else environment;
    for k := 0 to |words|
      invariant words != [] ==> AssignAll(environment, words) == AssignAll(result, words[k..])
      invariant words == [] ==> result == map[]
    {
      assert words[k..][1..] == words[k + 1..];
      result :- Assign(result, words[k]);
    }
    return Ok(result);
  }

  function SingleWord(value: string): Result<string, Error> {
    var words :- Words(value, 0);
    if |words| == 1 then Ok(words[0]) else Err(IncompatibleContract)
  }

  /** What has been read of a unit. */
  datatype Reading = Reading(
    section: Option<string>,
    scalars: Variables,
    environment: Variables,
    environmentFiles: seq<string>,
    unsetEnvironment: seq<string>)

  predicate IsSection(line: string) {
    && |line| >= 3 && line[0] == '[' && line[|line| - 1] == ']'
    && forall k | 1 <= k < |line| - 1 :: line[k] != '[' && line[k] != ']'
  }

  const SPECIAL: set<string> :=
    {"User", "Group", "WorkingDirectory", "PAMName", "Environment", "EnvironmentFile", "UnsetEnvironment"}

  /** The effect of a setting of the service section. */
  function Setting(r: Reading, key: string, value: string): Result<Reading, Error> {
    if key == "User" || key == "Group" || key == "WorkingDirectory" then
      var word :- SingleWord(value);
      Ok(r.(scalars := r.scalars[key := word]))
    else if key == "PAMName" then
      if value == "" then Ok(r.(scalars := r.scalars - {key}))
      else
        var word :- SingleWord(value);
        Ok(r.(scalars := r.scalars[key := word]))
    else if key == "Environment" then
      var environment :- Applied(r.environment, value);
      Ok(r.(environment := environment))
    else if key == "EnvironmentFile" then
      var files :- Words(value, 0);
      Ok(r.(environmentFiles := if files == [] then [] else r.environmentFiles + files))
    else if key == "UnsetEnvironment" then
      var names :- Words(value, 0);
      Ok(r.(unsetEnvironment := if names == [] then [] else r.unsetEnvironment + names))
    else Ok(r)
  }

  function ReadLine(r: Reading, physical: string): Result<Reading, Error> {
    var line := Trim(physical);
    if line == "" || line[0] == '#' || line[0] == ';' then Ok(r)
    else if line[|line| - 1] == '\\' then Err(IncompatibleContract)
    else if line[0] == '[' then
      if IsSection(line) then Ok(r.(section := Some(line[1..|line| - 1]))) else Err(IncompatibleContract)
    else if r.section != Some("Service") then Ok(r)
    else
      var separator := IndexOf(line, '=');
      if separator < 1 || separator == |line| then Ok(r)
      else Setting(r, Trim(line[..separator]), Trim(line[separator + 1..]))
  }

  function ReadLines(r: Reading, lines: seq<string>): Result<Reading, Error>
    decreases |lines|
  {
    if lines == [] then Ok(r)
    else
      var next :- ReadLine(r, lines[0]);
      ReadLines(next, lines[1..])
  }

  /** One removal: a bare name, or a name only if it has the given value. */
  function Unset(environment: Variables, removal: string): Result<Variables, Error> {
    var separator := IndexOf(removal, '=');
    var name := removal[..separator];
    if !IsEnvironmentName(name) then Err(IncompatibleContract)
    else if separator == |removal| || (name in environment && environment[name] == removal[separator + 1..]) then
      Ok(environment - {name})
    else Ok(environment)
  }

  function UnsetAll(environment: Variables, removals: seq<string>): Result<Variables, Error> {
    if removals == [] then Ok(environment)
    else
      var next :- Unset(environment, removals[0]);
      UnsetAll(next, removals[1..])
  }

  predicate Has(m: Variables, key: string, value: string) { key in m && m[key] == value }

  function NpmPrefix(home: string): string { home + "/.local" }

  /** The settings in force are the account's. */
  predicate Agrees(scalars: Variables, environment: Variables, a: Account) {
    && Has(scalars, "User", a.username) && Has(scalars, "Group", a.group)
    && Has(environment, "HOME", a.homeDirectory) && Has(environment, "NPM_CONFIG_PREFIX", NpmPrefix(a.homeDirectory))
    && Has(environment, "AGENT_BOOT_WORKING_DIRECTORY", a.workingDirectory)
    && Has(scalars, "WorkingDirectory", a.workingDirectory)
  }

  const UNREAD := Reading(None, map[], map[], [], [])

  /** What the verification of a unit against an account comes to. */
  predicate Conforms(unit: string, a: Account) {
    && '\0' !in unit && IsSafeAccount(a)
    && var read := ReadLines(UNREAD, Split(unit));
       && read.Ok? && read.value.environmentFiles == [] && "PAMName" !in read.value.scalars
       && var left := UnsetAll(read.value.environment, read.value.unsetEnvironment);
          left.Ok? && Agrees(read.value.scalars, left.value, a)
  }

  method VerifyRunnerServiceContract(unit: string, a: Account) returns (r: Result<(), Error>)
    ensures r.Ok? <==> Conforms(unit, a)
  {
    hide ReadLine, Unset, Agrees, IsSafeAccount, Split;
    if '\0' in unit { return Err(IncompatibleContract); }
    var lines := Split(unit);
    var reading := UNREAD;
    for k := 0 to |lines|
      invariant ReadLines(UNREAD, lines) == ReadLines(reading, lines[k..])
    {
      assert lines[k..][1..] == lines[k + 1..];
      reading :- ReadLine(reading, lines[k]);
    }
    if reading.environmentFiles != [] || "PAMName" in reading.scalars { return Err(IncompatibleContract); }
    var environment := reading.environment;
    var removals := reading.unsetEnvironment;
    for k := 0 to |removals|
      invariant UnsetAll(reading.environment, removals) == UnsetAll(environment, removals[k..])
    {
      assert removals[k..][1..] == removals[k + 1..];
      environment :- Unset(environment, removals[k]);
    }
    if !IsSafeAccount(a) { return Err(InvalidAccount); }
    return if Agrees(reading.scalars, environment, a) then Ok(()) else Err(IncompatibleContract);
  }

  // ---- The printer ----

  const SCRIPTS := "/opt/agent-boot/scripts"
  const RUNTIME := "/opt/agent-boot/runtime"

  /** The bundle's own programs, after the account's. */
  const BUNDLE_PATH := ("/bin:" + SCRIPTS) + ("/bin:" + RUNTIME)

  const SYSTEM_PATH := ("/bin:/usr/local/sbin" + ":/usr/local/bin") + (":/usr/sbin:/usr/bin" + ":/sbin:/bin")

  function SearchPath(home: string): string { NpmPrefix(home) + (BUNDLE_PATH + SYSTEM_PATH) }

  datatype Line = Blank | Section(name: string) | KeyValue(key: string, value: string)

  function Text(l: Line): string {
    match l
    case Blank => ""
    case Section(name) => "[" + name + "]"
    case KeyValue(key, value) => key + "=" + value
  }

  function Texts(lines: seq<Line>): seq<string> { seq(|lines|, i requires 0 <= i < |lines| => Text(lines[i])) }

  const UNIT_SETTINGS: seq<Line> := [
    KeyValue("Description", "Agent Boot private runner"),
    KeyValue("Wants", "NetworkManager.service" + " " + "ssh.service"),
    KeyValue("After", "local-fs.target" + " " + ("userconfig.service" + " " + ("NetworkManager.service" + " " + "ssh.service")))]

  const CONSOLE_OWNER: seq<Line> := [
    KeyValue("Conflicts", "getty@tty1.service"),
    KeyValue("Before", "getty@tty1.service"),
    KeyValue("StartLimitIntervalSec", "0")]

  const PROCESS_SETTINGS: seq<Line> := [
    KeyValue("ExecStart", SCRIPTS + ("/bin/" + "agent-boot-runner")),
    KeyValue("Restart", "on-failure"),
    KeyValue("RestartSec", "5s"),
    KeyValue("TimeoutStopSec", "30s"),
    KeyValue("KillMode", "mixed"),
    KeyValue("KillSignal", "SIGTERM")]

  const STATE_SETTINGS: seq<Line> := [
    KeyValue("StateDirectory", "agent-boot"),
    KeyValue("StateDirectoryMode", "0700"),
    KeyValue("RuntimeDirectory", "agent-boot"),
    KeyValue("RuntimeDirectoryMode", "0700")]

  const CONFIGURATION_SETTINGS: seq<Line> := [
    KeyValue("ConfigurationDirectory", "agent-boot"),
    KeyValue("ConfigurationDirectoryMode", "0750"),
    KeyValue("UMask", "0077")]

  const CONSOLE_SETTINGS: seq<Line> := [
    KeyValue("TTYPath", "/dev/tty1"),
    KeyValue("StandardInput", "tty-force"),
    KeyValue("StandardOutput", "journal+console"),
    KeyValue("StandardError", "journal+console")]

  const TERMINAL_SETTINGS: seq<Line> := [
    KeyValue("TTYReset", "yes"),
    KeyValue("TTYVHangup", "yes"),
    KeyValue("TTYVTDisallocate", "no"),
    KeyValue("SyslogIdentifier", "agent-boot-runner")]

  function Assignment(name: string, value: string): string { name + "=" + value }

  function AccountSettings(a: Account): seq<Line> {
    [KeyValue("User", a.username),
     KeyValue("Group", a.group),
     KeyValue("Environment", Assignment("HOME", a.homeDirectory)),
     KeyValue("Environment", Assignment("NPM_CONFIG_PREFIX", NpmPrefix(a.homeDirectory))),
     KeyValue("Environment", Assignment("PATH", SearchPath(a.homeDirectory))),
     KeyValue("Environment", Assignment("AGENT_BOOT_WORKING_DIRECTORY", a.workingDirectory)),
     KeyValue("WorkingDirectory", a.workingDirectory)]
  }

  function BeforeAccount(): seq<Line> {
    [Section("Unit")] + (UNIT_SETTINGS + CONSOLE_OWNER + [Blank]) + [Section("Service"), KeyValue("Type", "exec")]
  }

  function AfterAccount(): seq<Line> {
    PROCESS_SETTINGS + STATE_SETTINGS + CONFIGURATION_SETTINGS + CONSOLE_SETTINGS + TERMINAL_SETTINGS +
    [Blank, Section("Install"), KeyValue("WantedBy", "multi-user.target"), Blank]
  }

  function UnitLines(a: Account): seq<Line> {
    BeforeAccount() + (AccountSettings(a) + AfterAccount())
  }

  function RenderRunnerService(a: Account): Result<string, Error> {
    if !IsSafeAccount(a) then Err(InvalidAccount) else Ok(JoinLines(Texts(UnitLines(a))))
  }

  // ---- Printing and reading agree ----

  /** Text that trimming and splitting leave alone. */
  predicate IsTidy(s: string) {
    && s != "" && !IsSpace(s[0]) && !IsSpace(s[|s| - 1]) && s[|s| - 1] != '\\'
    && forall k | 0 <= k < |s| :: s[k] != '\n' && s[k] != '\0'
  }

  predicate IsWord(s: string) { s != "" && forall k | 0 <= k < |s| :: IsLetter(s[k]) }

  predicate TidyLine(l: Line) {
    match l
    case Blank => true
    case Section(name) => IsWord(name)
    case KeyValue(key, value) => IsWord(key) && IsTidy(value)
  }

  /** What a line of the printer does to the reading. */
  function Effect(r: Reading, l: Line): Result<Reading, Error> {
    match l
    case Blank => Ok(r)
    case Section(name) => Ok(r.(section := Some(name)))
    case KeyValue(key, value) => if r.section == Some("Service") then Setting(r, key, value) else Ok(r)
  }

  function Effects(r: Reading, lines: seq<Line>): Result<Reading, Error>
    decreases |lines|
  {
    if lines == [] then Ok(r)
    else
      var next :- Effect(r, lines[0]);
      Effects(next, lines[1..])
  }

  lemma TrimLeaves(s: string)
    requires s == "" || (!IsSpace(s[0]) && !IsSpace(s[|s| - 1]))
    ensures Trim(s) == s
  {}

  lemma ReadPrintedSection(r: Reading, name: string)
    requires IsWord(name)
    ensures ReadLine(r, "[" + name + "]") == Ok(r.(section := Some(name)))
    ensures '\n' !in "[" + name + "]" && '\0' !in "[" + name + "]"
  {
    var line := "[" + name + "]";
    assert forall k | 1 <= k <= |name| :: line[k] == name[k - 1];
    TrimLeaves(line);
    assert line[1..|line| - 1] == name;
  }

  lemma PrintedSetting(key: string, value: string)
    requires IsWord(key) && IsTidy(value)
    ensures var line := key + "=" + value;
            && Trim(line) == line && Trim(key) == key && Trim(value) == value
            && line != "" && IsLetter(line[0]) && line[|line| - 1] != '\\'
            && IndexOf(line, '=') == |key| && line[..|key|] == key && line[|key| + 1..] == value
            && '\n' !in line && '\0' !in line
  {
    var line := key + "=" + value;
    assert line[0] == key[0] && line[|line| - 1] == value[|value| - 1];
    TrimLeaves(line);
    TrimLeaves(key);
    TrimLeaves(value);
    IndexOfIs(key, '=', value);
    assert key + ['='] + value == line;
  }

  /** A printed line reads as its effect. */
  lemma ReadPrintedLine(r: Reading, l: Line)
    requires TidyLine(l)
    ensures ReadLine(r, Text(l)) == Effect(r, l)
    ensures '\n' !in Text(l) && '\0' !in Text(l)
  {
    hide Trim, IsWord, IsTidy, IndexOf, Setting, IsSection;
    match l {
      case Blank => TrimLeaves("");
      case Section(name) => ReadPrintedSection(r, name);
      case KeyValue(key, value) => PrintedSetting(key, value);
    }
  }

  lemma {:induction false} ReadPrintedLines(r: Reading, lines: seq<Line>)
    requires forall l | l in lines :: TidyLine(l)
    ensures ReadLines(r, Texts(lines)) == Effects(r, lines)
    decreases |lines|
  {
    if lines != [] {
      ReadPrintedLine(r, lines[0]);
      assert Texts(lines)[1..] == Texts(lines[1..]);
      if Effect(r, lines[0]).Ok? { ReadPrintedLines(Effect(r, lines[0]).value, lines[1..]); }
    }
  }

  lemma {:induction false} EffectsInTurn(r: Reading, first: seq<Line>, second: seq<Line>)
    requires Effects(r, first).Ok?
    ensures Effects(r, first + second) == Effects(Effects(r, first).value, second)
    decreases |first|
  {
    if first == [] {
      assert first + second == second;
    } else {
      assert (first + second)[1..] == first[1..] + second;
      EffectsInTurn(Effect(r, first[0]).value, first[1..], second);
    }
  }

  /** A setting that the contract does not look at. */
  predicate IsOrdinarySetting(key: string, value: string) { IsWord(key) && IsTidy(value) && key !in SPECIAL }

  predicate IsOrdinary(l: Line) { l.Blank? || (l.KeyValue? && IsOrdinarySetting(l.key, l.value)) }

  lemma {:induction false} OrdinaryLinesDoNothing(r: Reading, lines: seq<Line>)
    requires forall l | l in lines :: IsOrdinary(l)
    ensures Effects(r, lines) == Ok(r)
    decreases |lines|
  {
    if lines != [] {
      assert IsOrdinary(lines[0]);
      OrdinaryLinesDoNothing(r, lines[1..]);
    }
  }

  lemma TidyWords(a: string, b: string)
    requires IsTidy(a) && IsTidy(b)
    ensures IsTidy(a + " " + b)
  {}

  lemma UnitSettingsWords()
    ensures IsOrdinarySetting("Description", "Agent Boot private runner")
    ensures IsOrdinarySetting("Wants", "NetworkManager.service" + " " + "ssh.service")
  {
    TidyWords("NetworkManager.service", "ssh.service");
  }

  lemma MoreUnitSettingsWords()
    ensures IsOrdinarySetting("After", "local-fs.target" + " " + ("userconfig.service" + " " + ("NetworkManager.service" + " " + "ssh.service")))
  {
    TidyWords("NetworkManager.service", "ssh.service");
    TidyWords("userconfig.service", "NetworkManager.service" + " " + "ssh.service");
    TidyWords("local-fs.target", "userconfig.service" + " " + ("NetworkManager.service" + " " + "ssh.service"));
  }

  lemma ConsoleOwnerWords()
    ensures IsOrdinarySetting("Conflicts", "getty@tty1.service")
    ensures IsOrdinarySetting("Before", "getty@tty1.service")
    ensures IsOrdinarySetting("StartLimitIntervalSec", "0")
  {}

  lemma ProcessSettingsWords()
    ensures IsOrdinarySetting("ExecStart", SCRIPTS + ("/bin/" + "agent-boot-runner"))
    ensures IsOrdinarySetting("Restart", "on-failure")
    ensures IsOrdinarySetting("RestartSec", "5s")
  {}

  lemma MoreProcessSettingsWords()
    ensures IsOrdinarySetting("TimeoutStopSec", "30s")
    ensures IsOrdinarySetting("KillMode", "mixed")
    ensures IsOrdinarySetting("KillSignal", "SIGTERM")
  {}

  lemma StateSettingsWords()
    ensures IsOrdinarySetting("StateDirectory", "agent-boot")
    ensures IsOrdinarySetting("StateDirectoryMode", "0700")
    ensures IsOrdinarySetting("RuntimeDirectory", "agent-boot")
    ensures IsOrdinarySetting("RuntimeDirectoryMode", "0700")
  {}

  lemma ConfigurationSettingsWords()
    ensures IsOrdinarySetting("ConfigurationDirectory", "agent-boot")
    ensures IsOrdinarySetting("ConfigurationDirectoryMode", "0750")
    ensures IsOrdinarySetting("UMask", "0077")
  {}

  lemma ConsoleSettingsWords()
    ensures IsOrdinarySetting("TTYPath", "/dev/tty1")
    ensures IsOrdinarySetting("StandardInput", "tty-force")
    ensures IsOrdinarySetting("StandardOutput", "journal+console")
    ensures IsOrdinarySetting("StandardError", "journal+console")
  {}

  lemma TerminalSettingsWords()
    ensures IsOrdinarySetting("TTYReset", "yes")
    ensures IsOrdinarySetting("TTYVHangup", "yes")
    ensures IsOrdinarySetting("TTYVTDisallocate", "no")
    ensures IsOrdinarySetting("SyslogIdentifier", "agent-boot-runner")
  {}

  predicate AllOrdinary(lines: seq<Line>) { forall l | l in lines :: IsOrdinary(l) }

  lemma ConstantsAreOrdinary()
    ensures AllOrdinary(UNIT_SETTINGS)
    ensures AllOrdinary(CONSOLE_OWNER)
    ensures AllOrdinary(PROCESS_SETTINGS)
    ensures AllOrdinary(STATE_SETTINGS)
    ensures AllOrdinary(CONFIGURATION_SETTINGS)
    ensures AllOrdinary(CONSOLE_SETTINGS)
    ensures AllOrdinary(TERMINAL_SETTINGS)
  {
    hide IsOrdinarySetting;
    UnitSettingsWords();
    MoreUnitSettingsWords();
    ConsoleOwnerWords();
    ProcessSettingsWords();
    MoreProcessSettingsWords();
    StateSettingsWords();
    ConfigurationSettingsWords();
    ConsoleSettingsWords();
    TerminalSettingsWords();
  }

  /** Plain and tidy, so also as part of a longer text. */
  predicate IsSolid(s: string) { s != "" && forall k | 0 <= k < |s| :: !IsSpace(s[k]) && !IsQuote(s[k]) && s[k] != '\\' && s[k] != '\0' }

  lemma SolidConcat(a: string, b: string)
    requires IsSolid(a) && IsSolid(b)
    ensures IsSolid(a + b)
  {}

  lemma SolidIsPlain(s: string)
    requires IsSolid(s)
    ensures IsPlain(s) && IsTidy(s)
  {
    forall c | c in s ensures !IsBlank(c) && !IsQuote(c) && c != '\\' {
      var k :| 0 <= k < |s| && s[k] == c;
    }
  }

  lemma SafeIsSolid(a: Account)
    requires IsSafeAccount(a)
    ensures IsSolid(a.username) && IsSolid(a.group) && IsSolid(a.homeDirectory) && IsSolid(a.workingDirectory)
  {
    assert forall k | 0 <= k < |a.username| :: a.username[k] in a.username;
    assert forall k | 0 <= k < |a.group| :: a.group[k] in a.group;
    assert forall k | 0 <= k < |a.homeDirectory| :: a.homeDirectory[k] in a.homeDirectory;
    assert forall k | 0 <= k < |a.workingDirectory| :: a.workingDirectory[k] in a.workingDirectory;
  }

  /** An assignment of a solid value has one word and sets one variable. */
  lemma AssignmentApplied(environment: Variables, name: string, value: string)
    requires IsSolid(name) && IsSolid(value) && IsEnvironmentName(name)
    ensures Applied(environment, name + "=" + value) == Ok(environment[name := value])
    ensures IsTidy(name + "=" + value)
  {
    var word := name + "=" + value;
    assert word == name + ['='] + value;
    SolidIsPlain(word);
    PlainWord(word);
    assert '=' !in name;
    IndexOfIs(name, '=', value);
    assert word[..|name|] == name && word[|name| + 1..] == value;
    var words := [word];
    assert words[1..] == [];
    assert AssignAll(environment[name := value], words[1..]) == Ok(environment[name := value]);
  }

  lemma SingleApplied(value: string)
    requires IsSolid(value)
    ensures SingleWord(value) == Ok(value) && IsTidy(value)
  {
    SolidIsPlain(value);
    PlainWord(value);
  }

  lemma VariableNames()
    ensures IsEnvironmentName("HOME") && IsSolid("HOME")
    ensures IsEnvironmentName("NPM_CONFIG_PREFIX") && IsSolid("NPM_CONFIG_PREFIX")
    ensures IsEnvironmentName("PATH") && IsSolid("PATH")
    ensures IsEnvironmentName("AGENT_BOOT_WORKING_DIRECTORY") && IsSolid("AGENT_BOOT_WORKING_DIRECTORY")
  {
    hide IsEnvironmentName, IsSolid;
    ShortVariableNames();
    LongVariableName();
  }

  lemma ShortVariableNames()
    ensures IsEnvironmentName("HOME") && IsSolid("HOME")
    ensures IsEnvironmentName("NPM_CONFIG_PREFIX") && IsSolid("NPM_CONFIG_PREFIX")
    ensures IsEnvironmentName("PATH") && IsSolid("PATH")
  {}

  lemma LongVariableName()
    ensures IsEnvironmentName("AGENT_BOOT_WORKING_DIRECTORY") && IsSolid("AGENT_BOOT_WORKING_DIRECTORY")
  {}

  lemma BundlePathParts()
    ensures IsSolid("/.local") && IsSolid("/bin:") && IsSolid(SCRIPTS)
  {}

  lemma RuntimePathPart()
    ensures IsSolid(RUNTIME)
  {}

  lemma SystemPathParts()
    ensures IsSolid("/bin:/usr/local/sbin") && IsSolid(":/usr/local/bin")
  {}

  lemma SystemPathEnd()
    ensures IsSolid(":/usr/sbin:/usr/bin") && IsSolid(":/sbin:/bin")
  {}

  lemma ConstantPathsAreSolid()
    ensures IsSolid("/.local") && IsSolid(BUNDLE_PATH) && IsSolid(SYSTEM_PATH)
  {
    hide IsSolid;
    BundlePathParts();
    RuntimePathPart();
    SystemPathParts();
    SystemPathEnd();
    SolidConcat("/bin:", SCRIPTS);
    SolidConcat("/bin:", RUNTIME);
    SolidConcat("/bin:" + SCRIPTS, "/bin:" + RUNTIME);
    SolidConcat("/bin:/usr/local/sbin", ":/usr/local/bin");
    SolidConcat(":/usr/sbin:/usr/bin", ":/sbin:/bin");
    SolidConcat("/bin:/usr/local/sbin" + ":/usr/local/bin", ":/usr/sbin:/usr/bin" + ":/sbin:/bin");
  }

  lemma HomeIsSolid(home: string)
    requires IsSolid(home)
    ensures IsSolid(NpmPrefix(home)) && IsSolid(SearchPath(home))
  {
    ConstantPathsAreSolid();
    SolidConcat(home, "/.local");
    SolidConcat(BUNDLE_PATH, SYSTEM_PATH);
    SolidConcat(NpmPrefix(home), BUNDLE_PATH + SYSTEM_PATH);
  }

  /** The reading after the account's settings. */
  function AccountReading(a: Account): Reading {
    Reading(Some("Service"),
      map["User" := a.username, "Group" := a.group, "WorkingDirectory" := a.workingDirectory],
      map["HOME" := a.homeDirectory, "NPM_CONFIG_PREFIX" := NpmPrefix(a.homeDirectory), "PATH" := SearchPath(a.homeDirectory),
          "AGENT_BOOT_WORKING_DIRECTORY" := a.workingDirectory],
      [], [])
  }

  lemma EnvironmentSetting(r: Reading, name: string, value: string)
    requires IsSolid(name) && IsSolid(value) && IsEnvironmentName(name) && r.section == Some("Service")
    ensures Effect(r, KeyValue("Environment", Assignment(name, value))) == Ok(r.(environment := r.environment[name := value]))
  {
    AssignmentApplied(r.environment, name, value);
  }

  lemma ScalarSetting(r: Reading, key: string, value: string)
    requires key == "User" || key == "Group" || key == "WorkingDirectory"
    requires IsSolid(value) && r.section == Some("Service")
    ensures Effect(r, KeyValue(key, value)) == Ok(r.(scalars := r.scalars[key := value]))
  {
    SingleApplied(value);
  }

  lemma EffectsCons(r: Reading, l: Line, next: Reading, rest: seq<Line>)
    requires Effect(r, l) == Ok(next)
    ensures Effects(r, [l] + rest) == Effects(next, rest)
  {}

  /** The account's settings leave exactly the account's values. */
  lemma AccountEffects(a: Account, r: Reading)
    requires IsSafeAccount(a) && r == Reading(Some("Service"), map[], map[], [], [])
    ensures Effects(r, AccountSettings(a)) == Ok(AccountReading(a))
  {
    hide Effects, Effect, IsSolid, IsEnvironmentName, Assignment, NpmPrefix, SearchPath, IsSafeAccount;
    SafeIsSolid(a);
    HomeIsSolid(a.homeDirectory);
    VariableNames();
    var l := AccountSettings(a);
    var r1 := r.(scalars := r.scalars["User" := a.username]);
    var r2 := r1.(scalars := r1.scalars["Group" := a.group]);
    var r3 := r2.(environment := r2.environment["HOME" := a.homeDirectory]);
    var r4 := r3.(environment := r3.environment["NPM_CONFIG_PREFIX" := NpmPrefix(a.homeDirectory)]);
    var r5 := r4.(environment := r4.environment["PATH" := SearchPath(a.homeDirectory)]);
    var r6 := r5.(environment := r5.environment["AGENT_BOOT_WORKING_DIRECTORY" := a.workingDirectory]);
    var r7 := r6.(scalars := r6.scalars["WorkingDirectory" := a.workingDirectory]);
    ScalarSetting(r, "User", a.username);
    ScalarSetting(r1, "Group", a.group);
    EnvironmentSetting(r2, "HOME", a.homeDirectory);
    EnvironmentSetting(r3, "NPM_CONFIG_PREFIX", NpmPrefix(a.homeDirectory));
    EnvironmentSetting(r4, "PATH", SearchPath(a.homeDirectory));
    EnvironmentSetting(r5, "AGENT_BOOT_WORKING_DIRECTORY", a.workingDirectory);
    ScalarSetting(r6, "WorkingDirectory", a.workingDirectory);
    SevenEffects(r, l, r1, r2, r3, r4, r5, r6, r7);
    assert r7.scalars == AccountReading(a).scalars && r7.environment == AccountReading(a).environment;
  }

  lemma SevenEffects(r: Reading, l: seq<Line>, r1: Reading, r2: Reading, r3: Reading, r4: Reading, r5: Reading, r6: Reading, r7: Reading)
    requires |l| == 7
    requires Effect(r, l[0]) == Ok(r1) && Effect(r1, l[1]) == Ok(r2) && Effect(r2, l[2]) == Ok(r3) && Effect(r3, l[3]) == Ok(r4)
    requires Effect(r4, l[4]) == Ok(r5) && Effect(r5, l[5]) == Ok(r6) && Effect(r6, l[6]) == Ok(r7)
    ensures Effects(r, l) == Ok(r7)
  {
    hide Effect;
    assert Effects(r7, l[7..]) == Ok(r7);
    assert l[6..][1..] == l[7..] && Effects(r6, l[6..]) == Ok(r7);
    assert l[5..][1..] == l[6..] && Effects(r5, l[5..]) == Ok(r7);
    assert l[4..][1..] == l[5..] && Effects(r4, l[4..]) == Ok(r7);
    assert l[3..][1..] == l[4..] && Effects(r3, l[3..]) == Ok(r7);
    assert l[2..][1..] == l[3..] && Effects(r2, l[2..]) == Ok(r7);
    assert l[1..][1..] == l[2..] && Effects(r1, l[1..]) == Ok(r7);
  }

  lemma BeforeAccountEffects()
    ensures Effects(UNREAD, BeforeAccount()) == Ok(Reading(Some("Service"), map[], map[], [], []))
  {
    hide IsOrdinarySetting, TidyLine;
    ConstantsAreOrdinary();
    var inUnit := UNREAD.(section := Some("Unit"));
    var inService := UNREAD.(section := Some("Service"));
    var ordinary := UNIT_SETTINGS + CONSOLE_OWNER + [Blank];
    assert AllOrdinary(ordinary);
    OrdinaryLinesDoNothing(inUnit, ordinary);
    EffectsCons(UNREAD, Section("Unit"), inUnit, ordinary);
    var rest := [Section("Service"), KeyValue("Type", "exec")];
    EffectsInTurn(UNREAD, [Section("Unit")] + ordinary, rest);
    TypeIsOrdinary();
    OrdinaryLinesDoNothing(inService, [KeyValue("Type", "exec")]);
    EffectsCons(inUnit, Section("Service"), inService, [KeyValue("Type", "exec")]);
    assert rest == [Section("Service")] + [KeyValue("Type", "exec")];
  }

  lemma TypeIsOrdinary()
    ensures IsOrdinarySetting("Type", "exec") && IsOrdinarySetting("WantedBy", "multi-user.target")
    ensures IsWord("Unit") && IsWord("Service") && IsWord("Install")
  {}

  lemma AfterAccountEffects(r: Reading)
    ensures Effects(r, AfterAccount()) == Ok(r.(section := Some("Install")))
  {
    hide IsOrdinarySetting, TidyLine;
    ConstantsAreOrdinary();
    TypeIsOrdinary();
    var ordinary := PROCESS_SETTINGS + STATE_SETTINGS + CONFIGURATION_SETTINGS + CONSOLE_SETTINGS + TERMINAL_SETTINGS;
    assert AllOrdinary(ordinary);
    OrdinaryLinesDoNothing(r, ordinary);
    var rest := [Blank, Section("Install"), KeyValue("WantedBy", "multi-user.target"), Blank];
    EffectsInTurn(r, ordinary, rest);
    var last := [KeyValue("WantedBy", "multi-user.target"), Blank];
    var inInstall := r.(section := Some("Install"));
    OrdinaryLinesDoNothing(inInstall, last);
    EffectsCons(r, Section("Install"), inInstall, last);
    EffectsCons(r, Blank, r, [Section("Install")] + last);
    assert rest == [Blank] + ([Section("Install")] + last);
  }

  /** The whole unit leaves exactly the account's values. */
  lemma UnitEffects(a: Account)
    requires IsSafeAccount(a)
    ensures Effects(UNREAD, UnitLines(a)) == Ok(AccountReading(a).(section := Some("Install")))
  {
    hide Effects, BeforeAccount, AfterAccount, AccountSettings, AccountReading, IsSafeAccount;
    var inService := Reading(Some("Service"), map[], map[], [], []);
    BeforeAccountEffects();
    AccountEffects(a, inService);
    AfterAccountEffects(AccountReading(a));
    EffectsInTurn(inService, AccountSettings(a), AfterAccount());
    EffectsInTurn(UNREAD, BeforeAccount(), AccountSettings(a) + AfterAccount());
  }

  predicate AllTidy(lines: seq<Line>) { forall l | l in lines :: TidyLine(l) }

  lemma OrdinaryIsTidy(lines: seq<Line>)
    requires AllOrdinary(lines)
    ensures AllTidy(lines)
  {
    forall l | l in lines ensures TidyLine(l) { assert IsOrdinary(l); }
  }

  lemma AllTidyConcat(a: seq<Line>, b: seq<Line>)
    requires AllTidy(a) && AllTidy(b)
    ensures AllTidy(a + b)
  {
    hide TidyLine;
  }

  lemma AccountIsTidy(a: Account)
    requires IsSafeAccount(a)
    ensures AllTidy(AccountSettings(a))
  {
    hide IsTidy, IsSolid, IsEnvironmentName, NpmPrefix, SearchPath, IsSafeAccount, Applied, IsWord;
    SafeIsSolid(a);
    HomeIsSolid(a.homeDirectory);
    VariableNames();
    AccountKeys();
    SingleApplied(a.username);
    SingleApplied(a.group);
    SingleApplied(a.workingDirectory);
    AssignmentApplied(map[], "HOME", a.homeDirectory);
    AssignmentApplied(map[], "NPM_CONFIG_PREFIX", NpmPrefix(a.homeDirectory));
    AssignmentApplied(map[], "PATH", SearchPath(a.homeDirectory));
    AssignmentApplied(map[], "AGENT_BOOT_WORKING_DIRECTORY", a.workingDirectory);
  }

  lemma AccountKeys()
    ensures IsWord("User") && IsWord("Group") && IsWord("Environment") && IsWord("WorkingDirectory")
  {}

  lemma UnitIsTidy(a: Account)
    requires IsSafeAccount(a)
    ensures AllTidy(UnitLines(a))
  {
    hide TidyLine, IsSafeAccount;
    ConstantsAreOrdinary();
    OrdinaryIsTidy(UNIT_SETTINGS);
    OrdinaryIsTidy(CONSOLE_OWNER);
    OrdinaryIsTidy(PROCESS_SETTINGS);
    OrdinaryIsTidy(STATE_SETTINGS);
    OrdinaryIsTidy(CONFIGURATION_SETTINGS);
    OrdinaryIsTidy(CONSOLE_SETTINGS);
    OrdinaryIsTidy(TERMINAL_SETTINGS);
    AccountIsTidy(a);
    OtherLinesAreTidy();
    AllTidyConcat(AccountSettings(a), AfterAccount());
    AllTidyConcat(BeforeAccount(), AccountSettings(a) + AfterAccount());
  }

  lemma OtherLinesAreTidy()
    ensures TidyLine(Blank) && TidyLine(Section("Unit")) && TidyLine(Section("Service")) && TidyLine(Section("Install"))
    ensures TidyLine(KeyValue("Type", "exec")) && TidyLine(KeyValue("WantedBy", "multi-user.target"))
  {
    TypeIsOrdinary();
  }

  lemma {:induction false} JoinedWithout(lines: seq<string>, c: char)
    requires lines != [] && c != '\n' && forall l | l in lines :: c !in l
    ensures c !in JoinLines(lines)
  {
    assert lines[0] in lines;
    if |lines| > 1 { JoinedWithout(lines[1..], c); }
  }

  lemma TidyTexts(lines: seq<Line>)
    requires AllTidy(lines)
    ensures forall t | t in Texts(lines) :: '\n' !in t && '\0' !in t
  {
    forall t | t in Texts(lines) ensures '\n' !in t && '\0' !in t {
      var i :| 0 <= i < |lines| && Texts(lines)[i] == t;
      assert lines[i] in lines;
      ReadPrintedLine(UNREAD, lines[i]);
    }
  }

  /** Reading a rendered unit gives exactly the account's settings. */
  lemma RenderedUnitRead(a: Account)
    requires IsSafeAccount(a)
    ensures var unit := RenderRunnerService(a).value;
            '\0' !in unit && ReadLines(UNREAD, Split(unit)) == Ok(AccountReading(a).(section := Some("Install")))
  {
    hide UnitLines, TidyLine, IsSafeAccount, ReadLines, Effects;
    var lines := UnitLines(a);
    UnitIsTidy(a);
    UnitEffects(a);
    TidyTexts(lines);
    SomeLines(a);
    SplitJoined(Texts(lines));
    JoinedWithout(Texts(lines), '\0');
    ReadPrintedLines(UNREAD, lines);
  }

  lemma SomeLines(a: Account)
    ensures UnitLines(a) != []
  {}

  /** The unit rendered for one account conforms to another exactly when they are the same. */
  lemma RenderedUnitConforms(a: Account, b: Account)
    requires IsSafeAccount(a) && IsSafeAccount(b)
    ensures RenderRunnerService(a).Ok?
    ensures Conforms(RenderRunnerService(a).value, b) <==> a == b
  {
    hide IsSafeAccount, ReadLines, Split;
    RenderedUnitRead(a);
    assert "PAMName" !in AccountReading(a).scalars;
    NamesDiffer();
  }

  /** The setting and variable names are different. */
  lemma NamesDiffer()
    ensures "User" != "Group" && "User" != "WorkingDirectory" && "Group" != "WorkingDirectory"
    ensures "HOME" != "NPM_CONFIG_PREFIX" && "HOME" != "PATH" && "HOME" != "AGENT_BOOT_WORKING_DIRECTORY"
    ensures "AGENT_BOOT_WORKING_DIRECTORY" != "NPM_CONFIG_PREFIX" && "PATH" != "NPM_CONFIG_PREFIX"
  {}
}
