/**
  Prompt templates: the validator that accepts a template when an assembly is made, and the
  renderer that fills it on the device with one regular expression whose position outlives a call.
 */
module Template {
  import opened Common

  datatype Error = MissingSubstitution | InvalidTemplate | InvalidReferences

  // ---- Tokens ----

  predicate IsBrace(c: char) { c == '{' || c == '}' }

  /** The end of the run of other characters from `i` on. */
  function RunEnd(t: string, i: nat): (e: nat)
    requires i <= |t|
    ensures i <= e <= |t| && (forall k | i <= k < e :: !IsBrace(t[k])) && (e < |t| ==> IsBrace(t[e]))
    decreases |t| - i
  {
    if i == |t| || IsBrace(t[i]) then i else RunEnd(t, i + 1)
  }

  /** The end of the token that starts at `i`, if one does. */
  function TokenEnd(t: string, i: nat): (e: Option<nat>)
    ensures e.Some? ==> i + 5 <= e.value <= |t|
  {
    if i + 1 < |t| && t[i] == '{' && t[i + 1] == '{' then
      var j := RunEnd(t, i + 2);
      if i + 2 < j && j + 1 < |t| && t[j] == '}' && t[j + 1] == '}' then Some(j + 2) else None
    else None
  }

  predicate IsToken(t: string, i: nat) { TokenEnd(t, i).Some? }

  /** The first token that starts at `from` or later. */
  function FindToken(t: string, from: nat): (r: Option<nat>)
    ensures r.Some? ==> from <= r.value && IsToken(t, r.value) && forall k | from <= k < r.value :: !IsToken(t, k)
    ensures r.None? ==> forall k | from <= k :: !IsToken(t, k)
    decreases |t| - from
  {
    if from >= |t| then None else if IsToken(t, from) then Some(from) else FindToken(t, from + 1)
  }

  /** Two opening or two closing braces side by side. */
  predicate Doubled(s: string, k: nat) { k + 1 < |s| && s[k] == s[k + 1] && IsBrace(s[k]) }

  predicate Dirty(s: string) { exists k | 0 <= k < |s| :: Doubled(s, k) }

  // ---- The meaning of a template ----

  /** Literal text, then a variable, and so on, ending in literal text. */
  datatype Segments = End(text: string) | Token(before: string, name: string, rest: Segments)

  function ParseFrom(t: string, cursor: nat): Option<Segments>
    requires cursor <= |t|
    decreases |t| - cursor
  {
    var found := FindToken(t, cursor);
    if found.None? then
      if Dirty(t[cursor..]) then None else Some(End(t[cursor..]))
    else
      var end := TokenEnd(t, found.value).value;
      if Dirty(t[cursor..found.value]) then None
      else
        var rest := ParseFrom(t, end);
        if rest.None? then None else Some(Token(t[cursor..found.value], t[found.value + 2..end - 2], rest.value))
  }

  function Parse(t: string): Option<Segments> { ParseFrom(t, 0) }

  function Print(s: Segments): string {
    match s
    case End(text) => text
    case Token(before, name, rest) => before + ("{{" + name + "}}") + Print(rest)
  }

  /** Literals without doubled braces, names that are not empty and hold no brace. */
  ghost predicate WellFormed(s: Segments) {
    match s
    case End(text) => !Dirty(text)
    case Token(before, name, rest) =>
      !Dirty(before) && name != "" && (forall c | c in name :: !IsBrace(c)) && WellFormed(rest)
  }

  /** The literal text with each variable's value, which is not looked at again. */
  function Fill(s: Segments, values: map<string, string>): string {
    match s
    case End(text) => text
    case Token(before, name, rest) => before + (if name in values then values[name] else "") + Fill(rest, values)
  }

  function Names(s: Segments): set<string> {
    match s
    case End(_) => {}
    case Token(_, name, rest) => {name} + Names(rest)
  }

  /** A lower-case word, or several joined by single dots, underscores or hyphens. */
  predicate IsIdentifier(s: string) {
    && s != "" && 'a' <= s[0] <= 'z' && IsAlphanumeric(s[|s| - 1])
    && (forall k | 0 <= k < |s| :: IsAlphanumeric(s[k]) || IsSeparator(s[k]))
    && (forall k | 0 <= k < |s| - 1 :: IsSeparator(s[k]) ==> IsAlphanumeric(s[k + 1]))
  }

  predicate IsAlphanumeric(c: char) { 'a' <= c <= 'z' || '0' <= c <= '9' }

  predicate IsSeparator(c: char) { c == '.' || c == '_' || c == '-' }

  ghost predicate AllIdentifiers(names: set<string>) { forall n | n in names :: IsIdentifier(n) }

  lemma TokenText(t: string, i: nat)
    requires IsToken(t, i)
    ensures var end := TokenEnd(t, i).value;
            && t[i..end] == "{{" + t[i + 2..end - 2] + "}}" && t[i + 2..end - 2] != ""
            && forall c | c in t[i + 2..end - 2] :: !IsBrace(c)
  {}

  /** Parsing loses nothing. */
  lemma {:induction false} PrintAfterParse(t: string, cursor: nat)
    requires cursor <= |t| && ParseFrom(t, cursor).Some?
    ensures Print(ParseFrom(t, cursor).value) == t[cursor..] && WellFormed(ParseFrom(t, cursor).value)
    decreases |t| - cursor
  {
    hide TokenEnd, FindToken, Dirty;
    var found := FindToken(t, cursor);
    if found.Some? {
      var i, end := found.value, TokenEnd(t, found.value).value;
      PrintAfterParse(t, end);
      TokenText(t, i);
      assert t[cursor..] == t[cursor..i] + t[i..end] + t[end..];
    }
  }

  /** A clean literal holds no token, even with what follows it. */
  lemma NoTokenInLiteral(pre: string, text: string, post: string, k: nat)
    requires !Dirty(text) && |pre| <= k < |pre| + |text|
    requires post == "" || (|post| > 2 && post[0] == '{' && post[1] == '{' && !IsBrace(post[2]))
    ensures !IsToken(pre + text + post, k)
  {
    var t := pre + text + post;
    if k + 1 < |pre| + |text| {
      assert t[k] == text[k - |pre|] && t[k + 1] == text[k - |pre| + 1];
      assert !Doubled(text, k - |pre|);
    } else if post != "" {
      assert t[k + 1] == '{' && (k + 2 < |t| ==> t[k + 2] == '{');
    }
  }

  lemma TokenThere(pre: string, name: string, post: string)
    requires name != "" && forall c | c in name :: !IsBrace(c)
    ensures TokenEnd(pre + ("{{" + name + "}}") + post, |pre|) == Some(|pre| + |name| + 4)
  {
    var t := pre + ("{{" + name + "}}") + post;
    assert t[|pre|] == '{' && t[|pre| + 1] == '{';
    forall j | |pre| + 2 <= j < |pre| + 2 + |name| ensures !IsBrace(t[j]) {
      assert t[j] == name[j - |pre| - 2] && t[j] in name;
    }
    assert t[|pre| + 2 + |name|] == '}' && t[|pre| + 3 + |name|] == '}';
  }

  lemma FirstTokenIs(t: string, from: nat, i: nat)
    requires from <= i && IsToken(t, i) && forall k | from <= k < i :: !IsToken(t, k)
    ensures FindToken(t, from) == Some(i)
  {}

  lemma FirstTokenAfter(pre: string, before: string, name: string, post: string)
    requires !Dirty(before) && name != "" && forall c | c in name :: !IsBrace(c)
    ensures var t := pre + before + ("{{" + name + "}}") + post;
            FindToken(t, |pre|) == Some(|pre| + |before|) && TokenEnd(t, |pre| + |before|) == Some(|pre| + |before| + |name| + 4)
  {
    hide TokenEnd, FindToken, Dirty;
    var mark := "{{" + name + "}}";
    var t := pre + before + mark + post;
    var next := mark + post;
    Reassociated(pre + before, mark, post);
    OpensToken(name, post);
    forall k | |pre| <= k < |pre| + |before| ensures !IsToken(t, k) {
      NoTokenInLiteral(pre, before, next, k);
    }
    TokenThere(pre + before, name, post);
    FirstTokenIs(t, |pre|, |pre| + |before|);
  }

  lemma Reassociated(a: string, b: string, c: string)
    ensures a + b + c == a + (b + c)
  {}

  lemma OpensToken(name: string, post: string)
    requires name != "" && forall c | c in name :: !IsBrace(c)
    ensures var s := ("{{" + name + "}}") + post; |s| > 2 && s[0] == '{' && s[1] == '{' && !IsBrace(s[2])
  {
    assert (("{{" + name + "}}") + post)[2] == name[0] && name[0] in name;
  }

  lemma NoTokenIn(pre: string, text: string)
    requires !Dirty(text)
    ensures FindToken(pre + text, |pre|).None?
  {
    assert pre + text == pre + text + "";
    forall k | |pre| <= k < |pre + text| ensures !IsToken(pre + text, k) { NoTokenInLiteral(pre, text, "", k); }
  }

  /** Printing well-formed segments and parsing gives them back: the parser knows every template. */
  lemma {:induction false} ParseAfterPrint(pre: string, s: Segments)
    requires WellFormed(s)
    ensures ParseFrom(pre + Print(s), |pre|) == Some(s)
    decreases s
  {
    hide TokenEnd, FindToken, Dirty;
    var t := pre + Print(s);
    match s {
      case End(text) =>
        NoTokenIn(pre, text);
        assert t[|pre|..] == text;
      case Token(before, name, rest) =>
        var next := pre + before + ("{{" + name + "}}");
        assert t == next + Print(rest);
        FirstTokenAfter(pre, before, name, Print(rest));
        ParseAfterPrint(next, rest);
        assert t[|pre|..|pre| + |before|] == before;
        assert t[|pre| + |before| + 2..|next| - 2] == name;
    }
  }

  // ---- Scanning ----

  /** The scan has dealt with everything before the cursor, and the rest decides. */
  ghost predicate Scanned(t: string, cursor: nat, used: set<string>)
    requires cursor <= |t|
  {
    && (Parse(t).Some? <==> ParseFrom(t, cursor).Some?)
    && AllIdentifiers(used)
    && (Parse(t).Some? ==> Names(Parse(t).value) == used + Names(ParseFrom(t, cursor).value))
  }

  ghost predicate Filled(t: string, cursor: nat, rendered: string, values: map<string, string>)
    requires cursor <= |t|
  {
    Parse(t).Some? && ParseFrom(t, cursor).Some? ==>
      Fill(Parse(t).value, values) == rendered + Fill(ParseFrom(t, cursor).value, values)
  }

  /** The template parses, and its variables are exactly the given identifiers. */
  ghost predicate Uses(t: string, names: set<string>) {
    Parse(t).Some? && AllIdentifiers(Names(Parse(t).value)) && Names(Parse(t).value) == names
  }

  /** A token with a good name moves the scan on. */
  lemma ScanStep(t: string, cursor: nat, used: set<string>, i: nat)
    requires cursor <= |t| && Scanned(t, cursor, used) && FindToken(t, cursor) == Some(i) && !Dirty(t[cursor..i])
    requires IsIdentifier(t[i + 2..TokenEnd(t, i).value - 2])
    ensures Scanned(t, TokenEnd(t, i).value, used + {t[i + 2..TokenEnd(t, i).value - 2]})
  {
    ParseAtToken(t, cursor, i);
    hide ParseFrom, IsIdentifier, TokenEnd, FindToken, Dirty;
    var end := TokenEnd(t, i).value;
    var name := t[i + 2..end - 2];
    if ParseFrom(t, end).Some? {
      var rest := ParseFrom(t, end).value;
      assert Names(Token(t[cursor..i], name, rest)) == {name} + Names(rest);
      assert used + ({name} + Names(rest)) == (used + {name}) + Names(rest);
    }
  }

  lemma ParseAtToken(t: string, cursor: nat, i: nat)
    requires cursor <= |t| && FindToken(t, cursor) == Some(i) && !Dirty(t[cursor..i])
    ensures var end := TokenEnd(t, i).value;
            ParseFrom(t, cursor) ==
            if ParseFrom(t, end).None? then None else Some(Token(t[cursor..i], t[i + 2..end - 2], ParseFrom(t, end).value))
  {}

  lemma ParseFailsAt(t: string, cursor: nat, i: nat)
    requires cursor <= |t| && FindToken(t, cursor) == Some(i) && Dirty(t[cursor..i])
    ensures ParseFrom(t, cursor) == None
  {}

  lemma FillStep(t: string, cursor: nat, rendered: string, values: map<string, string>, i: nat)
    requires cursor <= |t| && Filled(t, cursor, rendered, values) && FindToken(t, cursor) == Some(i) && !Dirty(t[cursor..i])
    requires t[i + 2..TokenEnd(t, i).value - 2] in values
    ensures Filled(t, TokenEnd(t, i).value, rendered + (t[cursor..i] + values[t[i + 2..TokenEnd(t, i).value - 2]]), values)
  {
    ParseAtToken(t, cursor, i);
    hide ParseFrom, TokenEnd, FindToken, Dirty;
    var end := TokenEnd(t, i).value;
    var name := t[i + 2..end - 2];
    if ParseFrom(t, end).Some? {
      var rest := ParseFrom(t, end).value;
      assert Fill(Token(t[cursor..i], name, rest), values) == t[cursor..i] + values[name] + Fill(rest, values);
      Reassociated(rendered, t[cursor..i] + values[name], Fill(rest, values));
    }
  }

  /** Anything else at a token means that the template does not use the given names. */
  lemma ScanRefused(t: string, cursor: nat, used: set<string>, i: nat, names: set<string>)
    requires cursor <= |t| && Scanned(t, cursor, used) && FindToken(t, cursor) == Some(i)
    requires var name := t[i + 2..TokenEnd(t, i).value - 2];
             Dirty(t[cursor..i]) || !IsIdentifier(name) || name !in names
    ensures !Uses(t, names)
  {
    if !Dirty(t[cursor..i]) { ParseAtToken(t, cursor, i); } else { ParseFailsAt(t, cursor, i); }
    hide ParseFrom, TokenEnd, FindToken, Dirty, IsIdentifier;
    var name := t[i + 2..TokenEnd(t, i).value - 2];
    assert ParseFrom(t, cursor).Some? ==> name in Names(ParseFrom(t, cursor).value);
  }

  /** Without another token the names used are all there are. */
  lemma ScanEnds(t: string, cursor: nat, used: set<string>, names: set<string>)
    requires cursor <= |t| && Scanned(t, cursor, used) && FindToken(t, cursor).None? && used <= names
    ensures Uses(t, names) <==> !Dirty(t[cursor..]) && used == names
  {}

  /** The validator accepts exactly the templates that parse into the declared variables. */
  method ValidatePromptTemplateVariables(t: string, variables: seq<string>) returns (r: Result<(), Error>)
    ensures r.Ok? <==> Uses(t, set v | v in variables)
  {
    hide Scanned, Uses, TokenEnd, Dirty, IsIdentifier;
    var declared := set v | v in variables;
    var used: set<string> := {};
    var cursor := 0;
    var found := FindToken(t, 0);
    StartScan(t);
    while found.Some?
      invariant cursor <= |t| && found == FindToken(t, cursor)
      invariant used <= declared && Scanned(t, cursor, used)
      decreases |t| - cursor
    {
      var end := TokenEnd(t, found.value).value;
      var name := t[found.value + 2..end - 2];
      if Dirty(t[cursor..found.value]) || !IsIdentifier(name) || name !in declared {
        ScanRefused(t, cursor, used, found.value, declared);
        return Err(InvalidTemplate);
      }
      ScanStep(t, cursor, used, found.value);
      used := used + {name};
      cursor := end;
      found := FindToken(t, cursor);
    }
    ScanEnds(t, cursor, used, declared);
    if Dirty(t[cursor..]) { return Err(InvalidTemplate); }
    if exists name | name in declared :: name !in used { return Err(InvalidTemplate); }
    assert used == declared;
    return Ok(());
  }

  lemma StartScan(t: string)
    ensures Scanned(t, 0, {})
  {}

  /** The renderer with its regular expression's state. */
  class Renderer {
    /** Where the next search starts. */
    var lastIndex: nat

    constructor ()
      ensures lastIndex == 0
    {
      lastIndex := 0;
    }

    /** The next token from `lastIndex` on, which moves behind it, or back to the start. */
    method Exec(t: string) returns (r: Option<nat>)
      modifies this
      ensures r == FindToken(t, old(lastIndex))
      ensures lastIndex == if r.Some? then TokenEnd(t, r.value).value else 0
    {
      r := FindToken(t, lastIndex);
      lastIndex := if r.Some? then TokenEnd(t, r.value).value else 0;
    }

    /**
      Renders a template. From the start position this succeeds exactly when the template uses the
      given names. From a stale position it succeeds exactly if, besides, no token starts before
      it. What is returned is always the literal text with the values, and leaves the position at
      the start.
     */
    method RenderTemplate(t: string, substitutions: map<string, string>) returns (r: Result<string, Error>)
      modifies this
      ensures r.Ok? <==> Uses(t, substitutions.Keys) && Untouched(t, old(lastIndex))
      ensures r.Ok? ==> r.value == Fill(Parse(t).value, substitutions) && lastIndex == 0
      ensures old(lastIndex) == 0 && Unknown(t, substitutions.Keys) ==> lastIndex == TokenEnd(t, FindToken(t, 0).value).value
    {
      hide Scanned, Filled, Uses, TokenEnd, Dirty, IsIdentifier, Untouched;
      var cursor := 0;
      var rendered := "";
      var used: set<string> := {};
      ghost var stale := lastIndex;
      var found := Exec(t);
      StartScan(t);
      StartFill(t, substitutions);
      StaleSearch(t, stale);
      assert stale == 0 ==> Untouched(t, stale) by { if stale == 0 { UntouchedAtStart(t); } }
      while found.Some?
        invariant cursor <= |t|
        invariant if Untouched(t, stale) then found == FindToken(t, cursor) else cursor == 0 && found == FindToken(t, stale)
        invariant lastIndex == if found.Some? then TokenEnd(t, found.value).value else 0
        invariant stale == 0 && Unknown(t, substitutions.Keys) ==> cursor == 0
        invariant used <= substitutions.Keys && Scanned(t, cursor, used) && Filled(t, cursor, rendered, substitutions)
        decreases |t| - cursor
      {
        var end := TokenEnd(t, found.value).value;
        var before := t[cursor..found.value];
        if Dirty(before) {
          if Untouched(t, stale) { ScanRefused(t, cursor, used, found.value, substitutions.Keys); }
          return Err(MissingSubstitution);
        }
        var name := t[found.value + 2..end - 2];
        if !IsIdentifier(name) || name !in substitutions {
          ScanRefused(t, cursor, used, found.value, substitutions.Keys);
          return Err(MissingSubstitution);
        }
        ScanStep(t, cursor, used, found.value);
        FillStep(t, cursor, rendered, substitutions, found.value);
        rendered := rendered + (before + substitutions[name]);
        used := used + {name};
        cursor := end;
        found := Exec(t);
      }
      var remainder := t[cursor..];
      if Untouched(t, stale) { ScanEnds(t, cursor, used, substitutions.Keys); }
      if Dirty(remainder) { return Err(MissingSubstitution); }
      if exists name | name in substitutions.Keys :: name !in used { return Err(MissingSubstitution); }
      assert used == substitutions.Keys;
      FillEnds(t, cursor, used, rendered, substitutions);
      return Ok(rendered + remainder);
    }
  }

  /** The first token names something unknown. */
  ghost predicate Unknown(t: string, names: set<string>) {
    var i := FindToken(t, 0);
    i.Some? && t[i.value + 2..TokenEnd(t, i.value).value - 2] !in names
  }

  /**
    A render that fails leaves the position behind the token it failed at, and a valid template
    with a token before that position then fails too.
   */
  method FailureSpoilsNextRender(value: string) returns (first: Result<string, Error>, second: Result<string, Error>)
    ensures Uses("{{a}}", {"a"}) && first.Err? && second.Err?
  {
    hide Uses, Dirty, Untouched, TokenEnd, FindToken, Parse, ParseFrom;
    SingleVariable("a");
    SingleVariable("b");
    assert "{{" + "a" + "}}" == "{{a}}" && "{{" + "b" + "}}" == "{{b}}";
    var renderer := new Renderer();
    first := renderer.RenderTemplate("{{b}}", map[]);
    UsesOnly("{{b}}", {"b"}, {});
    assert IsToken("{{a}}", 0);
    assert Unknown("{{b}}", {});
    assert renderer.lastIndex == 5;
    LaterPosition("{{a}}", 5);
    second := renderer.RenderTemplate("{{a}}", map["a" := value]);
  }

  lemma UsesOnly(t: string, names: set<string>, others: set<string>)
    requires Uses(t, names) && names != others
    ensures !Uses(t, others)
  {}

  lemma LaterPosition(t: string, position: nat)
    requires position > 0 && IsToken(t, 0)
    ensures !Untouched(t, position)
  {}

  /** A template of one variable. */
  lemma SingleVariable(name: string)
    requires IsIdentifier(name)
    ensures var t := "{{" + name + "}}";
            && Uses(t, {name}) && FindToken(t, 0) == Some(0) && TokenEnd(t, 0) == Some(|name| + 4)
            && t[2..|t| - 2] == name
  {
    var t := "{{" + name + "}}";
    forall c | c in name ensures !IsBrace(c) {}
    var s := Token("", name, End(""));
    ParseAfterPrint("", s);
    assert "" + Print(s) == t;
    TokenThere("", name, "");
    assert "" + t + "" == t;
    FirstTokenIs(t, 0, 0);
  }

  /** No token starts before the position. */
  ghost predicate Untouched(t: string, position: nat) { forall k | 0 <= k < position :: !IsToken(t, k) }

  lemma UntouchedAtStart(t: string)
    ensures Untouched(t, 0)
  {}

  lemma StartFill(t: string, values: map<string, string>)
    ensures Filled(t, 0, "", values)
  {}

  lemma FillEnds(t: string, cursor: nat, used: set<string>, rendered: string, values: map<string, string>)
    requires cursor <= |t| && Filled(t, cursor, rendered, values) && Scanned(t, cursor, used)
    requires FindToken(t, cursor).None? && !Dirty(t[cursor..])
    ensures Parse(t).Some? && Fill(Parse(t).value, values) == rendered + t[cursor..]
  {}

  lemma NotTwoTokens(t: string, k: nat)
    requires IsToken(t, k)
    ensures !IsToken(t, k + 1)
  {}

  /** A search that starts after some token makes the text before the next one dirty. */
  lemma StaleSearch(t: string, stale: nat)
    ensures var found := FindToken(t, stale);
            if Untouched(t, stale) then found == FindToken(t, 0)
            else if found.Some? then Dirty(t[0..found.value]) else Dirty(t[0..])
  {
    var found := FindToken(t, stale);
    if k :| 0 <= k < stale && IsToken(t, k) {
      NotTwoTokens(t, k);
      var s := if found.Some? then t[0..found.value] else t[0..];
      assert Doubled(s, k);
    } else if found.Some? {
      FirstTokenIs(t, 0, found.value);
    }
  }

  // ---- Hydration ----

  datatype Source = FromEnvironment(key: string) | FromSecret(secretId: string)

  datatype Binding = Binding(name: string, source: Source)

  function BoundNames(bindings: seq<Binding>): set<string> { set b | b in bindings :: b.name }

  /** The assembly's documents bind exactly the declared variables. */
  function ValidatePromptReferences(variables: seq<string>, bindings: seq<Binding>): (r: Result<(), Error>)
    ensures r.Ok? <==> (set v | v in variables) == BoundNames(bindings)
  {
    if exists v | v in variables :: v !in BoundNames(bindings) then Err(InvalidReferences)
    else if exists v | v in BoundNames(bindings) :: v !in variables then Err(InvalidReferences)
    else Ok(())
  }

  /** Where values come from; a secret that is missing or no text has none. */
  datatype Values = Values(environment: map<string, string>, secrets: map<string, string>) {
    function Resolve(s: Source): Option<string> {
      match s
      case FromEnvironment(key) => if key in environment then Some(environment[key]) else None
      case FromSecret(id) => if id in secrets then Some(secrets[id]) else None
    }
  }

  ghost predicate Resolvable(bindings: seq<Binding>, values: Values) {
    forall b | b in bindings :: values.Resolve(b.source).Some?
  }

  /** Each bound name with its value; a later binding of a name replaces an earlier one. */
  function Substitutions(bindings: seq<Binding>, values: Values): (m: map<string, string>)
    requires Resolvable(bindings, values)
    ensures m.Keys == BoundNames(bindings)
  {
    if bindings == [] then map[]
    else
      var last := bindings[|bindings| - 1];
      assert bindings == bindings[..|bindings| - 1] + [last];
      Substitutions(bindings[..|bindings| - 1], values)[last.name := values.Resolve(last.source).value]
  }

  /** Fills the substitution map, binding by binding. */
  method BuildSubstitutions(variables: seq<string>, bindings: seq<Binding>, values: Values) returns (r: Result<map<string, string>, Error>)
    ensures r.Ok? <==> Resolvable(bindings, values) && BoundNames(bindings) <= set v | v in variables
    ensures r.Ok? ==> r.value == Substitutions(bindings, values)
  {
    var declared := set v | v in variables;
    var substitutions: map<string, string> := map[];
    for k := 0 to |bindings|
      invariant Resolvable(bindings[..k], values) && substitutions == Substitutions(bindings[..k], values)
      invariant substitutions.Keys <= declared
    {
      var b := bindings[k];
      assert b in bindings && bindings[..k + 1] == bindings[..k] + [b];
      if b.name !in declared {
        assert b.name in BoundNames(bindings);
        return Err(MissingSubstitution);
      }
      var value := values.Resolve(b.source);
      if value.None? { return Err(MissingSubstitution); }
      assert bindings[..k + 1][..k] == bindings[..k];
      substitutions := substitutions[b.name := value.value];
    }
    assert bindings[..|bindings|] == bindings;
    return Ok(substitutions);
  }

  /** Fills the substitution map from the bindings and renders. */
  method Hydrate(renderer: Renderer, t: string, variables: seq<string>, bindings: seq<Binding>, values: Values)
    returns (r: Result<string, Error>)
    modifies renderer
    ensures r.Ok? <==>
      && Resolvable(bindings, values) && (set v | v in variables) == BoundNames(bindings)
      && Uses(t, BoundNames(bindings)) && Untouched(t, old(renderer.lastIndex))
    ensures r.Ok? ==> r.value == Fill(Parse(t).value, Substitutions(bindings, values)) && renderer.lastIndex == 0
  {
    hide Uses, Untouched, Fill, Parse, Resolvable;
    var declared := set v | v in variables;
    var substitutions :- BuildSubstitutions(variables, bindings, values);
    if |substitutions.Keys| != |declared| { return Err(MissingSubstitution); }
    SameSize(substitutions.Keys, declared);
    r := renderer.RenderTemplate(t, substitutions);
  }

  lemma {:induction false} SameSize(a: set<string>, b: set<string>)
    requires a <= b && |a| == |b|
    ensures a == b
  {
    assert |b - a| == |b| - |a|;
  }

  datatype Prompt = Prompt(template: string, variables: seq<string>, bindings: seq<Binding>)

  /** The validator and the reference check have passed, and the bound values are there. */
  ghost predicate Accepted(p: Prompt, values: Values) {
    && Uses(p.template, set v | v in p.variables) && ValidatePromptReferences(p.variables, p.bindings).Ok?
    && Resolvable(p.bindings, values)
  }

  function RenderedPrompt(p: Prompt, values: Values): string
    requires Accepted(p, values)
  {
    Fill(Parse(p.template).value, Substitutions(p.bindings, values))
  }

  /**
    Prompts that the validator and the assembly's reference check have accepted always render, one
    after another on the same renderer, each into its literal text with the bound values.
   */
  method HydrateAll(renderer: Renderer, prompts: seq<Prompt>, values: Values) returns (rendered: seq<string>)
    requires renderer.lastIndex == 0
    requires forall k | 0 <= k < |prompts| :: Accepted(prompts[k], values)
    modifies renderer
    ensures |rendered| == |prompts| && renderer.lastIndex == 0
    ensures forall k | 0 <= k < |prompts| ::
              rendered[k] == RenderedPrompt(prompts[k], values)
  {
    rendered := [];
    for k := 0 to |prompts|
      invariant |rendered| == k && renderer.lastIndex == 0
      invariant forall j | 0 <= j < k ::
                  rendered[j] == RenderedPrompt(prompts[j], values)
    {
      var p := prompts[k];
      var r := Hydrate(renderer, p.template, p.variables, p.bindings, values);
      rendered := rendered + [r.value];
    }
  }
}
