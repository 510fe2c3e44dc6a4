/** Substitution of `${VAR}` and `$VAR` references in configuration strings. */
module Env {
  import opened Common
  import opened Strings

  predicate IsStart(c: char) {
    'A' <= c <= 'Z' || 'a' <= c <= 'z' || c == '_'
  }

  predicate IsWord(c: char) {
    IsStart(c) || '0' <= c <= '9'
  }

  ghost predicate IsName(s: string) {
    s != "" && IsStart(s[0]) && forall i :: 0 <= i < |s| ==> IsWord(s[i])
  }

  /** What one step of the scan consumes. */
  datatype Token = Literal(c: char) | Escaped | Braced(name: string) | Bare(name: string)

  // ---- The scanner: the regular expression, tried at one position after the other ----

  /** The length of the longest run of word characters at the front. */
  function WordLength(s: string): (n: nat)
    ensures n <= |s|
  {
    if s == "" || !IsWord(s[0]) then 0 else 1 + WordLength(s[1..])
  }

  /** The length of the longest variable name at the front; 0 if there is none. */
  function NameLength(s: string): (n: nat)
    ensures n <= |s|
  {
    if s == "" || !IsStart(s[0]) then 0 else 1 + WordLength(s[1..])
  }

  /** The match of the expression at the front of `s`, alternatives in order. */
  function MatchAt(s: string): (m: Option<Token>)
    ensures m.Some? ==> !m.value.Literal? && 0 < |Text(m.value)| <= |s|
  {
    if s == "" || s[0] != '$' then None
    else if |s| > 1 && s[1] == '$' then Some(Escaped)
    else if |s| > 1 && s[1] == '{' && NameLength(s[2..]) > 0
            && 2 + NameLength(s[2..]) < |s| && s[2 + NameLength(s[2..])] == '}' then
      Some(Braced(s[2..2 + NameLength(s[2..])]))
    else if NameLength(s[1..]) > 0 then Some(Bare(s[1..1 + NameLength(s[1..])]))
    else None
  }

  /** What a match is replaced with; the error is the name of the unset variable. */
  function Replacement(t: Token, env: map<string, string>): Result<string, string> {
    match t
    case Literal(c) => Ok([c])
    case Escaped => Ok("$")
    case Braced(name) => if name in env then Ok(env[name]) else Err(name)
    case Bare(name) => if name in env then Ok(env[name]) else Err(name)
  }

  function Interpolate(value: string, env: map<string, string>): Result<string, string>
    decreases |value|
  {
    if value == "" then Ok("")
    else
      match MatchAt(value)
      case None =>
        var rest :- Interpolate(value[1..], env);
        Ok([value[0]] + rest)
      case Some(t) =>
        var head :- Replacement(t, env);
        var rest :- Interpolate(value[|Text(t)|..], env);
        Ok(head + rest)
  }

  // ---- The grammar: which token sequence a string is ----

  function Text(t: Token): string {
    match t
    case Literal(c) => [c]
    case Escaped => "$$"
    case Braced(name) => "${" + name + "}"
    case Bare(name) => "$" + name
  }

  function Print(ts: seq<Token>): string {
    if ts == [] then "" else Text(ts[0]) + Print(ts[1..])
  }

  /** A `$` followed by this text would begin an escape or a reference. */
  ghost predicate Refers(rest: string) {
    && rest != ""
    && (rest[0] == '$' || IsStart(rest[0]) || exists name :: IsName(name) && "{" + name + "}" <= rest)
  }

  /** The token may stand where this text follows it. */
  ghost predicate Fits(t: Token, rest: string) {
    match t
    case Literal(c) => c == '$' ==> !Refers(rest)
    case Escaped => true
    case Braced(name) => IsName(name)
    case Bare(name) => IsName(name) && (rest == "" || !IsWord(rest[0]))
  }

  ghost predicate WellFormed(ts: seq<Token>) {
    ts == [] || (Fits(ts[0], Print(ts[1..])) && WellFormed(ts[1..]))
  }

  /** `ts` is a way to read `s`. */
  ghost predicate Reads(ts: seq<Token>, s: string) {
    Print(ts) == s && WellFormed(ts)
  }

  function Tokenise(s: string): seq<Token>
    decreases |s|
  {
    if s == "" then []
    else
      match MatchAt(s)
      case None => [Literal(s[0])] + Tokenise(s[1..])
      case Some(t) => [t] + Tokenise(s[|Text(t)|..])
  }

  lemma {:induction false} WordLengthOf(word: string, rest: string)
    requires forall i :: 0 <= i < |word| ==> IsWord(word[i])
    requires rest == "" || !IsWord(rest[0])
    ensures WordLength(word + rest) == |word|
  {
    if word == "" {
      assert word + rest == rest;
    } else {
      assert (word + rest)[1..] == word[1..] + rest;
      WordLengthOf(word[1..], rest);
    }
  }

  lemma NameLengthOf(name: string, rest: string)
    requires IsName(name) && (rest == "" || !IsWord(rest[0]))
    ensures NameLength(name + rest) == |name|
  {
    assert (name + rest)[1..] == name[1..] + rest;
    WordLengthOf(name[1..], rest);
  }

  lemma {:induction false} WordLengthMeaning(s: string)
    ensures forall i :: 0 <= i < WordLength(s) ==> IsWord(s[i])
    ensures WordLength(s) < |s| ==> !IsWord(s[WordLength(s)])
  {
    if s != "" && IsWord(s[0]) {
      WordLengthMeaning(s[1..]);
      assert s == [s[0]] + s[1..];
    }
  }

  lemma NameLengthMeaning(s: string)
    ensures NameLength(s) > 0 ==> IsName(s[..NameLength(s)])
    ensures 0 < NameLength(s) < |s| ==> !IsWord(s[NameLength(s)])
    ensures NameLength(s) > 0 <==> s != "" && IsStart(s[0])
  {
    if s != "" && IsStart(s[0]) {
      WordLengthMeaning(s[1..]);
      var n := NameLength(s);
      forall i | 0 <= i < n ensures IsWord(s[..n][i]) {
        if i > 0 {
          assert s[i] == s[1..][i - 1];
        }
      }
      assert n < |s| ==> s[n] == s[1..][n - 1];
    }
  }

  /** A complete reference in braces at the front of `rest` makes a `$` before it a reference. */
  lemma BracedRefers(rest: string)
    requires rest != "" && rest[0] == '{'
    requires var n := NameLength(rest[1..]); n > 0 && 1 + n < |rest| && rest[1 + n] == '}'
    ensures Refers(rest)
  {
    var n := NameLength(rest[1..]);
    NameLengthMeaning(rest[1..]);
    var name := rest[1..][..n];
    assert "{" + name + "}" == rest[..n + 2];
  }

  lemma RefersBraced(rest: string, name: string)
    requires IsName(name) && "{" + name + "}" <= rest
    ensures rest[0] == '{' && NameLength(rest[1..]) == |name| && 1 + |name| < |rest| && rest[1 + |name|] == '}'
  {
    var tail := rest[|name| + 2..];
    assert rest == "{" + name + "}" + tail;
    assert rest[1..] == name + ("}" + tail);
    NameLengthOf(name, "}" + tail);
  }

  lemma MatchesLiteral(c: char, rest: string)
    requires Fits(Literal(c), rest)
    ensures MatchAt([c] + rest) == None
  {
    var s := [c] + rest;
    assert s[1..] == rest;
    if c == '$' && rest != "" {
      NameLengthMeaning(rest);
      assert s[2..] == rest[1..];
      if rest[0] == '{' && NameLength(rest[1..]) > 0 && 1 + NameLength(rest[1..]) < |rest|
         && rest[1 + NameLength(rest[1..])] == '}' {
        BracedRefers(rest);
      }
    }
  }

  lemma MatchesBraced(name: string, rest: string)
    requires IsName(name)
    ensures MatchAt(Text(Braced(name)) + rest) == Some(Braced(name))
  {
    var s := Text(Braced(name)) + rest;
    assert s[2..] == name + ("}" + rest);
    NameLengthOf(name, "}" + rest);
    assert s[2..2 + |name|] == name;
  }

  lemma MatchesBare(name: string, rest: string)
    requires Fits(Bare(name), rest)
    ensures MatchAt(Text(Bare(name)) + rest) == Some(Bare(name))
  {
    var s := Text(Bare(name)) + rest;
    assert s[1..] == name + rest;
    assert s[1] == name[0];
    NameLengthOf(name, rest);
    assert s[1..1 + |name|] == name;
  }

  /** Wherever a token fits, the expression matches exactly that token, or nothing for a literal. */
  lemma MatchesToken(t: Token, rest: string)
    requires Fits(t, rest)
    ensures MatchAt(Text(t) + rest) == if t.Literal? then None else Some(t)
  {
    hide NameLength, WordLength, IsName;
    match t
    case Literal(c) => MatchesLiteral(c, rest);
    case Escaped =>
    case Braced(name) => MatchesBraced(name, rest);
    case Bare(name) => MatchesBare(name, rest);
  }

  /** The matched token fits what follows it. */
  lemma MatchFits(s: string)
    requires MatchAt(s).Some?
    ensures var t := MatchAt(s).value;
            Text(t) == s[..|Text(t)|] && Fits(t, s[|Text(t)|..])
  {
    match MatchAt(s).value
    case Braced(_) => BracedFits(s);
    case Bare(_) => BareFits(s);
    case _ =>
  }

  lemma BracedFits(s: string)
    requires MatchAt(s).Some? && MatchAt(s).value.Braced?
    ensures var t := MatchAt(s).value;
            Text(t) == s[..|Text(t)|] && Fits(t, s[|Text(t)|..])
  {
    hide NameLength, WordLength, IsName;
    NameLengthMeaning(s[2..]);
    var n := NameLength(s[2..]);
    assert s[2..][..n] == s[2..2 + n];
    assert s[..n + 3] == "${" + s[2..2 + n] + "}";
  }

  lemma BareFits(s: string)
    requires MatchAt(s).Some? && MatchAt(s).value.Bare?
    ensures var t := MatchAt(s).value;
            Text(t) == s[..|Text(t)|] && Fits(t, s[|Text(t)|..])
  {
    hide NameLength, WordLength, IsName;
    NameLengthMeaning(s[1..]);
    var n := NameLength(s[1..]);
    assert s[1..][..n] == s[1..1 + n];
    assert s[..n + 1] == "$" + s[1..1 + n];
    assert 1 + n < |s| ==> s[1..][n] == s[1 + n];
  }

  /** Where nothing matches, a literal fits. */
  lemma NoMatchFits(s: string)
    requires s != "" && MatchAt(s).None?
    ensures Fits(Literal(s[0]), s[1..])
  {
    hide WordLength;
    var rest := s[1..];
    if s[0] == '$' && rest != "" {
      NameLengthMeaning(rest);
      assert s[2..] == rest[1..];
      forall name | IsName(name) && "{" + name + "}" <= rest ensures false {
        RefersBraced(rest, name);
      }
    }
  }

  lemma {:induction false} ReadsOnlyAs(ts: seq<Token>, s: string)
    requires Reads(ts, s)
    ensures ts == Tokenise(s)
    decreases |s|
  {
    hide MatchAt, Fits;
    if ts != [] {
      var rest := Print(ts[1..]);
      MatchesToken(ts[0], rest);
      assert s[|Text(ts[0])|..] == rest;
      ReadsOnlyAs(ts[1..], rest);
    } else {
      assert s == "";
    }
  }

  lemma {:induction false} TokeniseReads(s: string)
    ensures Reads(Tokenise(s), s)
    decreases |s|
  {
    hide MatchAt, Fits;
    if s == "" {
    } else {
      var t := if MatchAt(s).Some? then MatchAt(s).value else Literal(s[0]);
      if MatchAt(s).Some? {
        MatchFits(s);
      } else {
        NoMatchFits(s);
      }
      var n := |Text(t)|;
      assert s[..n] == Text(t) && s == s[..n] + s[n..];
      assert Tokenise(s) == [t] + Tokenise(s[n..]);
      TokeniseReads(s[n..]);
    }
  }

  /** Every string can be read in exactly one way, and the scan finds it. */
  lemma ReadsExactly(ts: seq<Token>, s: string)
    ensures Reads(ts, s) <==> ts == Tokenise(s)
  {
    TokeniseReads(s);
    if Reads(ts, s) {
      ReadsOnlyAs(ts, s);
    }
  }

  // ---- What interpolation does with the tokens ----

  /** The replacements joined up, or the first variable that is not set. */
  function Substitute(ts: seq<Token>, env: map<string, string>): Result<string, string> {
    if ts == [] then Ok("")
    else
      var head :- Replacement(ts[0], env);
      var rest :- Substitute(ts[1..], env);
      Ok(head + rest)
  }

  /**
   * Interpolating a string substitutes the tokens of its only reading. The tokens come from the
   * string alone, so the text of a substituted value is never looked at again.
   */
  lemma {:induction false} InterpolateSubstitutes(ts: seq<Token>, s: string, env: map<string, string>)
    requires Reads(ts, s)
    ensures Interpolate(s, env) == Substitute(ts, env)
    decreases |s|
  {
    if ts == [] {
    } else {
      var rest := Print(ts[1..]);
      MatchesToken(ts[0], rest);
      assert s[|Text(ts[0])|..] == rest;
      InterpolateSubstitutes(ts[1..], rest, env);
    }
  }

  predicate RefersTo(t: Token, name: string) {
    (t.Braced? || t.Bare?) && t.name == name
  }

  ghost predicate References(s: string, name: string) {
    exists i :: 0 <= i < |Tokenise(s)| && RefersTo(Tokenise(s)[i], name)
  }

  lemma {:induction false} SubstituteFails(ts: seq<Token>, env: map<string, string>)
    ensures Substitute(ts, env).Err? <==> exists i, name :: 0 <= i < |ts| && RefersTo(ts[i], name) && name !in env
    ensures Substitute(ts, env).Err? ==>
              exists i :: && 0 <= i < |ts| && RefersTo(ts[i], Substitute(ts, env).error)
                          && Substitute(ts, env).error !in env
                          && forall j, name :: 0 <= j < i && RefersTo(ts[j], name) ==> name in env
  {
    if ts == [] {
    } else {
      SubstituteFails(ts[1..], env);
      if Replacement(ts[0], env).Err? {
        assert RefersTo(ts[0], ts[0].name);
      } else if Substitute(ts[1..], env).Err? {
        var i :| && 0 <= i < |ts[1..]| && RefersTo(ts[1..][i], Substitute(ts[1..], env).error)
                 && Substitute(ts[1..], env).error !in env
                 && forall j, name :: 0 <= j < i && RefersTo(ts[1..][j], name) ==> name in env;
        forall j, name | 0 <= j < i + 1 && RefersTo(ts[j], name) ensures name in env {
          if j > 0 {
            assert ts[1..][j - 1] == ts[j];
          }
        }
        assert RefersTo(ts[i + 1], Substitute(ts, env).error);
      } else {
        forall i, name | 0 <= i < |ts| && RefersTo(ts[i], name) ensures name in env {
          if i > 0 {
            assert ts[1..][i - 1] == ts[i];
          }
        }
      }
    }
  }

  /** Interpolation fails exactly when a referenced variable is not set, and names the first such. */
  lemma InterpolateFails(s: string, env: map<string, string>)
    ensures Interpolate(s, env).Err? <==> exists name :: References(s, name) && name !in env
    ensures Interpolate(s, env).Err? ==> References(s, Interpolate(s, env).error) && Interpolate(s, env).error !in env
  {
    var ts := Tokenise(s);
    ReadsExactly(ts, s);
    InterpolateSubstitutes(ts, s, env);
    SubstituteFails(ts, env);
    if name :| References(s, name) && name !in env {
      var i :| 0 <= i < |ts| && RefersTo(ts[i], name);
    }
  }

  ghost predicate Agree(env: map<string, string>, env': map<string, string>, name: string) {
    (name in env <==> name in env') && (name in env ==> env[name] == env'[name])
  }

  lemma {:induction false} SubstituteDepends(ts: seq<Token>, env: map<string, string>, env': map<string, string>)
    requires forall i, name :: 0 <= i < |ts| && RefersTo(ts[i], name) ==> Agree(env, env', name)
    ensures Substitute(ts, env) == Substitute(ts, env')
  {
    if ts == [] {
    } else {
      if ts[0].Braced? || ts[0].Bare? {
        assert RefersTo(ts[0], ts[0].name);
        assert Agree(env, env', ts[0].name);
      }
      assert Replacement(ts[0], env) == Replacement(ts[0], env');
      forall i, name | 0 <= i < |ts[1..]| && RefersTo(ts[1..][i], name) ensures Agree(env, env', name) {
        assert ts[i + 1] == ts[1..][i];
      }
      SubstituteDepends(ts[1..], env, env');
    }
  }

  /** The result depends on nothing but the referenced variables. */
  lemma InterpolateDepends(s: string, env: map<string, string>, env': map<string, string>)
    requires forall name :: References(s, name) ==> Agree(env, env', name)
    ensures Interpolate(s, env) == Interpolate(s, env')
  {
    var ts := Tokenise(s);
    ReadsExactly(ts, s);
    InterpolateSubstitutes(ts, s, env);
    InterpolateSubstitutes(ts, s, env');
    forall i, name | 0 <= i < |ts| && RefersTo(ts[i], name) ensures Agree(env, env', name) {
      assert References(s, name);
    }
    SubstituteDepends(ts, env, env');
  }

  /** Doubling every `$` protects any text from any environment. */
  lemma {:induction false} DoublingProtects(s: string, env: map<string, string>)
    ensures Interpolate(ReplaceChar(s, '$', "$$"), env) == Ok(s)
  {
    if s == "" {
    } else {
      var doubled, rest := ReplaceChar(s, '$', "$$"), ReplaceChar(s[1..], '$', "$$");
      DoublingProtects(s[1..], env);
      assert s == [s[0]] + s[1..];
      if s[0] == '$' {
        assert doubled == "$$" + rest;
        assert doubled[2..] == rest && MatchAt(doubled) == Some(Escaped);
      } else {
        assert doubled == [s[0]] + rest;
        assert doubled[1..] == rest && MatchAt(doubled) == None;
      }
    }
  }

  /** A reference is replaced by the value as it stands, references and all. */
  lemma ValueIsVerbatim(name: string, value: string, env: map<string, string>)
    requires IsName(name)
    ensures Interpolate("${" + name + "}", env[name := value]) == Ok(value)
  {
    var ts := [Braced(name)];
    assert ts[1..] == [];
    assert Print(ts) == Text(ts[0]) + "";
    InterpolateSubstitutes(ts, "${" + name + "}", env[name := value]);
    assert Substitute(ts[1..], env[name := value]) == Ok("");
    assert value + "" == value;
  }

  // ---- What interpolation does, on the text itself ----

  predicate Letter(c: char) {
    'A' <= c <= 'Z' || 'a' <= c <= 'z'
  }

  /** A name of a variable: letters, digits and underscores, and no digit first. */
  ghost predicate Variable(s: string) {
    && s != "" && (Letter(s[0]) || s[0] == '_')
    && forall i :: 0 <= i < |s| ==> Letter(s[i]) || '0' <= s[i] <= '9' || s[i] == '_'
  }

  /** The text goes on the name before it. */
  ghost predicate Continues(rest: string) {
    rest != "" && (Letter(rest[0]) || '0' <= rest[0] <= '9' || rest[0] == '_')
  }

  ghost function Prefixed(head: string, rest: Result<string, string>): Result<string, string> {
    if rest.Ok? then Ok(head + rest.value) else rest
  }

  lemma VariableIsName(s: string)
    ensures Variable(s) <==> IsName(s)
  {
  }

  lemma Followed(t: Token, rest: string, env: map<string, string>)
    requires Fits(t, rest) && !t.Literal?
    ensures var r := Replacement(t, env);
            Interpolate(Text(t) + rest, env) == if r.Ok? then Prefixed(r.value, Interpolate(rest, env)) else r
  {
    hide Fits, MatchAt;
    MatchesToken(t, rest);
    assert (Text(t) + rest)[|Text(t)|..] == rest;
    assert |Text(t)| > 0;
  }

  /** A reference, with braces or without, becomes the value of its variable, and fails if there is none. */
  lemma ReferenceBecomesValue(name: string, rest: string, env: map<string, string>)
    requires Variable(name)
    ensures Interpolate("${" + name + "}" + rest, env)
            == if name in env then Prefixed(env[name], Interpolate(rest, env)) else Err(name)
    ensures !Continues(rest) ==>
              Interpolate("$" + name + rest, env)
              == if name in env then Prefixed(env[name], Interpolate(rest, env)) else Err(name)
  {
    hide Interpolate, Prefixed;
    VariableIsName(name);
    Followed(Braced(name), rest, env);
    if !Continues(rest) {
      Followed(Bare(name), rest, env);
    }
  }

  /** Two dollar signs become one, and what begins neither an escape nor a reference stays. */
  lemma OtherTextStays(c: char, rest: string, env: map<string, string>)
    ensures Interpolate("$$" + rest, env) == Prefixed("$", Interpolate(rest, env))
    ensures (c == '$' ==>
               && (rest == "" || (rest[0] != '$' && rest[0] != '_' && !Letter(rest[0])))
               && forall name :: Variable(name) ==> !("{" + name + "}" <= rest)) ==>
              Interpolate([c] + rest, env) == Prefixed([c], Interpolate(rest, env))
  {
    Followed(Escaped, rest, env);
    if c == '$' ==>
         && (rest == "" || (rest[0] != '$' && rest[0] != '_' && !Letter(rest[0])))
         && forall name :: Variable(name) ==> !("{" + name + "}" <= rest)
    {
      forall name | IsName(name) ensures Variable(name) {
        VariableIsName(name);
      }
      assert Fits(Literal(c), rest);
      MatchesLiteral(c, rest);
      assert ([c] + rest)[1..] == rest;
    }
  }

  // ---- Whole configurations ----

  /** A parsed configuration value; `id` stands for any number, flag or null. */
  datatype Value = Str(text: string) | Dict(fields: seq<Field>) | List(items: seq<Value>) | Other(id: int)

  datatype Field = Field(key: string, value: Value)

  function InterpolateAll(v: Value, env: map<string, string>): Result<Value, string>
    decreases v, 0
  {
    match v
    case Str(text) =>
      var t :- Interpolate(text, env);
      Ok(Str(t))
    case Dict(fields) =>
      var fs :- InterpolateFields(fields, env);
      Ok(Dict(fs))
    case List(items) =>
      var vs :- InterpolateItems(items, env);
      Ok(List(vs))
    case Other(_) => Ok(v)
  }

  function InterpolateFields(fields: seq<Field>, env: map<string, string>): Result<seq<Field>, string>
    decreases fields, 1
  {
    if fields == [] then Ok([])
    else
      var head :- InterpolateAll(fields[0].value, env);
      var rest :- InterpolateFields(fields[1..], env);
      Ok([Field(fields[0].key, head)] + rest)
  }

  function InterpolateItems(items: seq<Value>, env: map<string, string>): Result<seq<Value>, string>
    decreases items, 1
  {
    if items == [] then Ok([])
    else
      var head :- InterpolateAll(items[0], env);
      var rest :- InterpolateItems(items[1..], env);
      Ok([head] + rest)
  }

  /** The value with every string blanked: its shape, keys and other scalars. */
  function Shape(v: Value): Value
    decreases v, 0
  {
    match v
    case Str(_) => Str("")
    case Dict(fields) => Dict(ShapeFields(fields))
    case List(items) => List(ShapeItems(items))
    case Other(_) => v
  }

  function ShapeFields(fields: seq<Field>): seq<Field>
    decreases fields, 1
  {
    if fields == [] then [] else [Field(fields[0].key, Shape(fields[0].value))] + ShapeFields(fields[1..])
  }

  function ShapeItems(items: seq<Value>): seq<Value>
    decreases items, 1
  {
    if items == [] then [] else [Shape(items[0])] + ShapeItems(items[1..])
  }

  /** Every string of the value, in order. */
  function Texts(v: Value): seq<string>
    decreases v, 0
  {
    match v
    case Str(text) => [text]
    case Dict(fields) => TextsOfFields(fields)
    case List(items) => TextsOfItems(items)
    case Other(_) => []
  }

  function TextsOfFields(fields: seq<Field>): seq<string>
    decreases fields, 1
  {
    if fields == [] then [] else Texts(fields[0].value) + TextsOfFields(fields[1..])
  }

  function TextsOfItems(items: seq<Value>): seq<string>
    decreases items, 1
  {
    if items == [] then [] else Texts(items[0]) + TextsOfItems(items[1..])
  }

  /** Each string interpolated, or the first failure. */
  function InterpolateEach(texts: seq<string>, env: map<string, string>): Result<seq<string>, string> {
    if texts == [] then Ok([])
    else
      var head :- Interpolate(texts[0], env);
      var rest :- InterpolateEach(texts[1..], env);
      Ok([head] + rest)
  }

  lemma {:induction false} EachConcat(a: seq<string>, b: seq<string>, env: map<string, string>)
    ensures InterpolateEach(a + b, env)
            == match InterpolateEach(a, env)
               case Err(e) => Err(e)
               case Ok(x) => (match InterpolateEach(b, env) case Err(e) => Err(e) case Ok(y) => Ok(x + y))
  {
    if a == [] {
      assert a + b == b;
      assert InterpolateEach(b, env).Ok? ==> [] + InterpolateEach(b, env).value == InterpolateEach(b, env).value;
    } else {
      assert (a + b)[1..] == a[1..] + b;
      EachConcat(a[1..], b, env);
      if InterpolateEach(a, env).Ok? && InterpolateEach(b, env).Ok? {
        var head, x, y := Interpolate(a[0], env).value, InterpolateEach(a[1..], env).value, InterpolateEach(b, env).value;
        assert [head] + (x + y) == ([head] + x) + y;
      }
    }
  }

  /**
   * interpolate_all succeeds exactly when every string anywhere in the value can be interpolated,
   * reports the first that cannot, and changes nothing but those strings.
   */
  lemma {:induction false} InterpolateAllMeaning(v: Value, env: map<string, string>)
    ensures match InterpolateEach(Texts(v), env)
            case Ok(texts) =>
              var r := InterpolateAll(v, env);
              r.Ok? && Shape(r.value) == Shape(v) && Texts(r.value) == texts
            case Err(name) => InterpolateAll(v, env) == Err(name)
    decreases v, 0
  {
    match v
    case Str(text) =>
      assert [text][1..] == [];
    case Dict(fields) => FieldsMeaning(fields, env);
    case List(items) => ItemsMeaning(items, env);
    case Other(_) =>
  }

  lemma {:induction false} FieldsMeaning(fields: seq<Field>, env: map<string, string>)
    ensures match InterpolateEach(TextsOfFields(fields), env)
            case Ok(texts) =>
              var r := InterpolateFields(fields, env);
              r.Ok? && ShapeFields(r.value) == ShapeFields(fields) && TextsOfFields(r.value) == texts
            case Err(name) => InterpolateFields(fields, env) == Err(name)
    decreases fields, 1
  {
    if fields == [] {
    } else {
      InterpolateAllMeaning(fields[0].value, env);
      FieldsMeaning(fields[1..], env);
      EachConcat(Texts(fields[0].value), TextsOfFields(fields[1..]), env);
      var r := InterpolateFields(fields, env);
      if r.Ok? {
        assert r.value[1..] == InterpolateFields(fields[1..], env).value;
      }
    }
  }

  lemma {:induction false} ItemsMeaning(items: seq<Value>, env: map<string, string>)
    ensures match InterpolateEach(TextsOfItems(items), env)
            case Ok(texts) =>
              var r := InterpolateItems(items, env);
              r.Ok? && ShapeItems(r.value) == ShapeItems(items) && TextsOfItems(r.value) == texts
            case Err(name) => InterpolateItems(items, env) == Err(name)
    decreases items, 1
  {
    if items == [] {
    } else {
      InterpolateAllMeaning(items[0], env);
      ItemsMeaning(items[1..], env);
      EachConcat(Texts(items[0]), TextsOfItems(items[1..]), env);
      var r := InterpolateItems(items, env);
      if r.Ok? {
        assert r.value[1..] == InterpolateItems(items[1..], env).value;
      }
    }
  }
}
