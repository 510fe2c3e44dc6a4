/** Prometheus labels, and the agreement of the problem metric with the alerts. */
module Metrics {
  import opened Common
  import opened Models
  import opened Strings
  import opened Evaluator

  // ---- Printing ----

  /** Three replacements, one after the other over the whole text. */
  function EscapeLabel(value: string): string {
    ReplaceChar(ReplaceChar(ReplaceChar(value, '\\', "\\\\"), '"', "\\\""), '\n', "\\n")
  }

  type Label = (string, string)

  function RenderLabel(l: Label): string {
    l.0 + "=\"" + EscapeLabel(l.1) + "\""
  }

  function RenderInner(labels: seq<Label>): string {
    if labels == [] then ""
    else if |labels| == 1 then RenderLabel(labels[0])
    else RenderLabel(labels[0]) + "," + RenderInner(labels[1..])
  }

  function RenderLabels(labels: seq<Label>): string {
    "{" + RenderInner(labels) + "}"
  }

  // ---- The escape as one pass ----

  function EscapeChar(c: char): string {
    if c == '\\' then "\\\\" else if c == '"' then "\\\"" else if c == '\n' then "\\n" else [c]
  }

  function EscapeEach(value: string): string {
    if value == "" then "" else EscapeChar(value[0]) + EscapeEach(value[1..])
  }

  lemma ReplaceOne(c: char, from: char, text: string)
    ensures ReplaceChar([c], from, text) == if c == from then text else [c]
  {
    assert [c][1..] == "";
    assert text + "" == text;
  }

  /** No replacement undoes or repeats an earlier one: together they are a map of single characters. */
  lemma {:induction false} EscapeFusion(value: string)
    ensures EscapeLabel(value) == EscapeEach(value)
  {
    if value == "" {
    } else {
      var c, rest := value[0], value[1..];
      EscapeFusion(rest);
      EscapeOneChar(c);
      var a := ReplaceChar([c], '\\', "\\\\");
      ReplaceOne(c, '\\', "\\\\");
      assert ReplaceChar(value, '\\', "\\\\") == a + ReplaceChar(rest, '\\', "\\\\");
      ReplaceCharConcat(a, ReplaceChar(rest, '\\', "\\\\"), '"', "\\\"");
      var b := ReplaceChar(a, '"', "\\\"");
      ReplaceCharConcat(b, ReplaceChar(ReplaceChar(rest, '\\', "\\\\"), '"', "\\\""), '\n', "\\n");
    }
  }

  lemma EscapeOneChar(c: char)
    ensures EscapeLabel([c]) == EscapeChar(c)
  {
    ReplaceOne(c, '\\', "\\\\");
    if c == '\\' {
      ReplaceTwo('\\', '\\', '"', "\\\"");
      ReplaceTwo('\\', '\\', '\n', "\\n");
    } else {
      ReplaceOne(c, '"', "\\\"");
      if c == '"' {
        ReplaceTwo('\\', '"', '\n', "\\n");
      } else {
        ReplaceOne(c, '\n', "\\n");
      }
    }
  }

  lemma ReplaceTwo(a: char, b: char, from: char, text: string)
    requires a != from && b != from
    ensures ReplaceChar([a, b], from, text) == [a, b]
  {
    assert [a, b][1..] == [b];
    ReplaceOne(b, from, text);
  }

  // ---- Reading labels back, by the syntax of the Prometheus text exposition format ----

  predicate IsNameStart(c: char) {
    'A' <= c <= 'Z' || 'a' <= c <= 'z' || c == '_'
  }

  predicate IsNameChar(c: char) {
    IsNameStart(c) || '0' <= c <= '9'
  }

  /** Label names match [a-zA-Z_][a-zA-Z0-9_]*. */
  ghost predicate IsLabelName(s: string) {
    && s != "" && !('0' <= s[0] <= '9')
    && forall i :: 0 <= i < |s| ==>
         'a' <= s[i] <= 'z' || 'A' <= s[i] <= 'Z' || '0' <= s[i] <= '9' || s[i] == '_'
  }

  function NameEnd(s: string): (n: nat)
    ensures n <= |s|
  {
    if s == "" || !IsNameChar(s[0]) then 0 else 1 + NameEnd(s[1..])
  }

  /** The text up to the closing quote, with its escapes resolved, and what follows the quote. */
  function ParseQuoted(s: string): Option<(string, string)> {
    if s == "" || s[0] == '\n' then None
    else if s[0] == '"' then Some(("", s[1..]))
    else if s[0] == '\\' then
      if |s| < 2 then None
      else
        var c :- (if s[1] == '\\' then Some('\\') else if s[1] == '"' then Some('"') else if s[1] == 'n' then Some('\n') else None);
        var rest :- ParseQuoted(s[2..]);
        Some(([c] + rest.0, rest.1))
    else
      var rest :- ParseQuoted(s[1..]);
      Some(([s[0]] + rest.0, rest.1))
  }

  /** One `name="value"`, and what follows it. */
  function ParseLabel(s: string): (p: Option<(Label, string)>)
  {
    var n := NameEnd(s);
    if n == 0 || !IsNameStart(s[0]) || |s| < n + 2 || s[n] != '=' || s[n + 1] != '"' then None
    else
      var value :- ParseQuoted(s[n + 2..]);
      Some(((s[..n], value.0), value.1))
  }

  /** The labels after an opening brace or a comma, and what follows the closing brace. */
  function ParseRest(s: string, fuel: nat): Option<(seq<Label>, string)>
    decreases fuel
  {
    if fuel == 0 then None
    else
      var first :- ParseLabel(s);
      if first.1 == "" then None
      else if first.1[0] == '}' then Some(([first.0], first.1[1..]))
      else if first.1[0] == ',' then
        var others :- ParseRest(first.1[1..], fuel - 1);
        Some(([first.0] + others.0, others.1))
      else None
  }

  /** A brace-enclosed label list at the front of `s`; no list has more labels than characters. */
  function ParseLabels(s: string): Option<(seq<Label>, string)> {
    if s == "" || s[0] != '{' then None
    else if |s| > 1 && s[1] == '}' then Some(([], s[2..]))
    else ParseRest(s[1..], |s|)
  }

  lemma {:induction false} ParseQuotedInverts(value: string, rest: string)
    ensures ParseQuoted(EscapeEach(value) + ("\"" + rest)) == Some((value, rest))
  {
    var tail := "\"" + rest;
    if value == "" {
      assert EscapeEach(value) + tail == tail && tail[1..] == rest;
    } else {
      var inner := EscapeEach(value[1..]) + tail;
      ParseQuotedInverts(value[1..], rest);
      ParseQuotedStep(value[0], inner, value[1..], rest);
      assert value == [value[0]] + value[1..];
      assert EscapeEach(value) + tail == EscapeChar(value[0]) + inner;
    }
  }

  lemma ParseQuotedStep(c: char, inner: string, value: string, rest: string)
    requires ParseQuoted(inner) == Some((value, rest))
    ensures ParseQuoted(EscapeChar(c) + inner) == Some(([c] + value, rest))
  {
    var s := EscapeChar(c) + inner;
    if |EscapeChar(c)| == 2 {
      assert s[2..] == inner;
    } else {
      assert s[1..] == inner;
    }
  }

  lemma {:induction false} NameEndOf(name: string, rest: string)
    requires forall i :: 0 <= i < |name| ==> IsNameChar(name[i])
    requires rest != "" && !IsNameChar(rest[0])
    ensures NameEnd(name + rest) == |name|
  {
    if name == "" {
      assert name + rest == rest;
    } else {
      assert (name + rest)[1..] == name[1..] + rest;
      NameEndOf(name[1..], rest);
    }
  }

  lemma ParseLabelInverts(l: Label, rest: string)
    requires IsLabelName(l.0)
    ensures ParseLabel(RenderLabel(l) + rest) == Some((l, rest))
  {
    EscapeFusion(l.1);
    hide ParseQuoted, EscapeLabel, EscapeEach, NameEnd;
    var s := RenderLabel(l) + rest;
    var quoted := EscapeEach(l.1) + ("\"" + rest);
    assert s == l.0 + ("=\"" + quoted);
    NameEndOf(l.0, "=\"" + quoted);
    assert s[|l.0| + 2..] == quoted;
    ParseQuotedInverts(l.1, rest);
  }

  lemma {:induction false} ParseRestInverts(labels: seq<Label>, rest: string, fuel: nat)
    requires labels != [] && |labels| <= fuel
    requires forall i :: 0 <= i < |labels| ==> IsLabelName(labels[i].0)
    ensures ParseRest(RenderInner(labels) + "}" + rest, fuel) == Some((labels, rest))
  {
    hide ParseLabel, RenderLabel;
    var s := RenderInner(labels) + "}" + rest;
    if |labels| == 1 {
      assert s == RenderLabel(labels[0]) + ("}" + rest);
      ParseLabelInverts(labels[0], "}" + rest);
      assert ("}" + rest)[1..] == rest && labels == [labels[0]];
    } else {
      var inner := RenderInner(labels[1..]) + "}" + rest;
      assert s == RenderLabel(labels[0]) + ("," + inner);
      ParseLabelInverts(labels[0], "," + inner);
      ParseRestInverts(labels[1..], rest, fuel - 1);
      assert ("," + inner)[1..] == inner && labels == [labels[0]] + labels[1..];
    }
  }

  lemma {:induction false} InnerLength(labels: seq<Label>)
    ensures |RenderInner(labels)| >= |labels|
  {
    if |labels| > 1 {
      InnerLength(labels[1..]);
    }
  }

  lemma InnerStartsWithName(labels: seq<Label>)
    requires labels != [] && IsLabelName(labels[0].0)
    ensures RenderInner(labels) != "" && IsNameStart(RenderInner(labels)[0])
  {
  }

  /** Whatever the values hold, reading rendered labels gives back the very list that was rendered. */
  lemma LabelRoundTrip(labels: seq<Label>, rest: string)
    requires forall i :: 0 <= i < |labels| ==> IsLabelName(labels[i].0)
    ensures ParseLabels(RenderLabels(labels) + rest) == Some((labels, rest))
  {
    var s := RenderLabels(labels) + rest;
    if labels == [] {
      assert s == "{}" + rest && s[2..] == rest;
    } else {
      InnerStartsWithName(labels);
      InnerLength(labels);
      hide RenderInner, ParseRest;
      assert s[1..] == RenderInner(labels) + "}" + rest;
      ParseRestInverts(labels, rest, |s|);
    }
  }

  // ---- Which problems are exported ----

  function KindValues(events: seq<Event>): seq<string> {
    if events == [] then [] else [events[0].kind.Value()] + KindValues(events[1..])
  }

  /** The kind value of every problem on a result, expected ones included. */
  function ProblemKinds(r: CheckResult): seq<string> {
    if !r.reachable then ["unreachable"] else KindValues(DetectProblems(r))
  }

  lemma {:induction false} KindValuesMembers(events: seq<Event>, value: string)
    ensures value in KindValues(events) <==> exists e :: e in events && e.kind.Value() == value
  {
    if events == [] {
    } else {
      assert events == [events[0]] + events[1..];
      KindValuesMembers(events[1..], value);
    }
  }

  lemma {:induction false} KindValuesAt(events: seq<Event>)
    ensures |KindValues(events)| == |events|
    ensures forall i :: 0 <= i < |events| ==> KindValues(events)[i] == events[i].kind.Value()
  {
    if events == [] {
    } else {
      KindValuesAt(events[1..]);
    }
  }

  /** No problem is exported twice. */
  lemma KindsDiffer(r: CheckResult)
    ensures forall i, j :: 0 <= i < j < |ProblemKinds(r)| ==> ProblemKinds(r)[i] != ProblemKinds(r)[j]
  {
    hide DetectProblems;
    var events := DetectProblems(r);
    DetectProblemsDistinct(r);
    KindValuesAt(events);
    forall i, j | 0 <= i < j < |events| ensures events[i].kind.Value() != events[j].kind.Value() {
      if events[i].kind.Value() == events[j].kind.Value() {
        KindValueInjective(events[i].kind, events[j].kind);
      }
    }
  }

  /**
   * The metric and the alerts look at the same problems: what the evaluator tracks on a reachable
   * target is what is exported and not expected; an unreachable one is exported even when expected.
   */
  lemma MetricsAgreeWithAlerts(r: CheckResult, value: string)
    requires '|' !in value
    ensures r.reachable ==>
              (KeyText(r.target.name, value) in Observe(r).problems
               <==> value in ProblemKinds(r) && value !in r.target.expected)
    ensures !r.reachable ==>
              (KeyText(r.target.name, value) in Observe(r).problems <==> value in ProblemKinds(r))
    ensures forall i, j :: 0 <= i < j < |ProblemKinds(r)| ==> ProblemKinds(r)[i] != ProblemKinds(r)[j]
  {
    KindsDiffer(r);
    var name, key := r.target.name, KeyText(r.target.name, value);
    ObserveProper(r);
    if r.reachable {
      KindValuesMembers(DetectProblems(r), value);
      forall e | e in DetectProblems(r) ensures e.Key() == key <==> e.kind.Value() == value {
        DetectProblemsDistinct(r);
        KindValueHasNoBar(e.kind);
        if e.Key() == key {
          KeyTextInjective(name, e.kind.Value(), name, value);
        }
      }
    } else {
      KindValueHasNoBar(EventKind.Unreachable);
      if key == UnreachableKey(name) {
        KeyTextInjective(name, EventKind.Unreachable.Value(), name, value);
      }
    }
  }
}
