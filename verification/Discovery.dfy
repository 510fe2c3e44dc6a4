/** Which discovered names are hostnames: the regular expression, and the rule it stands for. */
module Discovery {
  import opened Common
  import opened Strings

  // ---- The fragment of regular expressions the matcher uses ----

  datatype Class = LabelChars | Dot

  datatype Re =
    | Repeat(chars: Class, lo: nat, hi: nat)  // [class]{lo,hi}
    | Then(first: Re, second: Re)
    | Star(body: Re)                            // (?:body)*
    | NotAhead(c: char)                         // (?!c)
    | NotBehind(c: char)                        // (?<!c)
    | EndWithin(lo: nat, hi: nat)               // (?=.{lo,hi}$)

  /** A letter outside ASCII that differs only in case from i, s or k. */
  predicate FoldsToLetter(c: char) {
    c == '\U{0130}' || c == '\U{0131}' || c == '\U{017F}' || c == '\U{212A}'
  }

  /** [a-z0-9_-] ignoring case. */
  predicate IsLabelChar(c: char) {
    'a' <= c <= 'z' || 'A' <= c <= 'Z' || '0' <= c <= '9' || c == '_' || c == '-' || FoldsToLetter(c)
  }

  predicate InClass(c: char, chars: Class) {
    match chars
    case LabelChars => IsLabelChar(c)
    case Dot => c == '.'
  }

  /** `$` holds at the end of the text and before a newline that ends it. */
  ghost predicate AtEnd(s: string, k: nat) {
    k == |s| || (k + 1 == |s| && s[k] == '\n')
  }

  /** `r` can match s[i..j] within s. */
  ghost predicate Matches(r: Re, s: string, i: nat, j: nat)
    requires i <= j <= |s|
    decreases r, j - i
  {
    match r
    case Repeat(chars, lo, hi) => lo <= j - i <= hi && forall k :: i <= k < j ==> InClass(s[k], chars)
    case Then(first, second) => exists k: nat :: i <= k <= j && Matches(first, s, i, k) && Matches(second, s, k, j)
    case Star(body) => i == j || exists k: nat :: i < k <= j && Matches(body, s, i, k) && Matches(r, s, k, j)
    case NotAhead(c) => i == j && !(i < |s| && s[i] == c)
    case NotBehind(c) => i == j && !(i > 0 && s[i - 1] == c)
    case EndWithin(lo, hi) => i == j && exists k: nat :: EndsAfter(s, i, k) && lo <= k - i <= hi
  }

  /** `.` takes s[i..k], no newline among them, and `$` holds at k. */
  ghost predicate EndsAfter(s: string, i: nat, k: nat) {
    i <= k <= |s| && AtEnd(s, k) && forall m :: i <= m < k ==> s[m] != '\n'
  }

  ghost predicate FullMatch(r: Re, s: string) {
    Matches(r, s, 0, |s|)
  }

  /** (?!-)[a-z0-9_-]{1,63}(?<!-) */
  const LABEL: Re := Then(NotAhead('-'), Then(Repeat(LabelChars, 1, 63), NotBehind('-')))

  const DOTTED: Re := Then(Repeat(Dot, 1, 1), LABEL)

  /** The label, any number of further ones after a dot, and at most 253 characters in all. */
  const HOSTNAME: Re := Then(EndWithin(1, 253), Then(LABEL, Star(DOTTED)))

  // ---- The rule, on the dot-separated labels (limits of section 2.3.4 of RFC 1035) ----

  function SplitDots(s: string): (labels: seq<string>)
    ensures labels != []
  {
    if s == "" then [""]
    else
      var rest := SplitDots(s[1..]);
      if s[0] == '.' then [""] + rest else [[s[0]] + rest[0]] + rest[1..]
  }

  predicate IsLabel(l: string) {
    && 1 <= |l| <= 63
    && (forall k :: 0 <= k < |l| ==>
          'a' <= l[k] <= 'z' || 'A' <= l[k] <= 'Z' || '0' <= l[k] <= '9' || l[k] == '-' || l[k] == '_'
          || l[k] in "\U{0130}\U{0131}\U{017F}\U{212A}")
    && l[0] != '-' && l[|l| - 1] != '-'
  }

  predicate AllLabels(labels: seq<string>) {
    forall i :: 0 <= i < |labels| ==> IsLabel(labels[i])
  }

  predicate IsHostname(s: string) {
    1 <= |s| <= 253 && AllLabels(SplitDots(s))
  }

  // ---- The expression accepts exactly the hostnames ----

  lemma SplitThen(a: Re, b: Re, s: string, i: nat, j: nat) returns (k: nat)
    requires i <= j <= |s| && Matches(Then(a, b), s, i, j)
    ensures i <= k <= j && Matches(a, s, i, k) && Matches(b, s, k, j)
  {
    k :| i <= k <= j && Matches(a, s, i, k) && Matches(b, s, k, j);
  }

  lemma JoinThen(a: Re, b: Re, s: string, i: nat, k: nat, j: nat)
    requires i <= k <= j <= |s| && Matches(a, s, i, k) && Matches(b, s, k, j)
    ensures Matches(Then(a, b), s, i, j)
  {
  }

  lemma SplitStar(body: Re, s: string, i: nat, j: nat) returns (k: nat)
    requires i < j <= |s| && Matches(Star(body), s, i, j)
    ensures i < k <= j && Matches(body, s, i, k) && Matches(Star(body), s, k, j)
  {
    k :| i < k <= j && Matches(body, s, i, k) && Matches(Star(body), s, k, j);
  }

  lemma JoinStar(body: Re, s: string, i: nat, k: nat, j: nat)
    requires i < k <= j <= |s| && Matches(body, s, i, k) && Matches(Star(body), s, k, j)
    ensures Matches(Star(body), s, i, j)
  {
  }

  /** A zero-width first part. */
  lemma ThenAt(a: Re, b: Re, s: string, i: nat, j: nat)
    requires i <= j <= |s| && (a.NotAhead? || a.EndWithin?)
    ensures Matches(Then(a, b), s, i, j) <==> Matches(a, s, i, i) && Matches(b, s, i, j)
  {
    if Matches(Then(a, b), s, i, j) {
      var k := SplitThen(a, b, s, i, j);
    }
    if Matches(a, s, i, i) && Matches(b, s, i, j) {
      JoinThen(a, b, s, i, i, j);
    }
  }

  lemma LabelMeaning(s: string, i: nat, j: nat)
    requires i <= j <= |s|
    ensures Matches(LABEL, s, i, j) <==> IsLabel(s[i..j])
  {
    var tail := Then(Repeat(LabelChars, 1, 63), NotBehind('-'));
    assert Matches(tail, s, i, j) <==> Matches(Repeat(LabelChars, 1, 63), s, i, j) && Matches(NotBehind('-'), s, j, j);
    assert Matches(LABEL, s, i, j) <==> Matches(NotAhead('-'), s, i, i) && Matches(tail, s, i, j);
    if i < j {
      assert s[i..j][0] == s[i] && s[i..j][j - i - 1] == s[j - 1];
      if IsLabel(s[i..j]) {
        forall k | i <= k < j ensures IsLabelChar(s[k]) {
          assert s[k] == s[i..j][k - i];
        }
      }
      if Matches(Repeat(LabelChars, 1, 63), s, i, j) {
        forall k | 0 <= k < j - i ensures IsLabelChar(s[i..j][k]) {
          assert s[i..j][k] == s[i + k];
        }
      }
    }
  }

  lemma DottedMeaning(s: string, i: nat, j: nat)
    requires i <= j <= |s|
    ensures Matches(DOTTED, s, i, j) <==> i < j && s[i] == '.' && IsLabel(s[i + 1..j])
  {
    if Matches(DOTTED, s, i, j) {
      var k := SplitThen(Repeat(Dot, 1, 1), LABEL, s, i, j);
      assert k == i + 1 && InClass(s[i], Dot);
      LabelMeaning(s, i + 1, j);
    }
    if i < j && s[i] == '.' && IsLabel(s[i + 1..j]) {
      LabelMeaning(s, i + 1, j);
      JoinThen(Repeat(Dot, 1, 1), LABEL, s, i, i + 1, j);
    }
  }

  /** Splitting at a dot-free front. */
  lemma {:induction false} SplitFront(front: string, rest: string)
    requires '.' !in front
    ensures SplitDots(front + "." + rest) == [front] + SplitDots(rest)
    ensures SplitDots(front) == [front]
  {
    var s := front + "." + rest;
    if front == "" {
      assert s[1..] == rest;
    } else {
      assert s[1..] == front[1..] + "." + rest;
      assert front == [front[0]] + front[1..];
      SplitFront(front[1..], rest);
    }
  }

  lemma LabelHasNoDot(l: string)
    requires IsLabel(l)
    ensures '.' !in l
  {
  }

  /** The labels of `s` are its text up to the first dot and the labels after it. */
  lemma {:induction false} FirstDot(s: string) returns (n: nat)
    ensures n <= |s| && '.' !in s[..n] && (n < |s| ==> s[n] == '.')
    ensures n == |s| ==> SplitDots(s) == [s]
    ensures n < |s| ==> SplitDots(s) == [s[..n]] + SplitDots(s[n + 1..])
  {
    if s == "" || s[0] == '.' {
      n := 0;
    } else {
      var m := FirstDot(s[1..]);
      n := m + 1;
      assert s[..n] == [s[0]] + s[1..][..m];
      if n < |s| {
        assert s == s[..n] + "." + s[n + 1..];
        SplitFront(s[..n], s[n + 1..]);
      } else {
        assert s[..n] == s;
        SplitFront(s, "");
      }
    }
  }

  /** Further labels: the starred group matches a text that is empty or a dot and more labels. */
  lemma {:induction false} MoreLabels(s: string, i: nat)
    requires i <= |s|
    ensures Matches(Star(DOTTED), s, i, |s|) <==> i == |s| || (s[i] == '.' && AllLabels(SplitDots(s[i + 1..])))
    decreases |s| - i
  {
    hide IsLabel, SplitDots;
    if i < |s| {
      if Matches(Star(DOTTED), s, i, |s|) {
        var k := SplitStar(DOTTED, s, i, |s|);
        DottedMeaning(s, i, k);
        MoreLabels(s, k);
        LabelsFrom(s, i, k);
      }
      if s[i] == '.' && AllLabels(SplitDots(s[i + 1..])) {
        var n := FirstDot(s[i + 1..]);
        var k := i + 1 + n;
        assert SplitDots(s[i + 1..])[0] == s[i + 1..][..n] == s[i + 1..k];
        assert k < |s| ==> SplitDots(s[i + 1..])[1..] == SplitDots(s[i + 1..][n + 1..]) && s[i + 1..][n + 1..] == s[k + 1..];
        DottedMeaning(s, i, k);
        MoreLabels(s, k);
        JoinStar(DOTTED, s, i, k, |s|);
      }
    }
  }

  /** A label followed by nothing, or by a dot and more labels, splits into just those. */
  lemma LabelsFrom(s: string, i: nat, k: nat)
    requires i < k <= |s| && s[i] == '.' && IsLabel(s[i + 1..k])
    requires k == |s| || (s[k] == '.' && AllLabels(SplitDots(s[k + 1..])))
    ensures AllLabels(SplitDots(s[i + 1..]))
  {
    LabelHasNoDot(s[i + 1..k]);
    hide IsLabel;
    if k == |s| {
      assert s[i + 1..] == s[i + 1..k];
      SplitFront(s[i + 1..k], "");
    } else {
      assert s[i + 1..] == s[i + 1..k] + "." + s[k + 1..];
      SplitFront(s[i + 1..k], s[k + 1..]);
    }
  }

  /** A first label and further ones. */
  lemma LabelsMeaning(s: string)
    ensures Matches(Then(LABEL, Star(DOTTED)), s, 0, |s|) <==> AllLabels(SplitDots(s))
  {
    hide IsLabel, Matches, SplitDots, AllLabels;
    if Matches(Then(LABEL, Star(DOTTED)), s, 0, |s|) {
      MatchSplits(s);
    }
    if AllLabels(SplitDots(s)) {
      SplitMatches(s);
    }
  }

  lemma MatchSplits(s: string)
    requires Matches(Then(LABEL, Star(DOTTED)), s, 0, |s|)
    ensures AllLabels(SplitDots(s))
  {
    hide IsLabel, Matches, SplitDots;
    var dotted := "." + s;
    var k := SplitThen(LABEL, Star(DOTTED), s, 0, |s|);
    LabelMeaning(s, 0, k);
    MoreLabels(s, k);
    assert dotted[1..] == s && dotted[1..k + 1] == s[0..k];
    assert k < |s| ==> dotted[k + 1] == s[k] && dotted[k + 2..] == s[k + 1..];
    LabelsFrom(dotted, 0, k + 1);
  }

  lemma SplitMatches(s: string)
    requires AllLabels(SplitDots(s))
    ensures Matches(Then(LABEL, Star(DOTTED)), s, 0, |s|)
  {
    hide IsLabel, Matches, SplitDots;
    var n := FirstDot(s);
    assert s[..n] == s[0..n] && SplitDots(s)[0] == s[0..n];
    assert n < |s| ==> SplitDots(s)[1..] == SplitDots(s[n + 1..]);
    LabelMeaning(s, 0, n);
    MoreLabels(s, n);
    JoinThen(LABEL, Star(DOTTED), s, 0, n, |s|);
  }

  lemma {:induction false} SplitChars(s: string, c: char)
    requires AllLabels(SplitDots(s)) && c in s
    ensures c == '.' || IsLabelChar(c)
    decreases |s|
  {
    var n := FirstDot(s);
    if c in s[..n] {
      var m :| 0 <= m < n && s[..n][m] == c;
      assert SplitDots(s)[0] == s[..n];
    } else if c != '.' {
      assert n < |s| && s == s[..n] + ["."[0]] + s[n + 1..];
      assert SplitDots(s)[1..] == SplitDots(s[n + 1..]);
      SplitChars(s[n + 1..], c);
    }
  }

  /** The expression matches a whole text exactly when the text is a hostname. */
  lemma HostnameExactly(s: string)
    ensures FullMatch(HOSTNAME, s) <==> IsHostname(s)
  {
    LabelsMeaning(s);
    hide SplitDots, IsLabel;
    var labels := Then(LABEL, Star(DOTTED));
    ThenAt(EndWithin(1, 253), labels, s, 0, |s|);
    if AllLabels(SplitDots(s)) {
      NoNewline(s);
      if Matches(EndWithin(1, 253), s, 0, 0) {
        var k: nat :| EndsAfter(s, 0, k) && 1 <= k <= 253;
        assert k == |s|;
      }
      assert EndsAfter(s, 0, |s|);
    }
  }

  lemma NoNewline(s: string)
    requires AllLabels(SplitDots(s))
    ensures forall k :: 0 <= k < |s| ==> s[k] != '\n'
  {
    hide SplitDots, AllLabels;
    forall k | 0 <= k < |s| ensures s[k] != '\n' {
      SplitChars(s, s[k]);
    }
  }

  // ---- Extracting the hostnames of an inventory ----

  /** A JSON value in a record's `hostnames`: a string, or something else. */
  datatype Json = Text(value: string) | NotText

  /** A record's `hostnames`: absent, null or a list. */
  type Record = Option<seq<Json>>

  /** The names the records mention that are not wildcards. */
  ghost predicate Mentioned(records: seq<Record>, name: string) {
    exists i :: 0 <= i < |records| && records[i].Some? && Text(name) in records[i].value && '*' !in name
  }

  /**
   * _extract_hostnames: the sorted hostnames among the concrete names mentioned, and how many
   * different ones were not hostnames.
   */
  method ExtractHostnames(records: seq<Record>) returns (hostnames: seq<string>, skipped: nat, ghost invalid: set<string>)
    ensures StrictlySorted(hostnames)
    ensures forall name :: name in hostnames <==> Mentioned(records, name) && '*' !in name && IsHostname(name)
    ensures forall name :: name in invalid <==> Mentioned(records, name) && '*' !in name && !IsHostname(name)
    ensures skipped == |invalid|
  {
    hide IsHostname, StrictlySorted;
    var names: set<string> := {};
    var bad: set<string> := {};
    for i := 0 to |records|
      invariant forall name :: name in names <==> Mentioned(records[..i], name) && IsHostname(name)
      invariant forall name :: name in bad <==> Mentioned(records[..i], name) && !IsHostname(name)
    {
      var found := if records[i].Some? then records[i].value else [];
      ghost var names0, bad0 := names, bad;
      for j := 0 to |found|
        invariant forall name :: name in names <==>
                    name in names0 || (Text(name) in found[..j] && '*' !in name && IsHostname(name))
        invariant forall name :: name in bad <==>
                    name in bad0 || (Text(name) in found[..j] && '*' !in name && !IsHostname(name))
      {
        assert found[..j + 1] == found[..j] + [found[j]];
        if found[j].Text? && '*' !in found[j].value {
          if IsHostname(found[j].value) {
            names := names + {found[j].value};
          } else {
            bad := bad + {found[j].value};
          }
        }
      }
      assert found[..|found|] == found;
      forall name ensures Mentioned(records[..i + 1], name) <==>
                          Mentioned(records[..i], name) || (Text(name) in found && '*' !in name)
      {
        MentionedSnoc(records, i, name);
      }
    }
    assert records[..|records|] == records;
    SortSetStrictlySorted(names);
    hostnames := SortedSet(names);
    skipped, invalid := |bad|, bad;
  }

  lemma MentionedSnoc(records: seq<Record>, i: nat, name: string)
    requires i < |records|
    ensures Mentioned(records[..i + 1], name) <==>
              || Mentioned(records[..i], name)
              || (records[i].Some? && Text(name) in records[i].value && '*' !in name)
  {
    var all := records[..i + 1];
    assert forall k :: 0 <= k < i ==> all[k] == records[..i][k];
    assert all[i] == records[i];
  }
}
