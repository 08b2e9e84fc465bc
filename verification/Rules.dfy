/** The small pure rules of the interface: e-mail validation, HTML
    escaping, the swipe commit threshold, the task search filter and the
    tutorial's step counter. */
module Rules {
  import opened JsValues
  import opened Text
  import opened Lists

  // ---------------------------------------------------------------------
  // E-mail validation
  // ---------------------------------------------------------------------

  /** A character `[^\s@]` accepts. */
  predicate Plain(c: char) { !IsSpace(c) && c != '@' }

  predicate AllPlain(t: string) {
    forall k :: 0 <= k < |t| ==> Plain(t[k])
  }

  /** The pattern `^[^\s@]+@[^\s@]+\.[^\s@]+$` matched with its `@` at
      `i` and the `.` it uses at `j`. */
  predicate SplitAt(s: string, i: int, j: int) {
    0 < i && i + 1 < j && j + 1 < |s| && s[i] == '@' && s[j] == '.'
    && AllPlain(s[..i]) && AllPlain(s[i + 1..j]) && AllPlain(s[j + 1..])
  }

  /** The regular expression, as the set of strings it accepts. */
  ghost predicate EmailPattern(s: string) {
    exists i, j :: SplitAt(s, i, j)
  }

  predicate IsAt(c: char) { c == '@' }

  /** isValidEmail: one scan for the first `@`; a non-empty local part;
      no white space anywhere; no second `@`; and a `.` after the `@`
      with a character on either side of it. */
  function IsValidEmail(s: string): bool {
    match FirstMatch(s, IsAt)
    case None => false
    case Some(i) =>
      var domain := s[i + 1..];
      0 < i && (forall k :: 0 <= k < |s| ==> !IsSpace(s[k]))
      && (forall k :: 0 <= k < |domain| ==> domain[k] != '@')
      && |domain| >= 3 && '.' in domain[1..|domain| - 1]
  }

  /** The scan accepts exactly the strings the regular expression does. */
  lemma IsValidEmailIsPattern(s: string)
    ensures IsValidEmail(s) <==> EmailPattern(s)
  {
    if IsValidEmail(s) {
      ScanImpliesPattern(s);
    }
    if EmailPattern(s) {
      var i, j :| SplitAt(s, i, j);
      PatternImpliesScan(s, i, j);
    }
  }

  /** A string the scan accepts splits as the pattern requires. */
  lemma ScanImpliesPattern(s: string)
    requires IsValidEmail(s)
    ensures EmailPattern(s)
  {
    var i := FirstMatch(s, IsAt).value;
    var domain := s[i + 1..];
    var k :| 0 <= k < |domain[1..|domain| - 1]| && domain[1..|domain| - 1][k] == '.';
    var j := i + 2 + k;
    assert s[j] == '.';
    assert AllPlain(s[..i]) by {
      forall m | 0 <= m < i ensures Plain(s[..i][m]) {
        assert !IsAt(s[m]);
      }
    }
    var host, tld := s[i + 1..j], s[j + 1..];
    assert AllPlain(host) by {
      forall m | 0 <= m < |host| ensures Plain(host[m]) {
        assert host[m] == domain[m];
      }
    }
    assert AllPlain(tld) by {
      forall m | 0 <= m < |tld| ensures Plain(tld[m]) {
        assert tld[m] == domain[j - i + m];
      }
    }
    assert SplitAt(s, i, j);
  }

  /** A string the pattern matches passes the scan. */
  lemma PatternImpliesScan(s: string, i: int, j: int)
    requires SplitAt(s, i, j)
    ensures IsValidEmail(s)
  {
    forall m | 0 <= m < i ensures !IsAt(s[m]) {
      assert s[m] == s[..i][m];
    }
    FirstMatchIsFirst(s, IsAt, i);
    var domain := s[i + 1..];
    forall k | 0 <= k < |s| ensures !IsSpace(s[k]) {
      if k < i { assert s[k] == s[..i][k]; }
      else if i < k < j { assert s[k] == s[i + 1..j][k - i - 1]; }
      else if j < k { assert s[k] == s[j + 1..][k - j - 1]; }
    }
    forall k | 0 <= k < |domain| ensures domain[k] != '@' {
      if k < j - i - 1 { assert domain[k] == s[i + 1..j][k]; }
      else if k > j - i - 1 { assert domain[k] == s[j + 1..][k - (j - i)]; }
    }
    assert domain[1..|domain| - 1][j - i - 2] == '.';
  }

  /** validateEmail's answer. */
  datatype Verdict = Verdict(isValid: bool, message: string)

  /** validateEmail: lower-case, trim, then "required", "invalid" or
      "valid". */
  function ValidateEmail(email: string): (v: Verdict)
    ensures v.isValid <==> EmailPattern(Trim(Lower(email)))
    ensures Trim(Lower(email)) == "" <==> v == Verdict(false, "Email is required")
    ensures v.message == "Please enter a valid email address" <==>
      Trim(Lower(email)) != "" && !EmailPattern(Trim(Lower(email)))
    ensures v.isValid <==> v.message == "Valid email"
  {
    var emailLower := Trim(Lower(email));
    IsValidEmailIsPattern(emailLower);
    if emailLower == "" then Verdict(false, "Email is required")
    else if !IsValidEmail(emailLower) then Verdict(false, "Please enter a valid email address")
    else Verdict(true, "Valid email")
  }

  // ---------------------------------------------------------------------
  // HTML escaping
  // ---------------------------------------------------------------------

  predicate Special(c: char) { c == '&' || c == '<' || c == '>' || c == '"' }

  /** A character that cannot open a tag or close an attribute value. */
  predicate Inert(c: char) { c != '<' && c != '>' && c != '"' }

  predicate AllInert(t: string) {
    forall k :: 0 <= k < |t| ==> Inert(t[k])
  }

  predicate NoSpecial(t: string) {
    forall k :: 0 <= k < |t| ==> !Special(t[k])
  }

  function Entity(c: char): (e: string)
    ensures AllInert(e)
    ensures !Special(c) ==> e == [c]
  {
    match c
    case '&' => "&amp;"
    case '<' => "&lt;"
    case '>' => "&gt;"
    case '"' => "&quot;"
    case _ => [c]
  }

  /** The `replace(/[&<>"]/g, ...)` step. */
  function Escape(s: string): (r: string)
    ensures |r| >= |s|
    ensures AllInert(r)
    ensures NoSpecial(s) ==> r == s
  {
    if s == [] then []
    else
      var head := Entity(s[0]);
      var rest := Escape(s[1..]);
      assert NoSpecial(s) ==> NoSpecial(s[1..]) by {
        if NoSpecial(s) {
          forall k | 0 <= k < |s[1..]| ensures !Special(s[1..][k]) { assert s[1..][k] == s[k + 1]; }
        }
      }
      assert AllInert(head + rest) by {
        forall k | 0 <= k < |head + rest| ensures Inert((head + rest)[k]) {
          if k < |head| { assert (head + rest)[k] == head[k]; }
          else { assert (head + rest)[k] == rest[k - |head|]; }
        }
      }
      assert NoSpecial(s) ==> s == [s[0]] + s[1..];
      head + rest
  }

  /** Decoding the four entities escapeHtml produces. */
  function Unescape(s: string): string
    decreases |s|
  {
    if s == [] then []
    else if |s| >= 5 && s[..5] == "&amp;" then "&" + Unescape(s[5..])
    else if |s| >= 4 && s[..4] == "&lt;" then "<" + Unescape(s[4..])
    else if |s| >= 4 && s[..4] == "&gt;" then ">" + Unescape(s[4..])
    else if |s| >= 6 && s[..6] == "&quot;" then "\"" + Unescape(s[6..])
    else [s[0]] + Unescape(s[1..])
  }

  lemma UnescapeAmp(rest: string)
    ensures Unescape("&amp;" + rest) == "&" + Unescape(rest)
  {
    var e := "&amp;" + rest;
    assert e[..5] == "&amp;" && e[5..] == rest;
  }

  lemma UnescapeLt(rest: string)
    ensures Unescape("&lt;" + rest) == "<" + Unescape(rest)
  {
    var e := "&lt;" + rest;
    assert e[1] == 'l';
    assert e[..4] == "&lt;" && e[4..] == rest;
  }

  lemma UnescapeGt(rest: string)
    ensures Unescape("&gt;" + rest) == ">" + Unescape(rest)
  {
    var e := "&gt;" + rest;
    assert e[1] == 'g';
    assert e[..4] == "&gt;" && e[4..] == rest;
  }

  lemma UnescapeQuot(rest: string)
    ensures Unescape("&quot;" + rest) == "\"" + Unescape(rest)
  {
    var e := "&quot;" + rest;
    assert e[1] == 'q';
    assert e[..6] == "&quot;" && e[6..] == rest;
  }

  lemma UnescapePlain(c: char, rest: string)
    requires c != '&'
    ensures Unescape([c] + rest) == [c] + Unescape(rest)
  {
    var e := [c] + rest;
    assert e[0] == c && e[1..] == rest;
  }

  /** Decoding an escaped character and what follows it. */
  lemma UnescapeEntity(c: char, rest: string)
    ensures Unescape(Entity(c) + rest) == [c] + Unescape(rest)
  {
    match c
    case '&' => UnescapeAmp(rest);
    case '<' => UnescapeLt(rest);
    case '>' => UnescapeGt(rest);
    case '"' => UnescapeQuot(rest);
    case _ => UnescapePlain(c, rest);
  }

  /** Escaping loses nothing: decoding the entities gives the text back. */
  lemma {:induction false} UnescapeEscape(s: string)
    ensures Unescape(Escape(s)) == s
  {
    if s != [] {
      UnescapeEscape(s[1..]);
      UnescapeEntity(s[0], Escape(s[1..]));
      assert s == [s[0]] + s[1..];
    }
  }

  /** escapeHtml: a falsy argument gives the empty string, anything else
      is converted with String(...) and escaped. */
  function EscapeHtml(v: Option<Value>): (r: string)
    ensures !Truthy(v) ==> r == ""
    ensures Truthy(v) ==> Unescape(r) == ToJsString(v)
    ensures AllInert(r)
  {
    if !Truthy(v) then ""
    else
      UnescapeEscape(ToJsString(v));
      Escape(ToJsString(v))
  }

  // ---------------------------------------------------------------------
  // Swipe commit rule
  // ---------------------------------------------------------------------

  const SwipeThreshold: real := 80.0

  datatype SwipeAction = Archive | Delete | SnapBack

  /** onEnd: a drag further than the threshold commits, left to archive
      and right to delete; anything shorter snaps back. */
  function SwipeDecision(dx: real): (a: SwipeAction)
    ensures a == Archive <==> dx < -SwipeThreshold
    ensures a == Delete <==> dx > SwipeThreshold
    ensures a == SnapBack <==> -SwipeThreshold <= dx <= SwipeThreshold
  {
    var magnitude := if dx < 0.0 then -dx else dx;
    if magnitude > SwipeThreshold then (if dx < 0.0 then Archive else Delete)
    else SnapBack
  }

  // ---------------------------------------------------------------------
  // Search filter
  // ---------------------------------------------------------------------

  /** `t.description || t.desc || ''` */
  function DescriptionOf(t: Record): Option<Value> {
    if Truthy(Get(t, "description")) then Get(t, "description")
    else if Truthy(Get(t, "desc")) then Get(t, "desc")
    else Some(Str(""))
  }

  /** The text a task is searched by, lower-cased. */
  function SearchText(t: Record): string {
    Lower(ToJsString(Get(t, "title")) + " " + ToJsString(DescriptionOf(t)))
  }

  /** The query the input box yields. */
  function Query(input: string): string {
    Lower(Trim(input))
  }

  predicate Hit(t: Record, q: string) {
    Contains(SearchText(t), q)
  }

  /** The search box's `tasks.filter(...)`. */
  function SearchFilter(tasks: seq<Record>, input: string): (r: seq<Record>)
    ensures |r| <= |tasks|
    ensures forall t :: t in r <==> t in tasks && Hit(t, Query(input))
  {
    if tasks == [] then []
    else
      var front := SearchFilter(tasks[..|tasks| - 1], input);
      var last := tasks[|tasks| - 1];
      assert tasks == tasks[..|tasks| - 1] + [last];
      if Hit(last, Query(input)) then front + [last] else front
  }

  /** The filter keeps the list's order: filtering a concatenation is
      concatenating the filtered parts. */
  lemma {:induction false} SearchFilterConcat(a: seq<Record>, b: seq<Record>, input: string)
    ensures SearchFilter(a + b, input) == SearchFilter(a, input) + SearchFilter(b, input)
    decreases |b|
  {
    if b != [] {
      var front := b[..|b| - 1];
      SearchFilterConcat(a, front, input);
      assert (a + b)[..|a + b| - 1] == a + front;
      assert (a + b)[|a + b| - 1] == b[|b| - 1];
    } else {
      assert a + b == a;
    }
  }

  /** An empty or blank query shows every task. */
  lemma {:induction false} BlankQueryKeepsAll(tasks: seq<Record>, input: string)
    requires Trim(input) == ""
    ensures SearchFilter(tasks, input) == tasks
    decreases |tasks|
  {
    if tasks != [] {
      BlankQueryKeepsAll(tasks[..|tasks| - 1], input);
      var last := tasks[|tasks| - 1];
      assert Query(input) == "";
      assert OccursAt(SearchText(last), "", 0);
      assert tasks == tasks[..|tasks| - 1] + [last];
    }
  }

  // ---------------------------------------------------------------------
  // Tutorial
  // ---------------------------------------------------------------------

  const TotalSteps := 5

  datatype TutorialMove = ShowStep(step: nat) | EndTutorial

  /** handleNextTutorial: advance while a later step exists, otherwise end. */
  function NextMove(step: nat): (m: TutorialMove)
    ensures m.ShowStep? <==> step < TotalSteps - 1
    ensures m.ShowStep? ==> m.step == step + 1 && m.step < TotalSteps
  {
    if step < TotalSteps - 1 then ShowStep(step + 1) else EndTutorial
  }

  /** `currentStep`: the step showTutorialStep last displayed. */
  class Tutorial {
    var currentStep: int

    /** The step indexes `tutorialData`, which holds `TotalSteps` steps. */
    ghost predicate Valid()
      reads this
    {
      0 <= currentStep < TotalSteps
    }

    /** The tutorial opens on step 0 (`showTutorialStep(0)`). */
    constructor ()
      ensures Valid() && currentStep == 0
    {
      currentStep := 0;
    }

    /** handleNextTutorial; ending leaves the counter where it was. */
    method HandleNext() returns (m: TutorialMove)
      requires Valid()
      modifies this
      ensures Valid()
      ensures m == NextMove(old(currentStep))
      ensures m.ShowStep? ==> currentStep == old(currentStep) + 1
      ensures m.EndTutorial? ==> currentStep == old(currentStep) == TotalSteps - 1
    {
      m := NextMove(currentStep);
      if m.ShowStep? {
        currentStep := m.step;
      }
    }
  }
}
