/** The prompt builders: each fills the one `{code}` placeholder of a fixed
    template with the snippet, using `String.prototype.replace` with a string
    pattern. Such a `replace` substitutes only the FIRST occurrence of the
    pattern, and still expands the `$$`, `$&`, `$`` and `$'` patterns of the
    replacement text (there are no capture groups, so `$1` or `$<` stay
    literal). */
module Prompts {
  import opened Values
  import opened Strings

  const Placeholder: string := "{code}"

  /** Index of the first occurrence of `pat` in `s` at or after `from`. */
  predicate MatchAt(s: string, pat: string, k: int) {
    0 <= k && k + |pat| <= |s| && s[k..k + |pat|] == pat
  }

  function FindFrom(s: string, pat: string, from: nat): (r: Option<nat>)
    ensures r.Some? ==> from <= r.value && MatchAt(s, pat, r.value)
    ensures r.Some? ==> forall k :: from <= k < r.value ==> !MatchAt(s, pat, k)
    ensures r.None? ==> forall k :: from <= k ==> !MatchAt(s, pat, k)
    decreases |s| - from
  {
    if from + |pat| > |s| then None
    else if s[from..from + |pat|] == pat then Some(from)
    else FindFrom(s, pat, from + 1)
  }

  /** `s.indexOf(pat)`, with None for -1. */
  function IndexOf(s: string, pat: string): Option<nat> {
    FindFrom(s, pat, 0)
  }

  /** The characters that, after a `$`, form a replacement pattern. */
  predicate IsPatternChar(c: char) {
    c == '$' || c == '&' || c == '`' || c == '\''
  }

  /** The replacement text contains none of `$$`, `$&`, `$`` and `$'`. */
  predicate FreeOfPatterns(r: string) {
    forall i :: 0 <= i < |r| - 1 && r[i] == '$' ==> !IsPatternChar(r[i + 1])
  }

  /** GetSubstitution of ECMAScript for a match without capture groups:
      `$$` gives `$`, `$&` the matched text, `$`` the text before the match
      and `$'` the text after it; every other character is copied. */
  function Expand(r: string, matched: string, before: string, after: string): string
    decreases |r|
  {
    if |r| == 0 then []
    else if r[0] == '$' && |r| >= 2 && IsPatternChar(r[1]) then
      var sub := match r[1]
        case '$' => "$"
        case '&' => matched
        case '`' => before
        case _ => after;
      sub + Expand(r[2..], matched, before, after)
    else [r[0]] + Expand(r[1..], matched, before, after)
  }

  /** A replacement text free of patterns is inserted as it is. */
  lemma {:induction false} ExpandFree(r: string, matched: string, before: string, after: string)
    requires FreeOfPatterns(r)
    ensures Expand(r, matched, before, after) == r
    decreases |r|
  {
    if |r| > 0 {
      assert !(r[0] == '$' && |r| >= 2 && IsPatternChar(r[1]));
      ExpandFree(r[1..], matched, before, after);
      assert [r[0]] + r[1..] == r;
    }
  }

  /** `s.replace(pat, repl)` with a string pattern. */
  function ReplaceFirst(s: string, pat: string, repl: string): string {
    ReplaceFrom(s, pat, repl, 0)
  }

  /** The scan of `replace`: look for `pat` from `from` on and splice the
      expanded replacement in at the first place it occurs. */
  function ReplaceFrom(s: string, pat: string, repl: string, from: nat): string
    decreases |s| - from
  {
    if from + |pat| > |s| then s
    else if s[from..from + |pat|] == pat then
      s[..from] + Expand(repl, pat, s[..from], s[from + |pat|..]) + s[from + |pat|..]
    else ReplaceFrom(s, pat, repl, from + 1)
  }

  /** `replace` changes the text only at the first occurrence of the
      pattern: the text before it and after it is kept, and the occurrence
      gives way to the expanded replacement. With no occurrence nothing
      changes. */
  lemma {:induction false} ReplaceFromFirst(s: string, pat: string, repl: string, from: nat)
    ensures FindFrom(s, pat, from).None? ==> ReplaceFrom(s, pat, repl, from) == s
    ensures FindFrom(s, pat, from).Some? ==>
              var k := FindFrom(s, pat, from).value;
              ReplaceFrom(s, pat, repl, from) == s[..k] + Expand(repl, pat, s[..k], s[k + |pat|..]) + s[k + |pat|..]
    decreases |s| - from
  {
    if from + |pat| <= |s| && s[from..from + |pat|] != pat {
      assert FindFrom(s, pat, from) == FindFrom(s, pat, from + 1);
      assert ReplaceFrom(s, pat, repl, from) == ReplaceFrom(s, pat, repl, from + 1);
      ReplaceFromFirst(s, pat, repl, from + 1);
    }
  }

  /** A template: the text around its `{code}` placeholder. It is well formed
      when the text before the placeholder has no `{`, so that the first
      occurrence of the placeholder is the one between the two parts. */
  datatype Template = Template(prefix: string, suffix: string) {
    function Text(): string { prefix + Placeholder + suffix }
    predicate WellFormed() { '{' !in prefix }
  }

  lemma FirstPlaceholder(t: Template)
    requires t.WellFormed()
    ensures IndexOf(t.Text(), Placeholder) == Some(|t.prefix|)
  {
    var s := t.Text();
    assert MatchAt(s, Placeholder, |t.prefix|) by {
      assert s[|t.prefix|..|t.prefix| + 6] == Placeholder;
    }
    forall k | 0 <= k < |t.prefix| ensures !MatchAt(s, Placeholder, k) {
      assert s[k] == t.prefix[k] != '{';
      assert k + 6 <= |s| ==> s[k..k + 6][0] == s[k];
    }
  }

  /** Filling a template with a snippet: `template.replace('{code}', code)`. */
  function Build(t: Template, code: string): string {
    ReplaceFirst(t.Text(), Placeholder, code)
  }

  /** The prompt built from a well-formed template is the text before the
      placeholder, the snippet with its patterns expanded, then the text after
      the placeholder. */
  lemma BuildShape(t: Template, code: string)
    requires t.WellFormed()
    ensures Build(t, code) == t.prefix + Expand(code, Placeholder, t.prefix, t.suffix) + t.suffix
  {
    FirstPlaceholder(t);
    ReplaceFromFirst(t.Text(), Placeholder, code, 0);
    assert t.Text()[..|t.prefix|] == t.prefix;
    assert t.Text()[|t.prefix| + |Placeholder|..] == t.suffix;
  }

  /** For a snippet without replacement patterns the prompt is the template
      with the placeholder swapped for the snippet: it starts with the text
      before the placeholder, ends with the text after it, and is six
      characters (the placeholder) shorter than template plus snippet. */
  lemma BuildFree(t: Template, code: string)
    requires t.WellFormed() && FreeOfPatterns(code)
    ensures Build(t, code) == t.prefix + code + t.suffix
    ensures |Build(t, code)| == |t.Text()| - 6 + |code|
    ensures StartsWith(Build(t, code), t.prefix) && EndsWith(Build(t, code), t.suffix)
  {
    BuildShape(t, code);
    ExpandFree(code, Placeholder, t.prefix, t.suffix);
    var r := Build(t, code);
    assert r[..|t.prefix|] == t.prefix;
    assert r[|r| - |t.suffix|..] == t.suffix;
  }

  /** Whatever the snippet, the template text before the placeholder opens
      the prompt unchanged. */
  lemma BuildKeepsPrefix(t: Template, code: string)
    requires t.WellFormed()
    ensures StartsWith(Build(t, code), t.prefix)
  {
    BuildShape(t, code);
    var r := Build(t, code);
    assert r[..|t.prefix|] == t.prefix;
  }

  /** A template whose text after the placeholder has no `{` either contains
      the placeholder exactly once. */
  lemma PlaceholderOnce(t: Template, k: nat)
    requires t.WellFormed() && '{' !in t.suffix
    requires MatchAt(t.Text(), Placeholder, k)
    ensures k == |t.prefix|
  {
    var s := t.Text();
    assert s[k] == '{' by { assert s[k..k + 6][0] == s[k]; }
    assert forall i :: 0 <= i < |t.prefix| ==> s[i] == t.prefix[i];
    assert forall i :: |t.prefix| < i < |t.prefix| + 6 ==> s[i] == Placeholder[i - |t.prefix|] != '{';
    assert forall i :: |t.prefix| + 6 <= i < |s| ==> s[i] == t.suffix[i - |t.prefix| - 6];
  }

  /** A snippet that is a single two-character pattern expands to what the
      pattern names. */
  lemma ExpandPattern(c: char, matched: string, before: string, after: string)
    requires IsPatternChar(c)
    ensures Expand(['$', c], matched, before, after)
         == (if c == '$' then "$" else if c == '&' then matched else if c == '`' then before else after)
  {
    var r := ['$', c];
    assert r[2..] == [];
  }

  /** The replacement patterns of a snippet are expanded rather than copied:
      a snippet that is exactly `$'` becomes a second copy of the text after
      the placeholder, and `$&` puts the placeholder itself back. */
  lemma PatternsExpanded(t: Template)
    requires t.WellFormed()
    ensures Build(t, "$'") == t.prefix + t.suffix + t.suffix
    ensures Build(t, "$&") == t.Text()
    ensures Build(t, "$$") == t.prefix + "$" + t.suffix
  {
    BuildShape(t, "$'");
    ExpandPattern('\'', Placeholder, t.prefix, t.suffix);
    BuildShape(t, "$&");
    ExpandPattern('&', Placeholder, t.prefix, t.suffix);
    BuildShape(t, "$$");
    ExpandPattern('$', Placeholder, t.prefix, t.suffix);
  }

  /** The three templates of the source, line by line. A long line is
      written in a few pieces, so that each piece can be checked for `{`
      on its own (see `AnalysisWellFormed` and its neighbours). */

    const BasePrefix: string :=
    "INSTRUCTIONS:\n"
    + "1. Analyze the code snippet below\n"
    + "2. Identify security " + "vulnerabilities, performance " + "issues, code quality problems\n"
    + "3. For each issue, provide:\n"
    + "   - Severity (HIGH/MEDIUM/LOW)\n"
    + "   - Category (SECURITY/" + "PERFORMANCE/CODE_QUALITY/" + "BEST_PRACTICES/STYLE)\n"
    + "   - Line number(s)\n"
    + "   - Specific issue description\n"
    + "   - Actionable suggestion\n"
    + "   - Code example of the fix\n"
    + "\n"
    + "4. Return ONLY valid JSON (no " + "markdown, no extra text)\n"
    + "\n"
    + "CODE SNIPPET:\n"

  const BaseSuffix: string :=
    "\n"
    + "\n"
    + "RESPONSE FORMAT (MUST BE VALID JSON):\n"
    + "{\n"
    + "  \"analysis\": {\n"
    + "    \"summary\": \"1-2 sentence overall assessment\",\n"
    + "    \"score\": 75,\n"
    + "    \"issues\": [\n"
    + "      {\n"
    + "        \"severity\": \"HIGH\",\n"
    + "        \"category\": \"SECURITY\",\n"
    + "        \"line\": 3,\n"
    + "        \"issue\": \"Description of the problem\",\n"
    + "        \"suggestion\": \"What to do instead\",\n"
    + "        \"example\": \"const fixed = await bcrypt.compare(...);\"\n"
    + "      }\n"
    + "    ],\n"
    + "    \"positives\": [\n"
    + "      \"What the code does well\",\n"
    + "      \"Good practices observed\"\n"
    + "    ]\n"
    + "  }\n"
    + "}\n"
    + "\n"
    + "Important: Return ONLY the JSON object, nothing else."

    const SecurityPrefix: string :=
    "Review this code SPECIFICALLY " + "for security vulnerabilities:\n"
    + "- SQL/NoSQL injection\n"
    + "- XSS attacks\n"
    + "- Authentication bypass\n"
    + "- Data exposure\n"
    + "- Dependency vulnerabilities\n"
    + "\n"
    + "Code:\n"

  const SecuritySuffix: string :=
    "\n"
    + "\n"
    + "Return JSON with security issues only in this format:\n"
    + "{\n"
    + "  \"analysis\": {\n"
    + "    \"summary\": \"Security assessment\",\n"
    + "    \"security_issues\": [\n"
    + "      {\n"
    + "        \"severity\": \"HIGH\",\n"
    + "        \"issue\": \"description\",\n"
    + "        \"suggestion\": \"fix\",\n"
    + "        \"line\": number\n"
    + "      }\n"
    + "    ]\n"
    + "  }\n"
    + "}"

    const PerformancePrefix: string :=
    "Analyze this code for performance issues:\n"
    + "- Algorithmic complexity\n"
    + "- Unnecessary operations\n"
    + "- Memory leaks\n"
    + "- Network efficiency\n"
    + "- Database query optimization\n"
    + "\n"
    + "Code:\n"

  const PerformanceSuffix: string :=
    "\n"
    + "\n"
    + "Return JSON with performance suggestions."

  const AnalysisTemplate: Template := Template(BasePrefix, BaseSuffix)
  const SecurityTemplate: Template := Template(SecurityPrefix, SecuritySuffix)
  const PerformanceTemplate: Template := Template(PerformancePrefix, PerformanceSuffix)

  /** `buildAnalysisPrompt`. */
  function BuildAnalysisPrompt(code: string): string {
    Build(AnalysisTemplate, code)
  }

  /** `buildSecurityPrompt`. */
  function BuildSecurityPrompt(code: string): string {
    Build(SecurityTemplate, code)
  }

  /** `buildPerformancePrompt`. */
  function BuildPerformancePrompt(code: string): string {
    Build(PerformanceTemplate, code)
  }

  /** Lines 1-2 of the analysis template hold no `{`. */
  lemma AnalysisLines1()
    ensures '{' !in "INSTRUCTIONS:\n"
              + "1. Analyze the code snippet below\n"
  {
  }

  /** Line 3 of the analysis template holds no `{`. */
  lemma AnalysisLines2()
    ensures '{' !in "2. Identify security " + "vulnerabilities, performance " + "issues, code quality problems\n"
  {
  }

  /** Lines 4-5 of the analysis template hold no `{`. */
  lemma AnalysisLines3()
    ensures '{' !in "3. For each issue, provide:\n"
              + "   - Severity (HIGH/MEDIUM/LOW)\n"
  {
  }

  /** Line 6 of the analysis template holds no `{`. */
  lemma AnalysisLines4()
    ensures '{' !in "   - Category (SECURITY/" + "PERFORMANCE/CODE_QUALITY/" + "BEST_PRACTICES/STYLE)\n"
  {
  }

  /** Lines 7-8 of the analysis template hold no `{`. */
  lemma AnalysisLines5()
    ensures '{' !in "   - Line number(s)\n"
              + "   - Specific issue description\n"
  {
  }

  /** Lines 9-11 of the analysis template hold no `{`. */
  lemma AnalysisLines6()
    ensures '{' !in "   - Actionable suggestion\n"
              + "   - Code example of the fix\n"
              + "\n"
  {
  }

  /** Lines 12-14 of the analysis template hold no `{`. */
  lemma AnalysisLines7()
    ensures '{' !in "4. Return ONLY valid JSON (no " + "markdown, no extra text)\n"
              + "\n"
              + "CODE SNIPPET:\n"
  {
  }

  /** The analysis template is well formed: no `{` before its placeholder. */
  lemma AnalysisWellFormed()
    ensures AnalysisTemplate.WellFormed()
  {
    AnalysisLines1();
    AnalysisLines2();
    AnalysisLines3();
    AnalysisLines4();
    AnalysisLines5();
    AnalysisLines6();
    AnalysisLines7();
  }

  /** Line 1 of the security template holds no `{`. */
  lemma SecurityLines1()
    ensures '{' !in "Review this code SPECIFICALLY " + "for security vulnerabilities:\n"
  {
  }

  /** Lines 2-4 of the security template hold no `{`. */
  lemma SecurityLines2()
    ensures '{' !in "- SQL/NoSQL injection\n"
              + "- XSS attacks\n"
              + "- Authentication bypass\n"
  {
  }

  /** Lines 5-8 of the security template hold no `{`. */
  lemma SecurityLines3()
    ensures '{' !in "- Data exposure\n"
              + "- Dependency vulnerabilities\n"
              + "\n"
              + "Code:\n"
  {
  }

  /** The security template is well formed: no `{` before its placeholder. */
  lemma SecurityWellFormed()
    ensures SecurityTemplate.WellFormed()
  {
    SecurityLines1();
    SecurityLines2();
    SecurityLines3();
  }

  /** Lines 1-2 of the performance template hold no `{`. */
  lemma PerformanceLines1()
    ensures '{' !in "Analyze this code for performance issues:\n"
              + "- Algorithmic complexity\n"
  {
  }

  /** Lines 3-5 of the performance template hold no `{`. */
  lemma PerformanceLines2()
    ensures '{' !in "- Unnecessary operations\n"
              + "- Memory leaks\n"
              + "- Network efficiency\n"
  {
  }

  /** Lines 6-8 of the performance template hold no `{`. */
  lemma PerformanceLines3()
    ensures '{' !in "- Database query optimization\n"
              + "\n"
              + "Code:\n"
  {
  }

  /** The performance template is well formed: no `{` before its placeholder. */
  lemma PerformanceWellFormed()
    ensures PerformanceTemplate.WellFormed()
  {
    PerformanceLines1();
    PerformanceLines2();
    PerformanceLines3();
  }

  /** The performance template has no `{` after its placeholder either. */
  lemma PerformanceSuffixBraceFree()
    ensures '{' !in PerformanceSuffix
  {
  }

  /** The performance template contains its placeholder exactly once. */
  lemma PerformancePlaceholderOnce(k: nat)
    requires MatchAt(PerformanceTemplate.Text(), Placeholder, k)
    ensures k == |PerformancePrefix|
  {
    PerformanceWellFormed();
    PerformanceSuffixBraceFree();
    PlaceholderOnce(PerformanceTemplate, k);
  }


  /** What the three builders have in common, for any well-formed template. */
  lemma Filled(t: Template, code: string)
    requires t.WellFormed()
    ensures Build(t, code) == t.prefix + Expand(code, Placeholder, t.prefix, t.suffix) + t.suffix
    ensures StartsWith(Build(t, code), t.prefix)
    ensures FreeOfPatterns(code) ==> Build(t, code) == t.prefix + code + t.suffix
    ensures FreeOfPatterns(code) ==> |Build(t, code)| == |t.Text()| - 6 + |code|
    ensures FreeOfPatterns(code) ==> EndsWith(Build(t, code), t.suffix)
    ensures Build(t, "$'") == t.prefix + t.suffix + t.suffix
  {
    BuildShape(t, code);
    BuildKeepsPrefix(t, code);
    if FreeOfPatterns(code) {
      BuildFree(t, code);
    }
    PatternsExpanded(t);
  }
  /** `buildAnalysisPrompt(code)` is the analysis template's text before the
      placeholder, the snippet with its patterns expanded, and the text after
      the placeholder. A snippet free of patterns is inserted as it is, and
      the prompt is then six characters shorter than template plus snippet;
      a snippet `$'` repeats the text after the placeholder. */
  lemma AnalysisPrompt(code: string)
    ensures BuildAnalysisPrompt(code) == BasePrefix + Expand(code, Placeholder, BasePrefix, BaseSuffix) + BaseSuffix
    ensures StartsWith(BuildAnalysisPrompt(code), BasePrefix)
    ensures FreeOfPatterns(code) ==> BuildAnalysisPrompt(code) == BasePrefix + code + BaseSuffix
    ensures FreeOfPatterns(code) ==> |BuildAnalysisPrompt(code)| == |AnalysisTemplate.Text()| - 6 + |code|
    ensures FreeOfPatterns(code) ==> EndsWith(BuildAnalysisPrompt(code), BaseSuffix)
    ensures BuildAnalysisPrompt("$'") == BasePrefix + BaseSuffix + BaseSuffix
  {
    AnalysisWellFormed();
    Filled(AnalysisTemplate, code);
  }

  /** `buildSecurityPrompt(code)` is the security template's text before the
      placeholder, the snippet with its patterns expanded, and the text after
      the placeholder. A snippet free of patterns is inserted as it is, and
      the prompt is then six characters shorter than template plus snippet;
      a snippet `$'` repeats the text after the placeholder. */
  lemma SecurityPrompt(code: string)
    ensures BuildSecurityPrompt(code) == SecurityPrefix + Expand(code, Placeholder, SecurityPrefix, SecuritySuffix) + SecuritySuffix
    ensures StartsWith(BuildSecurityPrompt(code), SecurityPrefix)
    ensures FreeOfPatterns(code) ==> BuildSecurityPrompt(code) == SecurityPrefix + code + SecuritySuffix
    ensures FreeOfPatterns(code) ==> |BuildSecurityPrompt(code)| == |SecurityTemplate.Text()| - 6 + |code|
    ensures FreeOfPatterns(code) ==> EndsWith(BuildSecurityPrompt(code), SecuritySuffix)
    ensures BuildSecurityPrompt("$'") == SecurityPrefix + SecuritySuffix + SecuritySuffix
  {
    SecurityWellFormed();
    Filled(SecurityTemplate, code);
  }

  /** `buildPerformancePrompt(code)` is the performance template's text before the
      placeholder, the snippet with its patterns expanded, and the text after
      the placeholder. A snippet free of patterns is inserted as it is, and
      the prompt is then six characters shorter than template plus snippet;
      a snippet `$'` repeats the text after the placeholder. */
  lemma PerformancePrompt(code: string)
    ensures BuildPerformancePrompt(code) == PerformancePrefix + Expand(code, Placeholder, PerformancePrefix, PerformanceSuffix) + PerformanceSuffix
    ensures StartsWith(BuildPerformancePrompt(code), PerformancePrefix)
    ensures FreeOfPatterns(code) ==> BuildPerformancePrompt(code) == PerformancePrefix + code + PerformanceSuffix
    ensures FreeOfPatterns(code) ==> |BuildPerformancePrompt(code)| == |PerformanceTemplate.Text()| - 6 + |code|
    ensures FreeOfPatterns(code) ==> EndsWith(BuildPerformancePrompt(code), PerformanceSuffix)
    ensures BuildPerformancePrompt("$'") == PerformancePrefix + PerformanceSuffix + PerformanceSuffix
  {
    PerformanceWellFormed();
    Filled(PerformanceTemplate, code);
  }
}
