/** Literal names written as anchored regular expressions, and read back: Python's `re.escape`,
    the substitution that undoes it, and the pattern that finds one between its anchors. */
module RegexEscape {
  import opened Outcomes
  import opened Slices

  /** The characters `re.escape` puts a backslash before. */
  predicate Special(c: char) {
    c in "()[]{}?*+-|^$\\.&~# \t\n\r" || c as int == 0x0B || c as int == 0x0C
  }

  function EscapeChar(c: char): string {
    if Special(c) then ['\\', c] else [c]
  }

  function Escape(name: string): string {
    if name == [] then [] else EscapeChar(name[0]) + Escape(name[1..])
  }

  /** `re.sub(r"\\(.)", r"\1", s)`: a dot does not match a line feed. */
  function Unescape(s: string): string
    decreases |s|
  {
    if s == [] then []
    else if s[0] == '\\' && |s| > 1 && s[1] != '\n' then [s[1]] + Unescape(s[2..])
    else [s[0]] + Unescape(s[1..])
  }

  predicate Newline(s: string) {
    '\n' in s
  }

  lemma {:induction false} UnescapeEscape(name: string)
    requires !Newline(name)
    ensures Unescape(Escape(name)) == name
  {
    if name != [] {
      UnescapeEscape(name[1..]);
      UnescapeStep(name[0], Escape(name[1..]));
      assert name == [name[0]] + name[1..];
    }
  }

  lemma UnescapeStep(c: char, rest: string)
    requires c != '\n'
    ensures Unescape(EscapeChar(c) + rest) == [c] + Unescape(rest)
  {
    var s := EscapeChar(c) + rest;
    if Special(c) {
      assert s[0] == '\\' && s[1] == c && s[2..] == rest;
    } else {
      assert c != '\\' by { assert Special('\\'); }
      assert s[0] == c && s[1..] == rest;
    }
  }

  lemma {:induction false} EscapeKeepsNewlines(name: string)
    ensures Newline(Escape(name)) <==> Newline(name)
  {
    if name != [] {
      EscapeKeepsNewlines(name[1..]);
      assert name == [name[0]] + name[1..];
      assert Newline(Escape(name)) <==> Newline(EscapeChar(name[0])) || Newline(Escape(name[1..]));
    }
  }

  lemma {:induction false} EscapeInjective(a: string, b: string)
    requires Escape(a) == Escape(b)
    ensures a == b
  {
    if a != [] && b != [] {
      FirstEscaped(a);
      FirstEscaped(b);
      assert a[0] == b[0];
      var n := |EscapeChar(a[0])|;
      Halves(EscapeChar(a[0]), Escape(a[1..]));
      Halves(EscapeChar(b[0]), Escape(b[1..]));
      EscapeInjective(a[1..], b[1..]);
      assert a == [a[0]] + a[1..] && b == [b[0]] + b[1..];
    }
  }

  lemma FirstEscaped(a: string)
    requires a != []
    ensures Escape(a) != []
    ensures Escape(a)[0] == '\\' ==> |Escape(a)| > 1 && Escape(a)[1] == a[0] && Special(a[0])
    ensures Escape(a)[0] != '\\' ==> Escape(a)[0] == a[0] && !Special(a[0])
  {
    assert Special('\\');
  }

  function Anchored(name: string): string {
    ['^'] + Escape(name) + ['$']
  }

  /** What `^\^(.*)\$$` captures: everything between a first caret and a last dollar, on one line,
      where the final `$` also matches before a trailing line feed. */
  function Captured(pattern: string): Option<string> {
    var n := |pattern|;
    if n >= 2 && pattern[0] == '^' && pattern[n - 1] == '$' && !Newline(pattern[1..n - 1]) then Some(pattern[1..n - 1])
    else if n >= 3 && pattern[0] == '^' && pattern[n - 2] == '$' && pattern[n - 1] == '\n' &&
      !Newline(pattern[1..n - 2])
    then Some(pattern[1..n - 2])
    else None
  }

  /** The escaped name behind a pattern, or nothing when it is a regular expression for real. */
  function Unanchor(pattern: string): Option<string> {
    match Captured(pattern)
    case None => None
    case Some(literal) => if Escape(Unescape(literal)) == literal then Some(literal) else None
  }

  function NameBehind(pattern: string): Option<string> {
    match Unanchor(pattern)
    case None => None
    case Some(literal) => Some(Unescape(literal))
  }

  lemma CapturedFrom(pattern: string, x: string)
    requires Captured(pattern) == Some(x)
    ensures !Newline(x) && (pattern == ['^'] + x + ['$'] || pattern == ['^'] + x + ['$'] + ['\n'])
  {
    var n := |pattern|;
    if pattern[n - 1] == '$' && !Newline(pattern[1..n - 1]) {
      assert pattern == ['^'] + pattern[1..n - 1] + ['$'];
    } else {
      assert pattern == ['^'] + pattern[1..n - 2] + ['$'] + ['\n'];
    }
  }

  lemma CapturedTo(pattern: string, x: string)
    requires !Newline(x) && (pattern == ['^'] + x + ['$'] || pattern == ['^'] + x + ['$'] + ['\n'])
    ensures Captured(pattern) == Some(x)
  {
    var n := |pattern|;
    if pattern == ['^'] + x + ['$'] {
      assert pattern[1..n - 1] == x;
    } else {
      assert pattern[1..n - 2] == x;
    }
  }

  lemma CapturedBetween(pattern: string, x: string)
    ensures Captured(pattern) == Some(x) <==>
            !Newline(x) && (pattern == ['^'] + x + ['$'] || pattern == ['^'] + x + ['$'] + ['\n'])
  {
    if Captured(pattern) == Some(x) { CapturedFrom(pattern, x); }
    else if !Newline(x) && (pattern == ['^'] + x + ['$'] ||
        pattern == ['^'] + x + ['$'] + ['\n']) { CapturedTo(pattern, x); }
  }

  /** A name is read out of a pattern exactly when the pattern is that name anchored, up to one
      trailing line feed; and the name is then the only one. */
  lemma NameBehindExactly(pattern: string, name: string)
    ensures NameBehind(pattern) == Some(name) <==>
            !Newline(name) && (pattern == Anchored(name) || pattern == Anchored(name) + ['\n'])
  {
    EscapeKeepsNewlines(name);
    CapturedBetween(pattern, Escape(name));
    if !Newline(name) {
      UnescapeEscape(name);
    }
  }

  /** Without line feeds: exactly the anchored names, and anchoring the name gives it back. */
  lemma NameBehindOneLine(pattern: string, name: string)
    requires !Newline(pattern)
    ensures NameBehind(pattern) == Some(name) <==> pattern == Anchored(name)
  {
    NameBehindExactly(pattern, name);
    EscapeKeepsNewlines(name);
    if pattern == Anchored(name) {
      assert forall i | 0 <= i < |Escape(name)| :: pattern[i + 1] == Escape(name)[i];
    }
    assert ['\n'][0] == '\n';
    assert (Anchored(name) + ['\n'])[|Anchored(name)|] == '\n';
  }

  lemma AnchoredInjective(a: string, b: string)
    requires Anchored(a) == Anchored(b)
    ensures a == b
  {
    assert Anchored(a)[1..|Anchored(a)| - 1] == Escape(a);
    assert Anchored(b)[1..|Anchored(b)| - 1] == Escape(b);
    EscapeInjective(a, b);
  }
}
