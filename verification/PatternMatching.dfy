/** What the regular expressions that Apchi writes match: literal and escaped characters and the dot,
    between a caret and a dollar, against a whole text. Other expressions are left open. */
module PatternMatching {
  import opened Outcomes
  import opened RegexEscape

  datatype Atom = Is(c: char) | AnyButNewline

  predicate LetterOrDigit(c: char) {
    'A' <= c <= 'Z' || 'a' <= c <= 'z' || '0' <= c <= '9'
  }

  /** Characters that mean something else in an expression than themselves. */
  predicate Operator(c: char) {
    c == '(' || c == ')' || c == '[' || c == ']' || c == '{' || c == '}' || c == '?' || c == '*' || c == '+' ||
    c == '|' || c == '^' || c == '$'
  }

  /** Each atom matches one character. A backslash takes the meaning from what follows it, unless that is a
      letter or a digit, which it would give one. */
  function Atoms(body: string): Option<seq<Atom>> {
    if body == "" then Some([])
    else if body[0] == '\\' then
      if |body| < 2 || LetterOrDigit(body[1]) || Atoms(body[2..]).None? then None
      else Some([Is(body[1])] + Atoms(body[2..]).value)
    else if Operator(body[0]) || Atoms(body[1..]).None? then None
    else Some([if body[0] == '.' then AnyButNewline else Is(body[0])] + Atoms(body[1..]).value)
  }

  predicate AtomMatches(atom: Atom, c: char) {
    match atom case Is(d) => c == d case AnyButNewline => c != '\n'
  }

  predicate AllMatch(atoms: seq<Atom>, text: string) {
    |atoms| == |text| && forall i | 0 <= i < |text| :: AtomMatches(atoms[i], text[i])
  }

  /** Whether a pattern matches a whole text, where that is known. */
  function Matched(pattern: string, text: string): Option<bool> {
    var n := |pattern|;
    if n < 2 || pattern[0] != '^' || pattern[n - 1] != '$' || Atoms(pattern[1..n - 1]).None? then None
    else Some(AllMatch(Atoms(pattern[1..n - 1]).value, text))
  }

  function Literally(name: string): seq<Atom> {
    seq(|name|, i requires 0 <= i < |name| => Is(name[i]))
  }

  lemma SpecialOrPlain(c: char)
    ensures if Special(c) then !LetterOrDigit(c) else !Operator(c) && c != '.' && c != '\\'
  {
    var all := "()[]{}?*+-|^$\\.&~# \t\n\r";
    assert all[0] == '(' && all[1] == ')' && all[2] == '[' && all[3] == ']' && all[4] == '{' && all[5] == '}';
    assert all[6] == '?' && all[7] == '*' && all[8] == '+' && all[10] == '|' && all[11] == '^' && all[12] == '$';
    assert all[13] == '\\' && all[14] == '.';
  }

  lemma EscapedStep(c: char, rest: string)
    requires Atoms(rest).Some?
    ensures Atoms(EscapeChar(c) + rest) == Some([Is(c)] + Atoms(rest).value)
  {
    SpecialOrPlain(c);
    hide Special, LetterOrDigit, Operator;
    var body := EscapeChar(c) + rest;
    if Special(c) {
      assert body == ['\\', c] + rest && body[2..] == rest;
    } else {
      assert body == [c] + rest && body[1..] == rest;
    }
  }

  lemma {:induction false} EscapedAtoms(name: string)
    ensures Atoms(Escape(name)) == Some(Literally(name))
  {
    hide Special;
    if name == "" {
      assert Literally(name) == [];
    } else {
      EscapedAtoms(name[1..]);
      EscapedStep(name[0], Escape(name[1..]));
      assert Literally(name) == [Is(name[0])] + Literally(name[1..]);
    }
  }

  /** An escaped and anchored name matches that name and nothing else, whatever characters it holds. */
  lemma AnchoredMatchesExactly(name: string, text: string)
    ensures Matched(Anchored(name), text) == Some(text == name)
  {
    var pattern := Anchored(name);
    assert pattern[1..|pattern| - 1] == Escape(name);
    EscapedAtoms(name);
    assert AllMatch(Literally(name), text) <==> text == name;
  }

  /** Without the escape a dot would match any character but a line feed. */
  lemma UnescapedDot(c: char)
    ensures Matched("^.$", [c]) == Some(c != '\n') && Matched(Anchored("."), [c]) == Some(c == '.')
  {
    assert "^.$"[1..2] == "." && "."[1..] == "";
    AnchoredMatchesExactly(".", [c]);
  }

  /** Which characters are written with a backslash before them, and which as they are. */
  lemma EscapedCharacters(c: char)
    ensures Escape([c]) == if c in " #$&()*+-.?[\\]^{|}~\t\n\r" || c as int == 11 || c as int == 12 then ['\\', c]
                           else [c]
  {
    assert [c][1..] == [];
    assert Escape([]) == [];
  }

  lemma {:induction false} PlainIsEscaped(name: string)
    requires forall i | 0 <= i < |name| :: LetterOrDigit(name[i]) || name[i] == '_'
    ensures Escape(name) == name
  {
    if name != "" {
      PlainIsEscaped(name[1..]);
      WordsArePlain(name[0]);
      hide Special;
      assert name == [name[0]] + name[1..];
    }
  }

  lemma WordsArePlain(c: char)
    requires LetterOrDigit(c) || c == '_'
    ensures !Special(c)
  {
  }
}
