/** Client Certificates named from a Catalog: the `${cert:name}` and `${key:name}` tokens, their
    expansion to paths, and the files the certificate generator writes. */
module CertificateTokens {
  import opened Outcomes
  import opened Slices

  const MOUNT_DIR := "/etc/trino/certs"
  const CERTIFICATE_SUFFIX := ".crt"
  const KEY_SUFFIX := ".key"

  function CertificatePath(name: string): string {
    MOUNT_DIR + "/" + name + CERTIFICATE_SUFFIX
  }

  function KeyPath(name: string): string {
    MOUNT_DIR + "/" + name + KEY_SUFFIX
  }

  // ------------------------------------------------------------------ scanning

  predicate Alphanumeric(c: char) {
    'A' <= c <= 'Z' || 'a' <= c <= 'z' || '0' <= c <= '9'
  }

  predicate NameChar(c: char) {
    Alphanumeric(c) || c == '.' || c == '_' || c == '-'
  }

  predicate IsName(name: string) {
    name != [] && Alphanumeric(name[0]) && forall i | 0 <= i < |name| :: NameChar(name[i])
  }

  datatype Kind = Cert | Key

  datatype Token = Token(kind: Kind, name: string)

  function Opening(kind: Kind): string {
    match kind case Cert => "${cert:" case Key => "${key:"
  }

  /** The token as an Operator writes it. */
  function Text(t: Token): string {
    Opening(t.kind) + t.name + "}"
  }

  /** The longest run of name characters at the front of `s`. */
  function NameRun(s: string): (n: nat)
    ensures n <= |s|
    ensures forall i | 0 <= i < n :: NameChar(s[i])
    ensures n < |s| ==> !NameChar(s[n])
  {
    if s != [] && NameChar(s[0]) then 1 + NameRun(s[1..]) else 0
  }

  function NamedToken(kind: Kind, s: string): Option<Token> {
    var n := NameRun(s);
    if n > 0 && Alphanumeric(s[0]) && n < |s| && s[n] == '}' then Some(Token(kind, s[..n])) else None
  }

  /** The regular expression matched at the front of `s`. */
  function TokenAt(s: string): Option<Token> {
    if Opening(Cert) <= s then NamedToken(Cert, s[|Opening(Cert)|..])
    else if Opening(Key) <= s then NamedToken(Key, s[|Opening(Key)|..])
    else None
  }

  lemma NamedTokenText(kind: Kind, s: string, name: string)
    ensures IsName(name) && name + "}" <= s <==> NamedToken(kind, s) == Some(Token(kind, name))
  {
    var n := NameRun(s);
    if IsName(name) && name + "}" <= s {
      assert s[..|name|] == name && s[|name|] == '}';
      assert forall i | 0 <= i < |name| :: s[i] == name[i];
      assert n == |name|;
    }
  }

  lemma OpeningsDiffer(s: string)
    ensures !(Opening(Cert) <= s && Opening(Key) <= s)
  {
    if Opening(Cert) <= s {
      assert s[2] == Opening(Cert)[2];
      assert Opening(Cert)[2] != Opening(Key)[2];
    }
  }

  lemma TokenAtOpening(s: string, kind: Kind)
    ensures Opening(kind) <= s ==> TokenAt(s) == NamedToken(kind, s[|Opening(kind)|..])
  {
    OpeningsDiffer(s);
  }

  lemma TokenAtKind(s: string, t: Token)
    requires TokenAt(s) == Some(t)
    ensures Opening(t.kind) <= s
  {
  }

  /** A match at the front is exactly a well-formed token's text at the front. */
  lemma TokenAtText(s: string, t: Token)
    ensures TokenAt(s) == Some(t) <==> IsName(t.name) && Text(t) <= s
  {
    var opening := Opening(t.kind);
    assert Text(t) == opening + (t.name + "}");
    PrefixSplit(opening, t.name + "}", s);
    if opening <= s {
      TokenAtOpening(s, t.kind);
      NamedTokenText(t.kind, s[|opening|..], t.name);
    } else if TokenAt(s) == Some(t) {
      TokenAtKind(s, t);
    }
  }

  /** `finditer`: every match, left to right and without overlap. */
  function Tokens(s: string): seq<Token>
    decreases |s|
  {
    if s == [] then []
    else match TokenAt(s)
      case Some(t) => TokenAtText(s, t); [t] + Tokens(s[|Text(t)|..])
      case None => Tokens(s[1..])
  }

  function PathOf(t: Token): string {
    match t.kind case Cert => CertificatePath(t.name) case Key => KeyPath(t.name)
  }

  /** `sub`: every match replaced by the path the file will be at. */
  function Expand(s: string): string
    decreases |s|
  {
    if s == [] then []
    else match TokenAt(s)
      case Some(t) => TokenAtText(s, t); PathOf(t) + Expand(s[|Text(t)|..])
      case None => [s[0]] + Expand(s[1..])
  }

  // ------------------------------------------------------------------ what blocks a token

  predicate TokenChar(c: char) {
    NameChar(c) || c == '$' || c == '{' || c == '}' || c == ':'
  }

  lemma TextChars(t: Token)
    requires IsName(t.name)
    ensures Text(t)[0] == '$'
    ensures forall i | 0 <= i < |Text(t)| :: TokenChar(Text(t)[i])
    ensures '$' !in t.name
  {
  }

  /** A character no token holds separates what is before it from what is after. */
  lemma TokenAtBoundary(a: string, c: char, b: string)
    requires !TokenChar(c)
    ensures TokenAt(a + ([c] + b)) == TokenAt(a)
  {
    var s := a + ([c] + b);
    match TokenAt(s)
    case Some(t) =>
      TokenAtText(s, t);
      TextChars(t);
      assert s[|a|] == c;
      assert forall i | 0 <= i < |Text(t)| :: s[i] == Text(t)[i];
      assert |Text(t)| <= |a|;
      assert a[..|Text(t)|] == s[..|Text(t)|];
      TokenAtText(a, t);
    case None =>
      match TokenAt(a)
      case None =>
      case Some(t) =>
        TokenAtText(a, t);
        assert s[..|Text(t)|] == a[..|Text(t)|];
        TokenAtText(s, t);
  }

  lemma PathPlain(t: Token)
    requires IsName(t.name)
    ensures '$' !in PathOf(t)
  {
    TextChars(t);
    assert '$' !in MOUNT_DIR + "/" + t.name;
  }

  lemma NoTokenWithoutDollar(s: string)
    requires s != [] && s[0] != '$'
    ensures TokenAt(s) == None
  {
    match TokenAt(s)
    case None =>
    case Some(t) => TokenAtText(s, t); TextChars(t);
  }

  /** Scanning on both sides of such a character, one step at a time. */
  lemma TokensStep(s: string)
    requires s != []
    ensures TokenAt(s) == None ==> Tokens(s) == Tokens(s[1..]) && Expand(s) == [s[0]] + Expand(s[1..])
  {
  }

  lemma TokensJump(t: Token, rest: string)
    requires IsName(t.name)
    ensures TokenAt(Text(t) + rest) == Some(t)
    ensures Tokens(Text(t) + rest) == [t] + Tokens(rest)
    ensures Expand(Text(t) + rest) == PathOf(t) + Expand(rest)
  {
    Halves(Text(t), rest);
    TokenAtText(Text(t) + rest, t);
  }

  lemma TokenSplits(s: string, t: Token)
    requires TokenAt(s) == Some(t)
    ensures IsName(t.name) && |Text(t)| <= |s| && s == Text(t) + s[|Text(t)|..]
  {
    TokenAtText(s, t);
    Rejoin(s, |Text(t)|);
  }

  lemma {:induction false} TokensBoundary(a: string, c: char, b: string)
    requires !TokenChar(c)
    ensures Tokens(a + ([c] + b)) == Tokens(a) + Tokens(b)
    ensures Expand(a + ([c] + b)) == Expand(a) + ([c] + Expand(b))
    decreases |a|
  {
    TokenAtBoundary(a, c, b);
    if a == [] {
      assert a + ([c] + b) == [c] + b;
      assert ([c] + b)[1..] == b;
      TokensStep([c] + b);
    } else {
      match TokenAt(a)
      case Some(t) =>
        TokenSplits(a, t);
        var rest := a[|Text(t)|..];
        TokensBoundary(rest, c, b);
        Associates(Text(t), rest, [c] + b);
        TokensJump(t, rest);
        TokensJump(t, rest + ([c] + b));
        Associates([t], Tokens(rest), Tokens(b));
        Associates(PathOf(t), Expand(rest), [c] + Expand(b));
      case None =>
        TokensBoundary(a[1..], c, b);
        Rejoin(a, 1);
        assert a[..1] == [a[0]];
        Associates([a[0]], a[1..], [c] + b);
        Halves([a[0]], a[1..] + ([c] + b));
        TokensStep(a);
        TokensStep(a + ([c] + b));
        Associates([a[0]], Expand(a[1..]), [c] + Expand(b));
    }
  }

  // ------------------------------------------------------------------ joining the values

  /** `" ".join(values)`. */
  function Joined(values: seq<string>): string {
    if values == [] then "" else if |values| == 1 then values[0] else values[0] + " " + Joined(values[1..])
  }

  ghost predicate NamedIn(values: seq<string>, t: Token) {
    exists i | 0 <= i < |values| :: t in Tokens(values[i])
  }

  /** Scanning the joined values finds exactly what scanning each of them finds. */
  lemma {:induction false} JoinedTokens(values: seq<string>, t: Token)
    ensures t in Tokens(Joined(values)) <==> NamedIn(values, t)
  {
    if |values| == 1 {
      assert Joined(values) == values[0];
    } else if |values| > 1 {
      JoinedTokens(values[1..], t);
      TokensBoundary(values[0], ' ', Joined(values[1..]));
      assert Joined(values) == values[0] + ([' '] + Joined(values[1..])) by {
        Associates(values[0], [' '], Joined(values[1..]));
      }
      if NamedIn(values[1..], t) {
        var i :| 0 <= i < |values[1..]| && t in Tokens(values[1..][i]);
        assert t in Tokens(values[i + 1]);
      }
      if NamedIn(values, t) {
        var i :| 0 <= i < |values| && t in Tokens(values[i]);
        if i > 0 { assert t in Tokens(values[1..][i - 1]); }
      }
    }
  }

  // ------------------------------------------------------------------ expansion leaves nothing

  ghost predicate TokenFree(s: string) {
    forall i | 0 <= i <= |s| :: TokenAt(s[i..]) == None
  }

  lemma {:induction false} TokenFreeFixed(s: string)
    requires TokenFree(s)
    ensures Tokens(s) == [] && Expand(s) == s
    decreases |s|
  {
    if s != [] {
      assert TokenAt(s[0..]) == None && s[0..] == s;
      forall i | 0 <= i <= |s[1..]| ensures TokenAt(s[1..][i..]) == None {
        assert s[1..][i..] == s[i + 1..];
      }
      TokenFreeFixed(s[1..]);
    }
  }

  lemma {:induction false} TokenFreeAppend(a: string, b: string)
    requires '$' !in a && TokenFree(b)
    ensures TokenFree(a + b)
  {
    forall i | 0 <= i <= |a + b| ensures TokenAt((a + b)[i..]) == None {
      if i < |a| {
        assert (a + b)[i..][0] == a[i];
        NoTokenWithoutDollar((a + b)[i..]);
      } else {
        assert (a + b)[i..] == b[i - |a|..];
      }
    }
  }

  /** The text and its expansion share a front; after it the expansion is over or has a slash. */
  lemma {:induction false} ExpandAgreesUntilSlash(s: string) returns (front: string, before: string, after: string)
    ensures s == front + before && Expand(s) == front + after
    ensures after != [] ==> after[0] == '/'
    decreases |s|
  {
    if s == [] {
      front, before, after := [], [], [];
    } else {
      match TokenAt(s)
      case Some(t) =>
        front, before, after := [], s, Expand(s);
        assert PathOf(t)[0] == '/';
      case None =>
        front, before, after := ExpandAgreesUntilSlash(s[1..]);
        TokensStep(s);
        assert s == [s[0]] + s[1..];
        Associates([s[0]], front, before);
        Associates([s[0]], front, after);
        front := [s[0]] + front;
    }
  }

  lemma ShortPrefix(u: string, front: string, after: string)
    requires u <= front + after && '/' !in u
    requires after != [] ==> after[0] == '/'
    ensures u <= front
  {
    assert forall i | 0 <= i < |u| :: u[i] == (front + after)[i];
    assert after != [] ==> (front + after)[|front|] == '/';
    assert |u| <= |front|;
    assert forall i | 0 <= i < |u| :: u[i] == front[i];
  }

  lemma UnmatchedStaysUnmatched(s: string)
    requires TokenAt(s) == None
    ensures TokenAt(Expand(s)) == None
  {
    match TokenAt(Expand(s))
    case None =>
    case Some(t) =>
      TokenAtText(Expand(s), t);
      TextChars(t);
      var front, before, after := ExpandAgreesUntilSlash(s);
      ShortPrefix(Text(t), front, after);
      assert Text(t) <= front + before;
      TokenAtText(s, t);
  }

  lemma TokenFreeCons(c: char, s: string)
    requires TokenAt([c] + s) == None && TokenFree(s)
    ensures TokenFree([c] + s)
  {
    forall i | 0 <= i <= |s| + 1 ensures TokenAt(([c] + s)[i..]) == None {
      if i > 0 {
        assert ([c] + s)[i..] == s[i - 1..];
      } else {
        assert ([c] + s)[0..] == [c] + s;
      }
    }
  }

  lemma {:induction false} ExpandTokenFree(s: string)
    ensures TokenFree(Expand(s))
    decreases |s|
  {
    if s == [] {
      NothingFree();
    } else {
      match TokenAt(s)
      case Some(t) =>
        TokenSplits(s, t);
        var rest := s[|Text(t)|..];
        ExpandTokenFree(rest);
        TokensJump(t, rest);
        PathPlain(t);
        TokenFreeAppend(PathOf(t), Expand(rest));
      case None =>
        ExpandTokenFree(s[1..]);
        TokensStep(s);
        UnmatchedStaysUnmatched(s);
        TokenFreeCons(s[0], Expand(s[1..]));
    }
  }

  lemma NothingFree()
    ensures TokenFree("")
  {
    assert TokenAt("") == None;
  }

  /** Expansion is total and final: no token is left, and expanding again changes nothing. */
  lemma ExpandIdempotent(s: string)
    ensures Tokens(Expand(s)) == []
    ensures Expand(Expand(s)) == Expand(s)
  {
    ExpandTokenFree(s);
    TokenFreeFixed(Expand(s));
  }
}
