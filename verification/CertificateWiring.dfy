/** What a Catalog's properties say of its Client Certificate once tokens are expanded and the
    certificate is wired, read back the way a driver reads them. */
module CertificateWiring {
  import opened Outcomes
  import opened Slices
  import opened PropertiesFile
  import opened CertificateTokens
  import opened Catalogs

  // ------------------------------------------------------------------ tokens

  /** A well-formed token becomes the path of its file; any other text stays. */
  lemma ExpansionExactly(name: string, c: char, rest: string)
    requires IsName(name)
    ensures Expand("${cert:" + name + "}" + rest) == "/etc/trino/certs/" + name + ".crt" + Expand(rest)
    ensures Expand("${key:" + name + "}" + rest) == "/etc/trino/certs/" + name + ".key" + Expand(rest)
    ensures Expand("") == ""
    ensures TokenAt([c] + rest) == None ==> Expand([c] + rest) == [c] + Expand(rest)
  {
    assert Text(Token(Cert, name)) == "${cert:" + name + "}";
    assert Text(Token(Key, name)) == "${key:" + name + "}";
    TokensJump(Token(Cert, name), rest);
    TokensJump(Token(Key, name), rest);
    assert "/etc/trino/certs" + "/" == "/etc/trino/certs/";
    assert ([c] + rest)[1..] == rest;
  }

  /** What the name of a token may be made of, and what it may begin with. */
  lemma NameCharacters(c: char)
    ensures NameChar(c) <==>
            'A' <= c <= 'Z' || 'a' <= c <= 'z' || '0' <= c <= '9' || c == '.' || c == '_' || c == '-'
    ensures IsName([c]) <==> 'A' <= c <= 'Z' || 'a' <= c <= 'z' || '0' <= c <= '9'
    ensures !IsName("")
  {
  }

  /** The path of every token that is named is written where the token stood. */
  lemma {:induction false} TokenPathAppears(s: string, t: Token) returns (before: string, after: string)
    requires t in Tokens(s)
    ensures Expand(s) == before + PathOf(t) + after
    decreases |s|
  {
    hide PathOf, TokenAt;
    match TokenAt(s)
    case None =>
      before, after := TokenPathAppears(s[1..], t);
      assert [s[0]] + (before + PathOf(t) + after) == ([s[0]] + before) + PathOf(t) + after;
      before := [s[0]] + before;
    case Some(first) =>
      TokenSplits(s, first);
      var rest := s[|Text(first)|..];
      if t == first {
        before, after := "", Expand(rest);
        assert "" + PathOf(t) == PathOf(t);
      } else {
        before, after := TokenPathAppears(rest, t);
        assert PathOf(first) + (before + PathOf(t) + after) == (PathOf(first) + before) + PathOf(t) + after;
        before := PathOf(first) + before;
      }
  }

  /** Wiring knows one convention, and needs a URL to apply it to. */
  lemma WiringExactly(connector: string, properties: map<string, string>, certificate: string)
    ensures Wire(connector, properties, certificate) ==
            if connector != "postgresql" then Err(UnknownConvention)
            else if "connection-url" !in properties then Err(NoUrl)
            else
              var url, file := properties["connection-url"], "/etc/trino/certs/" + certificate;
              Ok(properties["connection-url" := url + ([if '?' in url then '&' else '?'] +
                              ("sslcert=" + (file + ".crt") + "&sslkey=" + (file + ".key")))])
  {
    assert "/etc/trino/certs" + "/" == "/etc/trino/certs/";
  }

  // ------------------------------------------------------------------ reading a connection URL

  datatype Parameter = Parameter(name: string, value: string)

  /** What stands between the separators. */
  function Pieces(text: string): seq<string>
    decreases |text|
  {
    var k := IndexOf(text, '&');
    if k == |text| then [text] else [text[..k]] + Pieces(text[k + 1..])
  }

  function ParameterOf(piece: string): Parameter {
    var k := IndexOf(piece, '=');
    if k == |piece| then Parameter(piece, "") else Parameter(piece[..k], piece[k + 1..])
  }

  function ParametersOf(pieces: seq<string>): seq<Parameter> {
    seq(|pieces|, i requires 0 <= i < |pieces| => ParameterOf(pieces[i]))
  }

  /** Where a URL connects to, without its parameters. */
  function Address(url: string): string {
    url[..IndexOf(url, '?')]
  }

  /** The parameters of a URL: everything after its first question mark. */
  function Parameters(url: string): seq<Parameter> {
    var k := IndexOf(url, '?');
    if k == |url| then [] else ParametersOf(Pieces(url[k + 1..]))
  }

  lemma FirstAt(a: string, c: char, b: string)
    requires c !in a
    ensures IndexOf(a + [c] + b, c) == |a| && IndexOf(a, c) == |a|
  {
    var s := a + [c] + b;
    var k := IndexOf(s, c);
    assert forall i | 0 <= i < |a| :: s[i] == a[i];
    assert forall i | 0 <= i < k :: s[..k][i] == s[i];
    assert s[|a|] == c;
  }

  lemma SplitAt(text: string, c: char)
    requires c in text
    ensures var k := IndexOf(text, c); k < |text| && text == text[..k] + [c] + text[k + 1..]
  {
    assert text[..|text|] == text;
  }

  lemma {:induction false} PiecesAppend(a: string, b: string)
    ensures Pieces(a + "&" + b) == Pieces(a) + Pieces(b)
    decreases |a|
  {
    var s := a + "&" + b;
    if '&' !in a {
      FirstAt(a, '&', b);
      Parts(a, '&', b);
    } else {
      SplitAt(a, '&');
      var k := IndexOf(a, '&');
      assert s == a[..k] + ['&'] + (a[k + 1..] + "&" + b);
      FirstAt(a[..k], '&', a[k + 1..] + "&" + b);
      Parts(a[..k], '&', a[k + 1..] + "&" + b);
      PiecesAppend(a[k + 1..], b);
    }
  }

  lemma OnePiece(name: string, value: string)
    requires '&' !in name && '&' !in value && '=' !in name
    ensures Pieces(name + "=" + value) == [name + "=" + value]
    ensures ParameterOf(name + "=" + value) == Parameter(name, value)
  {
    var piece := name + "=" + value;
    assert '&' !in piece;
    FirstAt(name, '=', value);
    Parts(name, '=', value);
  }

  lemma ParametersJoin(a: seq<string>, b: seq<string>)
    ensures ParametersOf(a + b) == ParametersOf(a) + ParametersOf(b)
  {
  }

  /** Text that is appended behind the right joiner is read as one more list of parameters. */
  lemma AppendedParameters(url: string, joiner: char, text: string)
    requires joiner == if '?' in url then '&' else '?'
    ensures Address(url + ([joiner] + text)) == Address(url)
    ensures Parameters(url + ([joiner] + text)) == Parameters(url) + ParametersOf(Pieces(text))
  {
    var s := url + ([joiner] + text);
    if '?' in url {
      SplitAt(url, '?');
      var k := IndexOf(url, '?');
      assert s == url[..k] + ['?'] + (url[k + 1..] + "&" + text);
      FirstAt(url[..k], '?', url[k + 1..] + "&" + text);
      Parts(url[..k], '?', url[k + 1..] + "&" + text);
      PiecesAppend(url[k + 1..], text);
      ParametersJoin(Pieces(url[k + 1..]), Pieces(text));
    } else {
      assert s == url + ['?'] + text;
      FirstAt(url, '?', text);
      Parts(url, '?', text);
    }
  }

  // ------------------------------------------------------------------ the certificate of a wired Catalog

  lemma NamePlain(name: string)
    requires IsName(name)
    ensures '&' !in name && '=' !in name && '?' !in name
  {
  }

  lemma PathsPlain(name: string)
    requires IsName(name)
    ensures '&' !in "/etc/trino/certs/" + name + ".crt" && '&' !in "/etc/trino/certs/" + name + ".key"
    ensures '?' !in "/etc/trino/certs/" + name + ".crt" && '?' !in "/etc/trino/certs/" + name + ".key"
  {
    NamePlain(name);
  }

  /** Expansion neither adds nor removes a question mark. */
  lemma {:induction false} QuestionMarksStay(s: string)
    ensures '?' in Expand(s) <==> '?' in s
    decreases |s|
  {
    if s != [] {
      match TokenAt(s)
      case None =>
        QuestionMarksStay(s[1..]);
        assert s == [s[0]] + s[1..];
      case Some(t) =>
        TokenSplits(s, t);
        QuestionMarksStay(s[|Text(t)|..]);
        TextPlain(t);
    }
  }

  lemma TextPlain(t: Token)
    requires IsName(t.name)
    ensures '?' !in Text(t) && '?' !in PathOf(t)
  {
    PathsPlain(t.name);
    assert "/etc/trino/certs" + "/" == "/etc/trino/certs/";
  }

  lemma WiredPieces(name: string)
    requires IsName(name)
    ensures ParametersOf(Pieces(CertificateParameters(name))) ==
            [Parameter("sslcert", "/etc/trino/certs/" + name + ".crt"),
             Parameter("sslkey", "/etc/trino/certs/" + name + ".key")]
  {
    hide IsName, Pieces, ParameterOf;
    assert "/etc/trino/certs" + "/" == "/etc/trino/certs/";
    var certificate, key := "/etc/trino/certs/" + name + ".crt", "/etc/trino/certs/" + name + ".key";
    PathsPlain(name);
    OnePiece("sslcert", certificate);
    OnePiece("sslkey", key);
    assert CertificateParameters(name) == ("sslcert" + "=" + certificate) + "&" + ("sslkey" + "=" + key);
    PiecesAppend("sslcert" + "=" + certificate, "sslkey" + "=" + key);
  }

  /** In the connection URL that Trino receives, the parameter `sslcert` names the file of the certificate
      and `sslkey` the file of its key, behind every parameter that was there, for a URL with
      parameters or without. */
  lemma WiredCertificateIsRead(c: Catalog)
    requires c.certificate.Some? && c.certificate.value != ""
    ensures URL in Effective(c) && Address(Effective(c)[URL]) == Address(Expand(c.properties[URL]))
    ensures Parameters(Effective(c)[URL]) ==
            Parameters(Expand(c.properties[URL])) +
            [Parameter("sslcert", "/etc/trino/certs/" + c.certificate.value + ".crt"),
             Parameter("sslkey", "/etc/trino/certs/" + c.certificate.value + ".key")]
  {
    hide Expand, CertificateParameters, Effective;
    EffectiveProperties(c);
    QuestionMarksStay(c.properties[URL]);
    WiredPieces(c.certificate.value);
    AppendedParameters(Expand(c.properties[URL]), Joiner(c.properties[URL]),
                       CertificateParameters(c.certificate.value));
  }

  /** And those two files hold the staged certificate and the staged private key. */
  lemma RenderedPair(files: map<string, string>, staged: map<string, Pair>, name: string)
    requires Holds(files, staged, PairTokens(staged.Keys)) && name in staged
    ensures var certificate, key := "/etc/trino/certs/" + name + ".crt", "/etc/trino/certs/" + name + ".key";
            certificate in files && files[certificate] == staged[name].certificate &&
            key in files && files[key] == staged[name].privateKey
  {
    assert "/etc/trino/certs" + "/" == "/etc/trino/certs/";
    PairTokensAt(staged.Keys, Token(Cert, name));
    PairTokensAt(staged.Keys, Token(Key, name));
    assert PathOf(Token(Cert, name)) == "/etc/trino/certs/" + name + ".crt";
    assert PathOf(Token(Key, name)) == "/etc/trino/certs/" + name + ".key";
  }

  // ------------------------------------------------------------------ what a Catalog names

  /** A Catalog names a certificate only by a name that is one, for the connector that is wired and with a URL
      to wire it into. */
  lemma StagedExactly(s: Stored)
    ensures s.Usable() <==>
            s.certificate == None || s.certificate == Some("") ||
            (IsName(s.certificate.value) && s.connector == "postgresql" && "connection-url" in s.properties)
  {
    hide IsName;
  }

  /** What a Catalog is said to refer to: what its tokens name, and the certificate it presents. */
  lemma ReferencedExactly(c: Catalog, name: string)
    ensures name in Referenced(c) <==>
            (name != "" && c.certificate == Some(name)) ||
            exists key, kind :: key in c.properties && Token(kind, name) in Tokens(c.properties[key])
  {
    hide Tokens, ValuesOf, Joined;
    if t: Token :| t in Tokens(Joined(ValuesOf(c.properties))) && t.name == name {
      ReferencedByToken(c, t);
      var key :| key in c.properties && t in Tokens(c.properties[key]);
      assert Token(t.kind, name) in Tokens(c.properties[key]);
    }
    if key, kind :| key in c.properties && Token(kind, name) in Tokens(c.properties[key]) {
      ReferencedByToken(c, Token(kind, name));
    }
  }

  /** Every path that is checked to be written is one that the Catalog is served with. */
  lemma InsertedPathIsServed(c: Catalog, t: Token) returns (key: string, before: string, after: string)
    requires t in InsertedTokens(c)
    ensures key in Effective(c) && Effective(c)[key] == before + PathOf(t) + after
  {
    hide Expand, Effective, Tokens, CertificatePath, KeyPath;
    EffectiveProperties(c);
    if named :| named in c.properties && t in Tokens(c.properties[named]) {
      key := named;
      before, after := TokenPathAppears(c.properties[key], t);
      if key == URL && c.Presents() {
        after := after + WiredText(c.properties[URL], c.certificate.value);
      }
    } else {
      key := URL;
      var name, start := c.certificate.value, Expand(c.properties[URL]) + [Joiner(c.properties[URL])];
      if t.kind == Cert {
        before, after := start + "sslcert=", "&sslkey=" + KeyPath(name);
      } else {
        before, after := start + ("sslcert=" + CertificatePath(name) + "&sslkey="), "";
      }
    }
  }
}
