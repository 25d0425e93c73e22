/** Catalogs as staged, as Trino receives them, and as the durable Secret keeps them; and the
    Client Certificates they refer to. */
module Catalogs {
  import opened Outcomes
  import opened Ordering
  import opened Slices
  import opened PropertiesFile
  import opened CertificateTokens

  const WIRED := "postgresql"
  const URL := "connection-url"
  const SUFFIX := ".properties"

  datatype Stored = Stored(connector: string, properties: map<string, string>, certificate: Option<string>) {
    /** A certificate is named, and not by the empty string. */
    predicate Presents() {
      certificate.Some? && certificate.value != ""
    }

    /** What staging refuses to let through otherwise: a certificate is only accepted under a
        name the API allows, for the connector that is wired, with a URL to wire it into. */
    predicate Usable() {
      Presents() ==> IsName(certificate.value) && connector == WIRED && URL in properties
    }
  }

  type Catalog = c: Stored | c.Usable() witness Stored("memory", map[], None)

  type Configured = map<string, Catalog>

  datatype WireError = UnknownConvention | NoUrl

  function Wire(connector: string, properties: map<string, string>,
                certificate: string): Result<map<string, string>, WireError> {
    if connector != WIRED then Err(UnknownConvention)
    else if URL !in properties then Err(NoUrl)
    else Ok(properties[URL := properties[URL] + WiredText(properties[URL], certificate)])
  }

  function Joiner(url: string): char {
    if '?' in url then '&' else '?'
  }

  function WiredText(url: string, certificate: string): string {
    [Joiner(url)] + CertificateParameters(certificate)
  }

  function CertificateParameters(certificate: string): string {
    "sslcert=" + CertificatePath(certificate) + "&sslkey=" + KeyPath(certificate)
  }

  function ExpandAll(properties: map<string, string>): map<string, string> {
    map key | key in properties :: Expand(properties[key])
  }

  /** The properties Trino should receive. One function for the DDL and for the Secret. */
  function Effective(c: Catalog): map<string, string> {
    if c.Presents() then ExpandAll(Wire(c.connector, c.properties, c.certificate.value).value)
    else ExpandAll(c.properties)
  }

  /** What a live catalog runs. */
  datatype Content = Content(connector: string, properties: map<string, string>)

  function ContentOf(c: Catalog): Content {
    Content(c.connector, Effective(c))
  }

  function Contents(catalogs: Configured): map<string, Content> {
    map name | name in catalogs :: ContentOf(catalogs[name])
  }

  // ------------------------------------------------------------------ the durable copy

  function Rendered(c: Catalog): string {
    RenderProperties(c.connector, Effective(c))
  }

  function KeyOf(name: string): string {
    name + SUFFIX
  }

  /** The catalog a Secret key belongs to. */
  function NameOf(key: string): Option<string> {
    var n := |key| - |SUFFIX|;
    if 0 <= n && key[n..] == SUFFIX then Some(key[..n]) else None
  }

  lemma NameOfKey(key: string, name: string)
    ensures NameOf(key) == Some(name) <==> key == KeyOf(name)
  {
    Halves(name, SUFFIX);
    if |SUFFIX| <= |key| {
      Rejoin(key, |key| - |SUFFIX|);
    }
  }

  lemma KeyOfInjective(a: string, b: string)
    ensures KeyOf(a) == KeyOf(b) ==> a == b
  {
    NameOfKey(KeyOf(a), a);
    NameOfKey(KeyOf(a), b);
  }

  type SecretData = map<string, string>

  function KeysOf(names: set<string>): set<string> {
    set name | name in names :: KeyOf(name)
  }

  lemma KeysOfNames(names: set<string>, name: string)
    ensures KeyOf(name) in KeysOf(names) <==> name in names
  {
    forall other | other in names ensures KeyOf(other) == KeyOf(name) ==> other == name {
      KeyOfInjective(other, name);
    }
  }

  lemma KeysHaveNames(names: set<string>, key: string)
    requires key in KeysOf(names)
    ensures NameOf(key).Some? && NameOf(key).value in names
  {
    var name :| name in names && KeyOf(name) == key;
    NameOfKey(key, name);
  }

  /** The whole Secret: one key per Catalog and nothing else. */
  function RenderSecret(catalogs: Configured): SecretData {
    map key | key in KeysOf(catalogs.Keys) ::
      KeysHaveNames(catalogs.Keys, key); Rendered(catalogs[NameOf(key).value])
  }

  /** What is recorded under a name: nothing, unless the configuration holds it. */
  function Recorded(data: SecretData, name: string): Option<string> {
    if KeyOf(name) in data then Some(data[KeyOf(name)]) else None
  }

  lemma SecretRecords(catalogs: Configured, name: string)
    ensures Recorded(RenderSecret(catalogs), name) ==
            if name in catalogs then Some(Rendered(catalogs[name])) else None
  {
    KeysOfNames(catalogs.Keys, name);
    NameOfKey(KeyOf(name), name);
  }

  predicate CleanCatalog(c: Catalog) {
    Clean(c.connector, Effective(c))
  }

  predicate CleanAll(catalogs: Configured) {
    forall name | name in catalogs :: CleanCatalog(catalogs[name])
  }

  /** What a starting coordinator loads from the Secret: every file, read back. */
  ghost predicate Seeds(data: SecretData, live: map<string, Content>) {
    (forall name :: Recorded(data, name).Some? <==> name in live) &&
    forall name | name in live ::
      ParseProperties(Recorded(data, name).value) == Ok(Parsed(live[name].connector, live[name].properties, []))
  }

  function NamesIn(data: SecretData): set<string> {
    set key | key in data && NameOf(key).Some? :: NameOf(key).value
  }

  lemma NamesInAre(data: SecretData, name: string)
    ensures name in NamesIn(data) <==> Recorded(data, name).Some?
  {
    NameOfKey(KeyOf(name), name);
    forall key | key in data && NameOf(key) == Some(name) ensures key == KeyOf(name) {
      NameOfKey(key, name);
    }
  }

  /** The catalog a recorded file describes, when it is one that reads back without loss. */
  function Readable(data: SecretData, name: string): Option<Content> {
    match Recorded(data, name)
    case None => None
    case Some(text) =>
      match ParseProperties(text)
      case Err(_) => None
      case Ok(parsed) => if parsed.lost == [] then Some(Content(parsed.connector, parsed.properties)) else None
  }

  /** Everything the Secret holds, read back; nothing when some of it cannot be. */
  function Loaded(data: SecretData): Option<map<string, Content>> {
    if forall name | name in NamesIn(data) :: Readable(data, name).Some?
    then Some(map name | name in NamesIn(data) :: Readable(data, name).value)
    else None
  }

  lemma LoadedSeeds(data: SecretData)
    ensures Loaded(data).Some? ==> Seeds(data, Loaded(data).value)
  {
    if Loaded(data).Some? {
      var live := Loaded(data).value;
      forall name ensures Recorded(data, name).Some? <==> name in live {
        NamesInAre(data, name);
      }
      forall name | name in live
        ensures ParseProperties(Recorded(data, name).value) ==
                Ok(Parsed(live[name].connector, live[name].properties, []))
      {
        assert Readable(data, name).Some?;
      }
    }
  }

  lemma SecretReadsBack(catalogs: Configured, name: string)
    requires name in catalogs && CleanCatalog(catalogs[name])
    ensures Recorded(RenderSecret(catalogs), name).Some?
    ensures ParseProperties(Recorded(RenderSecret(catalogs), name).value) ==
            Ok(Parsed(catalogs[name].connector, Effective(catalogs[name]), []))
  {
    SecretRecords(catalogs, name);
    RoundTripExactlyWhenClean(catalogs[name].connector, Effective(catalogs[name]));
  }

  /** What a Secret seeds is what is loaded from it. */
  lemma SeedsLoaded(data: SecretData, live: map<string, Content>)
    requires Seeds(data, live)
    ensures Loaded(data) == Some(live)
  {
    forall name ensures name in NamesIn(data) <==> name in live {
      NamesInAre(data, name);
    }
    forall name | name in live ensures Readable(data, name) == Some(live[name]) {
      assert Recorded(data, name).Some?;
    }
    assert Loaded(data).Some?;
    assert Loaded(data).value == live;
  }

  /** A clean configuration's Secret seeds that configuration and no other. */
  lemma SecretSeedsConfiguration(catalogs: Configured, live: map<string, Content>)
    requires CleanAll(catalogs)
    ensures Seeds(RenderSecret(catalogs), live) <==> live == Contents(catalogs)
  {
    var data, wanted := RenderSecret(catalogs), Contents(catalogs);
    forall name ensures Recorded(data, name).Some? <==> name in wanted {
      SecretRecords(catalogs, name);
    }
    forall name | name in wanted
      ensures ParseProperties(Recorded(data, name).value) ==
              Ok(Parsed(wanted[name].connector, wanted[name].properties, []))
    {
      SecretReadsBack(catalogs, name);
    }
    SeedsUnique(data, wanted, live);
  }

  lemma SeedsUnique(data: SecretData, wanted: map<string, Content>, live: map<string, Content>)
    requires Seeds(data, wanted)
    ensures Seeds(data, live) <==> live == wanted
  {
    if Seeds(data, live) {
      forall name ensures name in live <==> name in wanted {
        assert Recorded(data, name).Some? <==> name in live;
      }
      assert live.Keys == wanted.Keys;
      forall name | name in live ensures live[name] == wanted[name] {
        assert ParseProperties(Recorded(data, name).value) ==
               Ok(Parsed(live[name].connector, live[name].properties, []));
      }
      assert live == wanted;
    }
  }

  // ------------------------------------------------------------------ certificates

  lemma ExpandPlain(s: string)
    requires '$' !in s
    ensures Expand(s) == s && Tokens(s) == []
  {
    NothingFree();
    TokenFreeAppend(s, "");
    assert s + "" == s;
    TokenFreeFixed(s);
  }

  lemma PlainProperties(properties: map<string, string>)
    requires forall key | key in properties :: '$' !in properties[key]
    ensures ExpandAll(properties) == properties
  {
    forall key | key in properties ensures Expand(properties[key]) == properties[key] { ExpandPlain(properties[key]); }
  }

  lemma ParametersPlain(certificate: string)
    requires IsName(certificate)
    ensures '$' !in CertificateParameters(certificate)
  {
    assert '$' !in certificate;
    assert '$' !in CertificatePath(certificate);
    assert '$' !in KeyPath(certificate);
  }

  lemma ExpandAcross(url: string, c: char, rest: string)
    requires !TokenChar(c) && '$' !in rest
    ensures Expand(url + ([c] + rest)) == Expand(url) + ([c] + rest)
  {
    ExpandPlain(rest);
    TokensBoundary(url, c, rest);
  }

  lemma WiredExpansion(url: string, certificate: string)
    requires IsName(certificate)
    ensures Expand(url + WiredText(url, certificate)) == Expand(url) + WiredText(url, certificate)
  {
    ParametersPlain(certificate);
    ExpandAcross(url, Joiner(url), CertificateParameters(certificate));
  }

  /** Every effective property is the staged one with its tokens expanded; the certificate is
      appended to the connection URL and nowhere else; no token reaches Trino. */
  lemma EffectiveProperties(c: Catalog)
    ensures Effective(c).Keys == c.properties.Keys
    ensures forall key | key in c.properties && (key != URL || c.certificate == None || c.certificate == Some("")) ::
              Effective(c)[key] == Expand(c.properties[key])
    ensures c.certificate.Some? && c.certificate.value != "" ==>
              Effective(c)[URL] == Expand(c.properties[URL]) + WiredText(c.properties[URL], c.certificate.value)
    ensures forall key | key in Effective(c) :: Tokens(Effective(c)[key]) == []
  {
    var wired := if c.Presents() then Wire(c.connector, c.properties, c.certificate.value).value else c.properties;
    assert Effective(c) == ExpandAll(wired);
    forall key | key in wired ensures Tokens(ExpandAll(wired)[key]) == [] {
      ExpandIdempotent(wired[key]);
    }
    if c.Presents() {
      WiredExpansion(c.properties[URL], c.certificate.value);
    }
  }

  function ValuesOf(properties: map<string, string>): (values: seq<string>)
    ensures forall i | 0 <= i < |values| :: exists key :: key in properties && properties[key] == values[i]
    ensures forall key | key in properties :: properties[key] in values
  {
    var keys := Sorted(properties.Keys);
    var values := seq(|keys|, i requires 0 <= i < |keys| => properties[keys[i]]);
    assert forall key | key in properties :: properties[key] in values by {
      forall key | key in properties ensures properties[key] in values {
        assert key in keys;
        var i :| 0 <= i < |keys| && keys[i] == key;
        assert values[i] == properties[key];
      }
    }
    values
  }

  /** Every certificate a Catalog names, by scanning the space-joined values once. */
  function Referenced(c: Catalog): set<string> {
    (set t | t in Tokens(Joined(ValuesOf(c.properties))) :: t.name) +
    (if c.Presents() then {c.certificate.value} else {})
  }

  /** Every token that expansion replaces, and the pair that wiring appends. */
  function InsertedTokens(c: Catalog): set<Token> {
    (set key, t | key in c.properties && t in Tokens(c.properties[key]) :: t) +
    (if c.Presents() then {Token(Cert, c.certificate.value), Token(Key, c.certificate.value)} else {})
  }

  function PathsOf(tokens: set<Token>): set<string> {
    set t | t in tokens :: PathOf(t)
  }

  /** Every path that expansion or wiring writes into the Catalog's properties. */
  function InsertedPaths(c: Catalog): set<string> {
    PathsOf(InsertedTokens(c))
  }

  lemma ReferencedByToken(c: Catalog, t: Token)
    ensures t in Tokens(Joined(ValuesOf(c.properties))) <==>
            exists key :: key in c.properties && t in Tokens(c.properties[key])
  {
    var values := ValuesOf(c.properties);
    JoinedTokens(values, t);
    if NamedIn(values, t) {
      var i :| 0 <= i < |values| && t in Tokens(values[i]);
      var key :| key in c.properties && c.properties[key] == values[i];
      assert t in Tokens(c.properties[key]);
    }
    if key :| key in c.properties && t in Tokens(c.properties[key]) {
      var i :| 0 <= i < |values| && values[i] == c.properties[key];
      assert t in Tokens(values[i]);
    }
  }

  datatype Pair = Pair(certificate: string, privateKey: string)

  function PairTokens(names: set<string>): set<Token> {
    (set name | name in names :: Token(Cert, name)) + (set name | name in names :: Token(Key, name))
  }

  /** The files the certificate generator writes. */
  function WrittenPaths(names: set<string>): set<string> {
    PathsOf(PairTokens(names))
  }

  lemma PairTokensAt(names: set<string>, t: Token)
    ensures t in PairTokens(names) <==> t.name in names
  {
    match t.kind
    case Cert => assert t == Token(Cert, t.name);
    case Key => assert t == Token(Key, t.name);
  }

  lemma PairTokensOneMore(names: seq<string>, i: nat)
    requires i < |names|
    ensures PairTokens(Elements(names[..i + 1])) ==
            PairTokens(Elements(names[..i])) + {Token(Cert, names[i])} + {Token(Key, names[i])}
  {
    TakeOneMore(names, i);
    assert Elements(names[..i + 1]) == Elements(names[..i]) + {names[i]};
  }

  lemma PathOfInjective(s: Token, t: Token)
    ensures PathOf(s) == PathOf(t) ==> s == t
  {
    Halves(MOUNT_DIR + "/" + s.name, if s.kind == Cert then CERTIFICATE_SUFFIX else KEY_SUFFIX);
    Halves(MOUNT_DIR + "/" + t.name, if t.kind == Cert then CERTIFICATE_SUFFIX else KEY_SUFFIX);
    Halves(MOUNT_DIR + "/", s.name);
    Halves(MOUNT_DIR + "/", t.name);
    assert PathOf(s)[|PathOf(s)| - 1] == if s.kind == Cert then 't' else 'y';
    assert PathOf(t)[|PathOf(t)| - 1] == if t.kind == Cert then 't' else 'y';
  }

  lemma PathsWithin(a: set<Token>, b: set<Token>)
    ensures PathsOf(a) <= PathsOf(b) <==> a <= b
  {
    if PathsOf(a) <= PathsOf(b) {
      forall s | s in a ensures s in b {
        assert PathOf(s) in PathsOf(a);
        var t :| t in b && PathOf(t) == PathOf(s);
        PathOfInjective(s, t);
      }
    }
  }

  function PemOf(staged: map<string, Pair>, t: Token): string
    requires t.name in staged
  {
    match t.kind case Cert => staged[t.name].certificate case Key => staged[t.name].privateKey
  }

  ghost predicate Holds(files: map<string, string>, staged: map<string, Pair>, tokens: set<Token>) {
    files.Keys == PathsOf(tokens) &&
    forall t | t in tokens :: t.name in staged && PathOf(t) in files && files[PathOf(t)] == PemOf(staged, t)
  }

  lemma HoldsOneMore(files: map<string, string>, staged: map<string, Pair>, tokens: set<Token>, t: Token)
    requires Holds(files, staged, tokens) && t.name in staged
    ensures Holds(files[PathOf(t) := PemOf(staged, t)], staged, tokens + {t})
  {
    forall s | s in tokens ensures PathOf(s) == PathOf(t) ==> s == t { PathOfInjective(s, t); }
    assert PathsOf(tokens + {t}) == PathsOf(tokens) + {PathOf(t)};
  }

  /** The pair of files of every staged certificate. */
  method RenderCertificates(staged: map<string, Pair>) returns (files: map<string, string>)
    ensures Holds(files, staged, PairTokens(staged.Keys))
  {
    var names := Sorted(staged.Keys);
    files := map[];
    for i := 0 to |names|
      invariant Holds(files, staged, PairTokens(Elements(names[..i])))
    {
      var name := names[i];
      ghost var done := PairTokens(Elements(names[..i]));
      HoldsOneMore(files, staged, done, Token(Cert, name));
      files := files[CertificatePath(name) := staged[name].certificate];
      HoldsOneMore(files, staged, done + {Token(Cert, name)}, Token(Key, name));
      files := files[KeyPath(name) := staged[name].privateKey];
      PairTokensOneMore(names, i);
    }
    assert names[..|names|] == names;
    assert Elements(names) == staged.Keys;
  }

  /** The certificates a Catalog names that nobody has staged. */
  function Unstaged(catalogs: Configured, staged: set<string>, name: string): set<string> {
    if name in catalogs then Referenced(catalogs[name]) - staged else {}
  }

  function Absences(name: string, wanted: seq<string>): seq<(string, string)> {
    seq(|wanted|, i requires 0 <= i < |wanted| => (name, wanted[i]))
  }

  /** The failures of the catalogs listed, catalog by catalog. */
  function MissingFrom(catalogs: Configured, staged: set<string>, names: seq<string>): seq<(string, string)> {
    if names == [] then []
    else
      var last := names[|names| - 1];
      MissingFrom(catalogs, staged, names[..|names| - 1]) + Absences(last, Sorted(Unstaged(catalogs, staged, last)))
  }

  lemma AbsencesMembers(last: string, wanted: seq<string>, name: string, missing: string)
    ensures (name, missing) in Absences(last, wanted) <==> name == last && missing in wanted
  {
    if name == last && missing in wanted {
      var i :| 0 <= i < |wanted| && wanted[i] == missing;
      assert Absences(last, wanted)[i] == (name, missing);
    }
  }

  lemma {:induction false} MissingMembers(catalogs: Configured, staged: set<string>, names: seq<string>, name: string,
                                          missing: string)
    ensures (name, missing) in MissingFrom(catalogs, staged, names) <==>
            name in names && missing in Unstaged(catalogs, staged, name)
  {
    if names != [] {
      var front, last := names[..|names| - 1], names[|names| - 1];
      MissingMembers(catalogs, staged, front, name, missing);
      AbsencesMembers(last, Sorted(Unstaged(catalogs, staged, last)), name, missing);
      assert name in names <==> name in front || name == last;
    }
  }

  lemma MissingOneMore(catalogs: Configured, staged: set<string>, names: seq<string>, i: nat)
    requires i < |names|
    ensures MissingFrom(catalogs, staged, names[..i + 1]) ==
            MissingFrom(catalogs, staged, names[..i]) + Absences(names[i], Sorted(Unstaged(catalogs, staged, names[i])))
  {
    TakeTake(names, i + 1, i);
  }

  /** The inner loop: one failure for each name wanted. */
  method Report(name: string, wanted: seq<string>, earlier: seq<(string, string)>)
    returns (failures: seq<(string, string)>)
    ensures failures == earlier + Absences(name, wanted)
  {
    failures := earlier;
    for k := 0 to |wanted|
      invariant failures == earlier + Absences(name, wanted)[..k]
    {
      failures := failures + [(name, wanted[k])];
    }
  }

  /** The nested loops: every Catalog, and every certificate it names that nobody has staged. */
  method MissingCertificates(catalogs: Configured, staged: set<string>) returns (failures: seq<(string, string)>)
    ensures failures == MissingFrom(catalogs, staged, Sorted(catalogs.Keys))
  {
    var names := Sorted(catalogs.Keys);
    failures := [];
    for i := 0 to |names|
      invariant failures == MissingFrom(catalogs, staged, names[..i])
    {
      failures := Report(names[i], Sorted(Unstaged(catalogs, staged, names[i])), failures);
      MissingOneMore(catalogs, staged, names, i);
    }
    assert names[..|names|] == names;
  }

  lemma TokenReferenced(c: Catalog, t: Token)
    requires t in InsertedTokens(c)
    ensures t.name in Referenced(c)
  {
    ReferencedByToken(c, t);
  }

  lemma ReferenceInserted(c: Catalog, name: string)
    requires name in Referenced(c)
    ensures exists t :: t in InsertedTokens(c) && t.name == name
  {
    if t :| t in Tokens(Joined(ValuesOf(c.properties))) && t.name == name {
      ReferencedByToken(c, t);
      assert t in InsertedTokens(c);
    } else {
      assert Token(Cert, name) in InsertedTokens(c);
    }
  }

  lemma NamedFilesExist(c: Catalog, staged: set<string>)
    ensures Referenced(c) <= staged <==> InsertedPaths(c) <= WrittenPaths(staged)
  {
    PathsWithin(InsertedTokens(c), PairTokens(staged));
    forall t | t in InsertedTokens(c)
      ensures t.name in Referenced(c) && (t in PairTokens(staged) <==> t.name in staged)
    {
      TokenReferenced(c, t);
      PairTokensAt(staged, t);
    }
    forall name | name in Referenced(c) ensures exists t :: t in InsertedTokens(c) && t.name == name {
      ReferenceInserted(c, name);
    }
  }

  /** Nothing is reported exactly when every path inserted anywhere is a file that is written. */
  lemma NothingMissingMeansFilesExist(catalogs: Configured, staged: set<string>)
    ensures MissingFrom(catalogs, staged, Sorted(catalogs.Keys)) == []
       <==> forall name | name in catalogs :: InsertedPaths(catalogs[name]) <= WrittenPaths(staged)
  {
    var failures := MissingFrom(catalogs, staged, Sorted(catalogs.Keys));
    forall name | name in catalogs
      ensures Referenced(catalogs[name]) <= staged <==> InsertedPaths(catalogs[name]) <= WrittenPaths(staged)
    {
      NamedFilesExist(catalogs[name], staged);
    }
    if failures == [] {
      forall name, missing | name in catalogs && missing in Referenced(catalogs[name]) ensures missing in staged {
        MissingMembers(catalogs, staged, Sorted(catalogs.Keys), name, missing);
      }
    } else {
      var (name, missing) := failures[0];
      assert (name, missing) in failures;
      MissingMembers(catalogs, staged, Sorted(catalogs.Keys), name, missing);
    }
  }

  /** The listed Catalogs that name a certificate, in order. */
  function Users(catalogs: Configured, names: seq<string>, certificate: string): seq<string> {
    if names == [] then []
    else
      var last := names[|names| - 1];
      Users(catalogs, names[..|names| - 1], certificate) +
      if last in catalogs && certificate in Referenced(catalogs[last]) then [last] else []
  }

  lemma {:induction false} UsersMembers(catalogs: Configured, names: seq<string>, certificate: string, name: string)
    ensures name in Users(catalogs, names, certificate) <==>
            name in names && name in catalogs && certificate in Referenced(catalogs[name])
  {
    hide Referenced;
    if names != [] {
      var front, last := names[..|names| - 1], names[|names| - 1];
      UsersMembers(catalogs, front, certificate, name);
      assert name in names <==> name in front || name == last;
    }
  }

  /** Taking a certificate away breaks exactly the Catalogs that are reported as using it, and each
      of them for that certificate only. */
  lemma RemovalBreaksExactlyTheUsers(catalogs: Configured, staged: set<string>, certificate: string, name: string,
                                     missing: string)
    ensures var names := Sorted(catalogs.Keys);
            (name, missing) in MissingFrom(catalogs, staged - {certificate}, names) <==>
            (name, missing) in MissingFrom(catalogs, staged, names) ||
              (missing == certificate && name in Users(catalogs, names, certificate))
  {
    hide Referenced, MissingFrom, Users;
    var names := Sorted(catalogs.Keys);
    MissingMembers(catalogs, staged, names, name, missing);
    MissingMembers(catalogs, staged - {certificate}, names, name, missing);
    UsersMembers(catalogs, names, certificate, name);
  }

  // ------------------------------------------------------------------ the Secret, key by key

  /** One key per Catalog, its name with `.properties` behind it, holding its rendering; and no other key. */
  lemma SecretKeysExactly(catalogs: Configured, key: string)
    ensures key in RenderSecret(catalogs) <==> exists name :: name in catalogs && key == name + ".properties"
    ensures forall name | name in catalogs && key == name + ".properties" ::
              key in RenderSecret(catalogs) &&
              RenderSecret(catalogs)[key] == RenderProperties(catalogs[name].connector, Effective(catalogs[name]))
  {
    forall name | name in catalogs && key == name + ".properties"
      ensures key in RenderSecret(catalogs) &&
              RenderSecret(catalogs)[key] == RenderProperties(catalogs[name].connector, Effective(catalogs[name]))
    {
      assert key == KeyOf(name);
      KeysOfNames(catalogs.Keys, name);
      NameOfKey(key, name);
    }
    if key in RenderSecret(catalogs) {
      var name :| name in catalogs && KeyOf(name) == key;
      assert key == name + ".properties";
    }
  }
}
