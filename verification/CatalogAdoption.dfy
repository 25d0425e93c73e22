/** Adopting the catalogs of a cluster from the files in its store directory. */
module CatalogAdoption {
  import opened Outcomes
  import opened Ordering
  import opened Slices
  import opened PropertiesFile
  import opened Catalogs

  type Files = map<string, string>

  /** `rstrip("/")`, and the slash that every path inside begins with. */
  function Prefix(directory: string): (prefix: string)
    ensures prefix != [] && prefix[|prefix| - 1] == '/'
  {
    if directory != [] && directory[|directory| - 1] == '/' then Prefix(directory[..|directory| - 1])
    else directory + "/"
  }

  /** The catalog a path in the store directory belongs to; the empty name is nobody's. */
  function StoreName(path: string, directory: string): Option<string> {
    var prefix := Prefix(directory);
    if !(prefix <= path) then None
    else
      match NameOf(path[|prefix|..])
      case None => None
      case Some(name) => if name == "" then None else Some(name)
  }

  function StorePath(name: string, directory: string): string {
    Prefix(directory) + KeyOf(name)
  }

  lemma StoreNameExactly(path: string, directory: string, name: string)
    ensures StoreName(path, directory) == Some(name) <==> name != "" && path == StorePath(name, directory)
    ensures StorePath(name, directory) == Prefix(directory) + name + ".properties"
  {
    var prefix := Prefix(directory);
    Halves(prefix, KeyOf(name));
    if prefix <= path {
      Rejoin(path, |prefix|);
      NameOfKey(path[|prefix|..], name);
    }
  }

  // ------------------------------------------------------------------ reading the directory

  datatype Unaccounted = NotOurs(path: string) | Comment(path: string, line: nat)

  datatype Adopted = Adopted(resources: map<string, Content>, unaccounted: seq<Unaccounted>)

  datatype Unreadable = Unreadable(path: string, problem: Problem)

  function Comments(path: string, lines: seq<nat>): seq<Unaccounted> {
    seq(|lines|, i requires 0 <= i < |lines| => Comment(path, lines[i]))
  }

  function AdoptOne(sofar: Adopted, path: string, text: string, directory: string): Result<Adopted, Unreadable> {
    match StoreName(path, directory)
    case None => Ok(sofar.(unaccounted := sofar.unaccounted + [NotOurs(path)]))
    case Some(name) =>
      match ParseProperties(text)
      case Err(problem) => Err(Unreadable(path, problem))
      case Ok(parsed) => Ok(Adopted(sofar.resources[name := Content(parsed.connector, parsed.properties)],
                                    sofar.unaccounted + Comments(path, parsed.lost)))
  }

  /** The files in order, up to the first that cannot be read. */
  function AdoptAll(files: Files, paths: seq<string>, directory: string): Result<Adopted, Unreadable> {
    if paths == [] then Ok(Adopted(map[], []))
    else
      match AdoptAll(files, paths[..|paths| - 1], directory)
      case Err(problem) => Err(problem)
      case Ok(sofar) =>
        var last := paths[|paths| - 1];
        if last in files then AdoptOne(sofar, last, files[last], directory) else Ok(sofar)
  }

  lemma {:induction false} FirstUnreadable(files: Files, paths: seq<string>, directory: string, i: nat)
    requires i <= |paths| && AdoptAll(files, paths[..i], directory).Err?
    ensures AdoptAll(files, paths, directory) == AdoptAll(files, paths[..i], directory)
    decreases |paths|
  {
    hide AdoptOne;
    if i == |paths| {
      assert paths[..i] == paths;
    } else {
      TakeTake(paths, |paths| - 1, i);
      FirstUnreadable(files, paths[..|paths| - 1], directory, i);
    }
  }

  method ParseFiles(files: Files, directory: string) returns (result: Result<Adopted, Unreadable>)
    ensures result == AdoptAll(files, Sorted(files.Keys), directory)
  {
    hide StoreName, ParseProperties;
    var paths := Sorted(files.Keys);
    var resources: map<string, Content>, unaccounted: seq<Unaccounted> := map[], [];
    for i := 0 to |paths|
      invariant AdoptAll(files, paths[..i], directory) == Ok(Adopted(resources, unaccounted))
    {
      TakeTake(paths, i + 1, i);
      var path := paths[i];
      assert path in paths;
      var name := StoreName(path, directory);
      if name.None? {
        unaccounted := unaccounted + [NotOurs(path)];
        continue;
      }
      var parsed := ReadProperties(files[path]);
      if parsed.Err? {
        FirstUnreadable(files, paths, directory, i + 1);
        return Err(Unreadable(path, parsed.error));
      }
      resources := resources[name.value := Content(parsed.value.connector, parsed.value.properties)];
      unaccounted := unaccounted + Comments(path, parsed.value.lost);
    }
    assert paths[..|paths|] == paths;
    return Ok(Adopted(resources, unaccounted));
  }

  // ------------------------------------------------------------------ what Apchi wrote itself

  /** A file that is one catalog's and loses nothing by being read. */
  predicate Whole(files: Files, path: string, directory: string) {
    path in files && StoreName(path, directory).Some? && ParseProperties(files[path]).Ok? &&
      ParseProperties(files[path]).value.lost == []
  }

  function ContentIn(files: Files, path: string, directory: string): Content
    requires Whole(files, path, directory)
  {
    Content(ParseProperties(files[path]).value.connector, ParseProperties(files[path]).value.properties)
  }

  ghost predicate AllWhole(files: Files, paths: seq<string>, directory: string) {
    forall path | path in paths :: Whole(files, path, directory)
  }

  lemma OnlyOnePath(a: string, b: string, directory: string)
    requires StoreName(a, directory).Some? && StoreName(a, directory) == StoreName(b, directory)
    ensures a == b
  {
    StoreNameExactly(a, directory, StoreName(a, directory).value);
    StoreNameExactly(b, directory, StoreName(a, directory).value);
  }

  ghost predicate Holding(files: Files, paths: seq<string>, directory: string, resources: map<string, Content>)
    requires AllWhole(files, paths, directory)
  {
    (forall name :: name in resources <==> exists path :: path in paths && StoreName(path, directory) == Some(name)) &&
    forall path | path in paths ::
      StoreName(path, directory).value in resources &&
        resources[StoreName(path, directory).value] == ContentIn(files, path, directory)
  }

  lemma HoldingOneMore(files: Files, front: seq<string>, last: string, directory: string,
                       resources: map<string, Content>)
    requires AllWhole(files, front, directory) && Whole(files, last, directory)
    requires Holding(files, front, directory, resources)
    ensures var name := StoreName(last, directory).value;
            Holding(files, front + [last], directory, resources[name := ContentIn(files, last, directory)])
  {
    hide ParseProperties, StoreName;
    var paths, name := front + [last], StoreName(last, directory).value;
    forall path | path in front && StoreName(path, directory) == Some(name) ensures path == last {
      OnlyOnePath(path, last, directory);
    }
    forall other ensures other in resources || other == name <==>
                         exists path :: path in paths && StoreName(path, directory) == Some(other)
    {
      if other == name { assert last in paths; }
      if path :| path in front && StoreName(path, directory) == Some(other) { assert path in paths; }
    }
  }

  /** Nothing is unaccounted for exactly when every file is whole, and then each name has the
      content of its own file. */
  lemma {:induction false} AdoptedExactly(files: Files, paths: seq<string>, directory: string)
    requires forall path | path in paths :: path in files
    ensures var result := AdoptAll(files, paths, directory);
            (result.Ok? && result.value.unaccounted == [] <==> AllWhole(files, paths, directory)) &&
            (AllWhole(files, paths, directory) ==> Holding(files, paths, directory, result.value.resources))
  {
    hide ParseProperties, StoreName;
    if paths != [] {
      hide Holding;
      var front, last := paths[..|paths| - 1], paths[|paths| - 1];
      assert paths == front + [last];
      AdoptedExactly(files, front, directory);
      assert AllWhole(files, paths, directory) <==> AllWhole(files, front, directory) && Whole(files, last, directory);
      if AllWhole(files, paths, directory) {
        HoldingOneMore(files, front, last, directory, AdoptAll(files, front, directory).value.resources);
      }
    }
  }

  function PathsOfNames(names: set<string>, directory: string): set<string> {
    set name | name in names :: StorePath(name, directory)
  }

  lemma PathHasName(names: set<string>, directory: string, path: string)
    requires path in PathsOfNames(names, directory)
    ensures Prefix(directory) <= path && NameOf(path[|Prefix(directory)|..]).Some? &&
            NameOf(path[|Prefix(directory)|..]).value in names
    ensures path == StorePath(NameOf(path[|Prefix(directory)|..]).value, directory)
  {
    var name :| name in names && StorePath(name, directory) == path;
    Halves(Prefix(directory), KeyOf(name));
    NameOfKey(KeyOf(name), name);
  }

  /** The store directory of a coordinator that was seeded from a configuration. */
  function StoreFiles(catalogs: Configured, directory: string): Files {
    map path | path in PathsOfNames(catalogs.Keys, directory) ::
      PathHasName(catalogs.Keys, directory, path); Rendered(catalogs[NameOf(path[|Prefix(directory)|..]).value])
  }

  lemma StoreFileOf(catalogs: Configured, directory: string, name: string)
    requires name in catalogs
    ensures StorePath(name, directory) in StoreFiles(catalogs, directory)
    ensures StoreFiles(catalogs, directory)[StorePath(name, directory)] == Rendered(catalogs[name])
  {
    Halves(Prefix(directory), KeyOf(name));
    NameOfKey(KeyOf(name), name);
    assert StorePath(name, directory) in PathsOfNames(catalogs.Keys, directory);
  }

  /** One of these files: whose it is, and what it says. */
  lemma OwnFile(catalogs: Configured, directory: string, path: string) returns (name: string)
    requires "" !in catalogs && CleanAll(catalogs)
    requires path in StoreFiles(catalogs, directory)
    ensures name in catalogs && path == StorePath(name, directory) && StoreName(path, directory) == Some(name)
    ensures Whole(StoreFiles(catalogs, directory), path, directory)
    ensures ContentIn(StoreFiles(catalogs, directory), path, directory) == ContentOf(catalogs[name])
  {
    hide ParseProperties, StoreName, RenderProperties;
    PathHasName(catalogs.Keys, directory, path);
    name := NameOf(path[|Prefix(directory)|..]).value;
    StoreNameExactly(path, directory, name);
    StoreFileOf(catalogs, directory, name);
    RoundTripExactlyWhenClean(catalogs[name].connector, Effective(catalogs[name]));
  }

  ghost predicate ReadFrom(catalogs: Configured, directory: string, resources: map<string, Content>) {
    var files := StoreFiles(catalogs, directory);
    AllWhole(files, Sorted(files.Keys), directory) && Holding(files, Sorted(files.Keys), directory, resources)
  }

  lemma NoneElse(catalogs: Configured, directory: string, resources: map<string, Content>, name: string)
    requires "" !in catalogs && CleanAll(catalogs)
    requires ReadFrom(catalogs, directory, resources) && name in resources
    ensures name in catalogs
  {
    hide ParseProperties, StoreName, CleanAll, StoreFiles, ContentIn, ContentOf, Whole;
    var paths := Sorted(StoreFiles(catalogs, directory).Keys);
    var path :| path in paths && StoreName(path, directory) == Some(name);
    var owner := OwnFile(catalogs, directory, path);
  }

  lemma EachOne(catalogs: Configured, directory: string, resources: map<string, Content>, name: string)
    requires "" !in catalogs && CleanAll(catalogs)
    requires ReadFrom(catalogs, directory, resources) && name in catalogs
    ensures name in resources && resources[name] == ContentOf(catalogs[name])
  {
    hide ParseProperties, StoreName, CleanAll, StoreFiles, ContentIn, ContentOf, Whole, StorePath;
    StoreFileOf(catalogs, directory, name);
    var path := StorePath(name, directory);
    assert path in Sorted(StoreFiles(catalogs, directory).Keys);
    StoreNameExactly(path, directory, name);
    var owner := OwnFile(catalogs, directory, path);
  }

  lemma SameContents(catalogs: Configured, directory: string, resources: map<string, Content>)
    requires "" !in catalogs && CleanAll(catalogs)
    requires ReadFrom(catalogs, directory, resources)
    ensures resources == Contents(catalogs)
  {
    hide ReadFrom, CleanAll, ContentOf;
    forall name | name in resources ensures name in catalogs { NoneElse(catalogs, directory, resources, name); }
    forall name | name in catalogs ensures name in resources && resources[name] == ContentOf(catalogs[name]) {
      EachOne(catalogs, directory, resources, name);
    }
    assert resources.Keys == catalogs.Keys;
  }

  /** Adopting the store of a clean configuration gives each catalog as Trino runs it, with nothing
      left over. */
  lemma AdoptionReadsBack(catalogs: Configured, directory: string)
    requires "" !in catalogs && CleanAll(catalogs)
    ensures var files := StoreFiles(catalogs, directory);
            AdoptAll(files, Sorted(files.Keys), directory) == Ok(Adopted(Contents(catalogs), []))
  {
    hide ParseProperties, StoreName, StorePath, Rendered, CleanAll, StoreFiles, Holding, AdoptAll;
    var files := StoreFiles(catalogs, directory);
    var paths := Sorted(files.Keys);
    forall path | path in paths ensures Whole(files, path, directory) {
      var owner := OwnFile(catalogs, directory, path);
    }
    AdoptedExactly(files, paths, directory);
    SameContents(catalogs, directory, AdoptAll(files, paths, directory).value.resources);
  }

  // ------------------------------------------------------------------ whatever the files hold

  /** Slashes at the end of the directory make no difference. */
  lemma StoreDirectory(directory: string)
    ensures Prefix(directory + "/") == Prefix(directory)
    ensures (directory == "" || directory[|directory| - 1] != '/') ==> Prefix(directory) == directory + "/"
  {
    assert (directory + "/")[..|directory|] == directory;
  }

  /** The files that are a catalog's. */
  predicate Ours(files: Files, path: string, directory: string) {
    path in files && StoreName(path, directory).Some?
  }

  /** Each catalog's file gives its catalog, comments or not. */
  ghost predicate Gives(files: Files, paths: seq<string>, directory: string, resources: map<string, Content>) {
    (forall name :: name in resources <==> exists path :: path in paths && StoreName(path, directory) == Some(name)) &&
    forall path | path in paths && Ours(files, path, directory) ::
      ParseProperties(files[path]).Ok? && StoreName(path, directory).value in resources &&
      resources[StoreName(path, directory).value] ==
      Content(ParseProperties(files[path]).value.connector, ParseProperties(files[path]).value.properties)
  }

  /** Every path that is no catalog's is reported, and every comment that is lost. */
  ghost predicate Names(files: Files, paths: seq<string>, directory: string, unaccounted: seq<Unaccounted>) {
    forall u :: u in unaccounted <==>
      u.path in paths &&
      match u
      case NotOurs(path) => !Ours(files, path, directory)
      case Comment(path, line) =>
        Ours(files, path, directory) && ParseProperties(files[path]).Ok? &&
        line in ParseProperties(files[path]).value.lost
  }

  /** Whatever the files hold: adoption stops only at a catalog's file that cannot be read, and otherwise
      takes each catalog from its file and reports all that it does not take. */
  lemma {:induction false} AdoptedMembers(files: Files, paths: seq<string>, directory: string)
    requires forall path | path in paths :: path in files
    ensures var result := AdoptAll(files, paths, directory);
            (result.Ok? <==>
               forall path | path in paths && Ours(files, path, directory) :: ParseProperties(files[path]).Ok?) &&
            (result.Ok? ==>
               Gives(files, paths, directory, result.value.resources) &&
               Names(files, paths, directory, result.value.unaccounted))
  {
    hide ParseProperties, StoreName;
    if paths != [] {
      hide Gives, Names;
      var front, last := paths[..|paths| - 1], paths[|paths| - 1];
      assert paths == front + [last];
      AdoptedMembers(files, front, directory);
      if AdoptAll(files, paths, directory).Ok? {
        AdoptedOneMore(files, front, last, directory);
        var before, after := AdoptAll(files, front, directory).value, AdoptAll(files, paths, directory).value;
        GivesOneMore(files, front, last, directory, before.resources, after.resources);
        NamesOneMore(files, front, last, directory, before.unaccounted, after.unaccounted);
      }
    }
  }

  lemma GivesOneMore(files: Files, front: seq<string>, last: string, directory: string,
                     before: map<string, Content>, after: map<string, Content>)
    requires Gives(files, front, directory, before) && last in files
    requires if !Ours(files, last, directory) then after == before
             else ParseProperties(files[last]).Ok? &&
                  after == before[StoreName(last, directory).value :=
                                    Content(ParseProperties(files[last]).value.connector,
                                            ParseProperties(files[last]).value.properties)]
    ensures Gives(files, front + [last], directory, after)
  {
    hide ParseProperties, StoreName;
    var paths := front + [last];
    forall path | path in front && StoreName(path, directory).Some? &&
                  StoreName(path, directory) == StoreName(last, directory)
      ensures path == last
    {
      OnlyOnePath(path, last, directory);
    }
    forall name
      ensures name in after <==> exists path :: path in paths && StoreName(path, directory) == Some(name)
    {
      if name in after && name !in before { assert last in paths && StoreName(last, directory) == Some(name); }
      if name in before {
        var path :| path in front && StoreName(path, directory) == Some(name);
        assert path in paths;
      }
    }
  }

  lemma NamesOneMore(files: Files, front: seq<string>, last: string, directory: string, before: seq<Unaccounted>,
                     after: seq<Unaccounted>)
    requires Names(files, front, directory, before) && last in files
    requires if !Ours(files, last, directory) then after == before + [NotOurs(last)]
             else ParseProperties(files[last]).Ok? &&
                  forall u :: u in after <==>
                    u in before || (u.Comment? && u.path == last && u.line in ParseProperties(files[last]).value.lost)
    ensures Names(files, front + [last], directory, after)
  {
    hide ParseProperties, StoreName;
    assert forall path :: path in front + [last] <==> path in front || path == last;
  }

  lemma AdoptedOneMore(files: Files, front: seq<string>, last: string, directory: string)
    requires last in files && AdoptAll(files, front + [last], directory).Ok?
    ensures AdoptAll(files, front, directory).Ok?
    ensures var before, after := AdoptAll(files, front, directory).value,
            AdoptAll(files, front + [last], directory).value;
            if !Ours(files, last, directory) then after == before.(unaccounted := before.unaccounted + [NotOurs(last)])
            else
              ParseProperties(files[last]).Ok? &&
              var parsed := ParseProperties(files[last]).value;
              after.resources == before.resources[StoreName(last, directory).value :=
                                                    Content(parsed.connector, parsed.properties)] &&
              (forall u :: u in after.unaccounted <==>
                 u in before.unaccounted || (u.Comment? && u.path == last && u.line in parsed.lost))
  {
    hide ParseProperties, StoreName;
    assert (front + [last])[..|front|] == front;
    if Ours(files, last, directory) {
      CommentsMembers(last, ParseProperties(files[last]).value.lost);
    }
  }

  lemma CommentsMembers(path: string, lines: seq<nat>)
    ensures forall u :: u in Comments(path, lines) <==> u.Comment? && u.path == path && u.line in lines
  {
    forall line | line in lines ensures Comment(path, line) in Comments(path, lines) {
      var i :| 0 <= i < |lines| && lines[i] == line;
      assert Comments(path, lines)[i] == Comment(path, line);
    }
  }
}
