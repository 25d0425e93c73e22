/** Delivering the files a Section declares: one write per Secret, one single-file mount per file
    with content, and no mount and no volume where there is nothing. */
module Delivery {
  import opened Outcomes
  import opened Ordering
  import opened KubernetesAdapter

  /** A file Apchi mounts itself, or a directory the Admin has mounted a Secret at. */
  datatype Spec = File(path: string, secret: string, key: string, volume: string)
                | Directory(path: string, secret: string)

  type Contents = map<string, string>

  /** The content rendered at a path, empty for none. */
  function TextAt(contents: Contents, path: string): string {
    if path in contents then contents[path] else ""
  }

  predicate Filled(contents: Contents, path: string) {
    TextAt(contents, path) != ""
  }

  // ------------------------------------------------------------------ one write per Secret

  /** Where the last part of a path begins. */
  function NameFrom(path: string): (k: nat)
    ensures k <= |path|
  {
    if path == [] then 0
    else if path[|path| - 1] == '/' then |path|
    else NameFrom(path[..|path| - 1])
  }

  function NameIn(path: string): string {
    path[NameFrom(path)..]
  }

  /** What stands before the last slash, without it. */
  function ParentOf(path: string): string {
    if NameFrom(path) == 0 then "." else if NameFrom(path) == 1 then "/" else path[..NameFrom(path) - 1]
  }

  predicate Claims(spec: Spec, path: string) {
    match spec
    case File(p, _, _, _) => path == p
    case Directory(p, _) => ParentOf(path) == p
  }

  /** Where a file a spec claims is kept. */
  datatype Slot = Slot(secret: string, key: string)

  function SlotOf(spec: Spec, path: string): Slot {
    match spec
    case File(_, secret, key, _) => Slot(secret, key)
    case Directory(_, secret) => Slot(secret, NameIn(path))
  }

  /** The first declaration that claims a path. */
  function ClaimedBy(declared: seq<Spec>, path: string): (first: Option<Spec>)
    ensures first.Some? ==> first.value in declared && Claims(first.value, path)
  {
    if declared == [] then None
    else
      var last := declared[|declared| - 1];
      match ClaimedBy(declared[..|declared| - 1], path)
      case Some(spec) => Some(spec)
      case None => if Claims(last, path) then Some(last) else None
  }

  type Secrets = map<string, Data>

  datatype Sorting = Sorting(secrets: Secrets, unclaimed: set<string>)

  /** The claimed files with content, one after the other. */
  function Pour(spec: Spec, data: Data, contents: Contents, paths: seq<string>): Data {
    if paths == [] then data
    else
      var last := paths[|paths| - 1];
      var before := Pour(spec, data, contents, paths[..|paths| - 1]);
      if Filled(contents, last) then before[SlotOf(spec, last).key := TextAt(contents, last)] else before
  }

  function Claimed(spec: Spec, unclaimed: set<string>): set<string> {
    set path | path in unclaimed && Claims(spec, path)
  }

  function Sort(contents: Contents, s: Sorting, spec: Spec): Sorting {
    var data := if spec.secret in s.secrets then s.secrets[spec.secret] else map[];
    Sorting(s.secrets[spec.secret := Pour(spec, data, contents, Sorted(Claimed(spec, s.unclaimed)))],
            s.unclaimed - Claimed(spec, s.unclaimed))
  }

  function SecretsOf(declared: seq<Spec>): set<string> {
    set i | 0 <= i < |declared| :: declared[i].secret
  }

  function Empty(declared: seq<Spec>): Secrets {
    map secret | secret in SecretsOf(declared) :: map[]
  }

  function SortAll(empty: Secrets, contents: Contents, declared: seq<Spec>): Sorting {
    if declared == [] then Sorting(empty, contents.Keys)
    else Sort(contents, SortAll(empty, contents, declared[..|declared| - 1]), declared[|declared| - 1])
  }

  /** The Secrets to write, or the rendered paths that no declaration claims. */
  function BySecret(declared: seq<Spec>, contents: Contents): Result<Secrets, set<string>> {
    var sorted := SortAll(Empty(declared), contents, declared);
    if sorted.unclaimed != {} then Err(sorted.unclaimed) else Ok(sorted.secrets)
  }

  method SortBySecret(declared: seq<Spec>, contents: Contents) returns (result: Result<Secrets, set<string>>)
    ensures result == BySecret(declared, contents)
  {
    hide Pour, Claims, SlotOf;
    var secrets := Empty(declared);
    var unclaimed := contents.Keys;
    for i := 0 to |declared|
      invariant Sorting(secrets, unclaimed) == SortAll(Empty(declared), contents, declared[..i])
      invariant unclaimed <= contents.Keys
    {
      assert declared[..i + 1][..i] == declared[..i];
      var spec := declared[i];
      var data := if spec.secret in secrets then secrets[spec.secret] else map[];
      if spec.File? {
        var poured := PourFile(spec, data, contents, unclaimed);
        secrets, unclaimed := secrets[spec.secret := poured], unclaimed - {spec.path};
      } else {
        var poured := PourDirectory(spec, data, contents, Claimed(spec, unclaimed));
        secrets, unclaimed := secrets[spec.secret := poured], unclaimed - Claimed(spec, unclaimed);
      }
    }
    assert declared[..|declared|] == declared;
    return if unclaimed != {} then Err(unclaimed) else Ok(secrets);
  }

  method PourFile(spec: Spec, data: Data, contents: Contents, unclaimed: set<string>) returns (poured: Data)
    requires spec.File?
    ensures poured == Pour(spec, data, contents, Sorted(Claimed(spec, unclaimed)))
    ensures unclaimed - {spec.path} == unclaimed - Claimed(spec, unclaimed)
  {
    assert Claimed(spec, unclaimed) == if spec.path in unclaimed then {spec.path} else {};
    SortedOne(spec.path);
    assert [spec.path][..0] == [];
    poured := data;
    if spec.path in unclaimed && Filled(contents, spec.path) {
      poured := poured[spec.key := TextAt(contents, spec.path)];
    }
  }

  method PourDirectory(spec: Spec, data: Data, contents: Contents, claimed: set<string>) returns (poured: Data)
    requires spec.Directory?
    ensures poured == Pour(spec, data, contents, Sorted(claimed))
  {
    hide NameIn;
    var paths := Sorted(claimed);
    poured := data;
    for i := 0 to |paths|
      invariant poured == Pour(spec, data, contents, paths[..i])
    {
      assert paths[..i + 1][..i] == paths[..i];
      if Filled(contents, paths[i]) { poured := poured[NameIn(paths[i]) := TextAt(contents, paths[i])]; }
    }
    assert paths[..|paths|] == paths;
  }

  // ------------------------------------------------------------------ what lands where

  function Entry(secrets: Secrets, slot: Slot): Option<string> {
    if slot.secret in secrets && slot.key in secrets[slot.secret] then Some(secrets[slot.secret][slot.key]) else None
  }

  /** A file with content that belongs in a slot. */
  predicate Belongs(declared: seq<Spec>, contents: Contents, path: string, slot: Slot) {
    Filled(contents, path) && ClaimedBy(declared, path).Some? && SlotOf(ClaimedBy(declared, path).value, path) == slot
  }

  lemma {:induction false} Poured(spec: Spec, data: Data, contents: Contents, paths: seq<string>, key: string)
    ensures key in Pour(spec, data, contents, paths) <==>
            key in data || exists path :: path in paths && Filled(contents, path) && SlotOf(spec, path).key == key
    ensures key in Pour(spec, data, contents, paths) ==>
            (key in data && Pour(spec, data, contents, paths)[key] == data[key]) ||
            exists path :: path in paths && Filled(contents, path) && SlotOf(spec, path).key == key &&
              TextAt(contents, path) == Pour(spec, data, contents, paths)[key]
  {
    hide SlotOf;
    if paths != [] {
      var front, last := paths[..|paths| - 1], paths[|paths| - 1];
      Poured(spec, data, contents, front, key);
      assert paths == front + [last];
    }
  }

  /** So far: the unclaimed paths are those nothing claims, a slot is taken exactly when a file
      belongs in it, and what it holds is the content of such a file. */
  ghost predicate SortedOut(declared: seq<Spec>, contents: Contents, s: Sorting) {
    (forall path :: path in s.unclaimed <==> path in contents && ClaimedBy(declared, path).None?) &&
    (forall path, slot :: Belongs(declared, contents, path, slot) ==> Entry(s.secrets, slot).Some?) &&
    (forall slot :: Entry(s.secrets, slot).Some? ==>
       exists path :: Belongs(declared, contents, path, slot) && TextAt(contents, path) == Entry(s.secrets, slot).value)
  }

  lemma ClaimedOneMore(declared: seq<Spec>, spec: Spec, path: string)
    ensures ClaimedBy(declared + [spec], path) ==
            if ClaimedBy(declared, path).Some? then ClaimedBy(declared, path)
            else if Claims(spec, path) then Some(spec)
            else None
  {
    assert (declared + [spec])[..|declared|] == declared;
  }

  /** What belongs after one more declaration: what did, and what it newly claims. */
  lemma BelongsOneMore(declared: seq<Spec>, contents: Contents, unclaimed: set<string>, spec: Spec, path: string,
                       slot: Slot)
    requires path in unclaimed <==> path in contents && ClaimedBy(declared, path).None?
    ensures Belongs(declared + [spec], contents, path, slot) <==>
            Belongs(declared, contents, path, slot) ||
            (path in Claimed(spec, unclaimed) && Filled(contents, path) && SlotOf(spec, path) == slot)
  {
    hide Claims, ClaimedBy, SlotOf;
    ClaimedOneMore(declared, spec, path);
  }

  lemma SlotSecret(spec: Spec, path: string)
    ensures SlotOf(spec, path).secret == spec.secret
  {
  }

  lemma EntryAfter(contents: Contents, s: Sorting, spec: Spec, slot: Slot)
    ensures var before, after := Entry(s.secrets, slot), Entry(Sort(contents, s, spec).secrets, slot);
            (after.Some? <==>
               before.Some? ||
               exists path ::
                 path in Claimed(spec, s.unclaimed) && Filled(contents, path) && SlotOf(spec, path) == slot) &&
            (after.Some? ==>
               (after == before ||
                exists path :: path in Claimed(spec, s.unclaimed) && Filled(contents, path) &&
                  SlotOf(spec, path) == slot && TextAt(contents, path) == after.value))
  {
    hide Pour, SlotOf, Claimed;
    var paths := Sorted(Claimed(spec, s.unclaimed));
    var data := if spec.secret in s.secrets then s.secrets[spec.secret] else map[];
    forall path
      ensures SlotOf(spec, path) == slot <==> SlotOf(spec, path).key == slot.key && spec.secret == slot.secret
    {
      SlotSecret(spec, path);
    }
    Poured(spec, data, contents, paths, slot.key);
    assert forall path :: path in paths <==> path in Claimed(spec, s.unclaimed);
  }

  lemma SortStep(declared: seq<Spec>, contents: Contents, s: Sorting, spec: Spec, slot: Slot)
    requires SortedOut(declared, contents, s)
    ensures forall path :: Belongs(declared + [spec], contents, path, slot) ==>
            Entry(Sort(contents, s, spec).secrets, slot).Some?
    ensures Entry(Sort(contents, s, spec).secrets, slot).Some? ==>
            exists path :: Belongs(declared + [spec], contents, path, slot) &&
              TextAt(contents, path) == Entry(Sort(contents, s, spec).secrets, slot).value
  {
    hide Sort, Entry, SlotOf, Claimed, ClaimedBy, Belongs;
    forall path ensures Belongs(declared + [spec], contents, path, slot) <==>
            Belongs(declared, contents, path, slot) ||
            (path in Claimed(spec, s.unclaimed) && Filled(contents, path) && SlotOf(spec, path) == slot)
    {
      BelongsOneMore(declared, contents, s.unclaimed, spec, path, slot);
    }
    EntryAfter(contents, s, spec, slot);
  }

  lemma UnclaimedStep(declared: seq<Spec>, contents: Contents, s: Sorting, spec: Spec, path: string)
    requires path in s.unclaimed <==> path in contents && ClaimedBy(declared, path).None?
    ensures path in Sort(contents, s, spec).unclaimed <==> path in contents && ClaimedBy(declared + [spec], path).None?
  {
    ClaimedOneMore(declared, spec, path);
  }

  lemma {:induction false} AllSortedOut(empty: Secrets, contents: Contents, declared: seq<Spec>)
    requires forall secret | secret in empty :: empty[secret] == map[]
    ensures SortedOut(declared, contents, SortAll(empty, contents, declared))
  {
    hide Sort, Belongs, Entry;
    if declared == [] {
      NothingSorted(empty, contents);
    } else {
      var front, last := declared[..|declared| - 1], declared[|declared| - 1];
      AllSortedOut(empty, contents, front);
      var s := SortAll(empty, contents, front);
      assert declared == front + [last];
      forall slot
        ensures forall path :: Belongs(declared, contents, path, slot) ==>
                Entry(Sort(contents, s, last).secrets, slot).Some?
        ensures Entry(Sort(contents, s, last).secrets, slot).Some? ==>
                exists path :: Belongs(declared, contents, path, slot) &&
                  TextAt(contents, path) == Entry(Sort(contents, s, last).secrets, slot).value
      {
        SortStep(front, contents, s, last, slot);
      }
      forall path
        ensures path in Sort(contents, s, last).unclaimed <==> path in contents && ClaimedBy(declared, path).None?
      {
        UnclaimedStep(front, contents, s, last, path);
      }
    }
  }

  lemma NothingSorted(empty: Secrets, contents: Contents)
    requires forall secret | secret in empty :: empty[secret] == map[]
    ensures SortedOut([], contents, Sorting(empty, contents.Keys))
  {
  }

  /** The call raises exactly when a rendered path is claimed by no declaration. */
  lemma RaisesExactly(declared: seq<Spec>, contents: Contents)
    ensures BySecret(declared, contents).Err? <==> exists path :: path in contents && ClaimedBy(declared, path).None?
    ensures BySecret(declared, contents).Err? ==>
            forall path :: path in BySecret(declared, contents).error <==>
                path in contents && ClaimedBy(declared, path).None?
  {
    hide SortAll, ClaimedBy, Belongs, Entry;
    AllSortedOut(Empty(declared), contents, declared);
    var sorted := SortAll(Empty(declared), contents, declared);
    if sorted.unclaimed != {} {
      var path :| path in sorted.unclaimed;
      assert path in contents && ClaimedBy(declared, path).None?;
    }
  }

  /** Two files with content and different text that would be kept under the same key. */
  ghost predicate Clash(declared: seq<Spec>, contents: Contents) {
    exists a, b, slot :: Belongs(declared, contents, a, slot) && Belongs(declared, contents, b, slot) &&
      TextAt(contents, a) != TextAt(contents, b)
  }

  /** Every file with content is found again where it belongs. */
  ghost predicate EachLands(declared: seq<Spec>, contents: Contents, secrets: Secrets) {
    forall path, slot | Belongs(declared, contents, path, slot) :: Entry(secrets, slot) == Some(TextAt(contents, path))
  }

  /** When it does not raise: nothing is written that was not rendered, and every file with content
      lands where it belongs exactly when no two of them clash over a key. */
  lemma EachFileLandsExactly(declared: seq<Spec>, contents: Contents)
    requires BySecret(declared, contents).Ok?
    ensures var secrets := BySecret(declared, contents).value;
            (forall slot | Entry(secrets, slot).Some? ::
               exists path ::
                 Belongs(declared, contents, path, slot) && TextAt(contents, path) == Entry(secrets, slot).value) &&
            (EachLands(declared, contents, secrets) <==> !Clash(declared, contents))
  {
    hide SortAll, Belongs, Entry;
    AllSortedOut(Empty(declared), contents, declared);
    var secrets := BySecret(declared, contents).value;
    if EachLands(declared, contents, secrets) {
      forall a, b, slot | Belongs(declared, contents, a, slot) && Belongs(declared, contents, b, slot)
        ensures TextAt(contents, a) == TextAt(contents, b)
      {
        assert Entry(secrets, slot) == Some(TextAt(contents, a)) && Entry(secrets, slot) == Some(TextAt(contents, b));
      }
    }
    if !Clash(declared, contents) {
      forall path, slot | Belongs(declared, contents, path, slot)
        ensures Entry(secrets, slot) == Some(TextAt(contents, path))
      {
        var other :| Belongs(declared, contents, other, slot) && TextAt(contents, other) == Entry(secrets, slot).value;
      }
    }
  }

  // ------------------------------------------------------------------ files of a mounted directory

  /** What may stand between two slashes. */
  predicate Part(name: string) {
    name != "" && '/' !in name
  }

  /** The path of a directory as it is declared: absolute or not, and without a slash at its end. */
  predicate Folder(path: string) {
    path != "" && path[|path| - 1] != '/'
  }

  lemma {:induction false} NameBegins(front: string, name: string)
    requires '/' !in name && (front == "" || front[|front| - 1] == '/')
    ensures NameFrom(front + name) == |front|
  {
    if name == "" {
      assert front + name == front;
    } else {
      assert (front + name)[..|front + name| - 1] == front + name[..|name| - 1];
      NameBegins(front, name[..|name| - 1]);
    }
  }

  /** A path taken apart is its directory and its name. */
  lemma PathParts(directory: string, name: string)
    requires Folder(directory) && Part(name)
    ensures ParentOf(directory + "/" + name) == directory && NameIn(directory + "/" + name) == name
    ensures ParentOf("/" + name) == "/" && NameIn("/" + name) == name
    ensures ParentOf(name) == "." && NameIn(name) == name
  {
    NameBegins(directory + "/", name);
    NameBegins("/", name);
    NameBegins("", name);
    assert "" + name == name;
    assert (directory + "/" + name)[..|directory|] == directory;
    assert (directory + "/" + name)[|directory| + 1..] == name;
  }

  lemma {:induction false} SlashBeforeName(path: string)
    ensures NameFrom(path) == 0 || path[NameFrom(path) - 1] == '/'
    ensures '/' !in path[NameFrom(path)..]
  {
    if path != "" && path[|path| - 1] != '/' {
      var front := path[..|path| - 1];
      SlashBeforeName(front);
      assert path[NameFrom(path)..] == front[NameFrom(path)..] + [path[|path| - 1]];
    }
  }

  /** Only the paths directly in a directory are claimed by it. */
  lemma DirectoryClaimsExactly(directory: string, secret: string, path: string)
    requires Folder(directory) && directory != "."
    ensures Claims(Directory(directory, secret), path) <==> path == directory + "/" + NameIn(path)
    ensures Claims(Directory(directory, secret), path) ==> '/' !in NameIn(path)
  {
    SlashBeforeName(path);
    var k := NameFrom(path);
    if Claims(Directory(directory, secret), path) {
      assert path == path[..k - 1] + [path[k - 1]] + path[k..];
    }
    if path == directory + "/" + path[k..] {
      assert k == |directory| + 1;
      assert path[..k - 1] == directory;
    }
  }

  /** No other declaration writes the Secret or claims what is in the directory. */
  predicate Alone(declared: seq<Spec>, directory: string, secret: string) {
    Directory(directory, secret) in declared &&
    forall spec | spec in declared :: spec == Directory(directory, secret) ||
      (spec.secret != secret && spec.path != directory && (spec.File? ==> !(directory + "/" <= spec.path)))
  }

  lemma {:induction false} ClaimedAlone(declared: seq<Spec>, directory: string, secret: string, path: string)
    requires Folder(directory) && directory != "." && path == directory + "/" + NameIn(path)
    requires forall spec | spec in declared :: spec == Directory(directory, secret) ||
               (spec.path != directory && (spec.File? ==> !(directory + "/" <= spec.path)))
    ensures ClaimedBy(declared, path) ==
            if Directory(directory, secret) in declared then Some(Directory(directory, secret)) else None
  {
    if declared != [] {
      var front, last := declared[..|declared| - 1], declared[|declared| - 1];
      assert declared == front + [last];
      ClaimedAlone(front, directory, secret, path);
      DirectoryClaimsExactly(directory, secret, path);
      assert directory + "/" <= path;
      assert ParentOf(path) == directory;
    }
  }

  /** The Secret of a directory holds each file rendered directly in it, under the file's own name, and
      nothing else. */
  lemma DirectoryHoldsExactly(declared: seq<Spec>, contents: Contents, directory: string, secret: string, name: string)
    requires BySecret(declared, contents).Ok? && Alone(declared, directory, secret)
    requires Folder(directory) && directory != "."
    ensures var data, path := BySecret(declared, contents).value, directory + "/" + name;
            secret in data &&
            (name in data[secret] <==> '/' !in name && path in contents && contents[path] != "") &&
            (name in data[secret] ==> data[secret][name] == contents[path])
  {
    hide SortAll, ClaimedBy;
    AllSortedOut(Empty(declared), contents, declared);
    var data, slot := BySecret(declared, contents).value, Slot(secret, name);
    SecretDeclared(declared, contents, secret);
    var path := directory + "/" + name;
    if '/' !in name && Filled(contents, path) {
      NameBegins(directory + "/", name);
      assert path[|directory| + 1..] == name;
      ClaimedAlone(declared, directory, secret, path);
      assert Belongs(declared, contents, path, slot);
    }
    if Entry(data, slot).Some? {
      var other :| Belongs(declared, contents, other, slot) && TextAt(contents, other) == Entry(data, slot).value;
      SlotSecret(ClaimedBy(declared, other).value, other);
      DirectoryClaimsExactly(directory, secret, other);
    }
  }

  lemma SecretDeclared(declared: seq<Spec>, contents: Contents, secret: string)
    requires BySecret(declared, contents).Ok? && exists spec :: spec in declared && spec.secret == secret
    ensures secret in BySecret(declared, contents).value
  {
    var spec :| spec in declared && spec.secret == secret;
    var i :| 0 <= i < |declared| && declared[i] == spec;
    assert declared[i].secret in SecretsOf(declared);
    SecretsKept(Empty(declared), contents, declared, secret);
  }

  lemma {:induction false} SecretsKept(empty: Secrets, contents: Contents, declared: seq<Spec>, secret: string)
    requires secret in empty
    ensures secret in SortAll(empty, contents, declared).secrets
  {
    if declared != [] { SecretsKept(empty, contents, declared[..|declared| - 1], secret); }
  }
}
