/** The raw files an Admin writes: one Secret, one volume, and a single-file mount for each. */
module RawFiles {
  import opened Outcomes
  import opened Ordering
  import opened KubernetesAdapter

  /** The key a path is stored under. Left open but for being different for different paths and
      never empty: it begins with a digest of the path. */
  type Keying = string -> string

  ghost predicate Injective(key: Keying) {
    (forall a, b | key(a) == key(b) :: a == b) && forall a :: key(a) != ""
  }

  type Files = map<string, string>

  /** The Apchi deployment's names for these: the coordinator's container, the volume, the Secret. */
  datatype Names = Names(container: string, volume: string, secret: string)

  /** The Secret's contents: each file under the key of its path. */
  function DataOf(key: Keying, files: Files, paths: seq<string>): Data {
    if paths == [] then map[]
    else
      var last := paths[|paths| - 1];
      var front := DataOf(key, files, paths[..|paths| - 1]);
      if last in files then front[key(last) := files[last]] else front
  }

  function Keyed(key: Keying, files: Files): Data {
    DataOf(key, files, Sorted(files.Keys))
  }

  /** The paths at which any container mounts one file of the volume. */
  function MountedPaths(t: Template, volume: string): set<string> {
    set place | place in t.mounts && t.mounts[place].volume == volume && t.mounts[place].key != "" :: place.path
  }

  function MountFiles(t: Template, names: Names, key: Keying, paths: seq<string>): Template {
    if paths == [] then t
    else
      var last := paths[|paths| - 1];
      WithMount(MountFiles(t, names, key, paths[..|paths| - 1]), names.container, names.volume, names.secret, last,
          key(last))
  }

  /** The pod template afterwards, and whether the API server took every patch. */
  function Delivered(t: Template, names: Names, key: Keying, desired: Files): (Template, bool) {
    var gone := MountedPaths(t, names.volume) - desired.Keys;
    var mounted := MountFiles(t, names, key, Sorted(desired.Keys));
    if gone == {} then (mounted, true)
    else
      var unmounted := WithoutMounts(mounted, names.container, names.volume, gone, desired == map[]);
      if Sound(unmounted) then (unmounted, true) else (mounted, false)
  }

  method KeyFiles(key: Keying, desired: Files) returns (data: Data)
    ensures data == Keyed(key, desired)
  {
    var paths := Sorted(desired.Keys);
    data := map[];
    for i := 0 to |paths|
      invariant data == DataOf(key, desired, paths[..i])
    {
      assert paths[..i + 1][..i] == paths[..i];
      assert paths[i] in paths;
      data := data[key(paths[i]) := desired[paths[i]]];
    }
    assert paths[..|paths|] == paths;
  }

  /** Writes the Secret, mounts each file, and unmounts what is gone, the volume with the last. */
  method Deliver(cluster: Cluster, names: Names, key: Keying, desired: Files) returns (taken: bool)
    requires cluster.Valid()
    modifies cluster
    ensures cluster.Valid()
    ensures cluster.secrets == old(cluster.secrets)[names.secret := Keyed(key, desired)]
    ensures Delivered(old(cluster.template), names, key, desired) == (cluster.template, taken)
  {
    hide Keyed, MountedPaths, Sound;
    var data := KeyFiles(key, desired);
    cluster.WriteSecret(names.secret, data);
    ghost var start := cluster.template;
    var gone := MountedPaths(cluster.template, names.volume) - desired.Keys;
    var paths := Sorted(desired.Keys);
    for i := 0 to |paths|
      invariant cluster.Valid() && cluster.secrets == old(cluster.secrets)[names.secret := Keyed(key, desired)]
      invariant cluster.template == MountFiles(start, names, key, paths[..i])
    {
      assert paths[..i + 1][..i] == paths[..i];
      cluster.MountSecretFile(names.container, names.volume, names.secret, paths[i], key(paths[i]));
    }
    assert paths[..|paths|] == paths;
    taken := true;
    if gone != {} {
      taken := cluster.UnmountSecretFiles(names.container, names.volume, gone, desired == map[]);
    }
  }

  /** Whether delivering would change what the coordinator holds: what it mounts, or the Secret. */
  method Changed(cluster: Cluster, names: Names, key: Keying, desired: Files) returns (changed: bool)
    ensures changed <==>
              desired.Keys != MountedPaths(cluster.template, names.volume) ||
              Keyed(key, desired) != cluster.ReadSecret(names.secret)
  {
    if desired.Keys != MountedPaths(cluster.template, names.volume) { return true; }
    var data := KeyFiles(key, desired);
    return data != cluster.ReadSecret(names.secret);
  }

  // ------------------------------------------------------------------ what is left behind

  lemma {:induction false} DataHolds(key: Keying, files: Files, paths: seq<string>, k: string)
    requires Injective(key)
    ensures forall path | path in paths && path in files ::
              key(path) in DataOf(key, files, paths) && DataOf(key, files, paths)[key(path)] == files[path]
    ensures k in DataOf(key, files, paths) ==> exists path :: path in paths && path in files && key(path) == k
  {
    if paths != [] {
      var front, last := paths[..|paths| - 1], paths[|paths| - 1];
      DataHolds(key, files, front, k);
      assert paths == front + [last];
    }
  }

  lemma {:induction false} FilesMounted(t: Template, names: Names, key: Keying, paths: seq<string>, place: Place,
                                        v: string)
    ensures Find(MountFiles(t, names, key, paths).mounts, place) ==
            if place.container == names.container && place.path in paths
            then Some(Mount(names.volume, key(place.path)))
            else Find(t.mounts, place)
    ensures Find(MountFiles(t, names, key, paths).volumes, v) ==
            if v == names.volume && paths != [] then Some(names.secret) else Find(t.volumes, v)
  {
    if paths != [] {
      var front, last := paths[..|paths| - 1], paths[|paths| - 1];
      FilesMounted(t, names, key, front, place, v);
      assert paths == front + [last];
    }
  }

  lemma {:induction false} MountFilesSound(t: Template, names: Names, key: Keying, paths: seq<string>)
    requires Sound(t)
    ensures Sound(MountFiles(t, names, key, paths))
  {
    hide Sound, WithMount;
    if paths != [] {
      var front, last := paths[..|paths| - 1], paths[|paths| - 1];
      MountFilesSound(t, names, key, front);
      MountingIsSound(MountFiles(t, names, key, front), names.container, names.volume, names.secret, last, key(last));
    }
  }

  /** A delivery is refused exactly when the last raw file goes while something other than a
      single file of the coordinator's container is on the volume. */
  lemma RefusedExactly(t: Template, names: Names, key: Keying, desired: Files)
    requires Sound(t)
    ensures var gone := MountedPaths(t, names.volume) - desired.Keys;
            Delivered(t, names, key, desired).1 <==>
            (desired == map[] && gone != {} ==>
               forall place | place in t.mounts &&
                   t.mounts[place].volume == names.volume :: place.container == names.container && place.path in gone)
  {
    hide Sound, MountedPaths, MountFiles;
    var gone := MountedPaths(t, names.volume) - desired.Keys;
    var mounted := MountFiles(t, names, key, Sorted(desired.Keys));
    MountFilesSound(t, names, key, Sorted(desired.Keys));
    UnmountingIsSoundExactly(mounted, names.container, names.volume, gone, desired == map[]);
    if desired == map[] { NothingMounted(t, names, key); }
  }

  lemma NothingMounted(t: Template, names: Names, key: Keying)
    ensures MountFiles(t, names, key, Sorted({})) == t
  {
  }

  /** Where each place ends: a desired path has its file, one that is gone has nothing, and every
      other place is as it was. */
  lemma PlacesAfter(t: Template, names: Names, key: Keying, desired: Files, place: Place)
    requires Delivered(t, names, key, desired).1
    ensures Find(Delivered(t, names, key, desired).0.mounts, place) ==
            if place.container == names.container && place.path in desired
            then Some(Mount(names.volume, key(place.path)))
            else if place.container == names.container && place.path in MountedPaths(t, names.volume) then None
            else Find(t.mounts, place)
  {
    hide MountedPaths, MountFiles, Sound;
    var gone := MountedPaths(t, names.volume) - desired.Keys;
    FilesMounted(t, names, key, Sorted(desired.Keys), place, names.volume);
    assert place in Places(names.container, gone) <==> place.container == names.container && place.path in gone;
  }

  /** The volume arrives with the first file and leaves with the last. */
  lemma VolumeAfter(t: Template, names: Names, key: Keying, desired: Files)
    requires Delivered(t, names, key, desired).1
    ensures Find(Delivered(t, names, key, desired).0.volumes, names.volume) ==
            if desired != map[] then Some(names.secret)
            else if MountedPaths(t, names.volume) != {} then None
            else Find(t.volumes, names.volume)
  {
    hide MountedPaths, MountFiles, Sound;
    var paths := Sorted(desired.Keys);
    FilesMounted(t, names, key, paths, Place(names.container, ""), names.volume);
    assert paths == [] <==> desired == map[];
  }

  /** The container reads exactly each desired file at its own path, even where basenames agree. */
  lemma RawFilesAreRead(t: Template, names: Names, key: Keying, desired: Files, path: string)
    requires Injective(key) && Delivered(t, names, key, desired).1 && path in desired
    ensures var after := Delivered(t, names, key, desired).0;
            Find(after.mounts, Place(names.container, path)) == Some(Mount(names.volume, key(path))) &&
            Find(after.volumes, names.volume) == Some(names.secret) &&
            Find(Keyed(key, desired), key(path)) == Some(desired[path])
  {
    hide Delivered, DataOf;
    PlacesAfter(t, names, key, desired, Place(names.container, path));
    VolumeAfter(t, names, key, desired);
    DataHolds(key, desired, Sorted(desired.Keys), key(path));
  }

  /** Another container mounts one file of the volume at a path that is not desired. */
  ghost predicate MountedElsewhere(t: Template, names: Names, desired: Files) {
    exists place :: place in t.mounts && place.container != names.container && t.mounts[place].volume == names.volume &&
                    t.mounts[place].key != "" && place.path !in desired
  }

  lemma MountedAfter(t: Template, names: Names, key: Keying, desired: Files, place: Place)
    requires Injective(key) && Delivered(t, names, key, desired).1
    ensures var after := Delivered(t, names, key, desired).0;
            place in after.mounts && after.mounts[place].volume == names.volume && after.mounts[place].key != "" &&
              place.path !in desired <==>
            place in t.mounts && place.container != names.container && t.mounts[place].volume == names.volume &&
            t.mounts[place].key != "" && place.path !in desired
  {
    hide Delivered;
    PlacesAfter(t, names, key, desired, place);
  }

  /** Straight after a delivery the mounted paths are the desired ones, and so nothing is reported
      as changed, exactly unless another container mounts a file of the volume elsewhere. */
  lemma SettledExactly(t: Template, names: Names, key: Keying, desired: Files)
    requires Injective(key) && Delivered(t, names, key, desired).1
    ensures MountedPaths(Delivered(t, names, key, desired).0, names.volume) == desired.Keys <==>
            !MountedElsewhere(t, names, desired)
  {
    hide Delivered;
    var after := Delivered(t, names, key, desired).0;
    forall path | path in desired ensures path in MountedPaths(after, names.volume) {
      PlacesAfter(t, names, key, desired, Place(names.container, path));
      assert Place(names.container, path) in after.mounts;
    }
    if place :| place in t.mounts && place.container != names.container && t.mounts[place].volume == names.volume &&
                t.mounts[place].key != "" && place.path !in desired {
      MountedAfter(t, names, key, desired, place);
      assert place.path in MountedPaths(after, names.volume);
    } else {
      forall path | path in MountedPaths(after, names.volume) ensures path in desired {
        var place :| place in after.mounts && after.mounts[place].volume == names.volume &&
          after.mounts[place].key != "" && place.path == path;
        MountedAfter(t, names, key, desired, place);
      }
    }
  }

  /** Delivering and asking at once: nothing has changed. */
  method DeliverThenAsk(cluster: Cluster, names: Names, key: Keying, desired: Files)
    returns (taken: bool, changed: bool)
    requires cluster.Valid() && Injective(key)
    modifies cluster
    ensures taken ==> (changed <==> MountedElsewhere(old(cluster.template), names, desired))
  {
    hide Delivered, MountedPaths, Keyed, Injective;
    ghost var start := cluster.template;
    taken := Deliver(cluster, names, key, desired);
    changed := Changed(cluster, names, key, desired);
    if taken { SettledExactly(start, names, key, desired); }
  }

  /** The exception is not idle: a sidecar mounts the file that the coordinator does, and that file is
      replaced by another. The delivery is accepted, and the sidecar's mount stays. */
  lemma SomeDeliveriesAreNeverSettled(names: Names, key: Keying, sidecar: string, kept: string, gone: string,
                                      text: string)
    requires Injective(key) && sidecar != names.container && kept != gone
    ensures var t := Template(map[names.volume := names.secret],
                              map[Place(names.container, gone) := Mount(names.volume, key(gone)),
                                  Place(sidecar, gone) := Mount(names.volume, key(gone))]);
            var desired := map[kept := text];
            Sound(t) && Delivered(t, names, key, desired).1 && MountedElsewhere(t, names, desired)
  {
    hide Delivered, MountedPaths;
    var t := Template(map[names.volume := names.secret],
                      map[Place(names.container, gone) := Mount(names.volume, key(gone)),
                          Place(sidecar, gone) := Mount(names.volume, key(gone))]);
    var desired := map[kept := text];
    RefusedExactly(t, names, key, desired);
    assert kept in desired;
    var place := Place(sidecar, gone);
    assert place in t.mounts && place.path !in desired;
  }
}
