/** Mounting what was written and unmounting what was not, volume by volume, under the API server's
    rule that no mount may be left without its volume. */
module Mounting {
  import opened Outcomes
  import opened Ordering
  import opened KubernetesAdapter
  import opened Delivery

  /** The files of a declaration that share a volume, in order. */
  function GroupOf(declared: seq<Spec>, volume: string): (group: seq<Spec>)
    ensures forall spec :: spec in group <==> spec in declared && spec.File? && spec.volume == volume
  {
    if declared == [] then []
    else
      var last := declared[|declared| - 1];
      assert declared == declared[..|declared| - 1] + [last];
      GroupOf(declared[..|declared| - 1], volume) + if last.File? && last.volume == volume then [last] else []
  }

  /** The volumes in the order they are first declared. */
  function VolumesOf(declared: seq<Spec>): (volumes: seq<string>)
    ensures forall v :: v in volumes <==> exists spec :: spec in declared && spec.File? && spec.volume == v
  {
    if declared == [] then []
    else
      var front, last := VolumesOf(declared[..|declared| - 1]), declared[|declared| - 1];
      assert declared == declared[..|declared| - 1] + [last];
      if last.File? && last.volume !in front then front + [last.volume] else front
  }

  /** A volume that comes before another was declared before it. */
  lemma {:induction false} VolumesInOrder(declared: seq<Spec>, i: nat, j: nat) returns (k: nat)
    requires i < j < |VolumesOf(declared)|
    ensures k < |declared| && declared[k].File? && declared[k].volume == VolumesOf(declared)[i]
    ensures forall m | 0 <= m <= k :: !(declared[m].File? && declared[m].volume == VolumesOf(declared)[j])
  {
    var front, last := declared[..|declared| - 1], declared[|declared| - 1];
    var volumes := VolumesOf(front);
    if j < |volumes| {
      k := VolumesInOrder(front, i, j);
    } else {
      assert VolumesOf(declared)[i] == volumes[i] && volumes[i] in volumes;
      var spec :| spec in front && spec.File? && spec.volume == volumes[i];
      k :| k < |front| && front[k] == spec;
      forall m | 0 <= m <= k ensures !(declared[m].File? && declared[m].volume == VolumesOf(declared)[j]) {
        if front[m].File? { assert front[m] in front && front[m].volume in volumes; }
      }
    }
  }

  function PresentIn(group: seq<Spec>, contents: Contents): (present: seq<Spec>)
    ensures forall spec :: spec in present <==> spec in group && Filled(contents, spec.path)
  {
    if group == [] then []
    else
      var last := group[|group| - 1];
      assert group == group[..|group| - 1] + [last];
      PresentIn(group[..|group| - 1], contents) + if Filled(contents, last.path) then [last] else []
  }

  function AbsentFrom(group: seq<Spec>, contents: Contents): set<string> {
    set spec | spec in group && !Filled(contents, spec.path) :: spec.path
  }

  function MountAll(t: Template, container: string, specs: seq<Spec>): Template
    requires forall spec | spec in specs :: spec.File?
  {
    if specs == [] then t
    else
      var front, last := specs[..|specs| - 1], specs[|specs| - 1];
      WithMount(MountAll(t, container, front), container, last.volume, last.secret, last.path, last.key)
  }

  /** One volume: mount what has content, unmount the rest in one patch, and drop the volume when
      nothing is left on it. The flag says whether the API server took it. */
  function DeliverGroup(t: Template, container: string, volume: string, group: seq<Spec>,
                        contents: Contents): (Template, bool)
    requires forall spec | spec in group :: spec.File?
  {
    var present, absent := PresentIn(group, contents), AbsentFrom(group, contents);
    var mounted := MountAll(t, container, present);
    if absent == {} then (mounted, true)
    else
      var unmounted := WithoutMounts(mounted, container, volume, absent, present == []);
      if Sound(unmounted) then (unmounted, true) else (mounted, false)
  }

  function DeliverVolumes(t: Template, container: string, declared: seq<Spec>, contents: Contents,
                          volumes: seq<string>): (Template, bool) {
    if volumes == [] then (t, true)
    else
      var last := volumes[|volumes| - 1];
      var (before, ok) := DeliverVolumes(t, container, declared, contents, volumes[..|volumes| - 1]);
      if ok then DeliverGroup(before, container, last, GroupOf(declared, last), contents) else (before, false)
  }

  datatype Failure = Undeclared(paths: set<string>) | Rejected

  /** Writes each Secret whole, then settles the mounts volume by volume. */
  method Deliver(cluster: Cluster, container: string, declared: seq<Spec>, contents: Contents)
    returns (result: Result<(), Failure>)
    requires cluster.Valid()
    modifies cluster
    ensures cluster.Valid()
    ensures declared == [] ==>
              result == Ok(()) && cluster.secrets == old(cluster.secrets) && cluster.template == old(cluster.template)
    ensures declared != [] && BySecret(declared, contents).Err? ==>
              result == Err(Undeclared(BySecret(declared, contents).error)) &&
              cluster.secrets == old(cluster.secrets) && cluster.template == old(cluster.template)
    ensures declared != [] && BySecret(declared, contents).Ok? ==>
              cluster.secrets == old(cluster.secrets) + BySecret(declared, contents).value &&
              var (template, ok) := DeliverVolumes(old(cluster.template), container, declared, contents,
                  VolumesOf(declared));
              cluster.template == template && result == if ok then Ok(()) else Err(Rejected)
  {
    hide BySecret, MountAll, PresentIn, GroupOf, VolumesOf;
    if declared == [] { return Ok(()); }
    var sorted := SortBySecret(declared, contents);
    if sorted.Err? { return Err(Undeclared(sorted.error)); }
    WriteAll(cluster, sorted.value);
    ghost var start := cluster.template;
    var volumes := VolumesOf(declared);
    for i := 0 to |volumes|
      invariant cluster.Valid() && cluster.secrets == old(cluster.secrets) + sorted.value
      invariant DeliverVolumes(start, container, declared, contents, volumes[..i]) == (cluster.template, true)
    {
      assert volumes[..i + 1][..i] == volumes[..i];
      var taken := DeliverOne(cluster, container, volumes[i], GroupOf(declared, volumes[i]), contents);
      if !taken {
        StaysRejected(start, container, declared, contents, volumes, i + 1);
        return Err(Rejected);
      }
    }
    assert volumes[..|volumes|] == volumes;
    return Ok(());
  }

  function Written(secrets: Secrets, names: seq<string>): Secrets {
    map name | name in names && name in secrets :: secrets[name]
  }

  lemma OneMoreSecret(start: Secrets, secrets: Secrets, names: seq<string>, name: string)
    requires name in secrets
    ensures start + Written(secrets, names + [name]) == (start + Written(secrets, names))[name := secrets[name]]
  {
    assert Written(secrets, names + [name]) == Written(secrets, names)[name := secrets[name]];
  }

  lemma EverySecret(secrets: Secrets, names: seq<string>)
    requires forall name :: name in names <==> name in secrets
    ensures Written(secrets, names) == secrets
  {
  }

  method WriteAll(cluster: Cluster, secrets: Secrets)
    modifies cluster`secrets
    ensures cluster.secrets == old(cluster.secrets) + secrets
  {
    hide Written;
    var names := Sorted(secrets.Keys);
    ghost var start := cluster.secrets;
    NoSecrets(start, secrets);
    for i := 0 to |names|
      invariant cluster.secrets == start + Written(secrets, names[..i])
    {
      assert names[..i + 1] == names[..i] + [names[i]];
      assert names[i] in names;
      OneMoreSecret(start, secrets, names[..i], names[i]);
      cluster.WriteSecret(names[i], secrets[names[i]]);
    }
    assert names[..|names|] == names;
    EverySecret(secrets, names);
  }

  lemma NoSecrets(start: Secrets, secrets: Secrets)
    ensures start + Written(secrets, []) == start
  {
  }

  method DeliverOne(cluster: Cluster, container: string, volume: string, group: seq<Spec>, contents: Contents)
    returns (taken: bool)
    requires cluster.Valid()
    requires forall spec | spec in group :: spec.File?
    modifies cluster`template
    ensures cluster.Valid()
    ensures DeliverGroup(old(cluster.template), container, volume, group, contents) == (cluster.template, taken)
  {
    hide PresentIn, AbsentFrom, Sound;
    var present, absent := PresentIn(group, contents), AbsentFrom(group, contents);
    ghost var start := cluster.template;
    for i := 0 to |present|
      invariant cluster.Valid()
      invariant cluster.template == MountAll(start, container, present[..i])
    {
      assert present[..i + 1][..i] == present[..i];
      var spec := present[i];
      cluster.MountSecretFile(container, spec.volume, spec.secret, spec.path, spec.key);
    }
    assert present[..|present|] == present;
    taken := true;
    if absent != {} {
      taken := cluster.UnmountSecretFiles(container, volume, absent, present == []);
    }
  }

  lemma {:induction false} StaysRejected(t: Template, container: string, declared: seq<Spec>, contents: Contents,
                                         volumes: seq<string>, i: nat)
    requires i <= |volumes| && !DeliverVolumes(t, container, declared, contents, volumes[..i]).1
    ensures DeliverVolumes(t, container, declared, contents, volumes) ==
            DeliverVolumes(t, container, declared, contents, volumes[..i])
    decreases |volumes|
  {
    hide DeliverGroup;
    if i == |volumes| {
      assert volumes[..i] == volumes;
    } else {
      var front := volumes[..|volumes| - 1];
      assert front[..i] == volumes[..i];
      StaysRejected(t, container, declared, contents, front, i);
    }
  }

  /** Whether delivering would change the Secrets, which is what decides a restart. */
  method WouldChange(cluster: Cluster, declared: seq<Spec>, contents: Contents) returns (result: Result<bool, Failure>)
    ensures declared == [] ==> result == Ok(false)
    ensures declared != [] && BySecret(declared, contents).Err? ==>
            result == Err(Undeclared(BySecret(declared, contents).error))
    ensures declared != [] && BySecret(declared, contents).Ok? ==>
              var secrets := BySecret(declared, contents).value;
              result == Ok(exists name :: name in secrets && cluster.ReadSecret(name) != secrets[name])
  {
    hide BySecret;
    if declared == [] { return Ok(false); }
    var sorted := SortBySecret(declared, contents);
    if sorted.Err? { return Err(Undeclared(sorted.error)); }
    var names := Sorted(sorted.value.Keys);
    for i := 0 to |names|
      invariant forall j | 0 <= j < i ::
                  names[j] in sorted.value && cluster.ReadSecret(names[j]) == sorted.value[names[j]]
    {
      assert names[i] in names;
      if cluster.ReadSecret(names[i]) != sorted.value[names[i]] { return Ok(true); }
    }
    forall name | name in sorted.value ensures cluster.ReadSecret(name) == sorted.value[name] {
      assert name in names;
    }
    return Ok(false);
  }

  /** Straight after a delivery, asking again answers no. */
  method DeliverThenAsk(cluster: Cluster, container: string, declared: seq<Spec>, contents: Contents)
    returns (again: Result<bool, Failure>)
    requires cluster.Valid() && BySecret(declared, contents).Ok?
    modifies cluster
    ensures again == Ok(false)
  {
    var delivered := Deliver(cluster, container, declared, contents);
    again := WouldChange(cluster, declared, contents);
  }

  // ------------------------------------------------------------------ one volume

  /** The file of a list mounted at a path, the last if there are several. */
  function FileAt(specs: seq<Spec>, path: string): (at: Option<Spec>)
    ensures at.Some? ==> at.value in specs && at.value.File? && at.value.path == path
    ensures at.None? ==> forall spec | spec in specs && spec.File? :: spec.path != path
  {
    if specs == [] then None
    else
      var last := specs[|specs| - 1];
      assert specs == specs[..|specs| - 1] + [last];
      if last.File? && last.path == path then Some(last) else FileAt(specs[..|specs| - 1], path)
  }

  lemma {:induction false} MountsOfAll(t: Template, container: string, specs: seq<Spec>, place: Place)
    requires forall spec | spec in specs :: spec.File?
    ensures Find(MountAll(t, container, specs).mounts, place) ==
            if place.container == container && FileAt(specs, place.path).Some?
            then Some(Mount(FileAt(specs, place.path).value.volume, FileAt(specs, place.path).value.key))
            else Find(t.mounts, place)
  {
    if specs != [] {
      MountsOfAll(t, container, specs[..|specs| - 1], place);
    }
  }

  lemma {:induction false} VolumesOfAll(t: Template, container: string, specs: seq<Spec>, volume: string, v: string)
    requires forall spec | spec in specs :: spec.File? && spec.volume == volume
    ensures Find(MountAll(t, container, specs).volumes, v) ==
            if v == volume && specs != [] then Some(specs[|specs| - 1].secret) else Find(t.volumes, v)
  {
    if specs != [] {
      VolumesOfAll(t, container, specs[..|specs| - 1], volume, v);
    }
  }

  lemma WithoutMountsFinds(t: Template, container: string, volume: string, paths: set<string>, dropVolume: bool,
                           place: Place, v: string)
    ensures var after := WithoutMounts(t, container, volume, paths, dropVolume);
            Find(after.mounts, place) ==
            (if place.container == container && place.path in paths then None else Find(t.mounts, place)) &&
            Find(after.volumes, v) == (if dropVolume && v == volume then None else Find(t.volumes, v))
  {
    assert place in Places(container, paths) <==> place.container == container && place.path in paths;
  }

  predicate AllOn(group: seq<Spec>, volume: string) {
    forall spec | spec in group :: spec.File? && spec.volume == volume
  }

  /** No two files of a list are mounted at one path. */
  predicate OnePathEach(specs: seq<Spec>) {
    forall a, b | a in specs && b in specs && a.File? && b.File? && a.path == b.path :: a == b
  }

  lemma FileAtPresent(group: seq<Spec>, contents: Contents, path: string)
    requires OnePathEach(group)
    ensures FileAt(PresentIn(group, contents), path) == if Filled(contents, path) then FileAt(group, path) else None
  {
    hide PresentIn, Filled;
    var there, here := FileAt(PresentIn(group, contents), path), FileAt(group, path);
    assert here.Some? ==> here.value in group;
    assert there.Some? ==> there.value in group;
  }

  lemma AbsentPath(group: seq<Spec>, contents: Contents, path: string)
    requires forall spec | spec in group :: spec.File?
    ensures path in AbsentFrom(group, contents) <==> FileAt(group, path).Some? && !Filled(contents, path)
  {
    hide FileAt, Filled;
    var here := FileAt(group, path);
    assert here.Some? ==> here.value in group && here.value.path == path;
  }

  lemma NothingAbsent(group: seq<Spec>, contents: Contents)
    requires group != [] && forall spec | spec in group :: spec.File?
    ensures AbsentFrom(group, contents) == {} ==> PresentIn(group, contents) != []
  {
    hide PresentIn, Filled;
    assert group[0] in group;
    assert !Filled(contents, group[0].path) ==> group[0].path in AbsentFrom(group, contents);
    assert Filled(contents, group[0].path) ==> group[0] in PresentIn(group, contents);
  }

  lemma PresentAreFiles(group: seq<Spec>, contents: Contents, volume: string)
    requires AllOn(group, volume)
    ensures AllOn(PresentIn(group, contents), volume)
  {
    hide PresentIn;
  }

  /** After one volume is settled: its files with content are mounted, its others are not, it is
      there if and only if there is such a file, and nothing else has changed. */
  lemma GroupSettled(t: Template, container: string, volume: string, group: seq<Spec>, contents: Contents,
                     place: Place, v: string)
    requires AllOn(group, volume) && OnePathEach(group) && group != []
    requires DeliverGroup(t, container, volume, group, contents).1
    ensures var after := DeliverGroup(t, container, volume, group, contents).0;
            var at := if place.container == container then FileAt(group, place.path) else None;
            Find(after.mounts, place) == (if at.None? then Find(t.mounts, place)
                                          else if Filled(contents, place.path) then Some(Mount(volume, at.value.key))
                                            else None)
    ensures var after, present := DeliverGroup(t, container, volume, group, contents).0, PresentIn(group, contents);
            Find(after.volumes, v) == if v != volume then Find(t.volumes, v)
                                      else if present != [] then Some(present[|present| - 1].secret) else None
  {
    hide MountAll, WithoutMounts, Filled, Sound, PresentIn, AbsentFrom, FileAt, OnePathEach;
    var present, absent := PresentIn(group, contents), AbsentFrom(group, contents);
    PresentAreFiles(group, contents, volume);
    MountsOfAll(t, container, present, place);
    VolumesOfAll(t, container, present, volume, v);
    WithoutMountsFinds(MountAll(t, container, present), container, volume, absent, present == [], place, v);
    FileAtPresent(group, contents, place.path);
    AbsentPath(group, contents, place.path);
    NothingAbsent(group, contents);
  }
}
