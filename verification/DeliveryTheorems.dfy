/** What a whole delivery leaves behind: who reads what, which volumes exist, and when the API
    server refuses it. */
module DeliveryTheorems {
  import opened Outcomes
  import opened Ordering
  import opened KubernetesAdapter
  import opened Delivery
  import opened Mounting

  // ------------------------------------------------------------------ all the volumes

  /** The mount a place ends with once some volumes are settled. */
  function MountAfter(t: Template, container: string, declared: seq<Spec>, contents: Contents, done: seq<string>,
                      place: Place): Option<Mount> {
    var at := if place.container == container then FileAt(declared, place.path) else None;
    if at.None? || at.value.volume !in done then Find(t.mounts, place)
    else if Filled(contents, place.path) then Some(Mount(at.value.volume, at.value.key)) else None
  }

  function VolumeAfter(t: Template, declared: seq<Spec>, contents: Contents, done: seq<string>,
                       v: string): Option<string> {
    if v !in done then Find(t.volumes, v)
    else
      var present := PresentIn(GroupOf(declared, v), contents);
      if present == [] then None else Some(present[|present| - 1].secret)
  }

  lemma FileAtGroup(declared: seq<Spec>, volume: string, path: string)
    requires OnePathEach(declared)
    ensures var here := FileAt(declared, path);
            FileAt(GroupOf(declared, volume), path) == if here.Some? && here.value.volume == volume then here else None
  {
    hide FileAt, GroupOf;
    var group := GroupOf(declared, volume);
    var there, here := FileAt(group, path), FileAt(declared, path);
    assert here.Some? ==> here.value in declared;
    assert there.Some? ==> there.value in group;
  }

  lemma GroupIsProper(declared: seq<Spec>, volume: string)
    requires OnePathEach(declared) && volume in VolumesOf(declared)
    ensures var group := GroupOf(declared, volume); group != [] && AllOn(group, volume) && OnePathEach(group)
  {
    hide GroupOf, VolumesOf;
    var spec :| spec in declared && spec.File? && spec.volume == volume;
    assert spec in GroupOf(declared, volume);
  }

  predicate FromThese(volumes: seq<string>, all: seq<string>) {
    forall v | v in volumes :: v in all
  }

  /** Once some volumes are settled, every place and every volume is as it should be. */
  lemma {:induction false} VolumesSettled(t: Template, container: string, declared: seq<Spec>, contents: Contents,
                                          volumes: seq<string>, place: Place, v: string)
    requires OnePathEach(declared) && Distinct(volumes) && FromThese(volumes, VolumesOf(declared))
    requires DeliverVolumes(t, container, declared, contents, volumes).1
    ensures var after := DeliverVolumes(t, container, declared, contents, volumes).0;
            Find(after.mounts, place) == MountAfter(t, container, declared, contents, volumes, place) &&
            Find(after.volumes, v) == VolumeAfter(t, declared, contents, volumes, v)
  {
    hide DeliverGroup, FileAt, GroupOf, VolumesOf, PresentIn, Filled, OnePathEach, Find, AllOn;
    if volumes != [] {
      var front, last := volumes[..|volumes| - 1], volumes[|volumes| - 1];
      assert volumes == front + [last] && last !in front;
      var before := DeliverVolumes(t, container, declared, contents, front).0;
      VolumesSettled(t, container, declared, contents, front, place, v);
      GroupIsProper(declared, last);
      GroupSettled(before, container, last, GroupOf(declared, last), contents, place, v);
      FileAtGroup(declared, last, place.path);
    }
  }

  lemma {:induction false} DistinctVolumes(declared: seq<Spec>)
    ensures Distinct(VolumesOf(declared))
  {
    if declared != [] { DistinctVolumes(declared[..|declared| - 1]); }
  }

  // ------------------------------------------------------------------ never an orphaned mount

  lemma {:induction false} MountAllSound(t: Template, container: string, specs: seq<Spec>)
    requires Sound(t) && forall spec | spec in specs :: spec.File?
    ensures Sound(MountAll(t, container, specs))
  {
    hide Sound, WithMount;
    if specs != [] {
      var front, last := specs[..|specs| - 1], specs[|specs| - 1];
      MountAllSound(t, container, front);
      MountingIsSound(MountAll(t, container, front), container, last.volume, last.secret, last.path, last.key);
    }
  }

  lemma GroupSound(t: Template, container: string, volume: string, group: seq<Spec>, contents: Contents)
    requires Sound(t) && forall spec | spec in group :: spec.File?
    ensures Sound(DeliverGroup(t, container, volume, group, contents).0)
  {
    hide Sound, MountAll, WithoutMounts, PresentIn;
    MountAllSound(t, container, PresentIn(group, contents));
  }

  /** At no point of a delivery, taken or refused, is there a mount without its volume. */
  lemma {:induction false} AlwaysSound(t: Template, container: string, declared: seq<Spec>, contents: Contents,
                                       volumes: seq<string>)
    requires Sound(t)
    ensures Sound(DeliverVolumes(t, container, declared, contents, volumes).0)
  {
    hide Sound, DeliverGroup, GroupOf;
    if volumes != [] {
      var front, last := volumes[..|volumes| - 1], volumes[|volumes| - 1];
      AlwaysSound(t, container, declared, contents, front);
      GroupSound(DeliverVolumes(t, container, declared, contents, front).0, container, last, GroupOf(declared, last),
          contents);
    }
  }

  /** The volumes of a declaration are used for its own files and by nobody else. */
  predicate Owned(t: Template, container: string, declared: seq<Spec>) {
    forall place | place in t.mounts && t.mounts[place].volume in VolumesOf(declared) ::
      place.container == container && FileAt(declared, place.path).Some? &&
      FileAt(declared, place.path).value.volume == t.mounts[place].volume
  }

  lemma GroupTaken(t: Template, container: string, declared: seq<Spec>, contents: Contents, volume: string)
    requires Sound(t) && Owned(t, container, declared) && OnePathEach(declared) && volume in VolumesOf(declared)
    ensures DeliverGroup(t, container, volume, GroupOf(declared, volume), contents).1
  {
    hide Sound, MountAll, WithoutMounts, PresentIn, AbsentFrom, GroupOf, VolumesOf, FileAt, OnePathEach, Filled,
         AllOn;
    var group := GroupOf(declared, volume);
    GroupIsProper(declared, volume);
    var present, absent := PresentIn(group, contents), AbsentFrom(group, contents);
    MountAllSound(t, container, present);
    UnmountingIsSoundExactly(MountAll(t, container, present), container, volume, absent, present == []);
    if present == [] {
      NothingToMount(t, container, present);
      forall place | place in t.mounts && t.mounts[place].volume == volume ensures place.path in absent {
        FileAtGroup(declared, volume, place.path);
        NoneFilled(group, contents, place.path);
        AbsentPath(group, contents, place.path);
      }
    }
  }

  lemma NothingToMount(t: Template, container: string, present: seq<Spec>)
    requires present == []
    ensures MountAll(t, container, present) == t
  {
  }

  lemma NoneFilled(group: seq<Spec>, contents: Contents, path: string)
    requires PresentIn(group, contents) == [] && FileAt(group, path).Some?
    ensures !Filled(contents, path)
  {
    hide PresentIn, Filled, FileAt;
    var spec := FileAt(group, path).value;
    assert spec in group && spec.path == path;
    assert spec !in PresentIn(group, contents);
  }

  lemma GroupOwned(t: Template, container: string, declared: seq<Spec>, contents: Contents, volume: string)
    requires Owned(t, container, declared) && OnePathEach(declared) && volume in VolumesOf(declared)
    requires DeliverGroup(t, container, volume, GroupOf(declared, volume), contents).1
    ensures Owned(DeliverGroup(t, container, volume, GroupOf(declared, volume), contents).0, container, declared)
  {
    hide DeliverGroup, PresentIn, GroupOf, VolumesOf, FileAt, OnePathEach, Filled, AllOn;
    var group := GroupOf(declared, volume);
    GroupIsProper(declared, volume);
    var after := DeliverGroup(t, container, volume, group, contents).0;
    forall place | place in after.mounts && after.mounts[place].volume in VolumesOf(declared)
      ensures place.container == container && FileAt(declared, place.path).Some? &&
              FileAt(declared, place.path).value.volume == after.mounts[place].volume
    {
      GroupSettled(t, container, volume, group, contents, place, volume);
      FileAtGroup(declared, volume, place.path);
    }
  }

  lemma {:induction false} TakenWhenOwned(t: Template, container: string, declared: seq<Spec>, contents: Contents,
                                          volumes: seq<string>)
    requires Sound(t) && Owned(t, container, declared) && OnePathEach(declared) &&
             FromThese(volumes, VolumesOf(declared))
    ensures DeliverVolumes(t, container, declared, contents, volumes).1
    ensures Owned(DeliverVolumes(t, container, declared, contents, volumes).0, container, declared)
  {
    hide Sound, Owned, OnePathEach, DeliverGroup, GroupOf, VolumesOf;
    if volumes != [] {
      var front, last := volumes[..|volumes| - 1], volumes[|volumes| - 1];
      TakenWhenOwned(t, container, declared, contents, front);
      AlwaysSound(t, container, declared, contents, front);
      var before := DeliverVolumes(t, container, declared, contents, front).0;
      GroupTaken(before, container, declared, contents, last);
      GroupOwned(before, container, declared, contents, last);
    }
  }

  /** When Apchi's volumes are its own, no patch of a delivery is ever refused, and they stay so. */
  lemma NeverRefused(t: Template, container: string, declared: seq<Spec>, contents: Contents)
    requires Sound(t) && Owned(t, container, declared) && OnePathEach(declared)
    ensures var (after, ok) := DeliverVolumes(t, container, declared, contents, VolumesOf(declared));
            ok && Sound(after) && Owned(after, container, declared)
  {
    hide Sound, Owned, OnePathEach, DeliverVolumes, VolumesOf;
    TakenWhenOwned(t, container, declared, contents, VolumesOf(declared));
    AlwaysSound(t, container, declared, contents, VolumesOf(declared));
  }

  /** A mount that is not Apchi's on a volume that has become empty gets the delivery refused. */
  lemma RefusedForAForeignMount(t: Template, container: string, declared: seq<Spec>, contents: Contents, place: Place)
    requires Sound(t) && OnePathEach(declared) && place in t.mounts && t.mounts[place].volume in VolumesOf(declared)
    requires place.container != container || FileAt(declared, place.path).None?
    requires PresentIn(GroupOf(declared, t.mounts[place].volume), contents) == []
    ensures !DeliverVolumes(t, container, declared, contents, VolumesOf(declared)).1
  {
    hide OnePathEach, DeliverVolumes, VolumesOf, FileAt, PresentIn, GroupOf;
    DistinctVolumes(declared);
    AlwaysSound(t, container, declared, contents, VolumesOf(declared));
    if DeliverVolumes(t, container, declared, contents, VolumesOf(declared)).1 {
      VolumesSettled(t, container, declared, contents, VolumesOf(declared), place, t.mounts[place].volume);
    }
  }

  // ------------------------------------------------------------------ end to end

  /** Each file has one claimant, and the files of a volume come from one Secret. */
  predicate WellDeclared(declared: seq<Spec>) {
    (forall a, b | a in declared && b in declared && a.File? && Claims(b, a.path) :: a == b) &&
    (forall a, b | a in declared && b in declared && a.File? && b.File? && a.volume == b.volume :: a.secret == b.secret)
  }

  /** What a container reads at a path: the key its mount names, of the Secret behind the volume. */
  function Reads(secrets: Secrets, t: Template, place: Place): Option<string> {
    if place !in t.mounts || t.mounts[place].volume !in t.volumes then None
    else Entry(secrets, Slot(t.volumes[t.mounts[place].volume], t.mounts[place].key))
  }

  lemma OneClaimantOnePath(declared: seq<Spec>)
    requires WellDeclared(declared)
    ensures OnePathEach(declared)
  {
    forall a, b | a in declared && b in declared && a.File? && b.File? && a.path == b.path ensures a == b {
      assert Claims(b, a.path);
    }
  }

  lemma {:induction false} ClaimedByItself(declared: seq<Spec>, spec: Spec)
    requires spec in declared && spec.File?
    requires forall b | b in declared && Claims(b, spec.path) :: b == spec
    ensures ClaimedBy(declared, spec.path) == Some(spec)
  {
    var front, last := declared[..|declared| - 1], declared[|declared| - 1];
    assert declared == front + [last];
    if spec in front { ClaimedByItself(front, spec); }
    else {
      assert ClaimedBy(front, spec.path).Some? ==> ClaimedBy(front, spec.path).value in front;
    }
  }

  lemma VolumeFilled(declared: seq<Spec>, contents: Contents, spec: Spec)
    requires WellDeclared(declared) && spec in declared && spec.File? && Filled(contents, spec.path)
    ensures var present := PresentIn(GroupOf(declared, spec.volume), contents);
            present != [] && present[|present| - 1].secret == spec.secret
  {
    hide PresentIn, GroupOf, Filled;
    var present := PresentIn(GroupOf(declared, spec.volume), contents);
    assert spec in present;
    assert present[|present| - 1] in present;
  }

  lemma DeclaredHere(declared: seq<Spec>, spec: Spec)
    requires OnePathEach(declared) && spec in declared && spec.File?
    ensures FileAt(declared, spec.path) == Some(spec) && spec.volume in VolumesOf(declared)
  {
    hide VolumesOf;
  }

  /** After a delivery the container reads exactly the content rendered for each declared file, and
      where nothing was rendered nothing is mounted. */
  lemma DeliveredFilesAreRead(t: Template, container: string, declared: seq<Spec>, contents: Contents,
                              secrets: Secrets, spec: Spec)
    requires WellDeclared(declared) && BySecret(declared, contents).Ok? && !Clash(declared, contents)
    requires DeliverVolumes(t, container, declared, contents, VolumesOf(declared)).1
    requires spec in declared && spec.File?
    ensures var after, place := DeliverVolumes(t, container, declared, contents, VolumesOf(declared)).0,
            Place(container, spec.path);
            if Filled(contents, spec.path)
            then Reads(secrets + BySecret(declared, contents).value, after, place) == Some(contents[spec.path])
            else place !in after.mounts
  {
    hide DeliverVolumes, VolumesOf, PresentIn, GroupOf, BySecret, Clash, OnePathEach, ClaimedBy, FileAt;
    OneClaimantOnePath(declared);
    DistinctVolumes(declared);
    DeclaredHere(declared, spec);
    VolumesSettled(t, container, declared, contents, VolumesOf(declared), Place(container, spec.path), spec.volume);
    if Filled(contents, spec.path) {
      VolumeFilled(declared, contents, spec);
      ClaimedByItself(declared, spec);
      EachFileLandsExactly(declared, contents);
      assert Belongs(declared, contents, spec.path, Slot(spec.secret, spec.key));
    }
  }

  /** A declared volume exists afterwards if and only if a file on it has content. */
  lemma VolumeExistsExactly(t: Template, container: string, declared: seq<Spec>, contents: Contents, v: string)
    requires OnePathEach(declared) && v in VolumesOf(declared)
    requires DeliverVolumes(t, container, declared, contents, VolumesOf(declared)).1
    ensures v in DeliverVolumes(t, container, declared, contents, VolumesOf(declared)).0.volumes <==>
            exists spec :: spec in declared && spec.File? && spec.volume == v && Filled(contents, spec.path)
  {
    hide DeliverVolumes, VolumesOf, PresentIn, GroupOf, OnePathEach, Filled;
    DistinctVolumes(declared);
    VolumesSettled(t, container, declared, contents, VolumesOf(declared), Place(container, ""), v);
    var present := PresentIn(GroupOf(declared, v), contents);
    if present != [] { assert present[0] in present; }
    if spec :| spec in declared && spec.File? && spec.volume == v && Filled(contents, spec.path) {
      assert spec in present;
    }
  }

  /** What is not Apchi's stays as it was. */
  lemma OthersUntouched(t: Template, container: string, declared: seq<Spec>, contents: Contents, place: Place,
                        v: string)
    requires OnePathEach(declared) && DeliverVolumes(t, container, declared, contents, VolumesOf(declared)).1
    requires place.container != container || FileAt(declared, place.path).None?
    requires v !in VolumesOf(declared)
    ensures var after := DeliverVolumes(t, container, declared, contents, VolumesOf(declared)).0;
            Find(after.mounts, place) == Find(t.mounts, place) && Find(after.volumes, v) == Find(t.volumes, v)
  {
    hide DeliverVolumes, VolumesOf, OnePathEach, FileAt;
    DistinctVolumes(declared);
    VolumesSettled(t, container, declared, contents, VolumesOf(declared), place, v);
  }

  lemma SameTemplate(a: Template, b: Template)
    requires forall place :: Find(a.mounts, place) == Find(b.mounts, place)
    requires forall v :: Find(a.volumes, v) == Find(b.volumes, v)
    ensures a == b
  {
    assert forall place :: place in a.mounts <==> Find(a.mounts, place).Some?;
    assert forall place :: place in b.mounts <==> Find(b.mounts, place).Some?;
    assert forall v :: v in a.volumes <==> Find(a.volumes, v).Some?;
    assert forall v :: v in b.volumes <==> Find(b.volumes, v).Some?;
    assert a.mounts == b.mounts;
    assert a.volumes == b.volumes;
  }

  /** Delivering the same again leaves the pod template as it is, so nothing is rolled out. */
  lemma DeliveringAgainChangesNothing(t: Template, container: string, declared: seq<Spec>, contents: Contents)
    requires Sound(t) && Owned(t, container, declared) && OnePathEach(declared)
    ensures var after := DeliverVolumes(t, container, declared, contents, VolumesOf(declared)).0;
            DeliverVolumes(after, container, declared, contents, VolumesOf(declared)) == (after, true)
  {
    hide DeliverVolumes, VolumesOf, OnePathEach, FileAt, PresentIn, GroupOf, Filled, Sound, Owned;
    NeverRefused(t, container, declared, contents);
    NeverRefused(DeliverVolumes(t, container, declared, contents, VolumesOf(declared)).0, container, declared,
        contents);
    var volumes := VolumesOf(declared);
    DistinctVolumes(declared);
    var after := DeliverVolumes(t, container, declared, contents, volumes).0;
    var again := DeliverVolumes(after, container, declared, contents, volumes).0;
    forall place ensures Find(again.mounts, place) == Find(after.mounts, place) {
      VolumesSettled(t, container, declared, contents, volumes, place, "");
      VolumesSettled(after, container, declared, contents, volumes, place, "");
    }
    forall v ensures Find(again.volumes, v) == Find(after.volumes, v) {
      VolumesSettled(t, container, declared, contents, volumes, Place(container, ""), v);
      VolumesSettled(after, container, declared, contents, volumes, Place(container, ""), v);
    }
    SameTemplate(again, after);
  }
}
