/** What Apchi does to Kubernetes: whole Secrets, and single-file mounts on a pod template whose
    every change the API server checks. */
module KubernetesAdapter {
  import opened Outcomes

  type Data = map<string, string>

  /** A place in the pod: a container and a path in it. */
  datatype Place = Place(container: string, path: string)

  /** A mount names a volume, and one key of it unless it is the whole volume (an empty key). */
  datatype Mount = Mount(volume: string, key: string)

  /** The pod template: each volume with its Secret, and what is mounted where. */
  datatype Template = Template(volumes: map<string, string>, mounts: map<Place, Mount>)

  function Find<K, V>(m: map<K, V>, k: K): Option<V> {
    if k in m then Some(m[k]) else None
  }

  /** The API server refuses a template in which a mount names a volume that is not there. */
  predicate Sound(t: Template) {
    forall place | place in t.mounts :: t.mounts[place].volume in t.volumes
  }

  /** Volumes merge by name and mounts by path. */
  function WithMount(t: Template, container: string, volume: string, secret: string, path: string,
                     key: string): Template {
    Template(t.volumes[volume := secret], t.mounts[Place(container, path) := Mount(volume, key)])
  }

  function Places(container: string, paths: set<string>): set<Place> {
    set path | path in paths :: Place(container, path)
  }

  function WithoutMounts(t: Template, container: string, volume: string, paths: set<string>,
                         dropVolume: bool): Template {
    Template(if dropVolume then t.volumes - {volume} else t.volumes, t.mounts - Places(container, paths))
  }

  lemma MountingIsSound(t: Template, container: string, volume: string, secret: string, path: string, key: string)
    requires Sound(t)
    ensures Sound(WithMount(t, container, volume, secret, path, key))
  {
  }

  /** Keeping the volume, unmounting is always accepted. Dropping it is accepted exactly when every
      mount that names it is among those that go. */
  lemma UnmountingIsSoundExactly(t: Template, container: string, volume: string, paths: set<string>, dropVolume: bool)
    requires Sound(t)
    ensures Sound(WithoutMounts(t, container, volume, paths, dropVolume)) <==>
            dropVolume ==> forall place | place in t.mounts &&
              t.mounts[place].volume == volume :: place.container == container && place.path in paths
  {
    var after := WithoutMounts(t, container, volume, paths, dropVolume);
    forall place
      ensures place in after.mounts <==> place in t.mounts && !(place.container == container && place.path in paths)
    {
      if place.container == container && place.path in paths { assert place == Place(container, place.path); }
    }
  }

  class Cluster {
    var secrets: map<string, Data>
    var template: Template

    ghost predicate Valid()
      reads this
    {
      Sound(template)
    }

    function ReadSecret(name: string): Data
      reads this
    {
      if name in secrets then secrets[name] else map[]
    }

    /** A merge patch, in which a stale key is sent as null; or a first write. */
    method WriteSecret(name: string, data: Data)
      modifies this`secrets
      ensures secrets == old(secrets)[name := data]
    {
      var existing := ReadSecret(name);
      var stale := existing.Keys - data.Keys;
      if name in secrets {
        assert (existing + data) - stale == data;
        secrets := secrets[name := (existing + data) - stale];
      } else {
        secrets := secrets[name := data];
      }
    }

    method MountSecretFile(container: string, volume: string, secret: string, path: string, key: string)
      requires Valid()
      modifies this`template
      ensures Valid() && template == WithMount(old(template), container, volume, secret, path, key)
    {
      MountingIsSound(template, container, volume, secret, path, key);
      template := WithMount(template, container, volume, secret, path, key);
    }

    /** One patch for the mounts and the volume; refused as a whole if it leaves a mount without
        its volume. */
    method UnmountSecretFiles(container: string, volume: string, paths: set<string>, dropVolume: bool)
      returns (accepted: bool)
      requires Valid()
      modifies this`template
      ensures Valid()
      ensures accepted <==> Sound(WithoutMounts(old(template), container, volume, paths, dropVolume))
      ensures template == if accepted then WithoutMounts(old(template), container, volume, paths, dropVolume)
              else old(template)
    {
      var patched := WithoutMounts(template, container, volume, paths, dropVolume);
      accepted := Sound(patched);
      if accepted { template := patched; }
    }
  }
}
