/**
 * Converting the rule's volumes and an action's volume mounts into the pod's
 * (`convertVolumes`, `convertVolumeMounts`).
 */
module Volumes {
  import opened Wrappers
  import opened Types

  /** The source of a pod volume: exactly one kind. */
  datatype PodVolumeSource =
    | ConfigMapSource(name: string, defaultMode: Option<int>, optional: Option<bool>)
    | SecretSource(secretName: string, defaultMode: Option<int>, optional: Option<bool>)
    | EmptyDirSource(medium: string, sizeLimit: Option<string>)
    | ClaimSource(claimName: string, readOnly: bool)
    | HostPathSource(path: string, hostPathType: Option<string>)

  datatype PodVolume = PodVolume(name: string, source: PodVolumeSource)

  datatype PodVolumeMount = PodVolumeMount(name: string, mountPath: string, subPath: string, readOnly: bool)

  /** A volume that sets none of the five sources, named. */
  datatype VolumeError = NoValidSource(volumeName: string)

  /** Whether the quantity parser (`resource.ParseQuantity`) accepts a string. */
  type QuantityParser = string -> bool

  /**
   * One volume: the first source set, in the order ConfigMap, Secret,
   * EmptyDir, PersistentVolumeClaim, HostPath; a volume without a source is
   * an error naming it. Further sources set are ignored.
   */
  function ConvertVolume(v: Volume, parses: QuantityParser): (r: Result<PodVolume, VolumeError>)
    ensures r.Err? <==> SourceCount(v.source) == 0
    ensures r.Err? ==> r.error == NoValidSource(v.name)
    ensures r.Ok? ==> r.value.name == v.name
    ensures v.source.configMap.Some? ==>
      var c := v.source.configMap.value;
      r == Ok(PodVolume(v.name, ConfigMapSource(c.name, c.defaultMode, c.optional)))
    ensures v.source.configMap.None? && v.source.secret.Some? ==>
      var c := v.source.secret.value;
      r == Ok(PodVolume(v.name, SecretSource(c.secretName, c.defaultMode, c.optional)))
    ensures v.source.configMap.None? && v.source.secret.None? && v.source.emptyDir.Some? ==>
      r.Ok? && r.value.source.EmptyDirSource?
    ensures v.source.configMap.None? && v.source.secret.None? && v.source.emptyDir.None? && v.source.persistentVolumeClaim.Some? ==>
      var c := v.source.persistentVolumeClaim.value;
      r == Ok(PodVolume(v.name, ClaimSource(c.claimName, c.readOnly)))
    ensures v.source.configMap.None? && v.source.secret.None? && v.source.emptyDir.None? && v.source.persistentVolumeClaim.None? && v.source.hostPath.Some? ==>
      var h := v.source.hostPath.value;
      && r.Ok? && r.value.source.HostPathSource?
      && r.value.source.path == h.path
      && (r.value.source.hostPathType.None? <==> h.hostPathType == "")
      && (r.value.source.hostPathType.Some? ==> r.value.source.hostPathType.value == h.hostPathType)
  {
    var s := v.source;
    if s.configMap.Some? then
      var c := s.configMap.value;
      Ok(PodVolume(v.name, ConfigMapSource(c.name, c.defaultMode, c.optional)))
    else if s.secret.Some? then
      var c := s.secret.value;
      Ok(PodVolume(v.name, SecretSource(c.secretName, c.defaultMode, c.optional)))
    else if s.emptyDir.Some? then
      var e := s.emptyDir.value;
      var limit := if e.sizeLimit != "" && parses(e.sizeLimit) then Some(e.sizeLimit) else None;
      Ok(PodVolume(v.name, EmptyDirSource(e.medium, limit)))
    else if s.persistentVolumeClaim.Some? then
      var c := s.persistentVolumeClaim.value;
      Ok(PodVolume(v.name, ClaimSource(c.claimName, c.readOnly)))
    else if s.hostPath.Some? then
      var h := s.hostPath.value;
      Ok(PodVolume(v.name, HostPathSource(h.path, if h.hostPathType != "" then Some(h.hostPathType) else None)))
    else Err(NoValidSource(v.name))
  }

  /** An EmptyDir keeps its medium, and its size limit only when set and parsable. */
  lemma EmptyDirSizeLimit(v: Volume, parses: QuantityParser)
    requires v.source.configMap.None? && v.source.secret.None? && v.source.emptyDir.Some?
    ensures var e := v.source.emptyDir.value; var r := ConvertVolume(v, parses);
      r.value.source.medium == e.medium &&
      (r.value.source.sizeLimit.Some? <==> e.sizeLimit != "" && parses(e.sizeLimit)) &&
      (r.value.source.sizeLimit.Some? ==> r.value.source.sizeLimit.value == e.sizeLimit)
  {
  }

  /** The rule's volumes, in order; the first volume without a source fails the list. */
  function ConvertedVolumes(vols: seq<Volume>, parses: QuantityParser): (r: Result<seq<PodVolume>, VolumeError>)
    ensures r.Ok? ==> |r.value| == |vols| && forall i :: 0 <= i < |vols| ==> r.value[i].name == vols[i].name
    ensures r.Err? ==> exists i :: 0 <= i < |vols| && r.error == NoValidSource(vols[i].name)
    decreases |vols|
  {
    if vols == [] then Ok([])
    else
      match ConvertedVolumes(vols[..|vols| - 1], parses)
      case Err(e) => Err(e)
      case Ok(prefix) =>
        match ConvertVolume(vols[|vols| - 1], parses)
        case Err(e) => Err(e)
        case Ok(v) => Ok(prefix + [v])
  }

  /**
   * The conversion succeeds exactly when every volume has a source; then it
   * keeps the length, the order and the names.
   */
  lemma {:induction false} ConvertedVolumesAllOrNothing(vols: seq<Volume>, parses: QuantityParser)
    ensures var r := ConvertedVolumes(vols, parses);
      r.Ok? <==> forall i :: 0 <= i < |vols| ==> SourceCount(vols[i].source) > 0
    ensures var r := ConvertedVolumes(vols, parses);
      r.Ok? ==> (|r.value| == |vols| &&
                 forall i :: 0 <= i < |vols| ==> r.value[i] == ConvertVolume(vols[i], parses).value && r.value[i].name == vols[i].name)
    decreases |vols|
  {
    if vols != [] {
      var init := vols[..|vols| - 1];
      ConvertedVolumesAllOrNothing(init, parses);
      assert forall i :: 0 <= i < |init| ==> init[i] == vols[i];
    }
  }

  /** A failure names the first volume without a source. */
  lemma {:induction false} ConvertedVolumesFirstFailure(vols: seq<Volume>, parses: QuantityParser) returns (k: nat)
    requires ConvertedVolumes(vols, parses).Err?
    ensures k < |vols|
    ensures SourceCount(vols[k].source) == 0
    ensures ConvertedVolumes(vols, parses).error == NoValidSource(vols[k].name)
    ensures forall i :: 0 <= i < k ==> SourceCount(vols[i].source) > 0
    decreases |vols|
  {
    var init := vols[..|vols| - 1];
    if ConvertedVolumes(init, parses).Err? {
      k := ConvertedVolumesFirstFailure(init, parses);
    } else {
      ConvertedVolumesAllOrNothing(init, parses);
      k := |vols| - 1;
    }
  }

  /** Once a prefix of the list has failed, the rest of the list is not consulted. */
  lemma {:induction false} ConvertedVolumesFailureSticks(vols: seq<Volume>, n: nat, parses: QuantityParser)
    requires n <= |vols|
    requires ConvertedVolumes(vols[..n], parses).Err?
    ensures ConvertedVolumes(vols, parses) == ConvertedVolumes(vols[..n], parses)
    decreases |vols| - n
  {
    if n < |vols| {
      var init := vols[..|vols| - 1];
      assert init[..n] == vols[..n];
      ConvertedVolumesFailureSticks(init, n, parses);
    } else {
      assert vols[..n] == vols;
    }
  }

  /** `convertVolumes`: convert every volume in order, appending to the result, and stop at the first without a source. */
  method ConvertVolumes(vols: seq<Volume>, parses: QuantityParser) returns (r: Result<seq<PodVolume>, VolumeError>)
    ensures r == ConvertedVolumes(vols, parses)
  {
    var result: seq<PodVolume> := [];
    var i := 0;
    while i < |vols|
      invariant 0 <= i <= |vols|
      invariant ConvertedVolumes(vols[..i], parses) == Ok(result)
    {
      var converted := ConvertVolume(vols[i], parses);
      assert vols[..i + 1][..i] == vols[..i];
      if converted.Err? {
        ConvertedVolumesFailureSticks(vols, i + 1, parses);
        return Err(converted.error);
      }
      result := result + [converted.value];
      i := i + 1;
    }
    assert vols[..i] == vols;
    return Ok(result);
  }

  /** `convertVolumeMounts`: copy name, mount path, sub-path and read-only flag of every mount, in order. */
  method ConvertVolumeMounts(mounts: seq<VolumeMount>) returns (r: seq<PodVolumeMount>)
    ensures |r| == |mounts|
    ensures forall i :: 0 <= i < |mounts| ==>
      r[i] == PodVolumeMount(mounts[i].name, mounts[i].mountPath, mounts[i].subPath, mounts[i].readOnly)
  {
    r := [];
    var i := 0;
    while i < |mounts|
      invariant 0 <= i <= |mounts|
      invariant |r| == i
      invariant forall j :: 0 <= j < i ==>
        r[j] == PodVolumeMount(mounts[j].name, mounts[j].mountPath, mounts[j].subPath, mounts[j].readOnly)
    {
      var vm := mounts[i];
      r := r + [PodVolumeMount(vm.name, vm.mountPath, vm.subPath, vm.readOnly)];
      i := i + 1;
    }
  }
}
