/**
 * Synthesising the batch job for one action of a matched rule
 * (`createJobFromAction`).
 */
module Jobs {
  import opened Wrappers
  import opened Types
  import opened Payload
  import opened Sanitize
  import opened Env
  import opened Volumes

  datatype OwnerReference = OwnerReference(apiVersion: string, kind: string, name: string, uid: string)

  datatype RestartPolicy = Always | OnFailure | Never

  /** Quantities stay the strings the rule declares. */
  datatype PodResources = PodResources(limits: map<string, string>, requests: map<string, string>)

  datatype Container = Container(
    name: string,
    image: string,
    command: seq<string>,
    args: seq<string>,
    env: seq<ResolvedVar>,
    resources: PodResources,
    volumeMounts: seq<PodVolumeMount>)

  datatype PodSpec = PodSpec(
    restartPolicy: RestartPolicy,
    serviceAccountName: string,
    volumes: seq<PodVolume>,
    containers: seq<Container>)

  datatype Job = Job(
    name: string,
    namespace: string,
    labels: map<string, string>,
    ownerReferences: seq<OwnerReference>,
    ttlSecondsAfterFinished: int,
    pod: PodSpec)

  /** Finished jobs are removed after five minutes. */
  const JobTTLSeconds: int := 300
  const ContainerName: string := "action"

  const NameLabel: string := "app.kubernetes.io/name"
  const ComponentLabel: string := "app.kubernetes.io/component"
  const AlertNameLabel: string := "alert-reaction/alert-name"
  const ActionNameLabel: string := "alert-reaction/action-name"
  const OwnerLabel: string := "alert-reaction/owner"

  /** Why no job could be built for an action. */
  datatype JobError = EnvFailed(envError: EnvError) | VolumesFailed(volumeError: VolumeError)

  /** The five labels of every job. */
  function JobLabels(rule: AlertReaction, action: Action): map<string, string>
  {
    map[NameLabel := "alert-reaction-job",
        ComponentLabel := "job",
        AlertNameLabel := SanitizeLabelValue(rule.spec.alertName),
        ActionNameLabel := SanitizeLabelValue(action.name),
        OwnerLabel := SanitizeLabelValue(rule.name)]
  }

  /** The job points back at its rule, so that deleting the rule deletes its jobs. */
  function OwnerOf(rule: AlertReaction): OwnerReference
  {
    OwnerReference(rule.apiVersion, rule.kind, rule.name, rule.uid)
  }

  /** Declared requirements are copied; an action without any gets empty ones. */
  function ResourcesOf(action: Action): PodResources
  {
    if action.resources.Some? then PodResources(action.resources.value.limits, action.resources.value.requests)
    else PodResources(map[], map[])
  }

  function MountOf(vm: VolumeMount): PodVolumeMount
  {
    PodVolumeMount(vm.name, vm.mountPath, vm.subPath, vm.readOnly)
  }

  /**
   * The job for `action` of `rule`, created at `unixSeconds`: the action's
   * environment is resolved first and the rule's volumes second; either
   * failure abandons the job.
   */
  function SynthesizeJob(rule: AlertReaction, action: Action, data: Payload, unixSeconds: nat,
                         marshal: Payload -> string, lookup: Lookup, parses: QuantityParser): (r: Result<Job, JobError>)
    ensures r.Ok? <==> (ResolvedEnv(rule.namespace, action.env, data, marshal, lookup).Ok? &&
                        ConvertedVolumes(rule.spec.volumes, parses).Ok?)
    ensures ResolvedEnv(rule.namespace, action.env, data, marshal, lookup).Err? ==>
      r == Err(EnvFailed(ResolvedEnv(rule.namespace, action.env, data, marshal, lookup).error))
    ensures r.Err? && ResolvedEnv(rule.namespace, action.env, data, marshal, lookup).Ok? ==>
      r == Err(VolumesFailed(ConvertedVolumes(rule.spec.volumes, parses).error))
  {
    match ResolvedEnv(rule.namespace, action.env, data, marshal, lookup)
    case Err(e) => Err(EnvFailed(e))
    case Ok(env) =>
      match ConvertedVolumes(rule.spec.volumes, parses)
      case Err(e) => Err(VolumesFailed(e))
      case Ok(vols) =>
        var container := Container(ContainerName, action.image, action.command, action.args, env, ResourcesOf(action),
                                   seq(|action.volumeMounts|, i requires 0 <= i < |action.volumeMounts| => MountOf(action.volumeMounts[i])));
        Ok(Job(JobName(rule.name, action.name, unixSeconds), rule.namespace, JobLabels(rule, action), [OwnerOf(rule)],
               JobTTLSeconds, PodSpec(Never, action.serviceAccount, vols, [container])))
  }

  /**
   * The five label keys, the two fixed values, the alert, action and owner
   * labels naming the alert, the action and the rule, all valid label values.
   */
  lemma JobLabelsValid(rule: AlertReaction, action: Action)
    ensures var labels := JobLabels(rule, action);
      && labels.Keys == {NameLabel, ComponentLabel, AlertNameLabel, ActionNameLabel, OwnerLabel}
      && labels[NameLabel] == "alert-reaction-job"
      && labels[ComponentLabel] == "job"
      && labels[AlertNameLabel] == SanitizeLabelValue(rule.spec.alertName)
      && labels[ActionNameLabel] == SanitizeLabelValue(action.name)
      && labels[OwnerLabel] == SanitizeLabelValue(rule.name)
      && (forall k :: k in labels ==> ValidLabelValue(labels[k]))
  {
    SanitizeLabelValueValid(rule.spec.alertName);
    SanitizeLabelValueValid(action.name);
    SanitizeLabelValueValid(rule.name);
    FixedLabelValuesValid();
  }

  /** The two fixed label values are valid label values. */
  lemma FixedLabelValuesValid()
    ensures ValidLabelValue("alert-reaction-job") && ValidLabelValue("job")
  {
    var fixed := "alert-reaction-job";
    assert forall i :: 0 <= i < |fixed| ==> IsLabelChar(fixed[i]);
  }

  /**
   * A synthesised job is well formed: a valid name, the rule's namespace, its
   * labels, one owner reference to the rule, a five-minute TTL, no restarts
   * and a single container named `action` running the action's image,
   * command and arguments verbatim with its resolved environment and mounts.
   */
  lemma SynthesizedJobWellFormed(rule: AlertReaction, action: Action, data: Payload, unixSeconds: nat,
                                 marshal: Payload -> string, lookup: Lookup, parses: QuantityParser)
    requires SynthesizeJob(rule, action, data, unixSeconds, marshal, lookup, parses).Ok?
    ensures var job := SynthesizeJob(rule, action, data, unixSeconds, marshal, lookup, parses).value;
      && job.name == JobName(rule.name, action.name, unixSeconds)
      && ValidName(job.name)
      && job.namespace == rule.namespace
      && job.labels == JobLabels(rule, action)
      && job.ownerReferences == [OwnerReference(rule.apiVersion, rule.kind, rule.name, rule.uid)]
      && job.ttlSecondsAfterFinished == 300
      && job.pod.restartPolicy == Never
      && job.pod.serviceAccountName == action.serviceAccount
      && job.pod.volumes == ConvertedVolumes(rule.spec.volumes, parses).value
      && |job.pod.containers| == 1
      && job.pod.containers[0].name == "action"
      && job.pod.containers[0].image == action.image
      && job.pod.containers[0].command == action.command
      && job.pod.containers[0].args == action.args
      && job.pod.containers[0].env == ResolvedEnv(rule.namespace, action.env, data, marshal, lookup).value
      && job.pod.containers[0].resources == ResourcesOf(action)
      && |job.pod.containers[0].volumeMounts| == |action.volumeMounts|
      && (forall i :: 0 <= i < |action.volumeMounts| ==>
            job.pod.containers[0].volumeMounts[i] == PodVolumeMount(action.volumeMounts[i].name, action.volumeMounts[i].mountPath,
                                                                    action.volumeMounts[i].subPath, action.volumeMounts[i].readOnly))
  {
  }

  /**
   * For an action of a rule whose spec is valid, every mount of the built
   * container names a volume of the job's pod.
   */
  lemma ValidSpecMountsResolve(rule: AlertReaction, action: Action, data: Payload, unixSeconds: nat,
                               marshal: Payload -> string, lookup: Lookup, parses: QuantityParser)
    requires ValidSpec(rule.spec) && action in rule.spec.actions
    requires SynthesizeJob(rule, action, data, unixSeconds, marshal, lookup, parses).Ok?
    ensures var job := SynthesizeJob(rule, action, data, unixSeconds, marshal, lookup, parses).value;
      |job.pod.containers| == 1 &&
      forall j :: 0 <= j < |job.pod.containers[0].volumeMounts| ==>
        exists k :: 0 <= k < |job.pod.volumes| && job.pod.volumes[k].name == job.pod.containers[0].volumeMounts[j].name
  {
    var job := SynthesizeJob(rule, action, data, unixSeconds, marshal, lookup, parses).value;
    ConvertedVolumesAllOrNothing(rule.spec.volumes, parses);
    var i :| 0 <= i < |rule.spec.actions| && rule.spec.actions[i] == action;
    assert MountsResolve(rule.spec, action);
    forall j | 0 <= j < |job.pod.containers[0].volumeMounts|
      ensures exists k :: 0 <= k < |job.pod.volumes| && job.pod.volumes[k].name == job.pod.containers[0].volumeMounts[j].name
    {
      var v :| v in rule.spec.volumes && v.name == action.volumeMounts[j].name;
      var k :| 0 <= k < |rule.spec.volumes| && rule.spec.volumes[k] == v;
      assert job.pod.volumes[k].name == v.name;
    }
  }

  /** A synthesised job lives in its rule's namespace and names the rule as its owner. */
  lemma SynthesizedJobOwned(rule: AlertReaction, action: Action, data: Payload, unixSeconds: nat,
                            marshal: Payload -> string, lookup: Lookup, parses: QuantityParser)
    requires SynthesizeJob(rule, action, data, unixSeconds, marshal, lookup, parses).Ok?
    ensures SynthesizeJob(rule, action, data, unixSeconds, marshal, lookup, parses).value.namespace == rule.namespace
    ensures SynthesizeJob(rule, action, data, unixSeconds, marshal, lookup, parses).value.ownerReferences == [OwnerOf(rule)]
  {
  }

  /** A rule whose name starts with a lower-case letter or digit never gets an empty job name. */
  lemma JobNameNonEmpty(ruleName: string, actionName: string, unixSeconds: nat)
    requires |ruleName| > 0 && IsLowerAlnum(ruleName[0])
    ensures |JobName(ruleName, actionName, unixSeconds)| > 0
  {
    var s := ruleName + "-" + actionName + "-" + Decimal(unixSeconds);
    var t := ToLower(Truncate(s, MaxLength));
    var k := SanitizeNameWindow(s);
    assert t[0] == ruleName[0];
    assert Edge(NameAlphabet, Replace(t, NameAlphabet)[0]);
    assert LeadingRun(Replace(t, NameAlphabet), NameAlphabet) == 0;
    assert TrailingRun(TrimLeft(Replace(t, NameAlphabet), NameAlphabet), NameAlphabet) < |t|;
  }

  /** `parseQuantity` over a resource list: every entry is copied under its own name. */
  method CopyQuantities(m: map<string, string>) returns (r: map<string, string>)
    ensures r == m
  {
    r := map[];
    var remaining := m.Keys;
    while remaining != {}
      invariant remaining <= m.Keys
      invariant r.Keys == m.Keys - remaining
      invariant forall k :: k in r ==> r[k] == m[k]
      decreases remaining
    {
      var k :| k in remaining;
      r := r[k := m[k]];
      remaining := remaining - {k};
    }
  }

  /**
   * `createJobFromAction`: build the name step by step, resolve the
   * environment, copy the resources, convert the volumes and the mounts,
   * and assemble the job.
   */
  method CreateJobFromAction(rule: AlertReaction, action: Action, data: Payload, unixSeconds: nat,
                             marshal: Payload -> string, lookup: Lookup, parses: QuantityParser)
    returns (r: Result<Job, JobError>)
    ensures r == SynthesizeJob(rule, action, data, unixSeconds, marshal, lookup, parses)
  {
    var baseName := rule.name + "-" + action.name + "-" + Decimal(unixSeconds);
    if |baseName| > MaxLength {
      baseName := baseName[..MaxLength];
    }
    baseName := ToLower(baseName);
    baseName := Replace(baseName, NameAlphabet);
    baseName := TrimLeft(baseName, NameAlphabet);
    baseName := TrimRight(baseName, NameAlphabet);
    var jobName := baseName;

    var env := ProcessEnvVars(rule.namespace, action.env, data, marshal, lookup);
    if env.Err? {
      return Err(EnvFailed(env.error));
    }

    var resources := PodResources(map[], map[]);
    if action.resources.Some? {
      var limits := CopyQuantities(action.resources.value.limits);
      var requests := CopyQuantities(action.resources.value.requests);
      resources := PodResources(limits, requests);
    }

    var volumes := ConvertVolumes(rule.spec.volumes, parses);
    if volumes.Err? {
      return Err(VolumesFailed(volumes.error));
    }

    var mounts := ConvertVolumeMounts(action.volumeMounts);
    assert mounts == seq(|action.volumeMounts|, i requires 0 <= i < |action.volumeMounts| => MountOf(action.volumeMounts[i]));

    var container := Container(ContainerName, action.image, action.command, action.args, env.value, resources, mounts);
    r := Ok(Job(jobName, rule.namespace, JobLabels(rule, action), [OwnerOf(rule)],
                JobTTLSeconds, PodSpec(Never, action.serviceAccount, volumes.value, [container])));
  }
}
