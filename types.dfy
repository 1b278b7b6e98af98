/**
 * The AlertReaction custom resource (group alertreaction.io, version v1alpha1):
 * the rule an operator writes, the status the controller keeps on it, and the
 * validity conditions its schema states.
 */
module Types {
  import opened Wrappers

  /** A timestamp, as Unix seconds. */
  type Time = nat

  /** The ten operators the schema's enum admits. */
  datatype MatchOperator =
    | Equal | NotEqual | In | NotIn | Exists | DoesNotExist
    | GreaterThan | LessThan | Regex | NotRegex

  /** The operator's spelling in the resource. */
  function OperatorName(op: MatchOperator): string
  {
    match op
    case Equal => "Equal"
    case NotEqual => "NotEqual"
    case In => "In"
    case NotIn => "NotIn"
    case Exists => "Exists"
    case DoesNotExist => "DoesNotExist"
    case GreaterThan => "GreaterThan"
    case LessThan => "LessThan"
    case Regex => "Regex"
    case NotRegex => "NotRegex"
  }

  /** The schema's enum validation: exactly the ten spellings are admitted. */
  function ParseOperator(s: string): (r: Option<MatchOperator>)
    ensures r.Some? ==> OperatorName(r.value) == s
  {
    if s == "Equal" then Some(Equal)
    else if s == "NotEqual" then Some(NotEqual)
    else if s == "In" then Some(In)
    else if s == "NotIn" then Some(NotIn)
    else if s == "Exists" then Some(Exists)
    else if s == "DoesNotExist" then Some(DoesNotExist)
    else if s == "GreaterThan" then Some(GreaterThan)
    else if s == "LessThan" then Some(LessThan)
    else if s == "Regex" then Some(Regex)
    else if s == "NotRegex" then Some(NotRegex)
    else None
  }

  /** Every operator is admitted under its own spelling, so the ten spellings are distinct. */
  lemma ParseOperatorName(op: MatchOperator)
    ensures ParseOperator(OperatorName(op)) == Some(op)
  {
  }

  /** One attribute condition of a rule. */
  datatype AlertMatcher = AlertMatcher(name: string, operator: MatchOperator, values: seq<string>)

  /** The single expected value of every operator except In and NotIn: the first value, or "" when there is none. */
  function ExpectedValue(m: AlertMatcher): (v: string)
    ensures |m.values| == 0 ==> v == ""
    ensures |m.values| > 0 ==> v == m.values[0]
  {
    if |m.values| > 0 then m.values[0] else ""
  }

  /** The values an operator consults: the whole list for In/NotIn, none for Exists/DoesNotExist, at most the first otherwise. */
  function UsedValues(m: AlertMatcher): (vs: seq<string>)
    ensures m.operator in {In, NotIn} ==> vs == m.values
    ensures m.operator in {Exists, DoesNotExist} ==> vs == []
    ensures m.operator !in {In, NotIn, Exists, DoesNotExist} ==> |vs| <= 1 && |vs| <= |m.values| && vs == m.values[..|vs|]
  {
    match m.operator
    case In => m.values
    case NotIn => m.values
    case Exists => []
    case DoesNotExist => []
    case _ => if |m.values| > 0 then [m.values[0]] else []
  }

  /** For a single-value operator with a value, the value used is the expected value. */
  lemma SingleValueOperatorsUseExpected(m: AlertMatcher)
    requires m.operator !in {In, NotIn, Exists, DoesNotExist} && |m.values| > 0
    ensures UsedValues(m) == [ExpectedValue(m)]
  {
  }

  /** Selects a field of the alert by its (dotted) path. */
  datatype AlertFieldSelector = AlertFieldSelector(fieldPath: string)

  /**
   * Selects a key of a ConfigMap or of a Secret (the two selectors of the
   * resource have the same three fields); `optional` says whether the object
   * or its key may be missing.
   */
  datatype KeySelector = KeySelector(name: string, key: string, optional: Option<bool>)

  /** At most one of these is consulted, in the order alertRef, configMapKeyRef, secretKeyRef. */
  datatype EnvVarSource = EnvVarSource(
    alertRef: Option<AlertFieldSelector>,
    configMapKeyRef: Option<KeySelector>,
    secretKeyRef: Option<KeySelector>)

  datatype EnvVar = EnvVar(name: string, value: string, valueFrom: Option<EnvVarSource>)

  /** Resource names to quantity strings such as "500m" or "256Mi". */
  datatype ResourceRequirements = ResourceRequirements(limits: map<string, string>, requests: map<string, string>)

  datatype ConfigMapVolumeSource = ConfigMapVolumeSource(name: string, defaultMode: Option<int>, optional: Option<bool>)
  datatype SecretVolumeSource = SecretVolumeSource(secretName: string, defaultMode: Option<int>, optional: Option<bool>)
  datatype EmptyDirVolumeSource = EmptyDirVolumeSource(medium: string, sizeLimit: string)
  datatype PersistentVolumeClaimVolumeSource = PersistentVolumeClaimVolumeSource(claimName: string, readOnly: bool)
  datatype HostPathVolumeSource = HostPathVolumeSource(path: string, hostPathType: string)

  /** The five optional sources of a volume; a valid volume sets exactly one. */
  datatype VolumeSource = VolumeSource(
    configMap: Option<ConfigMapVolumeSource>,
    secret: Option<SecretVolumeSource>,
    emptyDir: Option<EmptyDirVolumeSource>,
    persistentVolumeClaim: Option<PersistentVolumeClaimVolumeSource>,
    hostPath: Option<HostPathVolumeSource>)

  datatype Volume = Volume(name: string, source: VolumeSource)

  datatype VolumeMount = VolumeMount(name: string, mountPath: string, subPath: string, readOnly: bool)

  datatype Action = Action(
    name: string,
    image: string,
    command: seq<string>,
    args: seq<string>,
    env: seq<EnvVar>,
    resources: Option<ResourceRequirements>,
    volumeMounts: seq<VolumeMount>,
    serviceAccount: string)

  datatype AlertReactionSpec = AlertReactionSpec(
    alertName: string,
    matchers: seq<AlertMatcher>,
    actions: seq<Action>,
    volumes: seq<Volume>)

  /** A job created for one action, as recorded in the rule's status. */
  datatype JobReference = JobReference(name: string, namespace: string, actionName: string, createdAt: Time)

  /** A status condition, as the Kubernetes meta API defines it. */
  datatype Condition = Condition(conditionType: string, status: string, reason: string, message: string, lastTransitionTime: Time)

  datatype AlertReactionStatus = AlertReactionStatus(
    lastTriggered: Option<Time>,
    triggerCount: int,
    lastJobsCreated: seq<JobReference>,
    conditions: seq<Condition>)

  /** The resource: type and object metadata, spec and status. */
  datatype AlertReaction = AlertReaction(
    apiVersion: string,
    kind: string,
    name: string,
    namespace: string,
    uid: string,
    spec: AlertReactionSpec,
    status: AlertReactionStatus)

  /** Number of sources a volume sets. */
  function SourceCount(s: VolumeSource): (n: nat)
    ensures n <= 5
    ensures n == 0 <==> s.configMap.None? && s.secret.None? && s.emptyDir.None? && s.persistentVolumeClaim.None? && s.hostPath.None?
  {
    (if s.configMap.Some? then 1 else 0) + (if s.secret.Some? then 1 else 0) + (if s.emptyDir.Some? then 1 else 0)
    + (if s.persistentVolumeClaim.Some? then 1 else 0) + (if s.hostPath.Some? then 1 else 0)
  }

  /** Every mount of the action names a volume declared in the spec. */
  predicate MountsResolve(spec: AlertReactionSpec, a: Action)
  {
    forall j :: 0 <= j < |a.volumeMounts| ==> exists v :: v in spec.volumes && v.name == a.volumeMounts[j].name
  }

  /**
   * What the resource documents for a spec: at least one action (the only
   * part the schema enforces), and every mount naming a volume declared in
   * the spec (asked for in comments only; nothing checks it).
   */
  predicate ValidSpec(spec: AlertReactionSpec)
  {
    && |spec.actions| >= 1
    && (forall i :: 0 <= i < |spec.actions| ==> MountsResolve(spec, spec.actions[i]))
  }
}
