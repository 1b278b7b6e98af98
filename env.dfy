/**
 * Resolving an action's environment (`processEnvVars`,
 * `resolveEnvVarSource`): literal values, alert fields, and keys of
 * ConfigMaps and Secrets, all or nothing over the list.
 */
module Env {
  import opened Wrappers
  import opened Types
  import opened Payload
  import opened Fields

  /** The two kinds of object an environment variable can read a key from. */
  datatype ObjectKind = ConfigMapKind | SecretKind

  /**
   * Reading an object of the cluster, `r.Get`: its data when the object can
   * be read in the namespace, None when it cannot.
   */
  type Lookup = (ObjectKind, string, string) -> Option<map<string, string>>

  /** Why one source did not resolve. */
  datatype SourceError =
    | FieldUnresolved(cause: FieldError)
    | ObjectUnavailable(kind: ObjectKind, name: string)
    | KeyNotFound(kind: ObjectKind, key: string, name: string)
    | NoValidSource

  /** Why the environment did not resolve: the first variable that failed, and why. */
  datatype EnvError = EnvVarFailed(varName: string, cause: SourceError)

  /** The resolved variable placed in the container. */
  datatype ResolvedVar = ResolvedVar(name: string, value: string)

  /**
   * A ConfigMap or Secret key reference: an optional reference resolves to ""
   * when the object cannot be read or lacks the key; a required one fails.
   */
  function KeyRef(kind: ObjectKind, namespace: string, sel: KeySelector, lookup: Lookup): (r: Result<string, SourceError>)
    ensures IsTrue(sel.optional) ==> r.Ok?
    ensures lookup(kind, namespace, sel.name).Some? && sel.key in lookup(kind, namespace, sel.name).value ==>
      r == Ok(lookup(kind, namespace, sel.name).value[sel.key])
    ensures lookup(kind, namespace, sel.name).None? ==>
      r == if IsTrue(sel.optional) then Ok("") else Err(ObjectUnavailable(kind, sel.name))
    ensures lookup(kind, namespace, sel.name).Some? && sel.key !in lookup(kind, namespace, sel.name).value ==>
      r == if IsTrue(sel.optional) then Ok("") else Err(KeyNotFound(kind, sel.key, sel.name))
  {
    match lookup(kind, namespace, sel.name)
    case None => if IsTrue(sel.optional) then Ok("") else Err(ObjectUnavailable(kind, sel.name))
    case Some(data) =>
      if sel.key in data then Ok(data[sel.key])
      else if IsTrue(sel.optional) then Ok("")
      else Err(KeyNotFound(kind, sel.key, sel.name))
  }

  /** `resolveEnvVarSource`: the alert reference first, then the ConfigMap key, then the Secret key. */
  function ResolveEnvVarSource(namespace: string, src: EnvVarSource, data: Payload, marshal: Payload -> string, lookup: Lookup): (r: Result<string, SourceError>)
    ensures src.alertRef.None? && src.configMapKeyRef.None? && src.secretKeyRef.None? ==> r == Err(NoValidSource)
    ensures src.alertRef.Some? ==>
      (r.Ok? <==> GetAlertFieldValue(data, src.alertRef.value.fieldPath, marshal).Ok?)
    ensures src.alertRef.Some? ==>
      r == match GetAlertFieldValue(data, src.alertRef.value.fieldPath, marshal)
           case Ok(v) => Ok(v)
           case Err(e) => Err(FieldUnresolved(e))
    ensures src.alertRef.None? && src.configMapKeyRef.Some? ==>
      r == KeyRef(ConfigMapKind, namespace, src.configMapKeyRef.value, lookup)
    ensures src.alertRef.None? && src.configMapKeyRef.None? && src.secretKeyRef.Some? ==>
      r == KeyRef(SecretKind, namespace, src.secretKeyRef.value, lookup)
  {
    if src.alertRef.Some? then
      match GetAlertFieldValue(data, src.alertRef.value.fieldPath, marshal)
      case Ok(v) => Ok(v)
      case Err(e) => Err(FieldUnresolved(e))
    else if src.configMapKeyRef.Some? then KeyRef(ConfigMapKind, namespace, src.configMapKeyRef.value, lookup)
    else if src.secretKeyRef.Some? then KeyRef(SecretKind, namespace, src.secretKeyRef.value, lookup)
    else Err(NoValidSource)
  }

  /** A set alert reference hides the two key references; a set ConfigMap reference hides the Secret one. */
  lemma SourcePrecedence(namespace: string, src: EnvVarSource, data: Payload, marshal: Payload -> string, lookup: Lookup,
                         cm: Option<KeySelector>, secret: Option<KeySelector>)
    ensures src.alertRef.Some? ==>
      ResolveEnvVarSource(namespace, src.(configMapKeyRef := cm, secretKeyRef := secret), data, marshal, lookup)
        == ResolveEnvVarSource(namespace, src, data, marshal, lookup)
    ensures src.configMapKeyRef.Some? ==>
      ResolveEnvVarSource(namespace, src.(secretKeyRef := secret), data, marshal, lookup)
        == ResolveEnvVarSource(namespace, src, data, marshal, lookup)
  {
  }

  /** One variable: a non-empty literal wins, then the source; with neither the value is "". */
  function ResolveEnvVar(namespace: string, e: EnvVar, data: Payload, marshal: Payload -> string, lookup: Lookup): (r: Result<ResolvedVar, EnvError>)
    ensures r.Ok? ==> r.value.name == e.name
    ensures e.value != "" ==> r == Ok(ResolvedVar(e.name, e.value))
    ensures e.value == "" && e.valueFrom.None? ==> r == Ok(ResolvedVar(e.name, ""))
    ensures r.Err? ==> r.error.varName == e.name && e.value == "" && e.valueFrom.Some?
    ensures e.value == "" && e.valueFrom.Some? ==>
      r == match ResolveEnvVarSource(namespace, e.valueFrom.value, data, marshal, lookup)
           case Ok(v) => Ok(ResolvedVar(e.name, v))
           case Err(c) => Err(EnvVarFailed(e.name, c))
  {
    if e.value != "" then Ok(ResolvedVar(e.name, e.value))
    else if e.valueFrom.Some? then
      match ResolveEnvVarSource(namespace, e.valueFrom.value, data, marshal, lookup)
      case Ok(v) => Ok(ResolvedVar(e.name, v))
      case Err(c) => Err(EnvVarFailed(e.name, c))
    else Ok(ResolvedVar(e.name, ""))
  }

  /** The whole list, in order; the first variable that fails fails the list. */
  function ResolvedEnv(namespace: string, envs: seq<EnvVar>, data: Payload, marshal: Payload -> string, lookup: Lookup): (r: Result<seq<ResolvedVar>, EnvError>)
    ensures r.Ok? ==> |r.value| == |envs| && forall i :: 0 <= i < |envs| ==> r.value[i].name == envs[i].name
    ensures r.Err? ==> exists i :: 0 <= i < |envs| && r.error.varName == envs[i].name
    decreases |envs|
  {
    if envs == [] then Ok([])
    else
      match ResolvedEnv(namespace, envs[..|envs| - 1], data, marshal, lookup)
      case Err(e) => Err(e)
      case Ok(prefix) =>
        match ResolveEnvVar(namespace, envs[|envs| - 1], data, marshal, lookup)
        case Err(e) => Err(e)
        case Ok(v) => Ok(prefix + [v])
  }

  /**
   * The environment resolves exactly when every variable does, and then it
   * holds one entry per variable, with the same name, in the same order.
   */
  lemma {:induction false} ResolvedEnvAllOrNothing(namespace: string, envs: seq<EnvVar>, data: Payload, marshal: Payload -> string, lookup: Lookup)
    ensures var r := ResolvedEnv(namespace, envs, data, marshal, lookup);
      r.Ok? <==> forall i :: 0 <= i < |envs| ==> ResolveEnvVar(namespace, envs[i], data, marshal, lookup).Ok?
    ensures var r := ResolvedEnv(namespace, envs, data, marshal, lookup);
      r.Ok? ==> (|r.value| == |envs| &&
                 forall i :: 0 <= i < |envs| ==> r.value[i] == ResolveEnvVar(namespace, envs[i], data, marshal, lookup).value)
    decreases |envs|
  {
    if envs != [] {
      var init := envs[..|envs| - 1];
      ResolvedEnvAllOrNothing(namespace, init, data, marshal, lookup);
      assert forall i :: 0 <= i < |init| ==> init[i] == envs[i];
    }
  }

  /** A failure is the failure of the first variable that does not resolve. */
  lemma {:induction false} ResolvedEnvFirstFailure(namespace: string, envs: seq<EnvVar>, data: Payload, marshal: Payload -> string, lookup: Lookup)
    returns (k: nat)
    requires ResolvedEnv(namespace, envs, data, marshal, lookup).Err?
    ensures k < |envs|
    ensures ResolveEnvVar(namespace, envs[k], data, marshal, lookup) == Err(ResolvedEnv(namespace, envs, data, marshal, lookup).error)
    ensures forall i :: 0 <= i < k ==> ResolveEnvVar(namespace, envs[i], data, marshal, lookup).Ok?
    decreases |envs|
  {
    var init := envs[..|envs| - 1];
    if ResolvedEnv(namespace, init, data, marshal, lookup).Err? {
      k := ResolvedEnvFirstFailure(namespace, init, data, marshal, lookup);
    } else {
      ResolvedEnvAllOrNothing(namespace, init, data, marshal, lookup);
      k := |envs| - 1;
    }
  }

  /** Once a prefix of the list has failed, the rest of the list is not consulted. */
  lemma {:induction false} ResolvedEnvFailureSticks(namespace: string, envs: seq<EnvVar>, n: nat, data: Payload, marshal: Payload -> string, lookup: Lookup)
    requires n <= |envs|
    requires ResolvedEnv(namespace, envs[..n], data, marshal, lookup).Err?
    ensures ResolvedEnv(namespace, envs, data, marshal, lookup) == ResolvedEnv(namespace, envs[..n], data, marshal, lookup)
    decreases |envs| - n
  {
    if n < |envs| {
      var init := envs[..|envs| - 1];
      assert init[..n] == envs[..n];
      ResolvedEnvFailureSticks(namespace, init, n, data, marshal, lookup);
    } else {
      assert envs[..n] == envs;
    }
  }

  /** `processEnvVars`: resolve every variable in order, appending to the result, and stop at the first failure. */
  method ProcessEnvVars(namespace: string, envs: seq<EnvVar>, data: Payload, marshal: Payload -> string, lookup: Lookup)
    returns (r: Result<seq<ResolvedVar>, EnvError>)
    ensures r == ResolvedEnv(namespace, envs, data, marshal, lookup)
  {
    var result: seq<ResolvedVar> := [];
    var i := 0;
    while i < |envs|
      invariant 0 <= i <= |envs|
      invariant ResolvedEnv(namespace, envs[..i], data, marshal, lookup) == Ok(result)
    {
      var e := envs[i];
      var value := "";
      if e.value != "" {
        value := e.value;
      } else if e.valueFrom.Some? {
        var resolved := ResolveEnvVarSource(namespace, e.valueFrom.value, data, marshal, lookup);
        if resolved.Err? {
          assert envs[..i + 1][..i] == envs[..i];
          ResolvedEnvFailureSticks(namespace, envs, i + 1, data, marshal, lookup);
          return Err(EnvVarFailed(e.name, resolved.error));
        }
        value := resolved.value;
      }
      result := result + [ResolvedVar(e.name, value)];
      assert envs[..i + 1][..i] == envs[..i];
      i := i + 1;
    }
    assert envs[..i] == envs;
    return Ok(result);
  }
}
