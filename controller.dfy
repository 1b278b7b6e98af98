/**
 * The controller: processing one alert against every stored rule
 * (`ProcessAlert`) and marking a rule ready (`Reconcile`).
 */
module Controller {
  import opened Wrappers
  import opened Types
  import opened Payload
  import opened Matching
  import opened Env
  import opened Volumes
  import opened Jobs

  /**
   * What the controller consults outside itself: the regular-expression
   * engine, the JSON encoder, the ConfigMap/Secret store, the quantity
   * parser, whether the cluster accepts a new job or a status write, and
   * `build`, the job the controller synthesises for an action of a rule
   * while it handles the current alert.
   */
  datatype Externals = Externals(
    regex: RegexEngine,
    marshal: Payload -> string,
    lookup: Lookup,
    parses: QuantityParser,
    accepts: Job -> bool,
    statusOk: AlertReaction -> bool,
    build: (AlertReaction, Action) -> Result<Job, JobError>)

  /**
   * `build` is the job synthesis of `Jobs` for the alert's payload `data` and
   * the clock reading `now`. (The quantifier is instantiated only where a
   * synthesis is already in view, which keeps the proofs below small.)
   */
  ghost predicate Synthesizes(x: Externals, data: Payload, now: Time)
  {
    forall rule: AlertReaction, action: Action {:trigger SynthesizeJob(rule, action, data, now, x.marshal, x.lookup, x.parses)} ::
      x.build(rule, action) == SynthesizeJob(rule, action, data, now, x.marshal, x.lookup, x.parses)
  }

  datatype ProcessError = ListFailed
  datatype ReconcileError = StatusUpdateFailed

  /** A job the cluster accepted, with the action it was made for. */
  datatype Launch = Launch(actionName: string, job: Job)

  /** The launch, if any, of one action of `rule`: its job, when it is built and accepted. */
  function LaunchOf(rule: AlertReaction, action: Action, x: Externals): seq<Launch>
  {
    var job := x.build(rule, action);
    if job.Ok? && x.accepts(job.value) then [Launch(action.name, job.value)] else []
  }

  /**
   * The jobs launched for a rule's actions, in action order: an action whose
   * job cannot be synthesised or is refused is skipped.
   */
  function Launched(rule: AlertReaction, actions: seq<Action>, x: Externals): (r: seq<Launch>)
    ensures forall l :: l in r ==> x.accepts(l.job)
  {
    if |actions| == 0 then []
    else Launched(rule, actions[..|actions| - 1], x) + LaunchOf(rule, actions[|actions| - 1], x)
  }

  /** One more action adds its own launch, if any, at the end. */
  lemma LaunchedSnoc(rule: AlertReaction, actions: seq<Action>, action: Action, x: Externals)
    ensures Launched(rule, actions + [action], x) == Launched(rule, actions, x) + LaunchOf(rule, action, x)
  {
    assert (actions + [action])[..|actions|] == actions;
  }

  /** Launching over two lists of actions is launching over each in turn. */
  lemma {:induction false} LaunchedAppend(rule: AlertReaction, a: seq<Action>, b: seq<Action>, x: Externals)
    ensures Launched(rule, a + b, x) == Launched(rule, a, x) + Launched(rule, b, x)
    decreases |b|
  {
    if |b| == 0 {
      assert a + b == a;
    } else {
      var front := b[..|b| - 1];
      var last := b[|b| - 1];
      assert b == front + [last];
      assert a + b == (a + front) + [last];
      LaunchedAppend(rule, a, front, x);
      LaunchedSnoc(rule, a + front, last, x);
      LaunchedSnoc(rule, front, last, x);
      AppendAssoc(Launched(rule, a, x), Launched(rule, front, x), LaunchOf(rule, last, x));
    }
  }

  /** Every launch comes from an action of the list whose job was built and accepted. */
  lemma {:induction false} LaunchedSound(rule: AlertReaction, actions: seq<Action>, x: Externals)
    ensures |Launched(rule, actions, x)| <= |actions|
    ensures forall l :: l in Launched(rule, actions, x) ==>
      exists i :: 0 <= i < |actions| && actions[i].name == l.actionName && x.build(rule, actions[i]) == Ok(l.job) && x.accepts(l.job)
  {
    if |actions| > 0 {
      var front := actions[..|actions| - 1];
      LaunchedSound(rule, front, x);
      forall l | l in Launched(rule, actions, x)
        ensures exists i :: 0 <= i < |actions| && actions[i].name == l.actionName && x.build(rule, actions[i]) == Ok(l.job) && x.accepts(l.job)
      {
        if l in Launched(rule, front, x) {
          var i :| 0 <= i < |front| && front[i].name == l.actionName && x.build(rule, front[i]) == Ok(l.job) && x.accepts(l.job);
          assert actions[i] == front[i];
        } else {
          assert l in LaunchOf(rule, actions[|actions| - 1], x);
        }
      }
    }
  }

  /** Every action whose job is built and accepted is launched. */
  lemma {:induction false} LaunchedComplete(rule: AlertReaction, actions: seq<Action>, i: nat, x: Externals)
    requires i < |actions|
    requires x.build(rule, actions[i]).Ok? && x.accepts(x.build(rule, actions[i]).value)
    ensures Launch(actions[i].name, x.build(rule, actions[i]).value) in Launched(rule, actions, x)
  {
    var front := actions[..|actions| - 1];
    if i < |actions| - 1 {
      assert actions[i] == front[i];
      LaunchedComplete(rule, front, i, x);
    }
  }

  /** The jobs of a list of launches. */
  function JobsOf(launches: seq<Launch>): (r: seq<Job>)
    ensures |r| == |launches|
    ensures forall j :: j in r ==> exists l :: l in launches && l.job == j
  {
    seq(|launches|, i requires 0 <= i < |launches| => launches[i].job)
  }

  lemma JobsOfSnoc(launches: seq<Launch>, l: Launch)
    ensures JobsOf(launches + [l]) == JobsOf(launches) + [l.job]
  {
    assert forall i :: 0 <= i < |launches| ==> (launches + [l])[i] == launches[i];
  }

  /** The references recorded in a rule's status for its launched jobs. */
  function RefsOf(launches: seq<Launch>, now: Time): (r: seq<JobReference>)
    ensures |r| == |launches|
  {
    seq(|launches|, i requires 0 <= i < |launches| =>
      JobReference(launches[i].job.name, launches[i].job.namespace, launches[i].actionName, now))
  }

  lemma RefsOfSnoc(launches: seq<Launch>, l: Launch, now: Time)
    ensures RefsOf(launches + [l], now) == RefsOf(launches, now) + [JobReference(l.job.name, l.job.namespace, l.actionName, now)]
  {
    assert forall i :: 0 <= i < |launches| ==> (launches + [l])[i] == launches[i];
  }

  /** The rule with the status an alert leaves it: triggered now, once more, with these jobs. */
  function Triggered(rule: AlertReaction, now: Time, x: Externals): AlertReaction
  {
    var refs := RefsOf(Launched(rule, rule.spec.actions, x), now);
    rule.(status := rule.status.(lastTriggered := Some(now), triggerCount := rule.status.triggerCount + 1, lastJobsCreated := refs))
  }

  /** What the store holds after the controller tried to write the triggered status of a matching rule. */
  function Stored(rule: AlertReaction, now: Time, x: Externals): AlertReaction
  {
    if x.statusOk(Triggered(rule, now, x)) then Triggered(rule, now, x) else rule
  }

  /**
   * The stored rules after an alert: matching rules take their triggered status when the write succeeds.
   * What this means for matching and non-matching rules is stated in `AlertChangesOnlyStatus`.
   */
  function AfterAlert(rules: seq<AlertReaction>, alertName: string, data: Payload, now: Time, x: Externals): (r: seq<AlertReaction>)
    ensures |r| == |rules|
  {
    seq(|rules|, i requires 0 <= i < |rules| =>
      if AlertMatches(rules[i], alertName, data, x.regex) then Stored(rules[i], now, x) else rules[i])
  }

  /** The rules with the statuses stored for the rules at `idxs` written. */
  function StoredAt(rules: seq<AlertReaction>, idxs: seq<nat>, now: Time, x: Externals): (r: seq<AlertReaction>)
    ensures |r| == |rules|
  {
    seq(|rules|, n requires 0 <= n < |rules| => if n in idxs then Stored(rules[n], now, x) else rules[n])
  }

  lemma StoredAtSnoc(rules: seq<AlertReaction>, idxs: seq<nat>, i: nat, now: Time, x: Externals)
    requires i < |rules| && i !in idxs
    ensures StoredAt(rules, idxs + [i], now, x) == StoredAt(rules, idxs, now, x)[i := Stored(rules[i], now, x)]
  {
  }

  /** Writing the statuses of exactly the matching rules is the effect of the alert on the store. */
  lemma StoredAtMatching(rules: seq<AlertReaction>, alertName: string, data: Payload, now: Time, x: Externals)
    ensures StoredAt(rules, MatchingIndices(rules, alertName, data, x.regex), now, x) == AfterAlert(rules, alertName, data, now, x)
  {
    MatchingIndicesExact(rules, alertName, data, x.regex);
  }

  /** Positions of the rules that match the alert, in list order. */
  function MatchingIndices(rules: seq<AlertReaction>, alertName: string, data: Payload, regex: RegexEngine): seq<nat>
    decreases |rules|
  {
    if rules == [] then []
    else
      MatchingIndices(rules[..|rules| - 1], alertName, data, regex)
      + (if AlertMatches(rules[|rules| - 1], alertName, data, regex) then [|rules| - 1] else [])
  }

  /** Positions below `n`, strictly increasing. */
  predicate IncreasingBelow(idxs: seq<nat>, n: nat)
  {
    && (forall k :: 0 <= k < |idxs| ==> idxs[k] < n)
    && (forall k, l :: 0 <= k < l < |idxs| ==> idxs[k] < idxs[l])
  }

  /** The matching positions are positions of `rules`, strictly increasing. */
  lemma {:induction false} MatchingIndicesOrdered(rules: seq<AlertReaction>, alertName: string, data: Payload, regex: RegexEngine)
    ensures IncreasingBelow(MatchingIndices(rules, alertName, data, regex), |rules|)
    decreases |rules|
  {
    if rules != [] {
      var last := |rules| - 1;
      var prev := MatchingIndices(rules[..last], alertName, data, regex);
      MatchingIndicesOrdered(rules[..last], alertName, data, regex);
      var idxs := prev + (if AlertMatches(rules[last], alertName, data, regex) then [last] else []);
      forall k, l | 0 <= k < l < |idxs| ensures idxs[k] < idxs[l] {
        assert idxs[k] == prev[k];
      }
    }
  }

  /** A position is a matching position exactly when its rule matches the alert. */
  lemma {:induction false} MatchingIndicesMembership(rules: seq<AlertReaction>, alertName: string, data: Payload, regex: RegexEngine)
    ensures forall i :: 0 <= i < |rules| ==>
      (i in MatchingIndices(rules, alertName, data, regex) <==> AlertMatches(rules[i], alertName, data, regex))
    decreases |rules|
  {
    if rules != [] {
      var last := |rules| - 1;
      var init := rules[..last];
      var prev := MatchingIndices(init, alertName, data, regex);
      MatchingIndicesMembership(init, alertName, data, regex);
      MatchingIndicesOrdered(init, alertName, data, regex);
      var idxs := prev + (if AlertMatches(rules[last], alertName, data, regex) then [last] else []);
      forall i | 0 <= i < |rules| ensures i in idxs <==> AlertMatches(rules[i], alertName, data, regex) {
        if i < last {
          assert rules[i] == init[i];
        } else {
          assert i !in prev;
        }
      }
    }
  }

  /** The matching positions are exactly the matching rules, strictly increasing. */
  lemma MatchingIndicesExact(rules: seq<AlertReaction>, alertName: string, data: Payload, regex: RegexEngine)
    ensures var idxs := MatchingIndices(rules, alertName, data, regex);
      && (forall k :: 0 <= k < |idxs| ==> idxs[k] < |rules|)
      && (forall i :: 0 <= i < |rules| ==> (i in idxs <==> AlertMatches(rules[i], alertName, data, regex)))
      && (forall k, l :: 0 <= k < l < |idxs| ==> idxs[k] < idxs[l])
      && (idxs == [] <==> forall i :: 0 <= i < |rules| ==> !AlertMatches(rules[i], alertName, data, regex))
  {
    var idxs := MatchingIndices(rules, alertName, data, regex);
    MatchingIndicesOrdered(rules, alertName, data, regex);
    MatchingIndicesMembership(rules, alertName, data, regex);
    if idxs != [] {
      assert idxs[0] in idxs;
    }
  }

  /** A prefix one longer is the prefix with the next element appended. */
  lemma PrefixSnoc<T>(s: seq<T>, k: nat)
    requires k < |s|
    ensures s[..k + 1] == s[..k] + [s[k]]
  {
  }

  /** Concatenation is associative. */
  lemma AppendAssoc<T>(a: seq<T>, b: seq<T>, c: seq<T>)
    ensures (a + b) + c == a + (b + c)
  {
  }

  /** Each matching position is a rule's, and met once only. */
  lemma MatchingIndexFresh(rules: seq<AlertReaction>, alertName: string, data: Payload, regex: RegexEngine, k: nat)
    requires k < |MatchingIndices(rules, alertName, data, regex)|
    ensures var idxs := MatchingIndices(rules, alertName, data, regex);
      idxs[k] < |rules| && idxs[k] !in idxs[..k]
  {
    MatchingIndicesExact(rules, alertName, data, regex);
  }

  /** The jobs launched for the rules at `idxs`, rule after rule; positions past the end contribute none. */
  function JobsAt(rules: seq<AlertReaction>, idxs: seq<nat>, x: Externals): (r: seq<Job>)
    ensures forall j :: j in r ==> x.accepts(j)
    decreases |idxs|
  {
    if idxs == [] then []
    else
      var i := idxs[|idxs| - 1];
      JobsAt(rules, idxs[..|idxs| - 1], x)
      + (if i < |rules| then JobsOf(Launched(rules[i], rules[i].spec.actions, x)) else [])
  }

  lemma JobsAtSnoc(rules: seq<AlertReaction>, idxs: seq<nat>, i: nat, x: Externals)
    requires i < |rules|
    ensures JobsAt(rules, idxs + [i], x) == JobsAt(rules, idxs, x) + JobsOf(Launched(rules[i], rules[i].spec.actions, x))
  {
    assert (idxs + [i])[..|idxs|] == idxs;
  }

  /** All jobs an alert launches: those of every matching rule, in list order. */
  function AlertJobs(rules: seq<AlertReaction>, alertName: string, data: Payload, x: Externals): (r: seq<Job>)
    ensures forall j :: j in r ==> x.accepts(j)
    ensures (forall i :: 0 <= i < |rules| ==> !AlertMatches(rules[i], alertName, data, x.regex)) ==> r == []
  {
    MatchingIndicesExact(rules, alertName, data, x.regex);
    JobsAt(rules, MatchingIndices(rules, alertName, data, x.regex), x)
  }

  /** Every job launched for `rule` was accepted, lives in the rule's namespace and is owned by the rule. */
  predicate LaunchesOwned(rule: AlertReaction, x: Externals)
  {
    forall l :: l in Launched(rule, rule.spec.actions, x) ==>
      x.accepts(l.job) && l.job.ownerReferences == [OwnerOf(rule)] && l.job.namespace == rule.namespace
  }

  /** The jobs a rule launches are its own. */
  lemma LaunchedOwned(rule: AlertReaction, data: Payload, now: Time, x: Externals)
    requires Synthesizes(x, data, now)
    ensures LaunchesOwned(rule, x)
  {
    LaunchedSound(rule, rule.spec.actions, x);
    forall l | l in Launched(rule, rule.spec.actions, x)
      ensures l.job.ownerReferences == [OwnerOf(rule)] && l.job.namespace == rule.namespace
    {
      var i :| 0 <= i < |rule.spec.actions| && x.build(rule, rule.spec.actions[i]) == Ok(l.job);
      SynthesizedJobOwned(rule, rule.spec.actions[i], data, now, x.marshal, x.lookup, x.parses);
    }
  }

  /** Every job at the given positions was accepted and is owned by, and lives beside, one of those rules. */
  lemma {:induction false} JobsAtOwned(rules: seq<AlertReaction>, idxs: seq<nat>, x: Externals)
    requires forall k :: 0 <= k < |idxs| ==> idxs[k] < |rules| && LaunchesOwned(rules[idxs[k]], x)
    ensures forall j :: j in JobsAt(rules, idxs, x) ==>
      x.accepts(j) && exists k :: 0 <= k < |idxs| && j.ownerReferences == [OwnerOf(rules[idxs[k]])] && j.namespace == rules[idxs[k]].namespace
    decreases |idxs|
  {
    if idxs != [] {
      var init := idxs[..|idxs| - 1];
      var last := |idxs| - 1;
      JobsAtOwned(rules, init, x);
      var rule := rules[idxs[last]];
      var launches := Launched(rule, rule.spec.actions, x);
      assert LaunchesOwned(rule, x);
      assert JobsAt(rules, idxs, x) == JobsAt(rules, init, x) + JobsOf(launches);
      forall j | j in JobsAt(rules, idxs, x)
        ensures x.accepts(j) && exists k :: 0 <= k < |idxs| && j.ownerReferences == [OwnerOf(rules[idxs[k]])] && j.namespace == rules[idxs[k]].namespace
      {
        if j in JobsAt(rules, init, x) {
          var k :| 0 <= k < |init| && j.ownerReferences == [OwnerOf(rules[init[k]])] && j.namespace == rules[init[k]].namespace;
          assert idxs[k] == init[k];
        } else {
          assert j in JobsOf(launches);
          var m :| 0 <= m < |launches| && JobsOf(launches)[m] == j;
          assert launches[m] in launches;
        }
      }
    }
  }

  /** Every job an alert launches belongs to a rule that matches the alert. */
  lemma AlertJobsOwnedByMatchingRules(rules: seq<AlertReaction>, alertName: string, data: Payload, now: Time, x: Externals)
    requires Synthesizes(x, data, now)
    ensures forall j :: j in AlertJobs(rules, alertName, data, x) ==>
      x.accepts(j) && exists i :: (0 <= i < |rules| && AlertMatches(rules[i], alertName, data, x.regex) &&
        j.ownerReferences == [OwnerOf(rules[i])] && j.namespace == rules[i].namespace)
  {
    var idxs := MatchingIndices(rules, alertName, data, x.regex);
    MatchingIndicesExact(rules, alertName, data, x.regex);
    forall k | 0 <= k < |idxs| ensures LaunchesOwned(rules[idxs[k]], x) {
      LaunchedOwned(rules[idxs[k]], data, now, x);
    }
    JobsAtOwned(rules, idxs, x);
    forall j | j in AlertJobs(rules, alertName, data, x)
      ensures exists i :: (0 <= i < |rules| && AlertMatches(rules[i], alertName, data, x.regex) &&
        j.ownerReferences == [OwnerOf(rules[i])] && j.namespace == rules[i].namespace)
    {
      var k :| 0 <= k < |idxs| && j.ownerReferences == [OwnerOf(rules[idxs[k]])] && j.namespace == rules[idxs[k]].namespace;
      assert idxs[k] in idxs;
    }
  }

  /**
   * An alert changes only statuses: each rule keeps its identity and spec,
   * a rule that does not match is untouched, and a rule's trigger count
   * grows by one exactly when it matched and its status was written, which
   * then records the time and one reference per launched job.
   */
  lemma AlertChangesOnlyStatus(rules: seq<AlertReaction>, alertName: string, data: Payload, now: Time, x: Externals, i: nat)
    requires Synthesizes(x, data, now)
    requires i < |rules|
    ensures var before := rules[i]; var after := AfterAlert(rules, alertName, data, now, x)[i];
      && after.(status := before.status) == before
      && (!AlertMatches(before, alertName, data, x.regex) ==> after == before)
      && (after.status.triggerCount == before.status.triggerCount + 1 <==>
            AlertMatches(before, alertName, data, x.regex) && x.statusOk(Triggered(before, now, x)))
      && (after.status.triggerCount != before.status.triggerCount + 1 ==> after == before)
      && (after != before ==>
            && after.status.lastTriggered == Some(now)
            && after.status.conditions == before.status.conditions
            && |after.status.lastJobsCreated| <= |before.spec.actions|
            && (forall k :: 0 <= k < |after.status.lastJobsCreated| ==>
                  after.status.lastJobsCreated[k].createdAt == now &&
                  after.status.lastJobsCreated[k].namespace == before.namespace))
  {
    var before := rules[i];
    LaunchedSound(before, before.spec.actions, x);
    LaunchedOwned(before, data, now, x);
    var launches := Launched(before, before.spec.actions, x);
    forall k | 0 <= k < |launches| ensures launches[k].job.namespace == before.namespace {
      assert launches[k] in launches;
    }
  }

  /** An alert no rule matches changes nothing and launches nothing. */
  lemma UnmatchedAlertIsIgnored(rules: seq<AlertReaction>, alertName: string, data: Payload, now: Time, x: Externals)
    requires forall i :: 0 <= i < |rules| ==> !AlertMatches(rules[i], alertName, data, x.regex)
    ensures AfterAlert(rules, alertName, data, now, x) == rules
    ensures AlertJobs(rules, alertName, data, x) == []
  {
    MatchingIndicesExact(rules, alertName, data, x.regex);
  }

  /** The condition `Reconcile` maintains. */
  function ReadyCondition(now: Time): Condition
  {
    Condition("Ready", "True", "AlertReactionReady", "AlertReaction is ready to process alerts", now)
  }

  /** The latest condition says the rule is ready. */
  predicate ReadyCurrent(conds: seq<Condition>)
  {
    |conds| > 0 && conds[|conds| - 1].conditionType == "Ready" && conds[|conds| - 1].status == "True"
  }

  /**
   * The conditions after reconciling: a Ready condition is appended unless
   * the latest one already is Ready and True.
   */
  function ReconciledConditions(conds: seq<Condition>, now: Time): (r: seq<Condition>)
    ensures ReadyCurrent(r)
    ensures r == conds <==> ReadyCurrent(conds)
    ensures r != conds ==> r == conds + [ReadyCondition(now)]
  {
    if |conds| == 0 then [ReadyCondition(now)]
    else
      var last := conds[|conds| - 1];
      if last.conditionType != "Ready" || last.status != "True" then conds + [ReadyCondition(now)] else conds
  }

  /** Reconciling again changes nothing. */
  lemma ReconcileIdempotent(conds: seq<Condition>, t1: Time, t2: Time)
    ensures ReconciledConditions(ReconciledConditions(conds, t1), t2) == ReconciledConditions(conds, t1)
  {
  }

  /** The position of the rule with this namespace and name, if any. */
  function Find(rules: seq<AlertReaction>, namespace: string, name: string): (r: Option<nat>)
    ensures r.Some? ==> r.value < |rules| && rules[r.value].namespace == namespace && rules[r.value].name == name
    ensures r.None? <==> forall i :: 0 <= i < |rules| ==> !(rules[i].namespace == namespace && rules[i].name == name)
    decreases |rules|
  {
    if rules == [] then None
    else if rules[0].namespace == namespace && rules[0].name == name then Some(0)
    else
      match Find(rules[1..], namespace, name)
      case None => None
      case Some(i) => Some(i + 1)
  }

  /** The first loop of `ProcessAlert`: the positions of the rules the alert matches. */
  method CollectMatching(rules: seq<AlertReaction>, alertName: string, data: Payload, regex: RegexEngine)
    returns (matching: seq<nat>)
    ensures matching == MatchingIndices(rules, alertName, data, regex)
  {
    matching := [];
    var i := 0;
    while i < |rules|
      invariant 0 <= i <= |rules|
      invariant matching == MatchingIndices(rules[..i], alertName, data, regex)
    {
      assert rules[..i + 1][..i] == rules[..i];
      if AlertMatches(rules[i], alertName, data, regex) {
        matching := matching + [i];
      }
      i := i + 1;
    }
    assert rules[..i] == rules;
  }

  /** The controller's view of the cluster: the stored rules and the jobs created so far. */
  class Reconciler {
    var rules: seq<AlertReaction>
    var jobs: seq<Job>

    constructor(rules: seq<AlertReaction>)
      ensures this.rules == rules && jobs == []
    {
      this.rules := rules;
      jobs := [];
    }

    /**
     * `Reconcile`: fetch the rule (a missing rule is not an error), append
     * a Ready condition unless the latest one already is Ready and True, and
     * write the status back only then.
     */
    method Reconcile(namespace: string, name: string, now: Time, statusOk: AlertReaction -> bool)
      returns (err: Option<ReconcileError>)
      modifies this
      ensures jobs == old(jobs)
      ensures Find(old(rules), namespace, name).None? ==> rules == old(rules) && err == None
      ensures Find(old(rules), namespace, name).Some? ==>
        var i := Find(old(rules), namespace, name).value;
        var rule := old(rules)[i];
        var written := rule.(status := rule.status.(conditions := ReconciledConditions(rule.status.conditions, now)));
        if ReadyCurrent(rule.status.conditions) then rules == old(rules) && err == None
        else if statusOk(written) then rules == old(rules)[i := written] && err == None
        else rules == old(rules) && err == Some(StatusUpdateFailed)
    {
      var found := Find(rules, namespace, name);
      if found.None? {
        return None;
      }
      var i := found.value;
      var rule := rules[i];
      var condition := ReadyCondition(now);
      var conditions := rule.status.conditions;
      var updated := false;
      if |conditions| == 0 {
        conditions := [condition];
        updated := true;
      } else {
        var last := conditions[|conditions| - 1];
        if last.conditionType != condition.conditionType || last.status != condition.status {
          conditions := conditions + [condition];
          updated := true;
        }
      }
      if updated {
        var written := rule.(status := rule.status.(conditions := conditions));
        if !statusOk(written) {
          return Some(StatusUpdateFailed);
        }
        rules := rules[i := written];
      }
      return None;
    }

    /**
     * The inner loop of `ProcessAlert`: create the job of each action of
     * `rule` in turn, recording a reference for every job the cluster accepts.
     */
    method LaunchActions(rule: AlertReaction, data: Payload, now: Time, x: Externals)
      returns (launches: seq<Launch>, jobRefs: seq<JobReference>)
      requires Synthesizes(x, data, now)
      modifies this
      ensures launches == Launched(rule, rule.spec.actions, x)
      ensures jobRefs == RefsOf(launches, now)
      ensures jobs == old(jobs) + JobsOf(launches)
      ensures rules == old(rules)
    {
      var actions := rule.spec.actions;
      launches := [];
      jobRefs := [];
      var a := 0;
      while a < |actions|
        invariant 0 <= a <= |actions|
        invariant launches == Launched(rule, actions[..a], x)
        invariant jobRefs == RefsOf(launches, now)
        invariant jobs == old(jobs) + JobsOf(launches)
        invariant rules == old(rules)
      {
        var launched := LaunchAction(rule, actions[a], data, now, x);
        PrefixSnoc(actions, a);
        LaunchedSnoc(rule, actions[..a], actions[a], x);
        if launched != [] {
          var l := launched[0];
          assert launched == [l];
          JobsOfSnoc(launches, l);
          RefsOfSnoc(launches, l, now);
          AppendAssoc(old(jobs), JobsOf(launches), [l.job]);
          jobRefs := jobRefs + [JobReference(l.job.name, l.job.namespace, l.actionName, now)];
          launches := launches + [l];
        }
        a := a + 1;
      }
      assert actions[..a] == actions;
    }

    /**
     * One step of `LaunchActions`: synthesise the job of `action` and ask the
     * cluster to create it; the launch is recorded only when both succeed.
     */
    method LaunchAction(rule: AlertReaction, action: Action, data: Payload, now: Time, x: Externals)
      returns (launched: seq<Launch>)
      requires Synthesizes(x, data, now)
      modifies this
      ensures launched == LaunchOf(rule, action, x)
      ensures jobs == old(jobs) + JobsOf(launched)
      ensures rules == old(rules)
    {
      var job := CreateJobFromAction(rule, action, data, now, x.marshal, x.lookup, x.parses);
      if job.Ok? && x.accepts(job.value) {
        launched := [Launch(action.name, job.value)];
        assert JobsOf(launched) == [job.value];
        jobs := jobs + [job.value];
      } else {
        launched := [];
      }
    }

    /**
     * The body of `ProcessAlert`'s second loop, for the matching rule stored
     * at `idx`: launch its actions' jobs, then try to write its triggered status.
     */
    method ProcessRule(idx: nat, rule: AlertReaction, data: Payload, now: Time, x: Externals)
      returns (launches: seq<Launch>)
      requires Synthesizes(x, data, now)
      requires idx < |rules| && rules[idx] == rule
      modifies this
      ensures launches == Launched(rule, rule.spec.actions, x)
      ensures jobs == old(jobs) + JobsOf(launches)
      ensures rules == old(rules)[idx := Stored(rule, now, x)]
    {
      var jobRefs;
      launches, jobRefs := LaunchActions(rule, data, now, x);
      var triggered := rule.(status := rule.status.(lastTriggered := Some(now),
                                                    triggerCount := rule.status.triggerCount + 1,
                                                    lastJobsCreated := jobRefs));
      assert triggered == Triggered(rule, now, x);
      if x.statusOk(triggered) {
        rules := rules[idx := triggered];
      }
    }

    /**
     * `ProcessAlert`: list the rules, keep those the alert matches, and for
     * each of them create a job per action (skipping actions whose job
     * cannot be built or is refused), then write its status: triggered now,
     * once more, with the references of the jobs created. A failed status
     * write leaves that rule's stored status as it was and processing goes on.
     */
    method ProcessAlert(alertName: string, data: Payload, now: Time, x: Externals, listOk: bool)
      returns (err: Option<ProcessError>)
      requires Synthesizes(x, data, now)
      modifies this
      ensures !listOk ==> err == Some(ListFailed) && rules == old(rules) && jobs == old(jobs)
      ensures listOk ==> err == None
      ensures listOk ==> rules == AfterAlert(old(rules), alertName, data, now, x)
      ensures listOk ==> jobs == old(jobs) + AlertJobs(old(rules), alertName, data, x)
    {
      if !listOk {
        return Some(ListFailed);
      }
      var snapshot := rules;

      var matching := CollectMatching(snapshot, alertName, data, x.regex);

      if |matching| == 0 {
        MatchingIndicesExact(snapshot, alertName, data, x.regex);
        UnmatchedAlertIsIgnored(snapshot, alertName, data, now, x);
        return None;
      }

      var k := 0;
      ghost var done: seq<nat> := [];
      ghost var expected: seq<Job> := [];
      while k < |matching|
        invariant 0 <= k <= |matching|
        invariant done == matching[..k]
        invariant |rules| == |snapshot|
        invariant expected == JobsAt(snapshot, done, x)
        invariant jobs == old(jobs) + expected
        invariant rules == StoredAt(snapshot, done, now, x)
      {
        MatchingIndexFresh(snapshot, alertName, data, x.regex, k);
        var idx := matching[k];
        var rule := snapshot[idx];
        StoredAtSnoc(snapshot, done, idx, now, x);
        JobsAtSnoc(snapshot, done, idx, x);
        var launches := ProcessRule(idx, rule, data, now, x);
        AppendAssoc(old(jobs), expected, JobsOf(launches));
        PrefixSnoc(matching, k);
        done := done + [idx];
        expected := expected + JobsOf(launches);
        k := k + 1;
      }
      assert done == matching;
      StoredAtMatching(snapshot, alertName, data, now, x);
      return None;
    }
  }
}
