# karo: alert reactions, modelled in Dafny

karo is a Kubernetes operator that turns Prometheus AlertManager alerts into
Kubernetes Jobs. An operator writes `AlertReaction` resources: the name of an
alert, optional matchers on the alert's attributes, a list of container
actions, and volumes shared by those actions. When AlertManager posts a
notification to the operator's webhook, every firing alert with an
`alertname` label is flattened into a map of alert data and handed to the
controller. The controller does the following:

- It finds the rules whose alert name and matchers accept the alert.
- For each action of such a rule, it synthesises one Job: a sanitised name,
  five labels, an owner reference to the rule, the resolved environment,
  the converted volumes and the mounts.
- It records the trigger time, the trigger count and references to the
  created jobs in the rule's status.

A separate reconcile step keeps a `Ready` condition on every rule.

This project models that core and proves its properties:

- `types.dfy` (`Types`): the resource types. `MatchOperator` is the schema's
  ten-value enum, `ExpectedValue` is how single-value operators read
  `values`, and `SourceCount` counts the sources of a volume.
- `wrappers.dfy`, `strings.dfy`, `payload.dfy`: `Option`/`Result`, Go's
  `strings.HasPrefix`/`Split` with `Join`, and the loosely typed alert data
  (`map[string]interface{}`) as a map to `Str`, `Map` or `Scalar` values.
  `Show` stands for `fmt.Sprintf("%v")`.
- `fields.dfy` (`Fields`):
  - `GetMatcherValue` is the matcher's resolver: the `annotations.` prefix,
    then labels before top-level fields.
  - `GetAlertFieldValue`/`GetNestedField` resolve an environment variable's
    field path: whole data, exact key, or a dotted walk through nested maps.
- `matching.dfy` (`Matching`): `EvaluateMatcher` and `AlertMatches`.
- `sanitize.dfy` (`Sanitize`): the job-name pipeline and the label-value
  sanitiser, both built from truncate, replace and strip.
  - The unix timestamp is rendered in decimal (`Decimal`).
  - `JobName` is `{rule}-{action}-{seconds}` through the job-name pipeline.
- `env.dfy` (`Env`): `processEnvVars` and `resolveEnvVarSource`.
  - A non-empty literal wins.
  - Otherwise the alert reference is tried, then the ConfigMap key, then
    the Secret key.
  - Optional references resolve to "".
  - The whole list is all or nothing.
- `volumes.dfy` (`Volumes`): `convertVolumes`, where the first source set
  wins and a volume without a source fails the list, and `convertVolumeMounts`.
- `jobs.dfy` (`Jobs`): `SynthesizeJob` is the job `createJobFromAction`
  builds. `CreateJobFromAction` is the imperative version and is proved
  equal to it.
- `controller.dfy` (`Controller`): class `Reconciler` holds the stored rules
  and the jobs created so far, and has these methods:
  - `ProcessAlert`, with its loops `CollectMatching`, `ProcessRule`,
    `LaunchActions` and `LaunchAction`;
  - `Reconcile`.

  Specification functions give the effect of an alert on the store
  (`AfterAlert`) and the jobs it launches (`AlertJobs`).
- `webhook.dfy` (`Webhook`):
  - `AlertToMap` and its specification `AlertMap`;
  - the firing/`alertname` filter of `handleWebhook` (`HandleWebhook`, `Forwarded`);
  - `GetWebhookURL` and `GetWebhookConfig`.

Code outside the model is a parameter:

- **The regular-expression engine** (`RegexEngine`: `None` for a pattern
  that does not compile).
- **The JSON encoder** (`marshal`).
- **ConfigMap/Secret reads** (`Lookup`: `None` when the object cannot be
  read).
- **Quantity validity** (`QuantityParser`).
- **Whether the cluster accepts a job or a status write** (`accepts`,
  `statusOk`, `listOk`).

The controller's `Externals` also carries `build`, the job synthesis for
the current alert. Every controller method and lemma that launches jobs
requires `Synthesizes(x, data, now)`: `build` is `SynthesizeJob` at this
alert's data and this clock reading. So the launch lemmas are stated over
`x.build`, and each conclusion about a built job's shape follows from the
`Jobs` lemmas.

Where the code disagrees with its own comments and declarations, the model
follows what the code does, reading it against the declared types:

- The schema admits ten operators
  (`api/v1alpha1/alertreaction_types.go:51-76`), but `evaluateMatcher`
  (`controllers/alertreaction_controller.go:186-199`) has cases only for
  `Equal`, `NotEqual` and two regex constants, which the model reads as
  `Regex` and `NotRegex` (see the next bullet). The other six fall
  to the default branch and never match.
- The regex cases of `evaluateMatcher` (lines 192 and 194) name
  `MatchOperatorRegexMatch` and `MatchOperatorRegexNotMatch`, constants the
  types file does not declare; it declares `MatchOperatorRegex` and
  `MatchOperatorNotRegex` (`api/v1alpha1/alertreaction_types.go:73-75`). The
  model reads the two cases as `Regex` and `NotRegex`. The matcher tests
  (`controllers/matcher_test.go:48-252`) write operators as `=`, `!=`, `=~`
  and `!~` with a `Value` field; those spellings are outside the schema's
  enum, and `ParseOperator` rejects them. The controller and its tests were
  evidently written against another version of the types, and as given they
  do not compile together; the model follows the declared types.
- An invalid pattern is no match (`controllers/alertreaction_controller.go:231-238`),
  so `NotRegex` with an invalid pattern matches.
- `evaluateMatcher` compares against `matcher.Value`, a field the
  `AlertMatcher` type does not declare; the type's comment
  (`api/v1alpha1/alertreaction_types.go:45-47`) says single-value operators
  use the first of `Values`, and the model reads that (`ExpectedValue`).
- The comment at `controllers/alertreaction_controller.go:241` calls the job
  name "RFC 1123 compliant", but the character class at line 248 lets runs
  such as `..` or `.-` through. A rule named `x..y` gives a job name with an
  empty label between the dots, which is not a valid RFC 1123 subdomain. The
  model's `ValidName` is what the code guarantees: `[a-z0-9.-]`, empty or alphanumeric
  at both ends, at most 63 characters.
- The comments "Truncate to 63 chars" (lines 252 and 295) stand after the
  stripping, but the truncation happens before lowering and replacing
  (lines 244-246 and 288-290). The model truncates first, as the code does;
  the result is still at most 63 characters, since stripping only shortens.
- The job name is `{rule}-{action}-{unix seconds}` (line 242) with no random
  part, so the second is its only disambiguator.

## Model

| member | source | states |
|---|---|---|
| Types.ParseOperator | api/v1alpha1/alertreaction_types.go:51-76 | an admitted spelling is the name of the operator it parses to |
| Types.ParseOperatorName | api/v1alpha1/alertreaction_types.go:51-76 | every one of the ten operators is admitted under its own spelling (round trip), so the spellings are distinct |
| Types.SingleValueOperatorsUseExpected | api/v1alpha1/alertreaction_types.go:45-48 | for a single-value operator with values, the one value used is the expected value |
| Types.SourceCount | api/v1alpha1/alertreaction_types.go:205-220 | a volume sets at most five sources, and none exactly when all five pointers are nil |
| Payload.Show | controllers/alertreaction_controller.go:435-439 | a string value renders as itself |
| Fields.AnnotationNamesReadOnlyAnnotations | controllers/alertreaction_controller.go:205-213 | an `annotations.` name resolves from the `annotations` map alone: data that agree on it give the same value |
| Fields.LabelsBeforeTopLevel | controllers/alertreaction_controller.go:215-220 | a label of that name wins over any top-level field |
| Fields.TopLevelFallback | controllers/alertreaction_controller.go:222-227 | without such a label the top-level field decides, and a name found nowhere is an error |
| Fields.GetMatcherValue | controllers/alertreaction_controller.go:203-228 | an `annotations.` name resolves exactly when the annotations map holds the rest of the name; any other name resolves exactly when it is a label or a top-level key |
| Fields.DescendCons | controllers/alertreaction_controller.go:461-470 | descending through a path is one step into a nested map followed by the rest of the path |
| Fields.Walk | controllers/alertreaction_controller.go:442-474 | a walk that fails because a piece is not a map names a piece before the last; a missing field is the whole path or such a piece |
| Fields.WalkSucceedsIff | controllers/alertreaction_controller.go:449-473 | the walk succeeds exactly when the path's prefix leads through nested maps to a map holding the last piece, and it then shows that value |
| Fields.GetNestedField | controllers/alertreaction_controller.go:442-474 | the loop over the dot-separated pieces returns the walk's result |
| Fields.GetAlertFieldValue | controllers/alertreaction_controller.go:416-440 | "" and "." give the JSON of the whole data; an exact key gives its value |
| Fields.FieldValueResolvesIff | controllers/alertreaction_controller.go:416-474 | a field path resolves exactly when it is ""/".", a key, or a nested path to an existing key |
| Fields.NestedSectionLookup | controllers/alertreaction_controller.go:428-474 | `section.key` with no flat entry finds `key` inside the nested `section` map |
| Strings.Split | controllers/alertreaction_controller.go:446 | `strings.Split` yields at least one piece and no piece holds the separator |
| Strings.JoinSplit | controllers/alertreaction_controller.go:446 | joining the pieces with the separator gives back the string |
| Strings.SplitJoin | controllers/alertreaction_controller.go:446 | splitting a join of separator-free pieces gives back the pieces |
| Strings.SplitNoSep | controllers/alertreaction_controller.go:446 | a string without the separator splits into itself |
| Strings.SplitPrefix | controllers/alertreaction_controller.go:446 | a separator-free head followed by the separator splits off as the first piece |
| Matching.RegexMatch | controllers/alertreaction_controller.go:231-238 | a match holds exactly when the pattern compiles and matches; an invalid pattern is no match |
| Matching.EvaluateMatcher | controllers/alertreaction_controller.go:178-200 | an unresolved attribute never matches and the six unevaluated operators never match; on a resolved attribute Equal holds exactly when the value is the expected value, and Regex exactly when the pattern compiles and matches it |
| Matching.EqualNegatesNotEqual | controllers/alertreaction_controller.go:188-191 | on a resolved attribute, NotEqual is the negation of Equal |
| Matching.RegexNegatesNotRegex | controllers/alertreaction_controller.go:192-195 | on a resolved attribute, NotRegex is the negation of Regex |
| Matching.InvalidPatternFlipsNotRegex | controllers/alertreaction_controller.go:231-238 | an invalid pattern makes Regex fail and NotRegex succeed |
| Matching.EvaluateMatcherReadsUsedValues | api/v1alpha1/alertreaction_types.go:45-48 | two matchers with the same name and operator that consult the same values (the first value for the single-value operators) give the same verdict on any alert |
| Matching.AllMatch | controllers/alertreaction_controller.go:168-174 | the loop accepts exactly when every matcher accepts |
| Matching.AlertMatches | controllers/alertreaction_controller.go:156-175 | a rule matches exactly when its alert name is the alert's and every matcher accepts; with no matchers the name alone decides |
| Matching.MatcherOrderIrrelevant | controllers/alertreaction_controller.go:168-174 | reordering a rule's matchers does not change whether it matches |
| Sanitize.LowerChar | controllers/alertreaction_controller.go:247 | an upper-case letter becomes the lower-case letter 32 code points above it; every other character is kept; no upper-case letter comes out |
| Sanitize.ToLower | controllers/alertreaction_controller.go:247 | lower-casing keeps the length, maps each character on its own, and leaves no upper-case letter |
| Sanitize.ToLowerFixedPoints | controllers/alertreaction_controller.go:247 | a string is left unchanged exactly when it holds no upper-case letter, so lower-casing twice is lower-casing once |
| Sanitize.Truncate | controllers/alertreaction_controller.go:244-246 | the result is the prefix of at most n characters: the whole string when it fits, exactly n characters when it does not |
| Sanitize.Replace | controllers/alertreaction_controller.go:248 | replacement keeps the length, substitutes each character on its own, yields only allowed characters, and leaves a string of allowed characters unchanged |
| Sanitize.LeadingRun | controllers/alertreaction_controller.go:250 | the stripped leading run is the longest prefix without an alphanumeric character |
| Sanitize.TrailingRun | controllers/alertreaction_controller.go:251 | the stripped trailing run is the longest suffix without an alphanumeric character |
| Sanitize.CleanWellFormed | controllers/alertreaction_controller.go:248-251 | replace-then-strip yields only allowed characters, alphanumeric at both ends, and never grows |
| Sanitize.CleanFixesClean | controllers/alertreaction_controller.go:248-251 | an already clean string is left unchanged |
| Sanitize.CleanWindow | controllers/alertreaction_controller.go:248-251 | the result is one contiguous window of the replaced input, and everything stripped is non-alphanumeric |
| Sanitize.SanitizeNameValid | controllers/alertreaction_controller.go:241-253 | the job-name pipeline always yields at most 63 characters of `[a-z0-9.-]`, alphanumeric at both ends |
| Sanitize.SanitizeNameFixesValid | controllers/alertreaction_controller.go:241-253 | a valid name passes through unchanged |
| Sanitize.SanitizeNameFixedPoints | controllers/alertreaction_controller.go:241-253 | a string is left unchanged exactly when it is a valid name |
| Sanitize.SanitizeNameIdempotent | controllers/alertreaction_controller.go:241-253 | sanitising twice is sanitising once |
| Sanitize.SanitizeNameWindow | controllers/alertreaction_controller.go:241-253 | the name is a window of the first 63 characters, lower-cased and replaced, and what lies outside the window is not alphanumeric |
| Sanitize.SanitizeName | controllers/alertreaction_controller.go:241-253 | the job-name pipeline yields a valid name no longer than 63 characters nor than its input |
| Sanitize.SanitizeLabelValueValid | controllers/alertreaction_controller.go:285-297 | the label sanitiser always yields at most 63 characters of `[A-Za-z0-9_.-]`, alphanumeric at both ends |
| Sanitize.SanitizeLabelValueFixesValid | controllers/alertreaction_controller.go:285-297 | a valid label value passes through unchanged |
| Sanitize.SanitizeLabelValueFixedPoints | controllers/alertreaction_controller.go:285-297 | a string is left unchanged exactly when it is a valid label value |
| Sanitize.SanitizeLabelValueIdempotent | controllers/alertreaction_controller.go:285-297 | sanitising twice is sanitising once |
| Sanitize.SanitizeLabelValueWindow | controllers/alertreaction_controller.go:285-297 | the value is a window of the first 63 characters with substitutions, and what lies outside the window is not alphanumeric |
| Sanitize.SanitizeLabelValue | controllers/alertreaction_controller.go:285-297 | the label sanitiser yields a valid label value no longer than 63 characters nor than its input |
| Sanitize.Decimal | controllers/alertreaction_controller.go:242 | `%d` of the unix seconds is a non-empty run of digits |
| Sanitize.DecimalRoundTrip | controllers/alertreaction_controller.go:242 | reading the decimal rendering back gives the number |
| Sanitize.DecimalInjective | controllers/alertreaction_controller.go:242 | different seconds render differently |
| Sanitize.JobName | controllers/alertreaction_controller.go:241-253 | every job name `{rule}-{action}-{seconds}` comes out of the pipeline as a valid name |
| Sanitize.LongJobNamesIgnoreTime | controllers/alertreaction_controller.go:242-246 | when `{rule}-{action}-` fills 63 characters, truncation cuts the timestamp and the name no longer depends on the time |
| Sanitize.JobNameEndsWithTime | controllers/alertreaction_controller.go:241-253 | when the whole name fits, it is the cleaned stem followed by the unchanged timestamp |
| Sanitize.JobNamesDifferAcrossSeconds | controllers/alertreaction_controller.go:241-253 | when the names fit, jobs of the same action made in different seconds get different names |
| Env.KeyRef | controllers/alertreaction_controller.go:375-411 | a present key gives its value; a missing object or key gives "" when optional and an error naming the object or key otherwise |
| Env.ResolveEnvVarSource | controllers/alertreaction_controller.go:370-414 | no source set is an error; an alert reference gives the field value or wraps its error; otherwise the ConfigMap key reference, then the Secret key reference, decides the value |
| Env.SourcePrecedence | controllers/alertreaction_controller.go:370-414 | a set alert reference hides both key references, and a set ConfigMap reference hides the Secret one |
| Env.ResolveEnvVar | controllers/alertreaction_controller.go:348-365 | a non-empty literal wins, no value and no source give "", and a source gives its resolved value or an error naming the variable |
| Env.ResolvedEnv | controllers/alertreaction_controller.go:345-368 | a resolved environment has one entry per variable with its name, in order; a failure names one of the variables |
| Env.ResolvedEnvAllOrNothing | controllers/alertreaction_controller.go:345-368 | the environment resolves exactly when every variable does, one entry per variable in order |
| Env.ResolvedEnvFirstFailure | controllers/alertreaction_controller.go:345-368 | a failure is the error of the first variable that fails, and all variables before it resolve |
| Env.ResolvedEnvFailureSticks | controllers/alertreaction_controller.go:345-368 | once a prefix of the list fails, the variables after it do not matter |
| Env.ProcessEnvVars | controllers/alertreaction_controller.go:345-368 | the loop returns the resolved environment, stopping at the first failure |
| Volumes.ConvertVolume | controllers/alertreaction_controller.go:480-527 | a volume fails exactly when it sets no source; the first set source, in the order ConfigMap, Secret, EmptyDir, PVC, HostPath, is converted with its fields copied (a HostPath type is nil exactly when it is ""), and the name is kept |
| Volumes.EmptyDirSizeLimit | controllers/alertreaction_controller.go:500-510 | an EmptyDir keeps its medium, and its size limit exactly when it is set and parses |
| Volumes.ConvertedVolumesAllOrNothing | controllers/alertreaction_controller.go:477-533 | the conversion succeeds exactly when every volume has a source, keeping length, order and names |
| Volumes.ConvertedVolumesFirstFailure | controllers/alertreaction_controller.go:477-533 | a failure names the first volume without a source, and all volumes before it have one |
| Volumes.ConvertedVolumesFailureSticks | controllers/alertreaction_controller.go:477-533 | once a prefix fails, the later volumes do not matter |
| Volumes.ConvertedVolumes | controllers/alertreaction_controller.go:477-533 | a conversion keeps length and names; a failure names one of the volumes as having no source |
| Volumes.ConvertVolumes | controllers/alertreaction_controller.go:477-533 | the loop returns the conversion of the list |
| Volumes.ConvertVolumeMounts | controllers/alertreaction_controller.go:536-550 | one mount per mount, in order, with name, path, sub-path and read-only flag copied |
| Jobs.SynthesizeJob | controllers/alertreaction_controller.go:240-343 | a job is built exactly when the environment and the volumes resolve; an environment failure is reported before a volume failure |
| Jobs.JobLabelsValid | controllers/alertreaction_controller.go:285-309 | a job has exactly the five labels: the two fixed values and the sanitised alert name, action name and rule name, all valid label values |
| Jobs.FixedLabelValuesValid | controllers/alertreaction_controller.go:304-305 | the two fixed label values are valid label values |
| Jobs.SynthesizedJobWellFormed | controllers/alertreaction_controller.go:299-340 | a built job has a valid name from the rule, the action and the time; the rule's namespace, labels and owner; TTL 300; no restarts; one `action` container with the action's image, command, arguments, resolved environment, resources, and one mount per action mount with its fields copied |
| Jobs.SynthesizedJobOwned | controllers/alertreaction_controller.go:301-317 | a built job lives in its rule's namespace and has the rule as its only owner |
| Jobs.ValidSpecMountsResolve | api/v1alpha1/alertreaction_types.go:90-91 | for a rule that meets the resource's documented requirements (at least one action, enforced by the schema at types.go:90-91; every mount naming a rule volume, asked for only in the comments at types.go:122-123 and 275), each mount of a built job names a volume of that job |
| Jobs.JobNameNonEmpty | controllers/alertreaction_controller.go:241-253 | a rule name starting with a lower-case letter or digit gives a non-empty job name |
| Jobs.CopyQuantities | controllers/alertreaction_controller.go:267-272 | the loop over a resource map copies it entry for entry |
| Jobs.CreateJobFromAction | controllers/alertreaction_controller.go:240-343 | the step-by-step construction returns exactly the synthesised job or its error |
| Controller.LaunchedAppend | controllers/alertreaction_controller.go:117-139 | the launches of two action lists in a row are those of each, in order |
| Controller.LaunchedSound | controllers/alertreaction_controller.go:117-139 | each launch comes from an action of the rule, with that action's name, its built job, accepted by the cluster; there are no more launches than actions |
| Controller.LaunchedComplete | controllers/alertreaction_controller.go:117-139 | every action whose job is built and accepted is launched |
| Controller.StoredAtMatching | controllers/alertreaction_controller.go:93-150 | writing the statuses of exactly the matching rules is the alert's effect on the store |
| Controller.AfterAlert | controllers/alertreaction_controller.go:93-150 | the alert keeps the number of stored rules |
| Controller.AlertJobs | controllers/alertreaction_controller.go:112-139 | every job an alert creates was accepted by the cluster, and an alert no rule matches creates none |
| Controller.MatchingIndicesOrdered | controllers/alertreaction_controller.go:93-100 | the matching positions are in range and strictly increasing |
| Controller.MatchingIndicesMembership | controllers/alertreaction_controller.go:93-100 | a position is collected exactly when its rule matches the alert |
| Controller.MatchingIndicesExact | controllers/alertreaction_controller.go:93-105 | the collected positions are exactly the matching rules, in order, and none are collected exactly when no rule matches |
| Controller.AlertJobsOwnedByMatchingRules | controllers/alertreaction_controller.go:112-139 | every job an alert creates was accepted, and it is owned by and lives beside a rule that matches the alert |
| Controller.AlertChangesOnlyStatus | controllers/alertreaction_controller.go:140-150 | an alert changes only statuses, and leaves non-matching rules untouched. The trigger count grows by one exactly when the rule matched and its status write succeeded. A changed status records now as the trigger time, keeps the conditions, and holds at most one reference per action, each stamped now in the rule's namespace |
| Controller.UnmatchedAlertIsIgnored | controllers/alertreaction_controller.go:102-105 | an alert no rule matches changes nothing and creates no job |
| Controller.ReconciledConditions | controllers/alertreaction_controller.go:60-71 | afterwards the latest condition is Ready/True; the list is unchanged exactly when it already was, and otherwise one Ready condition is appended |
| Controller.ReconcileIdempotent | controllers/alertreaction_controller.go:60-71 | reconciling again changes nothing |
| Controller.Find | controllers/alertreaction_controller.go:42-46 | the rule found has the requested namespace and name, and none is found exactly when no rule has them |
| Controller.CollectMatching | controllers/alertreaction_controller.go:93-100 | the first loop of `ProcessAlert` collects the matching positions |
| Controller.Reconciler.Reconcile | controllers/alertreaction_controller.go:38-80 | a missing rule is no error. Otherwise a Ready condition is appended unless the latest one is Ready/True, and the status is written only then; a failed write is reported and changes nothing. Jobs are untouched |
| Controller.Reconciler.LaunchActions | controllers/alertreaction_controller.go:116-139 | the action loop launches exactly `Launched`, records one reference per launched job stamped now, and appends their jobs |
| Controller.Reconciler.LaunchAction | controllers/alertreaction_controller.go:117-138 | one action adds its job exactly when it is built and accepted |
| Controller.Reconciler.ProcessRule | controllers/alertreaction_controller.go:112-150 | a matching rule gets its triggered status written (or kept, when the write fails) and its launches appended |
| Controller.Reconciler.ProcessAlert | controllers/alertreaction_controller.go:84-153 | a failed list is an error that changes nothing. Otherwise the store becomes `AfterAlert`, the jobs grow by `AlertJobs`, and no error is returned |
| Webhook.AlertMapTopLevel | webhook/server.go:143-148 | status, start, end, generator URL and fingerprint are copied verbatim |
| Webhook.AlertMapLabels | webhook/server.go:150-159 | every label k→v is stored both in the nested `labels` map and under `labels.k` |
| Webhook.AlertMapAnnotations | webhook/server.go:161-170 | every annotation k→v is stored both in the nested `annotations` map and under `annotations.k` |
| Webhook.AlertMapNilSections | webhook/server.go:150-170 | a nil labels or annotations map leaves no entry of that name |
| Webhook.MatcherSeesLabel | webhook/server.go:150-159 | a matcher naming a label (without the `annotations.` prefix) compares that label's value |
| Webhook.MatcherSeesAnnotation | webhook/server.go:161-170 | a matcher naming `annotations.k` compares that annotation's value |
| Webhook.FieldPathSeesLabel | webhook/server.go:155-156 | an environment reference `labels.k` resolves to the label's value |
| Webhook.CopyEntries | webhook/server.go:153-157 | the loop over a map, in any key order, builds its nested copy and adds exactly its flat entries |
| Webhook.AlertMap | webhook/server.go:139-173 | the alert data holds only the top-level fields, `labels`, `annotations`, and keys `labels.k` or `annotations.k` |
| Webhook.FillSection | webhook/server.go:151-159 | one section writes the flat entries and then the nested map under its name |
| Webhook.AlertToMap | webhook/server.go:139-173 | the conversion returns the specified alert data |
| Webhook.ForwardedAppend | webhook/server.go:111-134 | the alerts of two lists in a row are handed on list by list, in order |
| Webhook.ForwardedSound | webhook/server.go:111-128 | every call to the controller is for a firing alert with an alert name, carrying its name and its alert data |
| Webhook.ForwardedComplete | webhook/server.go:111-128 | every firing alert with an alert name is handed on |
| Webhook.Forwarded | webhook/server.go:111-134 | no more calls than alerts, each with a non-empty alert name |
| Webhook.ForwardableIff | webhook/server.go:112-121 | an alert is handed on exactly when it is firing and has a non-empty `alertname` label |
| Webhook.NothingForwardable | webhook/server.go:111-121 | a notification of resolved or unnamed alerts reaches the controller not at all |
| Webhook.HandleWebhook | webhook/server.go:99-137 | the alert loop makes exactly the calls `Forwarded` lists, in order, and a failure of one call does not stop it |
| Webhook.DefaultIsLocalhost | webhook/server.go:176-181 | an empty base is the same as naming the local server on the port |
| Webhook.GetWebhookConfig | webhook/server.go:184-207 | the configuration starts with the fixed route and receiver preamble |
| Webhook.ConfigNamesWebhookURL | webhook/server.go:184-207 | the configuration contains the quoted `url` entry holding `GetWebhookURL`'s address |

## Left out

- Kubernetes client calls become parameters: `r.Get`, `r.List`, `r.Create` and status updates. Only their success or failure is modelled, and a `Get` error other than "not found" is not told apart.
- The gin server, its routing, JSON binding and HTTP responses are not modelled. `Start`, `SetupWithManager` and `main.go` are I/O plumbing and are not modelled either.
- The regular-expression engine, the JSON encoder and Kubernetes quantity parsing are parameters. Quantities stay strings, so `parseQuantity`'s `MustParse` panic on a malformed limit or request is not modelled.
- Payload.Show: `%v` of a nested map renders as a fixed placeholder rather than Go's sorted `map[k:v]` text.
- Sanitize.ToLower: characters are taken to be ASCII. Unicode case folding and byte-length truncation of multi-byte text are not modelled.
- Controller.Reconciler.ProcessAlert: the clock is one reading `now` per alert. The code reads `time.Now()` again in every `createJobFromAction`, so jobs of one alert could differ in their second.
- Controller.Triggered: `TriggerCount` is an unbounded integer; int64 overflow is not modelled.
- The alert's `startsAt` and `endsAt` are carried already rendered in RFC 3339, so the formatting is not modelled.
- Go's map iteration order in `alertToMap` and in the resource copy is modelled as an arbitrary choice of the next key.
- Webhook.HandleWebhook: the outcome of each `ProcessAlert` call is not modelled, because the handler only logs it. The returned list is the sequence of calls made.
- Of a notification, only the receiver, the status and the alerts are kept. The other fields (version, group key, common labels and so on) are never read by the handler.
- Concurrent webhook requests and reconciles are not modelled. Each operation runs alone against the store.
- Logging is not modelled.
- Fields.GetAlertFieldValue: the JSON encoder `marshal` is total, so the error return of `json.Marshal` (controllers/alertreaction_controller.go:422-425) is not modelled; it cannot fail on the string-and-map data the webhook builds.
- Controller.Reconciler.LaunchAction: whether the cluster accepts a job is a fixed predicate `accepts` of the job alone. Kubernetes refuses a Create whose name is already taken (two identical actions in the same second), and that dependence on the jobs already created is not modelled, so the model may record a reference where the second Create would fail.
