/**
 * The AlertManager webhook receiver: which alerts of a notification reach
 * the controller, the flat alert data built for each of them, and the
 * webhook address and example AlertManager configuration the server prints.
 */
module Webhook {
  import opened Wrappers
  import opened Strings
  import opened Payload
  import opened Fields

  /**
   * One alert of a notification. A nil Go map is `None`; the two instants
   * are carried already rendered in RFC 3339.
   */
  datatype Alert = Alert(
    status: string,
    labels: Option<map<string, string>>,
    annotations: Option<map<string, string>>,
    startsAt: string,
    endsAt: string,
    generatorURL: string,
    fingerprint: string)

  /** The fields of an AlertManager notification that the receiver reads. */
  datatype AlertManagerWebhook = AlertManagerWebhook(receiver: string, status: string, alerts: seq<Alert>)

  /** One call of the controller's `ProcessAlert` made by the handler. */
  datatype Forward = Forward(alertName: string, alertData: Payload)

  // ---------------------------------------------------------------------
  // The alert data (`alertToMap`)
  // ---------------------------------------------------------------------

  /** A string map as a nested map of the alert data. */
  function Nested(m: map<string, string>): (r: map<string, Value>)
    ensures r.Keys == m.Keys
    ensures forall k :: k in m ==> r[k] == Str(m[k])
  {
    map k | k in m :: Str(m[k])
  }

  /** The flat entries `prefix + k` the receiver adds beside a nested map. */
  function Flattened(prefix: string, m: map<string, string>): map<string, Value>
  {
    PrefixCancels(prefix);
    map k | k in m :: prefix + k := Str(m[k])
  }

  /** Distinct names stay distinct under a common prefix. */
  lemma PrefixCancels(prefix: string)
    ensures forall j, k :: prefix + j == prefix + k ==> j == k
  {
    forall j, k | prefix + j == prefix + k
      ensures j == k
    {
      assert j == (prefix + j)[|prefix|..];
      assert k == (prefix + k)[|prefix|..];
    }
  }

  /** The five top-level fields. */
  function TopLevel(alert: Alert): Payload
  {
    map["status" := Str(alert.status),
        "startsAt" := Str(alert.startsAt),
        "endsAt" := Str(alert.endsAt),
        "generatorURL" := Str(alert.generatorURL),
        "fingerprint" := Str(alert.fingerprint)]
  }

  /** `base` after the entries of one string map, under `name`, were written into it. */
  function WithSection(base: Payload, name: string, m: Option<map<string, string>>): Payload
  {
    if m.None? then base
    else (base + Flattened(name + ".", m.value))[name := Map(Nested(m.value))]
  }

  /**
   * The alert data handed to the controller for `alert`: it holds nothing
   * but the five top-level fields, the two sections and their flat entries.
   */
  function AlertMap(alert: Alert): (r: Payload)
    ensures forall key :: key in r ==>
      || key in TopLevel(alert)
      || key == "labels" || HasPrefix(key, "labels.")
      || key == "annotations" || HasPrefix(key, "annotations.")
  {
    var labelled := WithSection(TopLevel(alert), "labels", alert.labels);
    SectionKeys(TopLevel(alert), "labels", alert.labels);
    SectionKeys(labelled, "annotations", alert.annotations);
    WithSection(labelled, "annotations", alert.annotations)
  }

  /** Writing a section adds no key but its name and keys under its prefix. */
  lemma SectionKeys(base: Payload, name: string, m: Option<map<string, string>>)
    ensures forall key :: key in WithSection(base, name, m) ==> key in base || key == name || HasPrefix(key, name + ".")
  {
    forall key | key in WithSection(base, name, m) && key !in base && key != name
      ensures HasPrefix(key, name + ".")
    {
      FlattenedKeysPrefixed(name + ".", m.value, key);
    }
  }

  /** `prefix + k` identifies `k`. */
  lemma FlattenedKey(prefix: string, m: map<string, string>, k: string)
    ensures prefix + k in Flattened(prefix, m) <==> k in m
    ensures k in m ==> Flattened(prefix, m)[prefix + k] == Str(m[k])
  {
    if prefix + k in Flattened(prefix, m) {
      var j :| j in m && prefix + j == prefix + k;
      assert j == (prefix + j)[|prefix|..];
    }
  }

  /** Every key of a section starts with its name. */
  lemma FlattenedKeysPrefixed(prefix: string, m: map<string, string>, key: string)
    requires key in Flattened(prefix, m)
    ensures HasPrefix(key, prefix)
  {
    var j :| j in m && prefix + j == key;
    assert key[..|prefix|] == prefix;
  }

  /** Writing a section leaves every key outside it alone. */
  lemma SectionKeepsOthers(base: Payload, name: string, m: Option<map<string, string>>, key: string)
    requires key != name && !HasPrefix(key, name + ".")
    ensures key in WithSection(base, name, m) <==> key in base
    ensures key in base ==> WithSection(base, name, m)[key] == base[key]
  {
    if m.Some? && key in Flattened(name + ".", m.value) {
      FlattenedKeysPrefixed(name + ".", m.value, key);
    }
  }

  /** Inside its section, a string map's entries are found both nested and flat. */
  lemma SectionHolds(base: Payload, name: string, m: map<string, string>, k: string)
    requires k in m
    ensures SubMap(WithSection(base, name, Some(m)), name) == Some(Nested(m))
    ensures name + "." + k in WithSection(base, name, Some(m))
    ensures WithSection(base, name, Some(m))[name + "." + k] == Str(m[k])
  {
    FlattenedKey(name + ".", m, k);
    assert name + "." + k != name by {
      assert |name + "." + k| > |name|;
    }
  }

  /** The status, the instants, the generator URL and the fingerprint are copied verbatim. */
  lemma AlertMapTopLevel(alert: Alert)
    ensures AlertMap(alert)["status"] == Str(alert.status)
    ensures AlertMap(alert)["startsAt"] == Str(alert.startsAt)
    ensures AlertMap(alert)["endsAt"] == Str(alert.endsAt)
    ensures AlertMap(alert)["generatorURL"] == Str(alert.generatorURL)
    ensures AlertMap(alert)["fingerprint"] == Str(alert.fingerprint)
  {
    var top := TopLevel(alert);
    var mid := WithSection(top, "labels", alert.labels);
    var keys := ["status", "startsAt", "endsAt", "generatorURL", "fingerprint"];
    forall key | key in keys
      ensures key in AlertMap(alert) && AlertMap(alert)[key] == top[key]
    {
      assert key[0] != 'l' && key[0] != 'a';
      SectionKeepsOthers(top, "labels", alert.labels, key);
      SectionKeepsOthers(mid, "annotations", alert.annotations, key);
    }
  }

  /** Every label is stored in the nested `labels` map and under `labels.<name>`. */
  lemma AlertMapLabels(alert: Alert, k: string)
    requires alert.labels.Some? && k in alert.labels.value
    ensures SubMap(AlertMap(alert), "labels") == Some(Nested(alert.labels.value))
    ensures "labels." + k in AlertMap(alert) && AlertMap(alert)["labels." + k] == Str(alert.labels.value[k])
  {
    var mid := WithSection(TopLevel(alert), "labels", alert.labels);
    var key := "labels." + k;
    SectionHolds(TopLevel(alert), "labels", alert.labels.value, k);
    assert "labels" + "." + k == key;
    OutsideAnnotations("labels");
    OutsideAnnotations(key);
    SectionKeepsOthers(mid, "annotations", alert.annotations, "labels");
    SectionKeepsOthers(mid, "annotations", alert.annotations, key);
  }

  /** A key starting with `l` is not written by the annotations section. */
  lemma OutsideAnnotations(key: string)
    requires |key| > 0 && key[0] == 'l'
    ensures key != "annotations" && !HasPrefix(key, "annotations" + ".")
  {
  }

  /** Every annotation is stored in the nested `annotations` map and under `annotations.<name>`. */
  lemma AlertMapAnnotations(alert: Alert, k: string)
    requires alert.annotations.Some? && k in alert.annotations.value
    ensures SubMap(AlertMap(alert), "annotations") == Some(Nested(alert.annotations.value))
    ensures "annotations." + k in AlertMap(alert) && AlertMap(alert)["annotations." + k] == Str(alert.annotations.value[k])
  {
    var mid := WithSection(TopLevel(alert), "labels", alert.labels);
    SectionHolds(mid, "annotations", alert.annotations.value, k);
    assert "annotations" + "." + k == "annotations." + k;
  }

  /** A nil labels or annotations map leaves no entry of that name. */
  lemma AlertMapNilSections(alert: Alert)
    ensures alert.labels.None? ==> "labels" !in AlertMap(alert)
    ensures alert.annotations.None? ==> "annotations" !in AlertMap(alert)
  {
    var top := TopLevel(alert);
    var mid := WithSection(top, "labels", alert.labels);
    if alert.labels.None? {
      SectionKeepsOthers(mid, "annotations", alert.annotations, "labels");
    }
    if alert.annotations.None? {
      assert !HasPrefix("annotations", "labels" + ".") by {
        assert ("labels" + ".")[0] != "annotations"[0];
      }
      SectionKeepsOthers(top, "labels", alert.labels, "annotations");
    }
  }

  /** A matcher naming a label of the alert compares that label's value. */
  lemma MatcherSeesLabel(alert: Alert, k: string)
    requires alert.labels.Some? && k in alert.labels.value
    requires !HasPrefix(k, AnnotationsPrefix)
    ensures GetMatcherValue(k, AlertMap(alert)) == Some(alert.labels.value[k])
  {
    AlertMapLabels(alert, k);
    LabelsBeforeTopLevel(k, AlertMap(alert));
  }

  /** A matcher naming `annotations.<name>` compares that annotation's value. */
  lemma MatcherSeesAnnotation(alert: Alert, k: string)
    requires alert.annotations.Some? && k in alert.annotations.value
    ensures GetMatcherValue(AnnotationsPrefix + k, AlertMap(alert)) == Some(alert.annotations.value[k])
  {
    AlertMapAnnotations(alert, k);
    var name := AnnotationsPrefix + k;
    assert name[..|AnnotationsPrefix|] == AnnotationsPrefix;
    assert name[|AnnotationsPrefix|..] == k;
  }

  /** An environment variable reading `labels.<name>` gets the label's value from the flat entry. */
  lemma FieldPathSeesLabel(alert: Alert, k: string, marshal: Payload -> string)
    requires alert.labels.Some? && k in alert.labels.value
    ensures GetAlertFieldValue(AlertMap(alert), "labels." + k, marshal) == Ok(alert.labels.value[k])
  {
    AlertMapLabels(alert, k);
    assert |"labels." + k| > 1;
  }

  /** One more key of `m` handled: the handled part grows by exactly that entry. */
  lemma HandledOneMore(m: map<string, string>, pending: set<string>, k: string)
    requires pending <= m.Keys && k in pending
    ensures m - (pending - {k}) == (m - pending)[k := m[k]]
  {
  }

  /** Adding one entry to a string map adds its nested entry. */
  lemma NestedUpdate(m: map<string, string>, k: string, v: string)
    ensures Nested(m[k := v]) == Nested(m)[k := Str(v)]
  {
  }

  /** Updating the right operand of a map union updates the union. */
  lemma UnionUpdate<K, V>(a: map<K, V>, b: map<K, V>, key: K, v: V)
    ensures a + b[key := v] == (a + b)[key := v]
  {
  }

  /** Adding one entry to a string map adds its flat entry. */
  lemma FlattenedUpdate(prefix: string, m: map<string, string>, k: string, v: string)
    ensures Flattened(prefix, m[k := v]) == Flattened(prefix, m)[prefix + k := Str(v)]
  {
    var lhs := Flattened(prefix, m[k := v]);
    var rhs := Flattened(prefix, m)[prefix + k := Str(v)];
    forall key | key in lhs
      ensures key in rhs && lhs[key] == rhs[key]
    {
      var j :| j in m[k := v] && prefix + j == key;
      FlattenedKey(prefix, m[k := v], j);
      if j != k {
        FlattenedKey(prefix, m, j);
        assert key != prefix + k by {
          assert key[|prefix|..] == j && (prefix + k)[|prefix|..] == k;
        }
      }
    }
    forall key | key in rhs
      ensures key in lhs
    {
      if key != prefix + k {
        var j :| j in m && prefix + j == key;
        FlattenedKey(prefix, m[k := v], j);
      } else {
        FlattenedKey(prefix, m[k := v], k);
      }
    }
  }

  /** With nothing pending, every entry has been handled. */
  lemma SectionEnd(m: map<string, string>, pending: set<string>)
    requires pending == {}
    ensures m - pending == m
  {
  }

  /** One more entry handled: the nested map and the data each gain exactly that entry. */
  lemma SectionStep(alertMap: Payload, prefix: string, m: map<string, string>, pending: set<string>, k: string)
    requires pending <= m.Keys && k in pending
    ensures Nested(m - (pending - {k})) == Nested(m - pending)[k := Str(m[k])]
    ensures alertMap + Flattened(prefix, m - (pending - {k}))
         == (alertMap + Flattened(prefix, m - pending))[prefix + k := Str(m[k])]
  {
    var done := m - pending;
    HandledOneMore(m, pending, k);
    NestedUpdate(done, k, m[k]);
    FlattenedUpdate(prefix, done, k, m[k]);
    UnionUpdate(alertMap, Flattened(prefix, done), prefix + k, Str(m[k]));
  }

  /**
   * The loop over one string map (the `labels` or the `annotations` of the
   * alert): each entry into the nested map and, prefixed, into the data;
   * then the nested map itself under `name`. Go visits the keys in no fixed
   * order, and so does this loop.
   */
  method FillSection(alertMap: Payload, name: string, m: map<string, string>) returns (r: Payload)
    ensures r == WithSection(alertMap, name, Some(m))
  {
    var section;
    section, r := CopyEntries(alertMap, name + ".", m);
    r := r[name := Map(section)];
  }

  /** The `for k, v := range` loop itself: the nested copy of `m` and the data with the flat entries added. */
  method CopyEntries(alertMap: Payload, prefix: string, m: map<string, string>)
    returns (section: map<string, Value>, r: Payload)
    ensures section == Nested(m)
    ensures r == alertMap + Flattened(prefix, m)
  {
    section := map[];
    r := alertMap;
    var pending := m.Keys;
    while pending != {}
      invariant pending <= m.Keys
      invariant section == Nested(m - pending)
      invariant r == alertMap + Flattened(prefix, m - pending)
      decreases |pending|
    {
      var k :| k in pending;
      SectionStep(alertMap, prefix, m, pending, k);
      section := section[k := Str(m[k])];
      r := r[prefix + k := Str(m[k])];
      pending := pending - {k};
    }
    SectionEnd(m, pending);
  }

  /** `alertToMap`: the top-level fields, then the labels, then the annotations. */
  method AlertToMap(alert: Alert) returns (alertMap: Payload)
    ensures alertMap == AlertMap(alert)
  {
    alertMap := map[];
    alertMap := alertMap["status" := Str(alert.status)];
    alertMap := alertMap["startsAt" := Str(alert.startsAt)];
    alertMap := alertMap["endsAt" := Str(alert.endsAt)];
    alertMap := alertMap["generatorURL" := Str(alert.generatorURL)];
    alertMap := alertMap["fingerprint" := Str(alert.fingerprint)];
    if alert.labels.Some? {
      alertMap := FillSection(alertMap, "labels", alert.labels.value);
    }
    if alert.annotations.Some? {
      alertMap := FillSection(alertMap, "annotations", alert.annotations.value);
    }
  }

  // ---------------------------------------------------------------------
  // Which alerts reach the controller (`handleWebhook`)
  // ---------------------------------------------------------------------

  /** The `alertname` label; a nil map or a missing label reads as "". */
  function AlertName(alert: Alert): (r: string)
    ensures r != "" ==> alert.labels.Some? && "alertname" in alert.labels.value && r == alert.labels.value["alertname"]
    ensures alert.labels.None? || "alertname" !in alert.labels.value ==> r == ""
  {
    if alert.labels.Some? && "alertname" in alert.labels.value then alert.labels.value["alertname"] else ""
  }

  /** The handler passes on an alert when it is firing and has an alert name. */
  predicate Forwardable(alert: Alert)
  {
    alert.status == "firing" && AlertName(alert) != ""
  }

  /**
   * An alert is passed on exactly when it is firing and carries a non-empty
   * `alertname` label; a nil label map is never passed on.
   */
  lemma ForwardableIff(alert: Alert)
    ensures Forwardable(alert) <==>
      alert.status == "firing" && alert.labels.Some? && "alertname" in alert.labels.value && alert.labels.value["alertname"] != ""
  {
  }

  /** The call made for a passed-on alert, its data built by `convert` (`alertToMap`). */
  function ForwardOf(alert: Alert, convert: Alert -> Payload): Forward
  {
    Forward(AlertName(alert), convert(alert))
  }

  /** The calls made for a list of alerts, in list order. */
  function Forwarded(alerts: seq<Alert>, convert: Alert -> Payload): (r: seq<Forward>)
    ensures |r| <= |alerts|
    ensures forall f :: f in r ==> f.alertName != ""
  {
    if |alerts| == 0 then []
    else
      var last := alerts[|alerts| - 1];
      Forwarded(alerts[..|alerts| - 1], convert) + (if Forwardable(last) then [ForwardOf(last, convert)] else [])
  }

  /** Handling two lists in a row makes the calls of each, the first list's first. */
  lemma {:induction false} ForwardedAppend(a: seq<Alert>, b: seq<Alert>, convert: Alert -> Payload)
    ensures Forwarded(a + b, convert) == Forwarded(a, convert) + Forwarded(b, convert)
    decreases |b|
  {
    if |b| == 0 {
      assert a + b == a;
    } else {
      var init := b[..|b| - 1];
      assert (a + b)[..|a + b| - 1] == a + init;
      ForwardedAppend(a, init, convert);
    }
  }

  /** Every call comes from a firing alert with an alert name, and there are no more calls than alerts. */
  lemma {:induction false} ForwardedSound(alerts: seq<Alert>, convert: Alert -> Payload)
    ensures |Forwarded(alerts, convert)| <= |alerts|
    ensures forall f :: f in Forwarded(alerts, convert) ==>
      exists i :: 0 <= i < |alerts| && Forwardable(alerts[i]) && f == ForwardOf(alerts[i], convert)
  {
    if |alerts| > 0 {
      var init := alerts[..|alerts| - 1];
      ForwardedSound(init, convert);
      forall f | f in Forwarded(alerts, convert)
        ensures exists i :: 0 <= i < |alerts| && Forwardable(alerts[i]) && f == ForwardOf(alerts[i], convert)
      {
        if f in Forwarded(init, convert) {
          var i :| 0 <= i < |init| && Forwardable(init[i]) && f == ForwardOf(init[i], convert);
          assert alerts[i] == init[i];
        } else {
          assert Forwardable(alerts[|alerts| - 1]) && f == ForwardOf(alerts[|alerts| - 1], convert);
        }
      }
    }
  }

  /** Every firing alert with an alert name is handed on. */
  lemma {:induction false} ForwardedComplete(alerts: seq<Alert>, convert: Alert -> Payload)
    ensures forall i :: 0 <= i < |alerts| && Forwardable(alerts[i]) ==> ForwardOf(alerts[i], convert) in Forwarded(alerts, convert)
  {
    if |alerts| > 0 {
      var init := alerts[..|alerts| - 1];
      ForwardedComplete(init, convert);
      forall i | 0 <= i < |alerts| && Forwardable(alerts[i])
        ensures ForwardOf(alerts[i], convert) in Forwarded(alerts, convert)
      {
        if i < |init| {
          assert alerts[i] == init[i];
        }
      }
    }
  }

  /** A notification whose alerts are all resolved or unnamed reaches the controller not at all. */
  lemma {:induction false} NothingForwardable(alerts: seq<Alert>, convert: Alert -> Payload)
    requires forall i :: 0 <= i < |alerts| ==> !Forwardable(alerts[i])
    ensures Forwarded(alerts, convert) == []
  {
    if |alerts| > 0 {
      NothingForwardable(alerts[..|alerts| - 1], convert);
    }
  }

  /**
   * The alert loop of `handleWebhook`: resolved alerts and alerts without an
   * alert name are skipped; every other alert is converted and handed to the
   * controller, whose errors are logged and do not stop the loop.
   */
  method HandleWebhook(webhook: AlertManagerWebhook) returns (processed: seq<Forward>)
    ensures processed == Forwarded(webhook.alerts, AlertMap)
  {
    var alerts := webhook.alerts;
    processed := [];
    var i := 0;
    while i < |alerts|
      invariant 0 <= i <= |alerts|
      invariant processed == Forwarded(alerts[..i], AlertMap)
    {
      var alert := alerts[i];
      assert alerts[..i + 1] == alerts[..i] + [alert];
      assert alerts[..i + 1][..i] == alerts[..i];
      i := i + 1;
      if alert.status != "firing" {
        continue;
      }
      var alertName := AlertName(alert);
      if alertName == "" {
        continue;
      }
      var alertData := AlertToMap(alert);
      processed := processed + [Forward(alertName, alertData)];
    }
    assert alerts[..i] == alerts;
  }

  // ---------------------------------------------------------------------
  // The webhook address and the example configuration
  // ---------------------------------------------------------------------

  const DefaultBase: string := "http://localhost:"
  const WebhookPath: string := "/webhook"

  /** The base a webhook address is built on: the given one, or the local server's. */
  function BaseOf(port: string, baseURL: string): string
  {
    if baseURL == "" then DefaultBase + port else baseURL
  }

  /** `GetWebhookURL`: the base followed by `/webhook`. */
  function GetWebhookURL(port: string, baseURL: string): (url: string)
    ensures |url| == |BaseOf(port, baseURL)| + |WebhookPath|
    ensures url[..|BaseOf(port, baseURL)|] == BaseOf(port, baseURL)
    ensures url[|BaseOf(port, baseURL)|..] == WebhookPath
  {
    BaseOf(port, baseURL) + WebhookPath
  }

  /** Leaving the base empty is the same as naming the local server explicitly. */
  lemma DefaultIsLocalhost(port: string)
    ensures GetWebhookURL(port, "") == GetWebhookURL(port, DefaultBase + port)
    ensures GetWebhookURL(port, "") == "http://localhost:" + port + "/webhook"
  {
  }

  /** The example configuration up to the receiver's `webhook_configs:` line. */
  const ConfigPreamble: string :=
    "# AlertManager configuration example\n"
    + "# Add this to your AlertManager configuration file\n"
    + "\n"
    + "route:\n"
    + "  group_by: ['alertname']\n"
    + "  group_wait: 10s\n"
    + "  group_interval: 10s\n"
    + "  repeat_interval: 1h\n"
    + "  receiver: 'karo'\n"
    + "\n"
    + "receivers:\n"
    + "- name: 'karo'\n"
    + "  webhook_configs:\n"

  /** The opening of the `url` entry, up to the quoted address. */
  const UrlEntry: string := "  - url: '"

  /** The example after the quoted address. */
  const ConfigTail: string :=
    "\n"
    + "    send_resolved: false\n"
    + "    http_config:\n"
    + "      timeout: 10s\n"
    + "    max_alerts: 0  # Send all alerts, no limit\n"

  /** The `url` entry of the receiver, with the address in single quotes. */
  function UrlLine(url: string): string
  {
    UrlEntry + url + "'"
  }

  /** `s` occurs in `text`. */
  predicate Contains(text: string, s: string)
  {
    exists i :: 0 <= i <= |text| && HasPrefix(text[i..], s)
  }

  /** A string occurs in anything built around it. */
  lemma ContainsMiddle(before: string, s: string, after: string)
    ensures Contains(before + s + after, s)
  {
    var text := before + s + after;
    assert text[|before|..] == s + after;
    assert HasPrefix(text[|before|..], s);
  }

  /** Occurring in is transitive. */
  lemma ContainsTransitive(a: string, b: string, c: string)
    requires Contains(a, b) && Contains(b, c)
    ensures Contains(a, c)
  {
    var i :| 0 <= i <= |a| && HasPrefix(a[i..], b);
    var j :| 0 <= j <= |b| && HasPrefix(b[j..], c);
    assert |b| <= |a| - i && |c| <= |b| - j;
    forall t | 0 <= t < |c|
      ensures a[i + j..][t] == c[t]
    {
      assert c[t] == b[j + t];
      assert b[j + t] == a[i..][j + t];
    }
    assert a[i + j..][..|c|] == c;
  }

  /** `GetWebhookConfig`: the example configuration with the webhook address filled in. */
  function GetWebhookConfig(port: string, baseURL: string): (config: string)
    ensures HasPrefix(config, ConfigPreamble)
  {
    ConfigPreamble + UrlLine(GetWebhookURL(port, baseURL)) + ConfigTail
  }

  /** The configuration points AlertManager at the address `GetWebhookURL` gives, quoted in its `url` entry. */
  lemma ConfigNamesWebhookURL(port: string, baseURL: string)
    ensures Contains(GetWebhookConfig(port, baseURL), UrlLine(GetWebhookURL(port, baseURL)))
    ensures Contains(GetWebhookConfig(port, baseURL), GetWebhookURL(port, baseURL))
  {
    var url := GetWebhookURL(port, baseURL);
    ContainsMiddle(ConfigPreamble, UrlLine(url), ConfigTail);
    ContainsMiddle(UrlEntry, url, "'");
    ContainsTransitive(GetWebhookConfig(port, baseURL), UrlLine(url), url);
  }
}
