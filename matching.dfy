/**
 * Deciding whether a rule applies to an alert: the rule's alert name must be
 * the alert's, and every matcher must hold (`alertMatches`, `evaluateMatcher`,
 * `regexMatch`).
 */
module Matching {
  import opened Wrappers
  import opened Types
  import opened Payload
  import opened Fields

  /**
   * The regular-expression engine, `regexp.MatchString(pattern, value)`:
   * Some(found) for a pattern that compiles, None for one that does not.
   */
  type RegexEngine = (string, string) -> Option<bool>

  /** `regexMatch`: an invalid pattern counts as no match. */
  function RegexMatch(regex: RegexEngine, value: string, pattern: string): (r: bool)
    ensures r <==> regex(pattern, value) == Some(true)
  {
    match regex(pattern, value)
    case Some(found) => found
    case None => false
  }

  /**
   * `evaluateMatcher`: resolve the attribute, then compare it with the
   * expected value. Only Equal, NotEqual, Regex and NotRegex are evaluated;
   * the six other operators never hold.
   */
  function EvaluateMatcher(m: AlertMatcher, data: Payload, regex: RegexEngine): (r: bool)
    ensures GetMatcherValue(m.name, data).None? ==> !r
    ensures m.operator !in {Equal, NotEqual, Regex, NotRegex} ==> !r
    ensures GetMatcherValue(m.name, data).Some? && m.operator == Equal ==>
      (r <==> GetMatcherValue(m.name, data).value == ExpectedValue(m))
    ensures GetMatcherValue(m.name, data).Some? && m.operator == Regex ==>
      (r <==> RegexMatch(regex, GetMatcherValue(m.name, data).value, ExpectedValue(m)))
  {
    match GetMatcherValue(m.name, data)
    case None => false
    case Some(actual) =>
      match m.operator
      case Equal => actual == ExpectedValue(m)
      case NotEqual => actual != ExpectedValue(m)
      case Regex => RegexMatch(regex, actual, ExpectedValue(m))
      case NotRegex => !RegexMatch(regex, actual, ExpectedValue(m))
      case _ => false
  }

  /** On a resolved attribute, Equal and NotEqual are each other's negation. */
  lemma EqualNegatesNotEqual(m: AlertMatcher, data: Payload, regex: RegexEngine)
    requires GetMatcherValue(m.name, data).Some?
    ensures EvaluateMatcher(m.(operator := Equal), data, regex) == !EvaluateMatcher(m.(operator := NotEqual), data, regex)
  {
  }

  /** On a resolved attribute, Regex and NotRegex are each other's negation. */
  lemma RegexNegatesNotRegex(m: AlertMatcher, data: Payload, regex: RegexEngine)
    requires GetMatcherValue(m.name, data).Some?
    ensures EvaluateMatcher(m.(operator := Regex), data, regex) == !EvaluateMatcher(m.(operator := NotRegex), data, regex)
  {
  }

  /** A pattern that does not compile makes Regex false and therefore NotRegex true. */
  lemma InvalidPatternFlipsNotRegex(m: AlertMatcher, data: Payload, regex: RegexEngine)
    requires GetMatcherValue(m.name, data).Some?
    requires regex(ExpectedValue(m), GetMatcherValue(m.name, data).value).None?
    ensures !EvaluateMatcher(m.(operator := Regex), data, regex)
    ensures EvaluateMatcher(m.(operator := NotRegex), data, regex)
  {
  }

  /**
   * A matcher reads no more of its values than its operator uses: two
   * matchers on the same attribute with the same operator and the same used
   * values agree, whatever else their value lists hold.
   */
  lemma EvaluateMatcherReadsUsedValues(m: AlertMatcher, other: AlertMatcher, data: Payload, regex: RegexEngine)
    requires other.name == m.name && other.operator == m.operator
    requires UsedValues(other) == UsedValues(m)
    ensures EvaluateMatcher(other, data, regex) == EvaluateMatcher(m, data, regex)
  {
    if m.operator !in {In, NotIn, Exists, DoesNotExist} {
      assert ExpectedValue(other) == ExpectedValue(m) by {
        if |m.values| > 0 {
          SingleValueOperatorsUseExpected(m);
          SingleValueOperatorsUseExpected(other);
        }
      }
    }
  }

  /** Every matcher of the list holds. */
  function AllMatch(ms: seq<AlertMatcher>, data: Payload, regex: RegexEngine): (r: bool)
    ensures r <==> forall i :: 0 <= i < |ms| ==> EvaluateMatcher(ms[i], data, regex)
  {
    if ms == [] then true
    else EvaluateMatcher(ms[0], data, regex) && AllMatch(ms[1..], data, regex)
  }

  /**
   * `alertMatches`: the alert name must be the rule's, exactly; then every
   * matcher must hold, so a rule without matchers matches any data.
   */
  function AlertMatches(rule: AlertReaction, alertName: string, data: Payload, regex: RegexEngine): (r: bool)
    ensures rule.spec.alertName != alertName ==> !r
    ensures rule.spec.alertName == alertName && rule.spec.matchers == [] ==> r
    ensures r <==> (rule.spec.alertName == alertName &&
                    forall i :: 0 <= i < |rule.spec.matchers| ==> EvaluateMatcher(rule.spec.matchers[i], data, regex))
  {
    if rule.spec.alertName != alertName then false
    else if |rule.spec.matchers| == 0 then true
    else AllMatch(rule.spec.matchers, data, regex)
  }

  /** Matching does not depend on the order of the matchers. */
  lemma {:induction false} MatcherOrderIrrelevant(rule: AlertReaction, matchers: seq<AlertMatcher>, alertName: string, data: Payload, regex: RegexEngine)
    requires multiset(matchers) == multiset(rule.spec.matchers)
    ensures AlertMatches(rule.(spec := rule.spec.(matchers := matchers)), alertName, data, regex) == AlertMatches(rule, alertName, data, regex)
  {
    var other := rule.(spec := rule.spec.(matchers := matchers));
    forall i | 0 <= i < |matchers| ensures matchers[i] in rule.spec.matchers {
      assert matchers[i] in multiset(matchers);
    }
    forall i | 0 <= i < |rule.spec.matchers| ensures rule.spec.matchers[i] in matchers {
      assert rule.spec.matchers[i] in multiset(rule.spec.matchers);
    }
    if AlertMatches(rule, alertName, data, regex) {
      forall i | 0 <= i < |matchers| ensures EvaluateMatcher(matchers[i], data, regex) {
        var j :| 0 <= j < |rule.spec.matchers| && rule.spec.matchers[j] == matchers[i];
      }
    }
    if AlertMatches(other, alertName, data, regex) {
      forall i | 0 <= i < |rule.spec.matchers| ensures EvaluateMatcher(rule.spec.matchers[i], data, regex) {
        var j :| 0 <= j < |matchers| && matchers[j] == rule.spec.matchers[i];
      }
    }
  }
}
