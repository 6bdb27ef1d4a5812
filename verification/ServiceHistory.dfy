/**
 Service rules over a whole sample history: outage and recovery messages are exactly the
 observed edges, and reminders keep their cadence, including for a service first seen down.
 */
module ServiceHistory {
  import opened GoTime
  import opened Samples
  import opened Sequences
  import opened Wrappers
  import opened Alerts
  import opened AlertRuns
  import opened AlertHistory

  function ServiceAfter(rule: ServiceRule, samples: seq<Sample>): Option<ServiceState>
  {
    if samples == [] then None
    else StepServiceOn(rule, ServiceAfter(rule, samples[..|samples| - 1]), samples[|samples| - 1]).0
  }

  function EventAt(rule: ServiceRule, samples: seq<Sample>, i: nat): Option<ServiceKind>
    requires i < |samples|
  {
    StepServiceOn(rule, ServiceAfter(rule, samples[..i]), samples[i]).1
  }

  function SoloServiceMessages(rule: ServiceRule, samples: seq<Sample>): seq<Message>
  {
    if samples == [] then []
    else
      var init, last := samples[..|samples| - 1], samples[|samples| - 1];
      SoloServiceMessages(rule, init) + ServiceMessages(rule, ServiceAfter(rule, init), last)
  }

  lemma ServiceStepAt(rule: ServiceRule, samples: seq<Sample>, i: nat)
    requires i < |samples|
    ensures ServiceAfter(rule, samples[..i + 1])
            == StepServiceOn(rule, ServiceAfter(rule, samples[..i]), samples[i]).0
  {
    assert samples[..i + 1][..i] == samples[..i];
  }

  // ---------------------------------------------------------------------------------------
  // The evaluator under a fixed rule set
  // ---------------------------------------------------------------------------------------

  /** The rules that watch a service are one rule, or copies of one without repeats. */
  ghost predicate Unshared(rules: seq<ServiceRule>, service: string)
  {
    forall i, j :: 0 <= i < j < |rules| && rules[i].serviceName == service && rules[j].serviceName == service ==>
      rules[i] == rules[j] && rules[i].repeatInterval <= 0
  }

  lemma SecondServiceCopyIsIdle(s: EvaluatorState, rule: ServiceRule, sample: Sample)
    requires rule.repeatInterval <= 0
    ensures AfterServiceRule(AfterServiceRule(s, rule, sample), rule, sample) == AfterServiceRule(s, rule, sample)
  {
  }

  lemma {:induction false} ServiceCopiesActAsOne(s: EvaluatorState, rules: seq<ServiceRule>, rule: ServiceRule,
          sample: Sample)
    requires rules != [] && forall r :: r in rules ==> r == rule
    requires |rules| == 1 || rule.repeatInterval <= 0
    ensures AfterServiceRules(s, rules, sample) == AfterServiceRule(s, rule, sample)
  {
    var init, last := rules[..|rules| - 1], rules[|rules| - 1];
    assert last in rules && forall r :: r in init ==> r in rules;
    assert AfterServiceRules(s, [], sample) == s;
    if init != [] {
      ServiceCopiesActAsOne(s, init, rule, sample);
      SecondServiceCopyIsIdle(s, rule, sample);
    }
  }

  lemma {:induction false} ServiceCopiesRunAsAlone(rules: seq<ServiceRule>, rule: ServiceRule,
          samples: seq<Sample>)
    requires rules != [] && forall r :: r in rules ==> r == rule
    requires |rules| == 1 || rule.repeatInterval <= 0
    ensures FixedRun([], rules, samples).rules == []
    ensures FixedRun([], rules, samples).serviceRules == rules
    ensures FixedRun([], rules, samples).published == SoloServiceMessages(rule, samples)
    ensures ServiceStateOf(FixedRun([], rules, samples).serviceStates, rule.serviceName)
            == ServiceAfter(rule, samples)
  {
    FixedRunStep([], rules, samples);
    if samples != [] {
      var init, last := samples[..|samples| - 1], samples[|samples| - 1];
      ServiceCopiesRunAsAlone(rules, rule, init);
      var s := FixedRun([], rules, init);
      assert AfterRules(s, [], last) == s;
      ServiceCopiesActAsOne(s, rules, rule, last);
      ServiceRulesKeepRuleSets(s, rules, last);
    }
  }

  lemma {:induction false} CopiesAreSelected(rules: seq<ServiceRule>, rule: ServiceRule)
    requires Unshared(rules, rule.serviceName) && rule in rules
    ensures var copies := Filter(Watches(rule.serviceName), rules);
            && copies != []
            && (forall r :: r in copies ==> r == rule)
            && (|copies| == 1 || rule.repeatInterval <= 0)
  {
    var watched := Watches(rule.serviceName);
    var init, last := rules[..|rules| - 1], rules[|rules| - 1];
    if rule in init {
      var i :| 0 <= i < |init| && init[i] == rule;
      assert rules[i] == rule;
      CopiesAreSelected(init, rule);
    } else {
      assert last == rule;
      forall i | 0 <= i < |init| ensures !watched(init[i]) {
        assert rules[i] == init[i] != last;
      }
      FilterNone(watched, init);
    }
  }

  lemma OnlyServiceOfFixed(rules: seq<Rule>, serviceRules: seq<ServiceRule>, samples: seq<Sample>,
          service: string)
    ensures OnlyService([SetRules(rules, serviceRules)] + Handles(samples), service)
            == [SetRules([], Filter(Watches(service), serviceRules))] + Handles(samples)
  {
  }

  lemma FixedRunOfService(rules: seq<Rule>, serviceRules: seq<ServiceRule>, samples: seq<Sample>, service: string)
    ensures var s := FixedRun(rules, serviceRules, samples);
            var p := FixedRun([], Filter(Watches(service), serviceRules), samples);
            && ServiceStateOf(s.serviceStates, service) == ServiceStateOf(p.serviceStates, service)
            && Filter(FromService(service), s.published) == p.published
  {
    ServicesAreIndependent([SetRules(rules, serviceRules)] + Handles(samples), service);
    OnlyServiceOfFixed(rules, serviceRules, samples, service);
  }

  /** A service watched by one rule, or by copies without repeats, has the state and the messages of
      that rule run alone over the same samples. */
  lemma FixedRunRefinesSoloService(rules: seq<Rule>, serviceRules: seq<ServiceRule>, samples: seq<Sample>,
          rule: ServiceRule)
    requires Unshared(serviceRules, rule.serviceName) && rule in serviceRules
    ensures ServiceStateOf(FixedRun(rules, serviceRules, samples).serviceStates, rule.serviceName)
            == ServiceAfter(rule, samples)
    ensures Filter(FromService(rule.serviceName), FixedRun(rules, serviceRules, samples).published)
            == SoloServiceMessages(rule, samples)
  {
    FixedRunOfService(rules, serviceRules, samples, rule.serviceName);
    CopiesAreSelected(serviceRules, rule);
    ServiceCopiesRunAsAlone(Filter(Watches(rule.serviceName), serviceRules), rule, samples);
  }

  // ---------------------------------------------------------------------------------------
  // Edges
  // ---------------------------------------------------------------------------------------

  /** The last status reported for the service, if any sample mentioned it. */
  function LastStatus(service: string, samples: seq<Sample>): Option<bool>
  {
    if samples == [] then None
    else
      var status := StatusOf(samples[|samples| - 1].services, service);
      if status.Some? then status else LastStatus(service, samples[..|samples| - 1])
  }

  lemma {:induction false} StateHoldsLastStatus(rule: ServiceRule, samples: seq<Sample>)
    ensures match ServiceAfter(rule, samples)
            case None => LastStatus(rule.serviceName, samples) == None
            case Some(state) => LastStatus(rule.serviceName, samples) == Some(state.running)
  {
    if samples != [] {
      StateHoldsLastStatus(rule, samples[..|samples| - 1]);
    }
  }

  /** "is DOWN" at exactly the observed up-to-down edges, a recovery at exactly the observed
      down-to-up edges when asked for, and never a reminder off an outage. */
  lemma EventsMarkTheEdges(rule: ServiceRule, samples: seq<Sample>, i: nat)
    requires i < |samples|
    ensures var before := LastStatus(rule.serviceName, samples[..i]);
            var now := StatusOf(samples[i].services, rule.serviceName);
            && (EventAt(rule, samples, i) == Some(Down) <==> before == Some(true) && now == Some(false))
            && (EventAt(rule, samples, i) == Some(CameBack) <==>
                before == Some(false) && now == Some(true) && rule.notifyOnRecovery)
            && (EventAt(rule, samples, i) == Some(StillDown) ==>
                before == Some(false) && now == Some(false) && rule.repeatInterval > 0)
  {
    StateHoldsLastStatus(rule, samples[..i]);
  }

  // ---------------------------------------------------------------------------------------
  // Reminders
  // ---------------------------------------------------------------------------------------

  /** Nothing was said and the service was not seen up in samples `i + 1` to `j - 1`. */
  ghost predicate SilentOutage(rule: ServiceRule, samples: seq<Sample>, i: nat, j: nat)
    requires i < j <= |samples|
  {
    forall m :: i < m < j ==>
      EventAt(rule, samples, m) == None && StatusOf(samples[m].services, rule.serviceName) != Some(true)
  }

  lemma SilentStepKeepsOutage(rule: ServiceRule, since: Time, sample: Sample)
    requires var step := StepServiceOn(rule, Some(ServiceState(false, since)), sample);
             step.1 == None && StatusOf(sample.services, rule.serviceName) != Some(true)
    ensures StepServiceOn(rule, Some(ServiceState(false, since)), sample).0 == Some(ServiceState(false, since))
  {
  }

  lemma {:induction false} OutageClock(rule: ServiceRule, samples: seq<Sample>, i: nat, j: nat, since: Time)
    requires i < j <= |samples| && SilentOutage(rule, samples, i, j)
    requires ServiceAfter(rule, samples[..i + 1]) == Some(ServiceState(false, since))
    ensures ServiceAfter(rule, samples[..j]) == Some(ServiceState(false, since))
  {
    if i + 1 < j {
      var k := j - 1;
      assert SilentOutage(rule, samples, i, k);
      OutageClock(rule, samples, i, k, since);
      assert EventAt(rule, samples, k) == None && StatusOf(samples[k].services, rule.serviceName) != Some(true);
      SilentStepKeepsOutage(rule, since, samples[k]);
      ServiceStepAt(rule, samples, k);
    }
  }

  /** After an outage message, the next reminder comes at the first down observation at least
      `RepeatInterval` later. */
  lemma NextReminderIsDetermined(rule: ServiceRule, samples: seq<Sample>, i: nat, j: nat)
    requires i < j < |samples| && SilentOutage(rule, samples, i, j)
    requires EventAt(rule, samples, i) == Some(Down) || EventAt(rule, samples, i) == Some(StillDown)
    ensures EventAt(rule, samples, j) == Some(StillDown) <==>
            && StatusOf(samples[j].services, rule.serviceName) == Some(false)
            && rule.repeatInterval > 0
            && samples[j].timestamp - samples[i].timestamp >= rule.repeatInterval
  {
    ServiceStepAt(rule, samples, i);
    OutageClock(rule, samples, i, j, samples[i].timestamp);
  }

  /** A service first seen down raises no outage message; its clock still reads the zero time,
      so the next down observation brings a reminder as soon as the clock itself exceeds
      `RepeatInterval`, which any clock past `MAX_DURATION` does at once. */
  lemma FirstSeenDown(rule: ServiceRule, samples: seq<Sample>, i: nat, j: nat)
    requires i < j < |samples| && SilentOutage(rule, samples, i, j)
    requires LastStatus(rule.serviceName, samples[..i]) == None
    requires StatusOf(samples[i].services, rule.serviceName) == Some(false)
    ensures EventAt(rule, samples, i) == None
    ensures EventAt(rule, samples, j) == Some(StillDown) <==>
            && StatusOf(samples[j].services, rule.serviceName) == Some(false)
            && rule.repeatInterval > 0
            && samples[j].timestamp >= rule.repeatInterval
    ensures samples[j].timestamp >= MAX_DURATION ==>
              (EventAt(rule, samples, j) == Some(StillDown) <==>
               StatusOf(samples[j].services, rule.serviceName) == Some(false) && rule.repeatInterval > 0)
  {
    StateHoldsLastStatus(rule, samples[..i]);
    ServiceStepAt(rule, samples, i);
    OutageClock(rule, samples, i, j, ZERO_TIME);
  }
}
