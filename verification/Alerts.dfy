/**
 The alert evaluator: a debounced, repeating state machine for every numeric rule and an
 up/down one for every watched service, with the states held in two maps.
 */
module Alerts {
  import opened GoTime
  import opened Samples
  import opened Wrappers

  datatype Metric = CpuPercent | MemPercent | DiskPercent | LoadAvg1 | UnknownMetric(text: string)

  datatype Comparator = GreaterThan | LessThan | UnknownComparator(text: string)

  datatype Rule = Rule(
    name: string,
    metric: Metric,
    comparator: Comparator,
    threshold: real,
    forDuration: Duration,
    repeatInterval: Duration)

  datatype ServiceRule = ServiceRule(
    name: string,
    serviceName: string,
    notifyOnRecovery: bool,
    repeatInterval: Duration)

  datatype RuleState = RuleState(conditionSince: Time, firing: bool, lastFiredAt: Time)

  datatype ServiceState = ServiceState(running: bool, lastFiredAt: Time)

  datatype RuleKind = Fire | Repeat | Recovered

  datatype ServiceKind = Down | StillDown | CameBack

  /** What is handed to the publisher; the wording is a function of these values. */
  datatype Message =
    | RuleMessage(kind: RuleKind, rule: Rule, value: real)
    | ServiceMessage(event: ServiceKind, serviceRule: ServiceRule)

  const QUIET := RuleState(ZERO_TIME, false, ZERO_TIME)

  // ---------------------------------------------------------------------------------------
  // One rule, one sample
  // ---------------------------------------------------------------------------------------

  function MetricValue(metric: Metric, sample: Sample): Option<real>
  {
    match metric
    case CpuPercent => Some(sample.cpuPercent)
    case MemPercent =>
      if sample.memTotalMB == 0.0 then None else Some(sample.memUsedMB / sample.memTotalMB * 100.0)
    case DiskPercent =>
      if sample.diskTotalGB == 0.0 then None else Some(sample.diskUsedGB / sample.diskTotalGB * 100.0)
    case LoadAvg1 => Some(sample.loadAvg1)
    case UnknownMetric(_) => None
  }

  /** Whether the condition holds, or `None` when the sample says nothing about the rule. */
  function Observe(rule: Rule, sample: Sample): Option<bool>
  {
    match MetricValue(rule.metric, sample)
    case None => None
    case Some(value) =>
      match rule.comparator
      case GreaterThan => Some(value > rule.threshold)
      case LessThan => Some(value < rule.threshold)
      case UnknownComparator(_) => None
  }

  /** `value` is what the sample says of the metric: its own field, or used over total in percent. */
  ghost predicate Reads(metric: Metric, sample: Sample, value: real)
  {
    match metric
    case CpuPercent => value == sample.cpuPercent
    case LoadAvg1 => value == sample.loadAvg1
    case MemPercent => sample.memTotalMB != 0.0 && value * sample.memTotalMB == 100.0 * sample.memUsedMB
    case DiskPercent => sample.diskTotalGB != 0.0 && value * sample.diskTotalGB == 100.0 * sample.diskUsedGB
    case UnknownMetric(_) => false
  }

  /** The value is on the wrong side of the rule's threshold. */
  ghost predicate Breaks(rule: Rule, value: real)
  {
    match rule.comparator
    case GreaterThan => value > rule.threshold
    case LessThan => value < rule.threshold
    case UnknownComparator(_) => false
  }

  lemma OnePercentage(value: real, total: real, used: real)
    requires total != 0.0
    ensures value * total == 100.0 * used <==> value == used / total * 100.0
  {
    assert used / total * total == used;
    if value * total == 100.0 * used {
      assert (value - used / total * 100.0) * total == 0.0;
    }
  }

  /** The one value a sample has for a metric is the field the metric names. */
  lemma MetricReads(metric: Metric, sample: Sample)
    ensures forall value :: MetricValue(metric, sample) == Some(value) <==> Reads(metric, sample, value)
  {
    forall value ensures MetricValue(metric, sample) == Some(value) <==> Reads(metric, sample, value) {
      match metric
      case MemPercent =>
        if sample.memTotalMB != 0.0 {
          OnePercentage(value, sample.memTotalMB, sample.memUsedMB);
        }
      case DiskPercent =>
        if sample.diskTotalGB != 0.0 {
          OnePercentage(value, sample.diskTotalGB, sample.diskUsedGB);
        }
      case _ =>
    }
  }

  /** What every closed form below calls observed and met: the rule's comparator is known, its metric
      has a value in the sample, and that is on the wrong side of the threshold or not. */
  lemma ObserveMeans(rule: Rule, sample: Sample, met: bool)
    ensures Observe(rule, sample) == Some(met) <==>
            !rule.comparator.UnknownComparator?
            && exists value :: Reads(rule.metric, sample, value) && (met <==> Breaks(rule, value))
  {
    MetricReads(rule.metric, sample);
    if MetricValue(rule.metric, sample).Some? {
      assert Reads(rule.metric, sample, MetricValue(rule.metric, sample).value);
    }
  }

  /** A message about a rule that the sample bears out. */
  ghost predicate BorneOut(m: Message, rule: Rule, sample: Sample)
  {
    && m.RuleMessage? && m.rule == rule
    && !rule.comparator.UnknownComparator?
    && Reads(rule.metric, sample, m.value)
    && (m.kind == Recovered <==> !Breaks(rule, m.value))
  }

  lemma RuleMessagesBorneOut(rule: Rule, state: RuleState, sample: Sample)
    ensures |RuleMessages(rule, state, sample)| <= 1
    ensures forall m :: m in RuleMessages(rule, state, sample) ==> BorneOut(m, rule, sample)
  {
    MetricReads(rule.metric, sample);
  }

  /** What an observation means, without the division: a percentage rule compares used over total
      with its threshold, and observes nothing exactly when the total is zero. */
  lemma PercentRuleMeaning(rule: Rule, sample: Sample)
    requires rule.metric == MemPercent || rule.metric == DiskPercent
    requires rule.comparator == GreaterThan || rule.comparator == LessThan
    requires sample.memTotalMB >= 0.0 && sample.diskTotalGB >= 0.0
    ensures var (used, total) := if rule.metric == MemPercent then (sample.memUsedMB, sample.memTotalMB)
                                 else (sample.diskUsedGB, sample.diskTotalGB);
            && (Observe(rule, sample) == None <==> total == 0.0)
            && (total > 0.0 ==>
                  (Observe(rule, sample) == Some(true) <==>
                   if rule.comparator == GreaterThan then used * 100.0 > rule.threshold * total
                   else used * 100.0 < rule.threshold * total))
  {
  }

  /** A rule that no sample says anything about. */
  predicate Inert(rule: Rule)
  {
    rule.metric.UnknownMetric? || rule.comparator.UnknownComparator?
  }

  /** A sample on the wrong side of the rule's threshold. */
  function Breaching(rule: Rule, at: Time): Sample
  {
    var value := if rule.comparator == GreaterThan then rule.threshold + 1.0 else rule.threshold - 1.0;
    Sample(at, value, value, 100.0, value, 100.0, value, [])
  }

  /** A rule is observed by no sample at all exactly when its metric or comparator is unknown; any
      other rule can be breached at any time. */
  lemma InertIffNeverObserved(rule: Rule)
    ensures Inert(rule) <==> forall sample :: Observe(rule, sample) == None
    ensures !Inert(rule) ==> forall at :: Observe(rule, Breaching(rule, at)) == Some(true)
  {
    if !Inert(rule) {
      forall at ensures Observe(rule, Breaching(rule, at)) == Some(true) {
      }
      assert Observe(rule, Breaching(rule, ZERO_TIME)) != None;
    }
  }

  datatype RuleError = NamelessRule | UnknownMetricIn(rule: string) | UnknownComparatorIn(rule: string)
    | NegativeFor(rule: string) | NamelessServiceRule | NothingToWatch(rule: string)

  ghost predicate Acceptable(rules: seq<Rule>, serviceRules: seq<ServiceRule>)
  {
    && (forall r :: r in rules ==> r.name != "" && !Inert(r) && r.forDuration >= 0)
    && (forall r :: r in serviceRules ==> r.name != "" && r.serviceName != "")
  }

  /** The error names something that is wrong with a rule of the set. */
  ghost predicate Blames(e: RuleError, rules: seq<Rule>, serviceRules: seq<ServiceRule>)
  {
    match e
    case NamelessRule => exists r :: r in rules && r.name == ""
    case UnknownMetricIn(name) => exists r :: r in rules && r.name == name && r.metric.UnknownMetric?
    case UnknownComparatorIn(name) => exists r :: r in rules && r.name == name && r.comparator.UnknownComparator?
    case NegativeFor(name) => exists r :: r in rules && r.name == name && r.forDuration < 0
    case NamelessServiceRule => exists r :: r in serviceRules && r.name == ""
    case NothingToWatch(name) => exists r :: r in serviceRules && r.name == name && r.serviceName == ""
  }

  /** The API's check of a new rule set. It accepts exactly the sets whose rules are all named and
      able to act; it does not ask for distinct names. */
  method ValidateRules(rules: seq<Rule>, serviceRules: seq<ServiceRule>) returns (err: Option<RuleError>)
    ensures err == None <==> Acceptable(rules, serviceRules)
    ensures err.Some? ==> Blames(err.value, rules, serviceRules)
  {
    for i := 0 to |rules|
      invariant forall j :: 0 <= j < i ==> rules[j].name != "" && !Inert(rules[j]) && rules[j].forDuration >= 0
    {
      var r := rules[i];
      if r.name == "" {
        return Some(NamelessRule);
      }
      if r.metric.UnknownMetric? {
        return Some(UnknownMetricIn(r.name));
      }
      if r.comparator.UnknownComparator? {
        return Some(UnknownComparatorIn(r.name));
      }
      if r.forDuration < 0 {
        return Some(NegativeFor(r.name));
      }
    }
    for i := 0 to |serviceRules|
      invariant forall j :: 0 <= j < i ==> serviceRules[j].name != "" && serviceRules[j].serviceName != ""
    {
      var r := serviceRules[i];
      if r.name == "" {
        return Some(NamelessServiceRule);
      }
      if r.serviceName == "" {
        return Some(NothingToWatch(r.name));
      }
    }
    err := None;
  }

  datatype RuleStep = RuleStep(state: RuleState, kind: Option<RuleKind>)

  /** The numeric state machine on an observed sample. */
  function StepRule(rule: Rule, state: RuleState, at: Time, met: bool): RuleStep
  {
    if !met then
      RuleStep(QUIET, if state.firing then Some(Recovered) else None)
    else
      var since := if state.conditionSince == ZERO_TIME then at else state.conditionSince;
      if !state.firing && Sub(at, since) >= rule.forDuration then
        RuleStep(RuleState(since, true, at), Some(Fire))
      else if state.firing && rule.repeatInterval > 0 && Sub(at, state.lastFiredAt) >= rule.repeatInterval then
        RuleStep(RuleState(since, true, at), Some(Repeat))
      else
        RuleStep(RuleState(since, state.firing, state.lastFiredAt), None)
  }

  /** The numeric state machine on any sample. */
  function StepOn(rule: Rule, state: RuleState, sample: Sample): RuleStep
  {
    match Observe(rule, sample)
    case None => RuleStep(state, None)
    case Some(met) => StepRule(rule, state, sample.timestamp, met)
  }

  /** The first status reported under a service's name, as the evaluator's scan finds it. */
  function StatusOf(services: seq<ServiceStatus>, name: string): Option<bool>
  {
    if services == [] then None
    else if services[0].name == name then Some(services[0].running)
    else StatusOf(services[1..], name)
  }

  /** The status is that of the first entry with the name, and missing when there is none. */
  lemma {:induction false} StatusOfIsFirst(services: seq<ServiceStatus>, name: string, i: nat)
    requires i <= |services| && forall j :: 0 <= j < i ==> services[j].name != name
    requires i < |services| ==> services[i].name == name
    ensures StatusOf(services, name) == if i < |services| then Some(services[i].running) else None
  {
    if i > 0 {
      StatusOfIsFirst(services[1..], name, i - 1);
    }
  }

  datatype ServiceStep = ServiceStep(state: ServiceState, event: Option<ServiceKind>)

  /** The service state machine on an observation of a service seen before. */
  function StepService(rule: ServiceRule, state: ServiceState, at: Time, running: bool): ServiceStep
  {
    if state.running && !running then
      ServiceStep(ServiceState(false, at), Some(Down))
    else if !state.running && !running && rule.repeatInterval > 0
            && Sub(at, state.lastFiredAt) >= rule.repeatInterval then
      ServiceStep(ServiceState(false, at), Some(StillDown))
    else if !state.running && running then
      ServiceStep(ServiceState(true, ZERO_TIME), if rule.notifyOnRecovery then Some(CameBack) else None)
    else
      ServiceStep(ServiceState(running, state.lastFiredAt), None)
  }

  /** The service state machine on any sample; an unknown service is only recorded. */
  function StepServiceOn(rule: ServiceRule, state: Option<ServiceState>, sample: Sample)
    : (Option<ServiceState>, Option<ServiceKind>)
  {
    match StatusOf(sample.services, rule.serviceName)
    case None => (state, None)
    case Some(running) =>
      match state
      case None => (Some(ServiceState(running, ZERO_TIME)), None)
      case Some(known) =>
        var step := StepService(rule, known, sample.timestamp, running);
        (Some(step.state), step.event)
  }

  // ---------------------------------------------------------------------------------------
  // The evaluator as a value
  // ---------------------------------------------------------------------------------------

  datatype EvaluatorState = EvaluatorState(
    rules: seq<Rule>,
    serviceRules: seq<ServiceRule>,
    ruleStates: map<string, RuleState>,
    serviceStates: map<string, ServiceState>,
    published: seq<Message>)

  const INITIAL := EvaluatorState([], [], map[], map[], [])

  function RuleStateOf(states: map<string, RuleState>, name: string): RuleState
  {
    if name in states then states[name] else QUIET
  }

  function ServiceStateOf(states: map<string, ServiceState>, name: string): Option<ServiceState>
  {
    if name in states then Some(states[name]) else None
  }

  function RuleMessages(rule: Rule, state: RuleState, sample: Sample): seq<Message>
  {
    match StepOn(rule, state, sample).kind
    case None => []
    case Some(kind) => [RuleMessage(kind, rule, MetricValue(rule.metric, sample).value)]
  }

  function ServiceMessages(rule: ServiceRule, state: Option<ServiceState>, sample: Sample): seq<Message>
  {
    match StepServiceOn(rule, state, sample).1
    case None => []
    case Some(event) => [ServiceMessage(event, rule)]
  }

  function AfterRule(s: EvaluatorState, rule: Rule, sample: Sample): EvaluatorState
  {
    if Observe(rule, sample).None? then s
    else
      var state := RuleStateOf(s.ruleStates, rule.name);
      s.(ruleStates := s.ruleStates[rule.name := StepOn(rule, state, sample).state],
         published := s.published + RuleMessages(rule, state, sample))
  }

  function AfterRules(s: EvaluatorState, rules: seq<Rule>, sample: Sample): EvaluatorState
  {
    if rules == [] then s
    else AfterRule(AfterRules(s, rules[..|rules| - 1], sample), rules[|rules| - 1], sample)
  }

  function AfterServiceRule(s: EvaluatorState, rule: ServiceRule, sample: Sample): EvaluatorState
  {
    var state := ServiceStateOf(s.serviceStates, rule.serviceName);
    match StepServiceOn(rule, state, sample).0
    case None => s
    case Some(next) =>
      s.(serviceStates := s.serviceStates[rule.serviceName := next],
         published := s.published + ServiceMessages(rule, state, sample))
  }

  function AfterServiceRules(s: EvaluatorState, rules: seq<ServiceRule>, sample: Sample): EvaluatorState
  {
    if rules == [] then s
    else AfterServiceRule(AfterServiceRules(s, rules[..|rules| - 1], sample), rules[|rules| - 1], sample)
  }

  /** The whole evaluation of one sample against the rule sets in force. */
  function AfterSample(s: EvaluatorState, sample: Sample): EvaluatorState
  {
    AfterServiceRules(AfterRules(s, s.rules, sample), s.serviceRules, sample)
  }

  // ---------------------------------------------------------------------------------------
  // The evaluator as the object the agent runs
  // ---------------------------------------------------------------------------------------

  class Evaluator {
    var rules: seq<Rule>
    var serviceRules: seq<ServiceRule>
    var ruleStates: map<string, RuleState>
    var serviceStates: map<string, ServiceState>
    var published: seq<Message>

    ghost function State(): EvaluatorState
      reads this
    {
      EvaluatorState(rules, serviceRules, ruleStates, serviceStates, published)
    }

    constructor ()
      ensures State() == INITIAL
    {
      rules, serviceRules := [], [];
      ruleStates, serviceStates := map[], map[];
      published := [];
    }

    /** Replaces the rule sets and deliberately nothing else. */
    method SetRules(newRules: seq<Rule>, newServiceRules: seq<ServiceRule>)
      modifies this`rules, this`serviceRules
      ensures State() == old(State()).(rules := newRules, serviceRules := newServiceRules)
    {
      rules := newRules;
      serviceRules := newServiceRules;
    }

    method Handle(sample: Sample)
      modifies this`ruleStates, this`serviceStates, this`published
      ensures State() == AfterSample(old(State()), sample)
    {
      ghost var start := State();
      for i := 0 to |rules|
        invariant State() == AfterRules(start, rules[..i], sample)
      {
        EvaluateRule(rules[i], sample);
        assert rules[..i + 1][..i] == rules[..i];
      }
      assert rules[..|rules|] == rules;
      ghost var middle := State();
      for i := 0 to |serviceRules|
        invariant State() == AfterServiceRules(middle, serviceRules[..i], sample)
      {
        EvaluateServiceRule(serviceRules[i], sample);
        assert serviceRules[..i + 1][..i] == serviceRules[..i];
      }
      assert serviceRules[..|serviceRules|] == serviceRules;
    }

    method EvaluateRule(rule: Rule, sample: Sample)
      modifies this`ruleStates, this`published
      ensures State() == AfterRule(old(State()), rule, sample)
      ensures published == old(published)
              || exists m :: published == old(published) + [m] && BorneOut(m, rule, sample)
      ensures Observe(rule, sample) == None ==> ruleStates == old(ruleStates)
      ensures Observe(rule, sample) == Some(false) ==>
                ruleStates == old(ruleStates)[rule.name := RuleState(0, false, 0)]
    {
      RuleMessagesBorneOut(rule, RuleStateOf(ruleStates, rule.name), sample);
      var value := MetricValue(rule.metric, sample);
      if value.None? {
        return;
      }
      var conditionMet := false;
      match rule.comparator {
        case GreaterThan => conditionMet := value.value > rule.threshold;
        case LessThan => conditionMet := value.value < rule.threshold;
        case UnknownComparator(_) => return;
      }

      var state := if rule.name in ruleStates then ruleStates[rule.name] else QUIET;
      if !conditionMet {
        var wasFiring := state.firing;
        state := state.(conditionSince := ZERO_TIME, firing := false, lastFiredAt := ZERO_TIME);
        ruleStates := ruleStates[rule.name := state];
        if wasFiring {
          published := published + [RuleMessage(Recovered, rule, value.value)];
        }
        return;
      }

      if state.conditionSince == ZERO_TIME {
        state := state.(conditionSince := sample.timestamp);
      }
      var firstFire := !state.firing && Sub(sample.timestamp, state.conditionSince) >= rule.forDuration;
      var repeatFire := state.firing && rule.repeatInterval > 0
                        && Sub(sample.timestamp, state.lastFiredAt) >= rule.repeatInterval;
      if firstFire || repeatFire {
        state := state.(firing := true, lastFiredAt := sample.timestamp);
      }
      ruleStates := ruleStates[rule.name := state];
      if firstFire || repeatFire {
        published := published + [RuleMessage(if repeatFire then Repeat else Fire, rule, value.value)];
      }
    }

    method EvaluateServiceRule(rule: ServiceRule, sample: Sample)
      modifies this`serviceStates, this`published
      ensures State() == AfterServiceRule(old(State()), rule, sample)
      ensures StatusOf(sample.services, rule.serviceName) == None ==> State() == old(State())
      ensures StatusOf(sample.services, rule.serviceName).Some? ==>
                rule.serviceName in serviceStates
                && serviceStates[rule.serviceName].running == StatusOf(sample.services, rule.serviceName).value
      ensures StatusOf(sample.services, rule.serviceName).Some? && rule.serviceName !in old(serviceStates) ==>
                serviceStates[rule.serviceName].lastFiredAt == 0 && published == old(published)
      ensures forall name :: name != rule.serviceName ==>
                ServiceStateOf(serviceStates, name) == ServiceStateOf(old(serviceStates), name)
      ensures StatusOf(sample.services, rule.serviceName) == Some(true)
              && rule.serviceName in old(serviceStates) && !old(serviceStates)[rule.serviceName].running ==>
                serviceStates == old(serviceStates)[rule.serviceName := ServiceState(true, 0)]
    {
      var current := FindStatus(sample.services, rule.serviceName);
      if current.None? {
        return;
      }
      var running := current.value;
      if rule.serviceName !in serviceStates {
        serviceStates := serviceStates[rule.serviceName := ServiceState(running, ZERO_TIME)];
        return;
      }
      var state := serviceStates[rule.serviceName];
      var previous := state.running;
      state := state.(running := running);

      var wentDown := previous && !running;
      var cameUp := !previous && running;
      var stillDown := !previous && !running && rule.repeatInterval > 0
                       && Sub(sample.timestamp, state.lastFiredAt) >= rule.repeatInterval;
      if wentDown || stillDown {
        state := state.(lastFiredAt := sample.timestamp);
      }
      if cameUp {
        state := state.(lastFiredAt := ZERO_TIME);
      }
      serviceStates := serviceStates[rule.serviceName := state];

      if wentDown {
        published := published + [ServiceMessage(Down, rule)];
      } else if stillDown {
        published := published + [ServiceMessage(StillDown, rule)];
      } else if cameUp && rule.notifyOnRecovery {
        published := published + [ServiceMessage(CameBack, rule)];
      }
    }
  }

  /** The linear scan for a service's status, stopping at the first match. */
  method FindStatus(services: seq<ServiceStatus>, name: string) returns (current: Option<bool>)
    ensures current == StatusOf(services, name)
  {
    current := None;
    for i := 0 to |services|
      invariant current == None
      invariant StatusOf(services, name) == StatusOf(services[i..], name)
    {
      if services[i].name == name {
        return Some(services[i].running);
      }
    }
  }
}
