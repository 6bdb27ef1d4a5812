/**
 Numeric rules whose definitions change while a breach is under way. The state kept under a
 rule name is still a closed form of what the samples said to the rules then in force.
 */
module AlertChanges {
  import opened GoTime
  import opened Samples
  import opened Sequences
  import opened Wrappers
  import opened Alerts
  import opened AlertRuns
  import opened AlertHistory

  function RulesInForce(events: seq<Event>): seq<Rule>
  {
    if events == [] then []
    else
      match events[|events| - 1]
      case SetRules(rules, _) => rules
      case Handle(_) => RulesInForce(events[..|events| - 1])
  }

  /** What one sample says to one rule, if that is called `name`. */
  function SaidTo(sample: Sample, rule: Rule, name: string): seq<Observation>
  {
    match Observe(rule, sample)
    case None => []
    case Some(met) =>
      if rule.name == name then [Observation(met, sample.timestamp, rule.forDuration)] else []
  }

  /** `seen`, then what one sample says to the rules called `name`, in the order they are evaluated. */
  function Hearing(seen: seq<Observation>, sample: Sample, rules: seq<Rule>, name: string): seq<Observation>
  {
    if rules == [] then seen
    else Hearing(seen, sample, rules[..|rules| - 1], name) + SaidTo(sample, rules[|rules| - 1], name)
  }

  /** All that a run's samples said to whatever was called `name` at the time. */
  function Said(events: seq<Event>, name: string): seq<Observation>
  {
    if events == [] then []
    else
      var init := events[..|events| - 1];
      match events[|events| - 1]
      case SetRules(_, _) => Said(init, name)
      case Handle(sample) => Hearing(Said(init, name), sample, RulesInForce(init), name)
  }

  function LastHandled(events: seq<Event>): Time
  {
    if events == [] then ZERO_TIME
    else
      match events[|events| - 1]
      case SetRules(_, _) => LastHandled(events[..|events| - 1])
      case Handle(sample) => sample.timestamp
  }

  /** Every sample carries a real clock reading, none before the one handled last. */
  predicate HandledInOrder(events: seq<Event>)
  {
    events == [] ||
    var init, last := events[..|events| - 1], events[|events| - 1];
    && HandledInOrder(init)
    && (last.Handle? ==> ZERO_TIME < last.sample.timestamp && LastHandled(init) <= last.sample.timestamp)
  }

  /** In order, and nothing later than `now`. */
  ghost predicate SeenBy(now: Time, seen: seq<Observation>)
  {
    InOrder(seen) && forall i :: 0 <= i < |seen| ==> seen[i].at <= now
  }

  lemma SeenNext(seen: seq<Observation>, next: Observation)
    requires SeenBy(next.at, seen) && next.at > ZERO_TIME
    ensures SeenBy(next.at, seen + [next])
  {
  }

  lemma RuleKeepsTrack(s: EvaluatorState, name: string, seen: seq<Observation>, rule: Rule, sample: Sample)
    requires Tracks(RuleStateOf(s.ruleStates, name), seen)
    requires SeenBy(sample.timestamp, seen) && sample.timestamp > ZERO_TIME
    ensures Tracks(RuleStateOf(AfterRule(s, rule, sample).ruleStates, name), seen + SaidTo(sample, rule, name))
    ensures SeenBy(sample.timestamp, seen + SaidTo(sample, rule, name))
  {
    var said, before := SaidTo(sample, rule, name), RuleStateOf(s.ruleStates, name);
    var after := RuleStateOf(AfterRule(s, rule, sample).ruleStates, name);
    if said == [] {
      assert seen + said == seen;
      assert after == before;
    } else {
      assert said == [said[0]];
      SeenNext(seen, said[0]);
      StepKeepsClosedForm(rule, seen, before, said[0]);
      assert after == StepRule(rule, before, said[0].at, said[0].met).state;
    }
  }

  lemma {:induction false} RulesKeepTrack(s: EvaluatorState, name: string, seen: seq<Observation>,
          rules: seq<Rule>, sample: Sample)
    requires Tracks(RuleStateOf(s.ruleStates, name), seen)
    requires SeenBy(sample.timestamp, seen) && sample.timestamp > ZERO_TIME
    ensures Tracks(RuleStateOf(AfterRules(s, rules, sample).ruleStates, name), Hearing(seen, sample, rules, name))
    ensures SeenBy(sample.timestamp, Hearing(seen, sample, rules, name))
  {
    if rules != [] {
      var init, last := rules[..|rules| - 1], rules[|rules| - 1];
      RulesKeepTrack(s, name, seen, init, sample);
      RuleKeepsTrack(AfterRules(s, init, sample), name, Hearing(seen, sample, init, name), last, sample);
    }
  }

  lemma {:induction false} RunKeepsTrack(events: seq<Event>, name: string)
    requires HandledInOrder(events)
    ensures Run(events).rules == RulesInForce(events)
    ensures Tracks(RuleStateOf(Run(events).ruleStates, name), Said(events, name))
    ensures SeenBy(LastHandled(events), Said(events, name))
  {
    if events != [] {
      var init := events[..|events| - 1];
      RunKeepsTrack(init, name);
      match events[|events| - 1]
      case SetRules(_, _) =>
      case Handle(sample) =>
        var s := Run(init);
        RulesKeepTrack(s, name, Said(init, name), s.rules, sample);
        RulesKeepRuleSets(s, s.rules, sample);
        ServiceRulesKeepRuleSets(AfterRules(s, s.rules, sample), s.serviceRules, sample);
    }
  }

  /** Over every run, with any rule changes and with any number of rules under the name: the kept
      start is that of the longest breach that ends the run, each observation judged by the rule
      then in force, and an episode is open exactly when that breach at some observation had
      lasted the `For` then in force. */
  lemma ClosedFormUnderChanges(events: seq<Event>, name: string)
    requires HandledInOrder(events)
    ensures RuleStateOf(Run(events).ruleStates, name).conditionSince == StartOf(Said(events, name))
    ensures RuleStateOf(Run(events).ruleStates, name).firing <==> Spans(Said(events, name))
    ensures Episodic(Filter(FromRule(name), Run(events).published))
    ensures EpisodeOpen(Filter(FromRule(name), Run(events).published)) <==> Spans(Said(events, name))
  {
    RunKeepsTrack(events, name);
    EpisodesAreWellFormed(events, name);
  }
}
