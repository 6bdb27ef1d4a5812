/**
 Numeric rules over a whole sample history. The evaluator's incremental state (start of the
 breach, firing flag, last notification) is a closed form of the history, and the messages
 keep the debounce and repeat promises.
 */
module AlertHistory {
  import opened GoTime
  import opened Runs
  import opened Samples
  import opened Sequences
  import opened Wrappers
  import opened Alerts
  import opened AlertRuns

  // ---------------------------------------------------------------------------------------
  // One rule on its own
  // ---------------------------------------------------------------------------------------

  function StateAfter(rule: Rule, samples: seq<Sample>): RuleState
  {
    if samples == [] then QUIET
    else StepOn(rule, StateAfter(rule, samples[..|samples| - 1]), samples[|samples| - 1]).state
  }

  function KindAt(rule: Rule, samples: seq<Sample>, i: nat): Option<RuleKind>
    requires i < |samples|
  {
    StepOn(rule, StateAfter(rule, samples[..i]), samples[i]).kind
  }

  function SoloMessages(rule: Rule, samples: seq<Sample>): seq<Message>
  {
    if samples == [] then []
    else
      var init, last := samples[..|samples| - 1], samples[|samples| - 1];
      SoloMessages(rule, init) + RuleMessages(rule, StateAfter(rule, init), last)
  }

  lemma StateStep(rule: Rule, samples: seq<Sample>, i: nat)
    requires i < |samples|
    ensures StateAfter(rule, samples[..i + 1]) == StepOn(rule, StateAfter(rule, samples[..i]), samples[i]).state
  {
    assert samples[..i + 1][..i] == samples[..i];
  }

  // ---------------------------------------------------------------------------------------
  // The evaluator under a fixed rule set
  // ---------------------------------------------------------------------------------------

  function Handles(samples: seq<Sample>): seq<Event>
  {
    seq(|samples|, (i: nat) requires i < |samples| => Handle(samples[i]))
  }

  function FixedRun(rules: seq<Rule>, serviceRules: seq<ServiceRule>, samples: seq<Sample>): EvaluatorState
  {
    Run([SetRules(rules, serviceRules)] + Handles(samples))
  }

  lemma FixedRunStep(rules: seq<Rule>, serviceRules: seq<ServiceRule>, samples: seq<Sample>)
    ensures samples == [] ==>
              FixedRun(rules, serviceRules, samples) == INITIAL.(rules := rules, serviceRules := serviceRules)
    ensures samples != [] ==>
              FixedRun(rules, serviceRules, samples) ==
              AfterSample(FixedRun(rules, serviceRules, samples[..|samples| - 1]), samples[|samples| - 1])
  {
    var events := [SetRules(rules, serviceRules)] + Handles(samples);
    if samples == [] {
      assert events == [SetRules(rules, serviceRules)];
      FoldOne(AfterEvent, INITIAL, SetRules(rules, serviceRules));
    } else {
      assert events[..|events| - 1] == [SetRules(rules, serviceRules)] + Handles(samples[..|samples| - 1]);
    }
  }

  /** Every other rule under the rule's name is one that no sample says anything about. */
  ghost predicate Unrivalled(rules: seq<Rule>, rule: Rule)
  {
    forall q :: q in rules && q.name == rule.name ==> q == rule || Inert(q)
  }

  /** What `FixedRun` keeps for a rule is what the rule's own run keeps. */
  ghost predicate RunsAsAlone(s: EvaluatorState, rule: Rule, samples: seq<Sample>)
  {
    && RuleStateOf(s.ruleStates, rule.name) == StateAfter(rule, samples)
    && s.published == SoloMessages(rule, samples)
  }

  lemma SecondCopyIsIdle(s: EvaluatorState, rule: Rule, sample: Sample)
    ensures AfterRule(AfterRule(s, rule, sample), rule, sample) == AfterRule(s, rule, sample)
  {
  }

  lemma {:induction false} CopiesActAsOne(s: EvaluatorState, rules: seq<Rule>, rule: Rule, sample: Sample)
    requires forall r :: r in rules ==> r == rule || Inert(r)
    ensures AfterRules(s, rules, sample) == if rule in rules then AfterRule(s, rule, sample) else s
  {
    if rules != [] {
      var init, last := rules[..|rules| - 1], rules[|rules| - 1];
      assert rules == init + [last] && last in rules;
      assert rule in rules <==> rule in init || last == rule;
      CopiesActAsOne(s, init, rule, sample);
      SecondCopyIsIdle(s, rule, sample);
    }
  }

  lemma {:induction false} CopiesRunAsAlone(rules: seq<Rule>, rule: Rule, samples: seq<Sample>)
    requires rule in rules && forall r :: r in rules ==> r == rule || Inert(r)
    ensures FixedRun(rules, [], samples).rules == rules
    ensures FixedRun(rules, [], samples).serviceRules == []
    ensures RunsAsAlone(FixedRun(rules, [], samples), rule, samples)
  {
    FixedRunStep(rules, [], samples);
    if samples != [] {
      var init, last := samples[..|samples| - 1], samples[|samples| - 1];
      CopiesRunAsAlone(rules, rule, init);
      var s := FixedRun(rules, [], init);
      CopiesActAsOne(s, rules, rule, last);
      RulesKeepRuleSets(s, rules, last);
    }
  }

  lemma OnlyRuleOfFixed(rules: seq<Rule>, serviceRules: seq<ServiceRule>, samples: seq<Sample>, name: string)
    ensures OnlyRule([SetRules(rules, serviceRules)] + Handles(samples), name)
            == [SetRules(Filter(HasName(name), rules), [])] + Handles(samples)
  {
  }

  lemma FixedRunOfName(rules: seq<Rule>, serviceRules: seq<ServiceRule>, samples: seq<Sample>, name: string)
    ensures var s := FixedRun(rules, serviceRules, samples);
            var p := FixedRun(Filter(HasName(name), rules), [], samples);
            && RuleStateOf(s.ruleStates, name) == RuleStateOf(p.ruleStates, name)
            && Filter(FromRule(name), s.published) == p.published
  {
    RuleNamesAreIndependent([SetRules(rules, serviceRules)] + Handles(samples), name);
    OnlyRuleOfFixed(rules, serviceRules, samples, name);
  }

  /** A rule that shares its name only with copies of itself and with inert rules keeps the state
      and sends the messages of the rule run alone over the same samples. */
  lemma FixedRunRefinesSolo(rules: seq<Rule>, serviceRules: seq<ServiceRule>, samples: seq<Sample>, rule: Rule)
    requires Unrivalled(rules, rule) && rule in rules
    ensures RuleStateOf(FixedRun(rules, serviceRules, samples).ruleStates, rule.name) == StateAfter(rule, samples)
    ensures Filter(FromRule(rule.name), FixedRun(rules, serviceRules, samples).published)
            == SoloMessages(rule, samples)
  {
    var alike := Filter(HasName(rule.name), rules);
    FixedRunOfName(rules, serviceRules, samples, rule.name);
    FilterMembers(HasName(rule.name), rules);
    assert rule in alike;
    CopiesRunAsAlone(alike, rule, samples);
  }

  // ---------------------------------------------------------------------------------------
  // Debounce: the state as a closed form of the history
  // ---------------------------------------------------------------------------------------

  /** A sample that says something about a rule, with the debounce then in force. */
  datatype Observation = Observation(met: bool, at: Time, forDuration: Duration)

  /** The samples that say something about the rule. */
  function Observed(rule: Rule, samples: seq<Sample>): seq<Observation>
  {
    if samples == [] then []
    else
      var init, last := samples[..|samples| - 1], samples[|samples| - 1];
      match Observe(rule, last)
      case None => Observed(rule, init)
      case Some(met) => Observed(rule, init) + [Observation(met, last.timestamp, rule.forDuration)]
  }

  /** The length of the maximal suffix of observations that all meet the condition. */
  function BreachLength(seen: seq<Observation>): (k: nat)
    ensures k <= |seen|
    ensures forall i :: |seen| - k <= i < |seen| ==> seen[i].met
    ensures k < |seen| ==> !seen[|seen| - k - 1].met
  {
    if seen == [] || !seen[|seen| - 1].met then 0
    else 1 + BreachLength(seen[..|seen| - 1])
  }

  ghost predicate InOrder(seen: seq<Observation>)
  {
    && (forall i :: 0 <= i < |seen| ==> seen[i].at > ZERO_TIME)
    && (forall i, j :: 0 <= i <= j < |seen| ==> seen[i].at <= seen[j].at)
  }

  function StartOf(seen: seq<Observation>): Time
  {
    if BreachLength(seen) == 0 then ZERO_TIME else seen[|seen| - BreachLength(seen)].at
  }

  /** At some observation of the current breach, the breach had lasted the `For` then in force. */
  ghost predicate Spans(seen: seq<Observation>)
  {
    exists k :: |seen| - BreachLength(seen) <= k < |seen| && seen[k].at - StartOf(seen) >= seen[k].forDuration
  }

  /** The current breach is there and spans at least the rule's `For`. */
  predicate SpansFor(rule: Rule, samples: seq<Sample>)
  {
    var seen := Observed(rule, samples);
    BreachLength(seen) > 0 && seen[|seen| - 1].at - StartOf(seen) >= rule.forDuration
  }

  lemma {:induction false} ObservedInOrder(rule: Rule, samples: seq<Sample>)
    requires Chronological(samples)
    ensures InOrder(Observed(rule, samples))
    ensures forall o :: o in Observed(rule, samples) ==>
              o.at <= samples[|samples| - 1].timestamp && o.forDuration == rule.forDuration
  {
    if samples != [] {
      ObservedInOrder(rule, samples[..|samples| - 1]);
    }
  }

  lemma StartIsPast(seen: seq<Observation>, next: Observation)
    requires InOrder(seen + [next])
    ensures ZERO_TIME <= StartOf(seen) <= next.at && ZERO_TIME < next.at
    ensures BreachLength(seen) > 0 ==> ZERO_TIME < StartOf(seen)
  {
    var all := seen + [next];
    assert all[|seen|] == next;
    if BreachLength(seen) > 0 {
      var i := |seen| - BreachLength(seen);
      assert all[i] == seen[i] && all[i].at <= all[|seen|].at;
    }
  }

  lemma BreachExtends(seen: seq<Observation>, next: Observation)
    ensures BreachLength(seen + [next]) == if next.met then 1 + BreachLength(seen) else 0
    ensures next.met ==> StartOf(seen + [next]) == if BreachLength(seen) == 0 then next.at else StartOf(seen)
  {
    var all := seen + [next];
    assert all[..|all| - 1] == seen && all[|seen|] == next;
    if BreachLength(seen) > 0 {
      assert all[|seen| - BreachLength(seen)] == seen[|seen| - BreachLength(seen)];
    }
  }

  lemma SpansExtends(seen: seq<Observation>, next: Observation)
    ensures Spans(seen + [next]) <==>
            next.met && (Spans(seen) || next.at - StartOf(seen + [next]) >= next.forDuration)
  {
    var all := seen + [next];
    BreachExtends(seen, next);
    if Spans(seen) && next.met {
      var k :| |seen| - BreachLength(seen) <= k < |seen| && seen[k].at - StartOf(seen) >= seen[k].forDuration;
      assert all[k] == seen[k];
    }
    if next.met && next.at - StartOf(all) >= next.forDuration {
      assert all[|seen|] == next;
    }
    if Spans(all) {
      var k :| |all| - BreachLength(all) <= k < |all| && all[k].at - StartOf(all) >= all[k].forDuration;
      assert k < |seen| ==> all[k] == seen[k];
    }
  }

  /** The state that the closed form assigns to what was seen. */
  ghost predicate Tracks(state: RuleState, seen: seq<Observation>)
  {
    state.conditionSince == StartOf(seen) && (state.firing <==> Spans(seen))
  }

  lemma StepMovesState(rule: Rule, state: RuleState, at: Time, met: bool)
    requires ZERO_TIME < at && state.conditionSince <= at
    ensures var since := if state.conditionSince == ZERO_TIME then at else state.conditionSince;
            var after := StepRule(rule, state, at, met).state;
            && after.conditionSince == (if met then since else ZERO_TIME)
            && (after.firing <==> met && (state.firing || at - since >= rule.forDuration))
  {
  }

  lemma StepKeepsClosedForm(rule: Rule, seen: seq<Observation>, state: RuleState, next: Observation)
    requires InOrder(seen + [next]) && next.forDuration == rule.forDuration
    requires Tracks(state, seen)
    ensures Tracks(StepRule(rule, state, next.at, next.met).state, seen + [next])
  {
    StartIsPast(seen, next);
    BreachExtends(seen, next);
    SpansExtends(seen, next);
    StepMovesState(rule, state, next.at, next.met);
  }

  /** With one debounce throughout, the last observation decides. */
  lemma OneForSpans(rule: Rule, samples: seq<Sample>)
    requires Chronological(samples)
    ensures Spans(Observed(rule, samples)) <==> SpansFor(rule, samples)
  {
    var seen := Observed(rule, samples);
    ObservedInOrder(rule, samples);
    if SpansFor(rule, samples) {
      assert seen[|seen| - 1].at - StartOf(seen) >= seen[|seen| - 1].forDuration;
    }
  }

  lemma {:induction false} StateIsClosedForm(rule: Rule, samples: seq<Sample>)
    requires Chronological(samples)
    ensures Tracks(StateAfter(rule, samples), Observed(rule, samples))
    ensures StateAfter(rule, samples).firing <==> SpansFor(rule, samples)
  {
    OneForSpans(rule, samples);
    if samples != [] {
      var init, last := samples[..|samples| - 1], samples[|samples| - 1];
      StateIsClosedForm(rule, init);
      OneForSpans(rule, init);
      ObservedInOrder(rule, samples);
      match Observe(rule, last)
      case None =>
      case Some(met) =>
        StepKeepsClosedForm(rule, Observed(rule, init), StateAfter(rule, init),
                            Observation(met, last.timestamp, rule.forDuration));
    }
  }

  /** In a running evaluator such a rule is firing exactly when its current breach spans `For`, and
      `conditionSince` is the start of that breach. */
  lemma FiringIsBreachSpanningFor(rules: seq<Rule>, serviceRules: seq<ServiceRule>, samples: seq<Sample>, rule: Rule)
    requires Unrivalled(rules, rule) && rule in rules
    requires Chronological(samples)
    ensures var state := RuleStateOf(FixedRun(rules, serviceRules, samples).ruleStates, rule.name);
            && (state.firing <==> SpansFor(rule, samples))
            && state.conditionSince == StartOf(Observed(rule, samples))
  {
    FixedRunRefinesSolo(rules, serviceRules, samples, rule);
    StateIsClosedForm(rule, samples);
  }

  /** First fires and recoveries are exactly the edges of the closed form. */
  lemma MessagesMarkTheEdges(rule: Rule, samples: seq<Sample>, i: nat)
    requires Chronological(samples) && i < |samples|
    ensures KindAt(rule, samples, i) == Some(Fire) <==>
            !SpansFor(rule, samples[..i]) && SpansFor(rule, samples[..i + 1])
    ensures KindAt(rule, samples, i) == Some(Recovered) <==>
            SpansFor(rule, samples[..i]) && !SpansFor(rule, samples[..i + 1])
  {
    StateIsClosedForm(rule, samples[..i]);
    StateIsClosedForm(rule, samples[..i + 1]);
    StateStep(rule, samples, i);
    KindsMoveFiring(rule, StateAfter(rule, samples[..i]), samples[i]);
  }

  // ---------------------------------------------------------------------------------------
  // Cadence
  // ---------------------------------------------------------------------------------------

  predicate Notifies(kind: Option<RuleKind>)
  {
    kind == Some(Fire) || kind == Some(Repeat)
  }

  lemma StepsMoveClock(rule: Rule, state: RuleState, sample: Sample)
    ensures var step := StepOn(rule, state, sample);
            && (Notifies(step.kind) ==> step.state.firing && step.state.lastFiredAt == sample.timestamp)
            && (state.firing && step.kind == None ==>
                step.state.firing && step.state.lastFiredAt == state.lastFiredAt)
  {
  }

  /** No message came between samples `i` and `j`. */
  ghost predicate SilentBetween(rule: Rule, samples: seq<Sample>, i: nat, j: nat)
    requires j <= |samples|
  {
    forall m :: i < m < j ==> KindAt(rule, samples, m) == None
  }

  lemma {:induction false} ClockSinceNotice(rule: Rule, samples: seq<Sample>, i: nat, j: nat)
    requires i < j <= |samples|
    requires Notifies(KindAt(rule, samples, i)) && SilentBetween(rule, samples, i, j)
    ensures StateAfter(rule, samples[..j]).firing
    ensures StateAfter(rule, samples[..j]).lastFiredAt == samples[i].timestamp
  {
    if i + 1 < j {
      ClockSinceNotice(rule, samples, i, j - 1);
      assert KindAt(rule, samples, j - 1) == None;
    }
    StepsMoveClock(rule, StateAfter(rule, samples[..j - 1]), samples[j - 1]);
    StateStep(rule, samples, j - 1);
  }

  /** The message after a notification, decided by the history alone: a repeat comes at the
      first sample observed at least `RepeatInterval` later, unless the breach ends before. */
  lemma NextMessageIsDetermined(rule: Rule, samples: seq<Sample>, i: nat, j: nat)
    requires i < j < |samples|
    requires Notifies(KindAt(rule, samples, i)) && SilentBetween(rule, samples, i, j)
    ensures KindAt(rule, samples, j) ==
            match Observe(rule, samples[j])
            case None => None
            case Some(false) => Some(Recovered)
            case Some(true) =>
              if rule.repeatInterval > 0 && samples[j].timestamp - samples[i].timestamp >= rule.repeatInterval
              then Some(Repeat) else None
  {
    ClockSinceNotice(rule, samples, i, j);
  }

  /** How many notifications samples `i` to `j` produced, both included. */
  function NoticeCount(rule: Rule, samples: seq<Sample>, i: nat, j: nat): nat
    requires i <= j < |samples|
    decreases j
  {
    (if Notifies(KindAt(rule, samples, j)) then 1 else 0)
    + if i == j then 0 else NoticeCount(rule, samples, i, j - 1)
  }

  /** The time that `n` repeats take at least. */
  function Span(n: nat, repeatInterval: Duration): int
  {
    if n == 0 then 0 else Span(n - 1, repeatInterval) + repeatInterval
  }

  /** `n` notifications since `start`, the last of them not after `now`, keep the cadence. */
  ghost predicate OnBudget(rule: Rule, state: RuleState, n: nat, start: Time, now: Time)
  {
    && n >= 1
    && state.firing
    && state.lastFiredAt <= now
    && (rule.repeatInterval > 0 ==> Span(n - 1, rule.repeatInterval) <= state.lastFiredAt - start)
    && (rule.repeatInterval <= 0 ==> n == 1)
  }

  lemma StepKeepsBudget(rule: Rule, state: RuleState, n: nat, start: Time, now: Time, sample: Sample)
    requires OnBudget(rule, state, n, start, now) && now <= sample.timestamp
    requires StepOn(rule, state, sample).kind != Some(Recovered)
    ensures var step := StepOn(rule, state, sample);
            OnBudget(rule, step.state, n + if Notifies(step.kind) then 1 else 0, start, sample.timestamp)
  {
  }

  /** The notifications of samples `i` to `j` keep the cadence. */
  ghost predicate BudgetKept(rule: Rule, samples: seq<Sample>, i: nat, j: nat)
    requires i <= j < |samples|
  {
    OnBudget(rule, StateAfter(rule, samples[..j + 1]), NoticeCount(rule, samples, i, j), samples[i].timestamp,
             samples[j].timestamp)
  }

  lemma FireStartsBudget(rule: Rule, samples: seq<Sample>, i: nat)
    requires i < |samples| && KindAt(rule, samples, i) == Some(Fire)
    ensures BudgetKept(rule, samples, i, i)
  {
    StateStep(rule, samples, i);
    assert NoticeCount(rule, samples, i, i) == 1;
  }

  lemma NextKeepsBudget(rule: Rule, samples: seq<Sample>, i: nat, j: nat)
    requires i < j < |samples| && samples[j - 1].timestamp <= samples[j].timestamp
    requires BudgetKept(rule, samples, i, j - 1) && KindAt(rule, samples, j) != Some(Recovered)
    ensures BudgetKept(rule, samples, i, j)
  {
    StateStep(rule, samples, j);
    StepKeepsBudget(rule, StateAfter(rule, samples[..j]), NoticeCount(rule, samples, i, j - 1),
                    samples[i].timestamp, samples[j - 1].timestamp, samples[j]);
  }

  lemma {:induction false} NoticesAreSpaced(rule: Rule, samples: seq<Sample>, i: nat, j: nat)
    requires i <= j < |samples| && Chronological(samples)
    requires KindAt(rule, samples, i) == Some(Fire)
    requires forall m :: i < m <= j ==> KindAt(rule, samples, m) != Some(Recovered)
    ensures BudgetKept(rule, samples, i, j)
  {
    if i == j {
      FireStartsBudget(rule, samples, i);
    } else {
      NoticesAreSpaced(rule, samples, i, j - 1);
      NextKeepsBudget(rule, samples, i, j);
    }
  }

  lemma {:induction false} SpanIsProduct(n: nat, repeatInterval: Duration)
    ensures Span(n, repeatInterval) == n * repeatInterval
  {
    if n > 0 {
      SpanIsProduct(n - 1, repeatInterval);
    }
  }

  /** `n` notifications are at most 1 + D/R, or exactly one when repeats are off. */
  predicate WithinBudget(rule: Rule, n: nat, d: int)
  {
    if rule.repeatInterval > 0 then n <= 1 + d / rule.repeatInterval else n == 1
  }

  lemma BudgetBounds(rule: Rule, state: RuleState, n: nat, start: Time, now: Time)
    requires OnBudget(rule, state, n, start, now)
    ensures WithinBudget(rule, n, now - start)
  {
    if rule.repeatInterval > 0 {
      SpanIsProduct(n - 1, rule.repeatInterval);
      DivideBound(n - 1, rule.repeatInterval, now - start);
    }
  }

  /** A stretch of length D from the first fire of an episode holds at most 1 + D/R
      notifications, and exactly one when repeats are off. */
  lemma EpisodeBudget(rule: Rule, samples: seq<Sample>, i: nat, j: nat)
    requires i <= j < |samples| && Chronological(samples)
    requires KindAt(rule, samples, i) == Some(Fire)
    requires forall m :: i < m <= j ==> KindAt(rule, samples, m) != Some(Recovered)
    ensures WithinBudget(rule, NoticeCount(rule, samples, i, j), samples[j].timestamp - samples[i].timestamp)
  {
    NoticesAreSpaced(rule, samples, i, j);
    assert BudgetKept(rule, samples, i, j);
    BudgetBounds(rule, StateAfter(rule, samples[..j + 1]), NoticeCount(rule, samples, i, j), samples[i].timestamp,
                 samples[j].timestamp);
  }

  lemma MultiplyBound(a: int, b: int, r: int)
    requires a <= b && r > 0
    ensures a * r <= b * r
  {
  }

  lemma DivideBound(n: nat, r: int, d: int)
    requires r > 0 && n * r <= d
    ensures n <= d / r
  {
    var q := d / r;
    assert d < q * r + r == (q + 1) * r;
    if q < n {
      MultiplyBound(q + 1, n, r);
    }
  }
}
