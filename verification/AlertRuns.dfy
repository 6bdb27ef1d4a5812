/**
 Whole runs of the alert evaluator: rule changes and samples in any order. Two facts about
 the shared state maps: each name's messages come from that name's own rules alone, and each
 rule name's messages follow the episode grammar whatever the rule sets were replaced with.
 */
module AlertRuns {
  import opened Runs
  import opened Samples
  import opened Sequences
  import opened Alerts

  datatype Event =
    | SetRules(rules: seq<Rule>, serviceRules: seq<ServiceRule>)
    | Handle(sample: Sample)

  function AfterEvent(s: EvaluatorState, e: Event): EvaluatorState
  {
    match e
    case SetRules(rules, serviceRules) => s.(rules := rules, serviceRules := serviceRules)
    case Handle(sample) => AfterSample(s, sample)
  }

  function Run(events: seq<Event>): EvaluatorState
  {
    Fold(AfterEvent, INITIAL, events)
  }

  /** The agent's own object, driven by a run. */
  method Drive(events: seq<Event>) returns (evaluator: Evaluator)
    ensures fresh(evaluator) && evaluator.State() == Run(events)
  {
    evaluator := new Evaluator();
    for i := 0 to |events|
      invariant evaluator.State() == Run(events[..i])
    {
      match events[i] {
        case SetRules(rules, serviceRules) => evaluator.SetRules(rules, serviceRules);
        case Handle(sample) => evaluator.Handle(sample);
      }
      assert events[..i + 1][..i] == events[..i];
    }
    assert events[..|events|] == events;
  }

  // ---------------------------------------------------------------------------------------
  // Selecting one name
  // ---------------------------------------------------------------------------------------

  function HasName(name: string): Rule -> bool
  {
    (r: Rule) => r.name == name
  }

  function Watches(service: string): ServiceRule -> bool
  {
    (r: ServiceRule) => r.serviceName == service
  }

  function FromRule(name: string): Message -> bool
  {
    (m: Message) => m.RuleMessage? && m.rule.name == name
  }

  function SentBy(rule: Rule): Message -> bool
  {
    (m: Message) => m.RuleMessage? && m.rule == rule
  }

  function ServiceSentBy(rule: ServiceRule): Message -> bool
  {
    (m: Message) => m.ServiceMessage? && m.serviceRule == rule
  }

  function FromService(service: string): Message -> bool
  {
    (m: Message) => m.ServiceMessage? && m.serviceRule.serviceName == service
  }

  // ---------------------------------------------------------------------------------------
  // Independence of rule names
  // ---------------------------------------------------------------------------------------

  /** The run of an evaluator that is only ever given the rules called `name`. */
  function OnlyRule(events: seq<Event>, name: string): seq<Event>
  {
    seq(|events|, (i: nat) requires i < |events| =>
      match events[i]
      case SetRules(rules, _) => SetRules(Filter(HasName(name), rules), [])
      case Handle(sample) => Handle(sample))
  }

  /** `p` holds `s`'s view of the rules called `name`, and nothing else. */
  ghost predicate RuleView(s: EvaluatorState, p: EvaluatorState, name: string)
  {
    && RuleSplit(s, p, name)
    && p.rules == Filter(HasName(name), s.rules)
    && p.serviceRules == []
  }

  ghost predicate RuleSplit(s: EvaluatorState, p: EvaluatorState, name: string)
  {
    && RuleStateOf(p.ruleStates, name) == RuleStateOf(s.ruleStates, name)
    && p.published == Filter(FromRule(name), s.published)
  }

  lemma RuleStepKeepsView(s: EvaluatorState, p: EvaluatorState, name: string, rule: Rule, sample: Sample)
    requires RuleSplit(s, p, name)
    ensures rule.name == name ==> RuleSplit(AfterRule(s, rule, sample), AfterRule(p, rule, sample), name)
    ensures rule.name != name ==> RuleSplit(AfterRule(s, rule, sample), p, name)
  {
    FilterAppend(FromRule(name), s.published, RuleMessages(rule, RuleStateOf(s.ruleStates, rule.name), sample));
  }

  lemma {:induction false} RulesKeepView(s: EvaluatorState, p: EvaluatorState, name: string, rules: seq<Rule>,
          sample: Sample)
    requires RuleSplit(s, p, name)
    ensures RuleSplit(AfterRules(s, rules, sample), AfterRules(p, Filter(HasName(name), rules), sample), name)
  {
    if rules != [] {
      var init, last := rules[..|rules| - 1], rules[|rules| - 1];
      RulesKeepView(s, p, name, init, sample);
      RuleStepKeepsView(AfterRules(s, init, sample), AfterRules(p, Filter(HasName(name), init), sample),
                        name, last, sample);
      if last.name == name {
        assert Filter(HasName(name), rules)[..|Filter(HasName(name), rules)| - 1] == Filter(HasName(name), init);
      }
    }
  }

  lemma {:induction false} ServiceRulesKeepView(s: EvaluatorState, p: EvaluatorState, name: string,
          rules: seq<ServiceRule>, sample: Sample)
    requires RuleSplit(s, p, name)
    ensures RuleSplit(AfterServiceRules(s, rules, sample), p, name)
    ensures AfterServiceRules(s, rules, sample).rules == s.rules
    ensures AfterServiceRules(s, rules, sample).serviceRules == s.serviceRules
  {
    if rules != [] {
      var init, last := rules[..|rules| - 1], rules[|rules| - 1];
      ServiceRulesKeepView(s, p, name, init, sample);
      var t := AfterServiceRules(s, init, sample);
      FilterAppend(FromRule(name), t.published,
                  ServiceMessages(last, ServiceStateOf(t.serviceStates, last.serviceName), sample));
    }
  }

  lemma {:induction false} RulesKeepRuleSets(s: EvaluatorState, rules: seq<Rule>, sample: Sample)
    ensures AfterRules(s, rules, sample).rules == s.rules
    ensures AfterRules(s, rules, sample).serviceRules == s.serviceRules
    ensures AfterRules(s, rules, sample).serviceStates == s.serviceStates
  {
    if rules != [] {
      RulesKeepRuleSets(s, rules[..|rules| - 1], sample);
    }
  }

  /** No interference: over every run, rule changes included, the messages and the state under
      one rule name are those of an evaluator that never held any other rule. */
  lemma {:induction false} RuleNamesAreIndependent(events: seq<Event>, name: string)
    ensures Run(OnlyRule(events, name)).published == Filter(FromRule(name), Run(events).published)
    ensures RuleStateOf(Run(OnlyRule(events, name)).ruleStates, name) == RuleStateOf(Run(events).ruleStates, name)
    ensures RuleView(Run(events), Run(OnlyRule(events, name)), name)
  {
    if events != [] {
      var init := events[..|events| - 1];
      RuleNamesAreIndependent(init, name);
      var s, p := Run(init), Run(OnlyRule(init, name));
      assert OnlyRule(events, name)[..|events| - 1] == OnlyRule(init, name);
      match events[|events| - 1]
      case SetRules(rules, serviceRules) =>
      case Handle(sample) =>
        RulesKeepView(s, p, name, s.rules, sample);
        RulesKeepRuleSets(s, s.rules, sample);
        RulesKeepRuleSets(p, p.rules, sample);
        ServiceRulesKeepView(AfterRules(s, s.rules, sample), AfterRules(p, p.rules, sample),
                             name, s.serviceRules, sample);
    }
  }

  // ---------------------------------------------------------------------------------------
  // Independence of services
  // ---------------------------------------------------------------------------------------

  function OnlyService(events: seq<Event>, service: string): seq<Event>
  {
    seq(|events|, (i: nat) requires i < |events| =>
      match events[i]
      case SetRules(_, serviceRules) => SetRules([], Filter(Watches(service), serviceRules))
      case Handle(sample) => Handle(sample))
  }

  ghost predicate ServiceSplit(s: EvaluatorState, p: EvaluatorState, service: string)
  {
    && ServiceStateOf(p.serviceStates, service) == ServiceStateOf(s.serviceStates, service)
    && p.published == Filter(FromService(service), s.published)
  }

  /** `p` holds `s`'s view of the rules watching `service`, and nothing else. */
  ghost predicate ServiceView(s: EvaluatorState, p: EvaluatorState, service: string)
  {
    && ServiceSplit(s, p, service)
    && p.rules == []
    && p.serviceRules == Filter(Watches(service), s.serviceRules)
  }

  lemma ServiceStepKeepsView(s: EvaluatorState, p: EvaluatorState, service: string, rule: ServiceRule, sample: Sample)
    requires ServiceSplit(s, p, service)
    ensures rule.serviceName == service ==>
              ServiceSplit(AfterServiceRule(s, rule, sample), AfterServiceRule(p, rule, sample), service)
    ensures rule.serviceName != service ==> ServiceSplit(AfterServiceRule(s, rule, sample), p, service)
  {
    FilterAppend(FromService(service), s.published,
                ServiceMessages(rule, ServiceStateOf(s.serviceStates, rule.serviceName), sample));
  }

  lemma {:induction false} ServiceRulesKeepServiceView(s: EvaluatorState, p: EvaluatorState, service: string,
          rules: seq<ServiceRule>, sample: Sample)
    requires ServiceSplit(s, p, service)
    ensures ServiceSplit(AfterServiceRules(s, rules, sample),
                         AfterServiceRules(p, Filter(Watches(service), rules), sample), service)
    ensures AfterServiceRules(s, rules, sample).rules == s.rules
    ensures AfterServiceRules(s, rules, sample).serviceRules == s.serviceRules
  {
    if rules != [] {
      var init, last := rules[..|rules| - 1], rules[|rules| - 1];
      ServiceRulesKeepServiceView(s, p, service, init, sample);
      ServiceStepKeepsView(AfterServiceRules(s, init, sample),
                           AfterServiceRules(p, Filter(Watches(service), init), sample), service, last, sample);
      if last.serviceName == service {
        assert Filter(Watches(service), rules)[..|Filter(Watches(service), rules)| - 1]
            == Filter(Watches(service), init);
      }
    }
  }

  lemma {:induction false} RulesKeepServiceView(s: EvaluatorState, p: EvaluatorState, service: string,
          rules: seq<Rule>, sample: Sample)
    requires ServiceSplit(s, p, service)
    ensures ServiceSplit(AfterRules(s, rules, sample), p, service)
  {
    if rules != [] {
      var init, last := rules[..|rules| - 1], rules[|rules| - 1];
      RulesKeepServiceView(s, p, service, init, sample);
      var t := AfterRules(s, init, sample);
      FilterAppend(FromService(service), t.published,
                  RuleMessages(last, RuleStateOf(t.ruleStates, last.name), sample));
    }
  }

  /** The same for services: one service's messages come from the rules watching it alone. */
  lemma {:induction false} ServicesAreIndependent(events: seq<Event>, service: string)
    ensures Run(OnlyService(events, service)).published == Filter(FromService(service), Run(events).published)
    ensures ServiceStateOf(Run(OnlyService(events, service)).serviceStates, service)
            == ServiceStateOf(Run(events).serviceStates, service)
    ensures ServiceView(Run(events), Run(OnlyService(events, service)), service)
  {
    if events != [] {
      var init := events[..|events| - 1];
      ServicesAreIndependent(init, service);
      var s, p := Run(init), Run(OnlyService(init, service));
      assert OnlyService(events, service)[..|events| - 1] == OnlyService(init, service);
      match events[|events| - 1]
      case SetRules(rules, serviceRules) =>
      case Handle(sample) =>
        RulesKeepServiceView(s, p, service, s.rules, sample);
        RulesKeepRuleSets(s, s.rules, sample);
        ServiceRulesKeepServiceView(AfterRules(s, s.rules, sample), p, service, s.serviceRules, sample);
        ServiceRulesKeepRuleSets(p, p.serviceRules, sample);
    }
  }

  lemma {:induction false} ServiceRulesKeepRuleSets(s: EvaluatorState, rules: seq<ServiceRule>, sample: Sample)
    ensures AfterServiceRules(s, rules, sample).rules == s.rules
    ensures AfterServiceRules(s, rules, sample).serviceRules == s.serviceRules
    ensures AfterServiceRules(s, rules, sample).ruleStates == s.ruleStates
  {
    if rules != [] {
      ServiceRulesKeepRuleSets(s, rules[..|rules| - 1], sample);
    }
  }

  // ---------------------------------------------------------------------------------------
  // The episode grammar
  // ---------------------------------------------------------------------------------------

  /** Prefixes of (fire, repeat*, recovered)*, stated on neighbours. */
  ghost predicate Episodic(messages: seq<Message>)
  {
    && (forall m :: m in messages ==> m.RuleMessage?)
    && forall i :: 0 <= i < |messages| ==> InPlace(messages, i)
  }

  /** A message is a first fire exactly when no episode is open before it. */
  ghost predicate InPlace(messages: seq<Message>, i: nat)
    requires i < |messages|
    requires forall m :: m in messages ==> m.RuleMessage?
  {
    messages[i].kind == Fire <==> i == 0 || messages[i - 1].kind == Recovered
  }

  ghost predicate EpisodeOpen(messages: seq<Message>)
    requires Episodic(messages)
  {
    messages != [] && messages[|messages| - 1].kind != Recovered
  }

  ghost predicate Matches(messages: seq<Message>, firing: bool)
  {
    Episodic(messages) && (firing <==> EpisodeOpen(messages))
  }

  ghost predicate EpisodeInvariant(s: EvaluatorState, name: string)
  {
    Matches(Filter(FromRule(name), s.published), RuleStateOf(s.ruleStates, name).firing)
  }

  lemma EpisodeGrows(messages: seq<Message>, next: Message)
    requires Episodic(messages) && next.RuleMessage?
    requires next.kind == Fire <==> !EpisodeOpen(messages)
    ensures Episodic(messages + [next])
    ensures EpisodeOpen(messages + [next]) <==> next.kind != Recovered
  {
    forall i | 0 <= i < |messages + [next]| ensures InPlace(messages + [next], i) {
      assert i < |messages| ==> InPlace(messages, i);
    }
  }

  lemma OneRuleSpeaksForItself(rule: Rule, state: RuleState, sample: Sample, name: string)
    ensures Filter(FromRule(name), RuleMessages(rule, state, sample))
            == if rule.name == name then RuleMessages(rule, state, sample) else []
  {
    var messages := RuleMessages(rule, state, sample);
    if messages != [] {
      assert messages[..|messages| - 1] == [];
    }
  }

  lemma KindsMoveFiring(rule: Rule, state: RuleState, sample: Sample)
    ensures var step := StepOn(rule, state, sample);
            match step.kind
            case None => step.state.firing == state.firing
            case Some(kind) => (kind == Fire <==> !state.firing) && (kind != Recovered <==> step.state.firing)
  {
  }

  lemma StepKeepsEpisodes(messages: seq<Message>, rule: Rule, state: RuleState, sample: Sample)
    requires Matches(messages, state.firing)
    ensures Matches(messages + RuleMessages(rule, state, sample), StepOn(rule, state, sample).state.firing)
  {
    KindsMoveFiring(rule, state, sample);
    var extra := RuleMessages(rule, state, sample);
    if extra == [] {
      assert messages + extra == messages;
    } else {
      EpisodeGrows(messages, extra[0]);
    }
  }

  lemma RuleKeepsEpisodes(s: EvaluatorState, rule: Rule, sample: Sample, name: string)
    requires EpisodeInvariant(s, name)
    ensures EpisodeInvariant(AfterRule(s, rule, sample), name)
  {
    var own, state := Filter(FromRule(name), s.published), RuleStateOf(s.ruleStates, rule.name);
    FilterAppend(FromRule(name), s.published, RuleMessages(rule, state, sample));
    OneRuleSpeaksForItself(rule, state, sample, name);
    if rule.name == name {
      StepKeepsEpisodes(own, rule, state, sample);
    } else {
      assert own + [] == own;
    }
  }

  lemma {:induction false} RulesKeepEpisodes(s: EvaluatorState, rules: seq<Rule>, sample: Sample, name: string)
    requires EpisodeInvariant(s, name)
    ensures EpisodeInvariant(AfterRules(s, rules, sample), name)
  {
    if rules != [] {
      RulesKeepEpisodes(s, rules[..|rules| - 1], sample, name);
      RuleKeepsEpisodes(AfterRules(s, rules[..|rules| - 1], sample), rules[|rules| - 1], sample, name);
    }
  }

  /** Over every run, with any rule changes and even with several rules sharing the name: no
      recovery or repeat outside an episode, no second fire inside one, and the firing flag
      says exactly whether an episode is open. */
  lemma {:induction false} EpisodesAreWellFormed(events: seq<Event>, name: string)
    ensures Episodic(Filter(FromRule(name), Run(events).published))
    ensures RuleStateOf(Run(events).ruleStates, name).firing
            <==> EpisodeOpen(Filter(FromRule(name), Run(events).published))
  {
    if events != [] {
      var s := Run(events[..|events| - 1]);
      EpisodesAreWellFormed(events[..|events| - 1], name);
      match events[|events| - 1]
      case SetRules(rules, serviceRules) =>
      case Handle(sample) =>
        RulesKeepEpisodes(s, s.rules, sample, name);
        var t := AfterRules(s, s.rules, sample);
        var view := INITIAL.(ruleStates := t.ruleStates, published := Filter(FromRule(name), t.published));
        ServiceRulesKeepView(t, view, name, s.serviceRules, sample);
        ServiceRulesKeepRuleSets(t, s.serviceRules, sample);
        RulesKeepRuleSets(s, s.rules, sample);
    }
  }

  // ---------------------------------------------------------------------------------------
  // What is sent, and in which order
  // ---------------------------------------------------------------------------------------

  lemma {:induction false} RulesSendBorneOut(s: EvaluatorState, rules: seq<Rule>, sample: Sample)
    ensures forall m :: m in AfterRules(s, rules, sample).published ==>
              m in s.published || (m.RuleMessage? && m.rule in rules && BorneOut(m, m.rule, sample))
  {
    if rules != [] {
      var init, last := rules[..|rules| - 1], rules[|rules| - 1];
      assert rules == init + [last];
      RulesSendBorneOut(s, init, sample);
      RuleMessagesBorneOut(last, RuleStateOf(AfterRules(s, init, sample).ruleStates, last.name), sample);
    }
  }

  lemma {:induction false} ServiceRulesSendNoRuleMessage(s: EvaluatorState, rules: seq<ServiceRule>, sample: Sample)
    ensures forall m :: m in AfterServiceRules(s, rules, sample).published ==> m in s.published || m.ServiceMessage?
  {
    if rules != [] {
      ServiceRulesSendNoRuleMessage(s, rules[..|rules| - 1], sample);
    }
  }

  /** Over every run, each message about a rule was sent for some sample, under a rule in force for
      it, with that rule's own figure from that sample: on the wrong side of the threshold for a
      fire or a repeat, on the right side for a recovery. */
  lemma {:induction false} MessagesAreBorneOut(events: seq<Event>)
    ensures forall m :: m in Run(events).published && m.RuleMessage? ==>
              exists i :: 0 <= i < |events| && events[i].Handle?
                          && m.rule in Run(events[..i]).rules && BorneOut(m, m.rule, events[i].sample)
  {
    if events != [] {
      var init, last := events[..|events| - 1], events[|events| - 1];
      MessagesAreBorneOut(init);
      var s := Run(init);
      forall m | m in Run(events).published && m.RuleMessage?
        ensures exists i :: 0 <= i < |events| && events[i].Handle?
                            && m.rule in Run(events[..i]).rules && BorneOut(m, m.rule, events[i].sample)
      {
        if m in s.published {
          var i :| 0 <= i < |init| && init[i].Handle?
                   && m.rule in Run(init[..i]).rules && BorneOut(m, m.rule, init[i].sample);
          assert init[..i] == events[..i] && events[i] == init[i];
        } else {
          ServiceRulesSendNoRuleMessage(AfterRules(s, s.rules, last.sample), s.serviceRules, last.sample);
          RulesSendBorneOut(s, s.rules, last.sample);
          assert events[..|init|] == init && events[|init|] == last;
        }
      }
    }
  }

  /** The messages of one sample follow the order of the rules, each sending at most one. */
  ghost predicate InRuleOrder(messages: seq<Message>, rules: seq<Rule>)
  {
    exists at: seq<nat> :: RuleOrderAt(messages, rules, at)
  }

  ghost predicate RuleOrderAt(messages: seq<Message>, rules: seq<Rule>, at: seq<nat>)
  {
    && |at| == |messages| && Ascending(at, |rules|)
    && forall k :: 0 <= k < |at| ==> messages[k].RuleMessage? && messages[k].rule == rules[at[k]]
  }

  ghost predicate InServiceRuleOrder(messages: seq<Message>, rules: seq<ServiceRule>)
  {
    exists at: seq<nat> :: ServiceRuleOrderAt(messages, rules, at)
  }

  ghost predicate ServiceRuleOrderAt(messages: seq<Message>, rules: seq<ServiceRule>, at: seq<nat>)
  {
    && |at| == |messages| && Ascending(at, |rules|)
    && forall k :: 0 <= k < |at| ==> messages[k].ServiceMessage? && messages[k].serviceRule == rules[at[k]]
  }

  lemma {:induction false} RulesSendInOrder(s: EvaluatorState, rules: seq<Rule>, sample: Sample)
    returns (sent: seq<Message>, at: seq<nat>)
    ensures AfterRules(s, rules, sample).published == s.published + sent
    ensures RuleOrderAt(sent, rules, at)
  {
    sent, at := [], [];
    if rules != [] {
      var init, last := rules[..|rules| - 1], rules[|rules| - 1];
      sent, at := RulesSendInOrder(s, init, sample);
      var t := AfterRules(s, init, sample);
      if AfterRule(t, last, sample).published != t.published {
        var more := RuleMessages(last, RuleStateOf(t.ruleStates, last.name), sample);
        assert s.published + sent + more == s.published + (sent + more);
        sent, at := sent + more, at + [|init|];
      }
    }
  }

  lemma {:induction false} ServiceRulesSendInOrder(s: EvaluatorState, rules: seq<ServiceRule>, sample: Sample)
    returns (sent: seq<Message>, at: seq<nat>)
    ensures AfterServiceRules(s, rules, sample).published == s.published + sent
    ensures ServiceRuleOrderAt(sent, rules, at)
  {
    sent, at := [], [];
    if rules != [] {
      var init, last := rules[..|rules| - 1], rules[|rules| - 1];
      sent, at := ServiceRulesSendInOrder(s, init, sample);
      var t := AfterServiceRules(s, init, sample);
      if AfterServiceRule(t, last, sample).published != t.published {
        var more := ServiceMessages(last, ServiceStateOf(t.serviceStates, last.serviceName), sample);
        assert s.published + sent + more == s.published + (sent + more);
        sent, at := sent + more, at + [|init|];
      }
    }
  }

  /** A sample's messages: first those of numeric rules, then those of service rules, each in the
      order of the rules in force and at most one a rule. */
  lemma SampleSendsInOrder(events: seq<Event>, sample: Sample)
    ensures exists numeric: seq<Message>, service: seq<Message> ::
              && Run(events + [Handle(sample)]).published == Run(events).published + numeric + service
              && InRuleOrder(numeric, Run(events).rules)
              && InServiceRuleOrder(service, Run(events).serviceRules)
  {
    var s := Run(events);
    assert (events + [Handle(sample)])[..|events|] == events;
    RulesKeepRuleSets(s, s.rules, sample);
    var numeric, at := RulesSendInOrder(s, s.rules, sample);
    var service, serviceAt := ServiceRulesSendInOrder(AfterRules(s, s.rules, sample), s.serviceRules, sample);
    assert InRuleOrder(numeric, s.rules) && InServiceRuleOrder(service, s.serviceRules);
    assert Run(events + [Handle(sample)]).published == s.published + numeric + service;
  }
}
