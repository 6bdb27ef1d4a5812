/**
 When rules get in each other's way. Nothing keeps a configuration from giving two rules one
 name, or from watching one service twice; both then share one kept state. These lemmas say
 exactly for which rule sets every rule still sends what it would send alone.
 */
module AlertInterference {
  import opened GoTime
  import opened Samples
  import opened Sequences
  import opened Wrappers
  import opened Alerts
  import opened AlertRuns
  import opened AlertHistory
  import opened ServiceHistory

  // ---------------------------------------------------------------------------------------
  // Numeric rules
  // ---------------------------------------------------------------------------------------

  lemma {:induction false} SoloMessagesAreOwn(rule: Rule, samples: seq<Sample>)
    ensures forall m :: m in SoloMessages(rule, samples) ==> m.RuleMessage? && m.rule == rule
  {
    if samples != [] {
      SoloMessagesAreOwn(rule, samples[..|samples| - 1]);
    }
  }

  /** A breach as long as the longest `For`. */
  function LongBreach(rule: Rule): seq<Sample>
  {
    [Breaching(rule, 1), Breaching(rule, 1 + MAX_DURATION)]
  }

  /** Being met over the longest `For` makes any rule fire. */
  lemma LongBreachFires(rule: Rule, first: Sample, second: Sample) returns (m: Message)
    requires first.timestamp == 1 && second.timestamp == 1 + MAX_DURATION
    requires Observe(rule, first) == Some(true) && Observe(rule, second) == Some(true)
    ensures m in SoloMessages(rule, [first, second]) && m.RuleMessage? && m.rule == rule && m.kind == Fire
  {
    var samples := [first, second];
    assert samples[..1] == [first] && [first][..0] == [];
    var step := StepOn(rule, QUIET, first);
    assert StateAfter(rule, [first]) == step.state;
    assert SoloMessages(rule, [first]) == [] + RuleMessages(rule, QUIET, first);
    var early, late := RuleMessages(rule, QUIET, first), RuleMessages(rule, step.state, second);
    assert SoloMessages(rule, samples) == early + late;
    assert Sub(1 + MAX_DURATION, 1) >= rule.forDuration;
    m := if early != [] then early[0] else late[0];
  }

  /** A rule can notify at all exactly when its metric and comparator are known. */
  lemma SilentIffInert(rule: Rule)
    ensures Inert(rule) <==> forall samples :: Chronological(samples) ==> SoloMessages(rule, samples) == []
  {
    if Inert(rule) {
      forall samples ensures SoloMessages(rule, samples) == [] {
        InertStaysSilent(rule, samples);
      }
    } else {
      InertIffNeverObserved(rule);
      var m := LongBreachFires(rule, Breaching(rule, 1), Breaching(rule, 1 + MAX_DURATION));
      assert Chronological(LongBreach(rule));
    }
  }

  lemma {:induction false} InertStaysSilent(rule: Rule, samples: seq<Sample>)
    requires Inert(rule)
    ensures SoloMessages(rule, samples) == []
  {
    if samples != [] {
      InertStaysSilent(rule, samples[..|samples| - 1]);
    }
  }

  /** Every rule of the set sends exactly the messages it would send alone. */
  ghost predicate NoRuleDisturbed(rules: seq<Rule>, serviceRules: seq<ServiceRule>, samples: seq<Sample>)
  {
    forall r :: r in rules ==>
      Filter(SentBy(r), FixedRun(rules, serviceRules, samples).published) == SoloMessages(r, samples)
  }

  /** Of any two different rules that share a name, no sample says anything about one. */
  ghost predicate Compatible(rules: seq<Rule>)
  {
    forall r, q :: r in rules && q in rules && r.name == q.name ==> r == q || Inert(r) || Inert(q)
  }

  /** An unrivalled rule sends its own messages, and nothing else is sent under its name. */
  lemma UnrivalledSendsAlone(rules: seq<Rule>, serviceRules: seq<ServiceRule>, samples: seq<Sample>, rule: Rule,
          other: Rule)
    requires Unrivalled(rules, rule) && rule in rules && other.name == rule.name
    requires other == rule || Inert(other)
    ensures Filter(SentBy(other), FixedRun(rules, serviceRules, samples).published) == SoloMessages(other, samples)
  {
    var all, own := FixedRun(rules, serviceRules, samples).published, SoloMessages(rule, samples);
    FixedRunRefinesSolo(rules, serviceRules, samples, rule);
    FilterTwice(SentBy(other), FromRule(rule.name), all);
    SoloMessagesAreOwn(rule, samples);
    assert forall i :: 0 <= i < |own| ==> own[i] in own;
    if other == rule {
      FilterAll(SentBy(rule), own);
    } else {
      FilterNone(SentBy(other), own);
      InertStaysSilent(other, samples);
    }
  }

  lemma CompatibleIsUndisturbed(rules: seq<Rule>, serviceRules: seq<ServiceRule>, samples: seq<Sample>)
    requires Compatible(rules)
    ensures NoRuleDisturbed(rules, serviceRules, samples)
  {
    forall r | r in rules
      ensures Filter(SentBy(r), FixedRun(rules, serviceRules, samples).published) == SoloMessages(r, samples)
    {
      if q :| q in rules && q.name == r.name && !Inert(q) {
        UnrivalledSendsAlone(rules, serviceRules, samples, q, r);
      } else {
        UnrivalledSendsAlone(rules, serviceRules, samples, r, r);
      }
    }
  }

  // ---------------------------------------------------------------------------------------
  // Two live rules under one name
  // ---------------------------------------------------------------------------------------

  lemma {:induction false} RulesSendOwn(s: EvaluatorState, rules: seq<Rule>, sample: Sample)
    ensures s.published <= AfterRules(s, rules, sample).published
    ensures forall m :: m in AfterRules(s, rules, sample).published ==>
              m in s.published || (m.RuleMessage? && m.rule in rules)
  {
    if rules != [] {
      var init, last := rules[..|rules| - 1], rules[|rules| - 1];
      assert rules == init + [last];
      RulesSendOwn(s, init, sample);
    }
  }

  lemma {:induction false} OnlyRulesSend(rules: seq<Rule>, samples: seq<Sample>)
    ensures FixedRun(rules, [], samples).rules == rules && FixedRun(rules, [], samples).serviceRules == []
    ensures forall m :: m in FixedRun(rules, [], samples).published ==> m.RuleMessage? && m.rule in rules
  {
    FixedRunStep(rules, [], samples);
    if samples != [] {
      var init, last := samples[..|samples| - 1], samples[|samples| - 1];
      OnlyRulesSend(rules, init);
      RulesSendOwn(FixedRun(rules, [], init), rules, last);
      RulesKeepRuleSets(FixedRun(rules, [], init), rules, last);
    }
  }

  /** All samples read the same, at whatever times they were taken. */
  ghost predicate OneReading(samples: seq<Sample>, reading: Sample)
  {
    forall i :: 0 <= i < |samples| ==> samples[i] == reading.(timestamp := samples[i].timestamp)
  }

  lemma {:induction false} OneReadingNeverRecovers(rule: Rule, samples: seq<Sample>, reading: Sample)
    requires OneReading(samples, reading)
    ensures forall m :: m in SoloMessages(rule, samples) ==> m.RuleMessage? && m.kind != Recovered
    ensures Observe(rule, reading) != Some(true) ==> !StateAfter(rule, samples).firing
  {
    if samples != [] {
      var init, last := samples[..|samples| - 1], samples[|samples| - 1];
      OneReadingNeverRecovers(rule, init, reading);
      assert Observe(rule, last) == Observe(rule, reading);
    }
  }

  lemma UndisturbedNeverRecovers(rules: seq<Rule>, samples: seq<Sample>, reading: Sample)
    requires OneReading(samples, reading) && NoRuleDisturbed(rules, [], samples)
    ensures forall m :: m in FixedRun(rules, [], samples).published ==> m.RuleMessage? && m.kind != Recovered
  {
    var all := FixedRun(rules, [], samples).published;
    OnlyRulesSend(rules, samples);
    forall m | m in all ensures m.RuleMessage? && m.kind != Recovered {
      FilterMembers(SentBy(m.rule), all);
      assert m in SoloMessages(m.rule, samples);
      OneReadingNeverRecovers(m.rule, samples, reading);
    }
  }

  /** Without a recovery there is one first fire, and it opens an episode that stays open. */
  lemma OneFireWithoutRecovery(messages: seq<Message>, m: Message, n: Message)
    requires Episodic(messages) && forall k :: k in messages ==> k.kind != Recovered
    requires m in messages && n in messages && m.kind == Fire && n.kind == Fire
    ensures m == n && EpisodeOpen(messages)
  {
    var i :| 0 <= i < |messages| && messages[i] == m;
    var j :| 0 <= j < |messages| && messages[j] == n;
    assert InPlace(messages, i) && InPlace(messages, j);
    assert forall k :: 0 <= k < |messages| ==> messages[k] in messages;
  }

  /** Some rule reported a recovery. */
  ghost predicate HasRecovery(s: EvaluatorState)
  {
    exists m :: m in s.published && m.RuleMessage? && m.kind == Recovered
  }

  lemma RuleKeepsFiring(s: EvaluatorState, rule: Rule, sample: Sample, name: string)
    requires HasRecovery(s) || RuleStateOf(s.ruleStates, name).firing
    ensures HasRecovery(AfterRule(s, rule, sample))
            || (RuleStateOf(AfterRule(s, rule, sample).ruleStates, name).firing
                && (rule.name == name ==> Observe(rule, sample) != Some(false)))
  {
    var state := RuleStateOf(s.ruleStates, rule.name);
    var t := AfterRule(s, rule, sample);
    KindsMoveFiring(rule, state, sample);
    if m :| m in s.published && m.RuleMessage? && m.kind == Recovered {
      assert m in t.published;
    } else if StepOn(rule, state, sample).kind == Some(Recovered) {
      var sent := RuleMessages(rule, state, sample);
      assert sent[0] in sent && sent[0] in t.published;
    }
  }

  /** A firing name reports a recovery before a sample is over on which one of its rules is unmet. */
  lemma {:induction false} UnmetRuleRecovers(s: EvaluatorState, rules: seq<Rule>, sample: Sample, name: string)
    requires HasRecovery(s) || RuleStateOf(s.ruleStates, name).firing
    ensures HasRecovery(AfterRules(s, rules, sample))
            || (RuleStateOf(AfterRules(s, rules, sample).ruleStates, name).firing
                && forall q :: q in rules && q.name == name ==> Observe(q, sample) != Some(false))
  {
    if rules != [] {
      var init, last := rules[..|rules| - 1], rules[|rules| - 1];
      assert rules == init + [last];
      UnmetRuleRecovers(s, init, sample, name);
      RuleKeepsFiring(AfterRules(s, init, sample), last, sample, name);
    }
  }

  /** The evaluator with only the rules of one name is undisturbed if the whole one is. */
  lemma NameIsUndisturbed(rules: seq<Rule>, serviceRules: seq<ServiceRule>, samples: seq<Sample>, name: string)
    requires NoRuleDisturbed(rules, serviceRules, samples)
    ensures NoRuleDisturbed(Filter(HasName(name), rules), [], samples)
  {
    var alike := Filter(HasName(name), rules);
    var all := FixedRun(rules, serviceRules, samples).published;
    FixedRunOfName(rules, serviceRules, samples, name);
    FilterMembers(HasName(name), rules);
    forall r | r in alike
      ensures Filter(SentBy(r), FixedRun(alike, [], samples).published) == SoloMessages(r, samples)
    {
      FilterTwice(SentBy(r), FromRule(name), all);
    }
  }

  /** An undisturbed name that has fired keeps its episode open over samples that read alike. */
  lemma UndisturbedKeepsFiring(rules: seq<Rule>, samples: seq<Sample>, reading: Sample, m: Message)
    requires OneReading(samples, reading) && NoRuleDisturbed(rules, [], samples)
    requires m.RuleMessage? && m.rule in rules && m in SoloMessages(m.rule, samples) && m.kind == Fire
    ensures var own := Filter(FromRule(m.rule.name), FixedRun(rules, [], samples).published);
            && Episodic(own) && m in own
            && (forall k :: k in own ==> k.kind != Recovered)
            && RuleStateOf(FixedRun(rules, [], samples).ruleStates, m.rule.name).firing
  {
    var all := FixedRun(rules, [], samples).published;
    var own := Filter(FromRule(m.rule.name), all);
    UndisturbedNeverRecovers(rules, samples, reading);
    EpisodesAreWellFormed([SetRules(rules, [])] + Handles(samples), m.rule.name);
    FilterMembers(SentBy(m.rule), all);
    FilterMembers(FromRule(m.rule.name), all);
    OneFireWithoutRecovery(own, m, m);
  }

  /** Both rules met: only one of them can open the episode, though each would alone. */
  lemma TwoFiresDisturb(rules: seq<Rule>, one: Rule, other: Rule)
    requires one in rules && other in rules && one != other && one.name == other.name && !Inert(one)
    requires Observe(other, Breaching(one, 1)) == Some(true)
    ensures !NoRuleDisturbed(rules, [], LongBreach(one))
  {
    var samples := LongBreach(one);
    InertIffNeverObserved(one);
    assert Observe(other, samples[1]) == Observe(other, samples[0]);
    var m := LongBreachFires(one, samples[0], samples[1]);
    var n := LongBreachFires(other, samples[0], samples[1]);
    if NoRuleDisturbed(rules, [], samples) {
      UndisturbedKeepsFiring(rules, samples, samples[0], m);
      UndisturbedKeepsFiring(rules, samples, samples[0], n);
      OneFireWithoutRecovery(Filter(FromRule(one.name), FixedRun(rules, [], samples).published), m, n);
      assert false;
    }
  }

  lemma UnmetRuleRecoversNext(rules: seq<Rule>, samples: seq<Sample>, next: Sample, rule: Rule)
    requires rule in rules && Observe(rule, next) == Some(false)
    requires RuleStateOf(FixedRun(rules, [], samples).ruleStates, rule.name).firing
    ensures HasRecovery(FixedRun(rules, [], samples + [next]))
  {
    OnlyRulesSend(rules, samples);
    FixedRunStep(rules, [], samples + [next]);
    assert (samples + [next])[..|samples|] == samples;
    UnmetRuleRecovers(FixedRun(rules, [], samples), rules, next, rule.name);
  }

  /** One met, one not: as soon as the first has fired, the name reports a recovery that none of
      its rules would report alone. */
  lemma UnmetRuleDisturbs(rules: seq<Rule>, one: Rule, other: Rule)
    requires one in rules && other in rules && one.name == other.name && !Inert(one)
    requires Observe(other, Breaching(one, 1)) == Some(false)
    ensures var samples := LongBreach(one);
            !NoRuleDisturbed(rules, [], samples) || !NoRuleDisturbed(rules, [], samples + [samples[1]])
  {
    var samples := LongBreach(one);
    var longer := samples + [samples[1]];
    InertIffNeverObserved(one);
    var m := LongBreachFires(one, samples[0], samples[1]);
    if NoRuleDisturbed(rules, [], samples) {
      UndisturbedKeepsFiring(rules, samples, samples[0], m);
      assert Observe(other, samples[1]) == Some(false);
      UnmetRuleRecoversNext(rules, samples, samples[1], other);
      if NoRuleDisturbed(rules, [], longer) {
        UndisturbedNeverRecovers(rules, longer, samples[0]);
        assert false;
      }
    }
  }

  lemma SharedNameDisturbs(rules: seq<Rule>, serviceRules: seq<ServiceRule>, one: Rule, other: Rule)
    requires one in rules && other in rules && one != other && one.name == other.name
    requires !Inert(one) && !Inert(other)
    ensures exists samples :: Chronological(samples) && !NoRuleDisturbed(rules, serviceRules, samples)
  {
    var samples, alike := LongBreach(one), Filter(HasName(one.name), rules);
    var longer := samples + [samples[1]];
    FilterMembers(HasName(one.name), rules);
    assert Chronological(samples) && Chronological(longer);
    if Observe(other, samples[0]) == Some(true) {
      TwoFiresDisturb(alike, one, other);
    } else {
      UnmetRuleDisturbs(alike, one, other);
    }
    if NoRuleDisturbed(rules, serviceRules, samples) {
      NameIsUndisturbed(rules, serviceRules, samples, one.name);
      if NoRuleDisturbed(rules, serviceRules, longer) {
        NameIsUndisturbed(rules, serviceRules, longer, one.name);
        assert false;
      }
    }
  }

  /** Over all histories every rule sends exactly what it would send alone, if and only if of any
      two different rules that share a name one is inert. */
  lemma UndisturbedIffCompatible(rules: seq<Rule>, serviceRules: seq<ServiceRule>)
    ensures Compatible(rules) <==>
            forall samples :: Chronological(samples) ==> NoRuleDisturbed(rules, serviceRules, samples)
  {
    if Compatible(rules) {
      forall samples ensures NoRuleDisturbed(rules, serviceRules, samples) {
        CompatibleIsUndisturbed(rules, serviceRules, samples);
      }
    } else {
      var r, q :| r in rules && q in rules && r.name == q.name && r != q && !Inert(r) && !Inert(q);
      SharedNameDisturbs(rules, serviceRules, r, q);
    }
  }

  /** How it goes wrong: two rules called alike share one state, so on a single busy sample the
      first one fires and the second one at once reports the recovery. */
  lemma SharedNameInterferes(busy: Sample)
    requires busy.cpuPercent > 80.0 && busy.timestamp > ZERO_TIME
    ensures var hot := Rule("cpu", CpuPercent, GreaterThan, 80.0, 0, 0);
            var idle := Rule("cpu", CpuPercent, LessThan, 20.0, 0, 0);
            && FixedRun([hot, idle], [], [busy]).published
               == [RuleMessage(Fire, hot, busy.cpuPercent), RuleMessage(Recovered, idle, busy.cpuPercent)]
            && SoloMessages(hot, [busy]) == [RuleMessage(Fire, hot, busy.cpuPercent)]
            && SoloMessages(idle, [busy]) == []
  {
    var hot := Rule("cpu", CpuPercent, GreaterThan, 80.0, 0, 0);
    var idle := Rule("cpu", CpuPercent, LessThan, 20.0, 0, 0);
    FixedRunStep([hot, idle], [], [busy]);
    FixedRunStep([hot, idle], [], []);
    assert [busy][..0] == [] && [hot, idle][..1] == [hot] && [hot][..0] == [];
    var s := FixedRun([hot, idle], [], []);
    var fired := AfterRule(s, hot, busy);
    assert AfterRules(s, [hot], busy) == fired;
    assert AfterRules(s, [hot, idle], busy) == AfterRule(fired, idle, busy);
  }

  // ---------------------------------------------------------------------------------------
  // Service rules
  // ---------------------------------------------------------------------------------------

  /** Every service rule of the set sends exactly the messages it would send alone. */
  ghost predicate NoServiceDisturbed(rules: seq<Rule>, serviceRules: seq<ServiceRule>, samples: seq<Sample>)
  {
    forall r :: r in serviceRules ==>
      Filter(ServiceSentBy(r), FixedRun(rules, serviceRules, samples).published) == SoloServiceMessages(r, samples)
  }

  /** Rules that watch one service are copies of one rule without repeats. */
  ghost predicate CompatibleServices(rules: seq<ServiceRule>)
  {
    forall i, j :: 0 <= i < j < |rules| && rules[i].serviceName == rules[j].serviceName ==>
      rules[i] == rules[j] && rules[i].repeatInterval <= 0
  }

  function Report(rule: ServiceRule, at: Time, running: bool): Sample
  {
    Sample(at, 0.0, 0.0, 0.0, 0.0, 0.0, 0.0, [ServiceStatus(rule.serviceName, running)])
  }

  lemma {:induction false} SoloServiceMessagesAreOwn(rule: ServiceRule, samples: seq<Sample>)
    ensures forall m :: m in SoloServiceMessages(rule, samples) ==> m.ServiceMessage? && m.serviceRule == rule
  {
    if samples != [] {
      SoloServiceMessagesAreOwn(rule, samples[..|samples| - 1]);
    }
  }

  lemma OutageIsReported(rule: ServiceRule)
    ensures var samples := [Report(rule, 1, true), Report(rule, 2, false)];
            Chronological(samples) && SoloServiceMessages(rule, samples) == [ServiceMessage(Down, rule)]
  {
    var samples := [Report(rule, 1, true), Report(rule, 2, false)];
    assert samples[..1] == [samples[0]] && samples[..1][..0] == [];
    assert ServiceAfter(rule, samples[..1]) == Some(ServiceState(true, ZERO_TIME));
    assert SoloServiceMessages(rule, samples[..1]) == [] + ServiceMessages(rule, None, samples[0]);
  }

  lemma {:induction false} UpIsOnlyRecorded(s: EvaluatorState, rules: seq<ServiceRule>, up: Sample, service: string)
    requires forall r :: r in rules ==> r.serviceName == service
    requires StatusOf(up.services, service) == Some(true) && service !in s.serviceStates
    ensures var t := AfterServiceRules(s, rules, up);
            && t.published == s.published
            && (rules != [] ==> ServiceStateOf(t.serviceStates, service) == Some(ServiceState(true, ZERO_TIME)))
            && (rules == [] ==> t == s)
  {
    if rules != [] {
      var init, last := rules[..|rules| - 1], rules[|rules| - 1];
      assert rules == init + [last] && last in rules && forall r :: r in init ==> r in rules;
      UpIsOnlyRecorded(s, init, up, service);
    }
  }

  lemma {:induction false} FirstSaysDown(s: EvaluatorState, rules: seq<ServiceRule>, down: Sample, service: string)
    requires rules != [] && forall r :: r in rules ==> r.serviceName == service
    requires StatusOf(down.services, service) == Some(false)
    requires ServiceStateOf(s.serviceStates, service) == Some(ServiceState(true, ZERO_TIME))
    ensures var t := AfterServiceRules(s, rules, down);
            && t.published == s.published + [ServiceMessage(Down, rules[0])]
            && ServiceStateOf(t.serviceStates, service) == Some(ServiceState(false, down.timestamp))
  {
    var init, last := rules[..|rules| - 1], rules[|rules| - 1];
    assert rules == init + [last] && last in rules && forall r :: r in init ==> r in rules;
    assert AfterServiceRules(s, [], down) == s;
    if init != [] {
      FirstSaysDown(s, init, down, service);
    }
  }

  /** On a service that goes down, only the first of the rules watching it says so. */
  lemma OnlyFirstSaysDown(rules: seq<ServiceRule>, rule: ServiceRule)
    requires rules != [] && forall r :: r in rules ==> r.serviceName == rule.serviceName
    ensures FixedRun([], rules, [Report(rule, 1, true), Report(rule, 2, false)]).published
            == [ServiceMessage(Down, rules[0])]
  {
    var up, down := Report(rule, 1, true), Report(rule, 2, false);
    assert [up, down][..1] == [up] && [up][..0] == [];
    FixedRunStep([], rules, [up, down]);
    FixedRunStep([], rules, [up]);
    FixedRunStep([], rules, []);
    var s := FixedRun([], rules, []);
    assert AfterRules(s, [], up) == s;
    UpIsOnlyRecorded(s, rules, up, rule.serviceName);
    ServiceRulesKeepRuleSets(s, rules, up);
    var t := FixedRun([], rules, [up]);
    assert AfterRules(t, [], down) == t;
    FirstSaysDown(t, rules, down, rule.serviceName);
  }

  /** So of two different rules watching it, one stays silent that would not be alone. */
  lemma SharedServiceDisturbs(rules: seq<Rule>, serviceRules: seq<ServiceRule>, one: ServiceRule,
          other: ServiceRule)
    requires one in serviceRules && other in serviceRules
    requires one.serviceName == other.serviceName && one != other
    ensures exists samples :: Chronological(samples) && !NoServiceDisturbed(rules, serviceRules, samples)
  {
    var samples := [Report(one, 1, true), Report(one, 2, false)];
    var watching := Filter(Watches(one.serviceName), serviceRules);
    var all := FixedRun(rules, serviceRules, samples).published;
    FilterMembers(Watches(one.serviceName), serviceRules);
    assert one in watching;
    OnlyFirstSaysDown(watching, one);
    FixedRunOfService(rules, serviceRules, samples, one.serviceName);
    var silent := if watching[0] == one then other else one;
    FilterTwice(ServiceSentBy(silent), FromService(one.serviceName), all);
    assert [ServiceMessage(Down, watching[0])][..0] == [];
    assert Filter(ServiceSentBy(silent), all) == [];
    assert samples == [Report(silent, 1, true), Report(silent, 2, false)];
    OutageIsReported(silent);
    assert !NoServiceDisturbed(rules, serviceRules, samples);
  }

  lemma {:induction false} ServiceMessagesOnlyGrow(s: EvaluatorState, rules: seq<ServiceRule>, sample: Sample)
    ensures |AfterServiceRules(s, rules, sample).published| >= |s.published|
  {
    if rules != [] {
      ServiceMessagesOnlyGrow(s, rules[..|rules| - 1], sample);
    }
  }

  lemma ServiceRulesSplit(s: EvaluatorState, first: seq<ServiceRule>, rest: seq<ServiceRule>, sample: Sample)
    ensures AfterServiceRules(s, first + rest, sample)
            == AfterServiceRules(AfterServiceRules(s, first, sample), rest, sample)
  {
    if rest == [] {
      assert first + rest == first;
    } else {
      var init := rest[..|rest| - 1];
      assert (first + rest)[..|first + rest| - 1] == first + init;
      ServiceRulesSplit(s, first, init, sample);
    }
  }

  /** A repeating rule given twice reminds of an outage that was never reported: on the very first
      sample, the second copy finds the state that the first one just recorded. */
  lemma RepeatingCopyReminds(copies: seq<ServiceRule>, rule: ServiceRule)
    requires |copies| >= 2 && copies[0] == rule && copies[1] == rule && rule.repeatInterval > 0
    ensures FixedRun([], copies, [Report(rule, rule.repeatInterval, false)]).published != []
    ensures SoloServiceMessages(rule, [Report(rule, rule.repeatInterval, false)]) == []
  {
    var sample := Report(rule, rule.repeatInterval, false);
    assert [sample][..0] == [];
    FixedRunStep([], copies, [sample]);
    FixedRunStep([], copies, []);
    var s := FixedRun([], copies, []);
    assert AfterRules(s, [], sample) == s;
    assert copies == [rule, rule] + copies[2..];
    ServiceRulesSplit(s, [rule, rule], copies[2..], sample);
    assert [rule, rule][..1] == [rule] && [rule][..0] == [];
    assert AfterServiceRules(s, [rule], sample) == AfterServiceRule(s, rule, sample);
    assert AfterServiceRules(s, [rule, rule], sample).published != [];
    ServiceMessagesOnlyGrow(AfterServiceRules(s, [rule, rule], sample), copies[2..], sample);
  }

  lemma UnsharedSendsAlone(rules: seq<Rule>, serviceRules: seq<ServiceRule>, samples: seq<Sample>,
          rule: ServiceRule)
    requires Unshared(serviceRules, rule.serviceName) && rule in serviceRules
    ensures Filter(ServiceSentBy(rule), FixedRun(rules, serviceRules, samples).published)
            == SoloServiceMessages(rule, samples)
  {
    var own := SoloServiceMessages(rule, samples);
    FixedRunRefinesSoloService(rules, serviceRules, samples, rule);
    FilterTwice(ServiceSentBy(rule), FromService(rule.serviceName), FixedRun(rules, serviceRules, samples).published);
    SoloServiceMessagesAreOwn(rule, samples);
    assert forall i :: 0 <= i < |own| ==> own[i] in own;
    FilterAll(ServiceSentBy(rule), own);
  }

  /** Over all histories every service rule sends exactly what it would send alone, if and only if
      rules on one service are equal and, where there are several, without repeats. */
  lemma UndisturbedIffCompatibleServices(rules: seq<Rule>, serviceRules: seq<ServiceRule>)
    ensures CompatibleServices(serviceRules) <==>
            forall samples :: Chronological(samples) ==> NoServiceDisturbed(rules, serviceRules, samples)
  {
    if CompatibleServices(serviceRules) {
      forall samples ensures NoServiceDisturbed(rules, serviceRules, samples) {
        forall r | r in serviceRules
          ensures Filter(ServiceSentBy(r), FixedRun(rules, serviceRules, samples).published)
                  == SoloServiceMessages(r, samples)
        {
          UnsharedSendsAlone(rules, serviceRules, samples, r);
        }
      }
    } else {
      var i, j :| 0 <= i < j < |serviceRules| && serviceRules[i].serviceName == serviceRules[j].serviceName
                  && !(serviceRules[i] == serviceRules[j] && serviceRules[i].repeatInterval <= 0);
      if serviceRules[i] != serviceRules[j] {
        SharedServiceDisturbs(rules, serviceRules, serviceRules[i], serviceRules[j]);
      } else if exists r :: r in serviceRules && r.serviceName == serviceRules[i].serviceName
                            && r != serviceRules[i] {
        var r :| r in serviceRules && r.serviceName == serviceRules[i].serviceName && r != serviceRules[i];
        SharedServiceDisturbs(rules, serviceRules, serviceRules[i], r);
      } else {
        RepeatingCopyDisturbs(rules, serviceRules, i, j);
      }
    }
  }

  lemma {:induction false} TwoAreSelected(serviceRules: seq<ServiceRule>, i: nat, j: nat)
    requires i < j < |serviceRules| && serviceRules[i].serviceName == serviceRules[j].serviceName
    ensures |Filter(Watches(serviceRules[i].serviceName), serviceRules)| >= 2
  {
    var watched := Watches(serviceRules[i].serviceName);
    var before, after := serviceRules[..j], serviceRules[j..];
    assert serviceRules == before + after && before[i] in before && after[0] in after;
    FilterAppend(watched, before, after);
    FilterMembers(watched, before);
    FilterMembers(watched, after);
    assert before[i] in Filter(watched, before) && after[0] in Filter(watched, after);
  }

  lemma RepeatingCopyDisturbs(rules: seq<Rule>, serviceRules: seq<ServiceRule>, i: nat, j: nat)
    requires i < j < |serviceRules| && serviceRules[i].repeatInterval > 0
    requires serviceRules[i].serviceName == serviceRules[j].serviceName
    requires forall r :: r in serviceRules && r.serviceName == serviceRules[i].serviceName ==> r == serviceRules[i]
    ensures exists samples :: Chronological(samples) && !NoServiceDisturbed(rules, serviceRules, samples)
  {
    var rule := serviceRules[i];
    var samples := [Report(rule, rule.repeatInterval, false)];
    var copies := Filter(Watches(rule.serviceName), serviceRules);
    TwoAreSelected(serviceRules, i, j);
    FilterMembers(Watches(rule.serviceName), serviceRules);
    assert copies[0] in copies && copies[1] in copies;
    RepeatingCopyReminds(copies, rule);
    CopiesSendTogether(rules, serviceRules, samples, rule);
    assert !NoServiceDisturbed(rules, serviceRules, samples);
  }

  lemma CopiesSendTogether(rules: seq<Rule>, serviceRules: seq<ServiceRule>, samples: seq<Sample>,
          rule: ServiceRule)
    requires forall r :: r in serviceRules && r.serviceName == rule.serviceName ==> r == rule
    ensures Filter(ServiceSentBy(rule), FixedRun(rules, serviceRules, samples).published)
            == FixedRun([], Filter(Watches(rule.serviceName), serviceRules), samples).published
  {
    var copies := Filter(Watches(rule.serviceName), serviceRules);
    var sent := FixedRun([], copies, samples).published;
    FixedRunOfService(rules, serviceRules, samples, rule.serviceName);
    FilterTwice(ServiceSentBy(rule), FromService(rule.serviceName), FixedRun(rules, serviceRules, samples).published);
    FilterMembers(Watches(rule.serviceName), serviceRules);
    OnlyServiceRulesSend(copies, samples);
    assert forall i :: 0 <= i < |sent| ==> sent[i] in sent;
    FilterAll(ServiceSentBy(rule), sent);
  }

  lemma {:induction false} ServiceRulesSendOwn(s: EvaluatorState, rules: seq<ServiceRule>, sample: Sample)
    ensures forall m :: m in AfterServiceRules(s, rules, sample).published ==>
              m in s.published || (m.ServiceMessage? && m.serviceRule in rules)
  {
    if rules != [] {
      var init, last := rules[..|rules| - 1], rules[|rules| - 1];
      assert rules == init + [last];
      ServiceRulesSendOwn(s, init, sample);
    }
  }

  lemma {:induction false} OnlyServiceRulesSend(rules: seq<ServiceRule>, samples: seq<Sample>)
    ensures FixedRun([], rules, samples).rules == [] && FixedRun([], rules, samples).serviceRules == rules
    ensures forall m :: m in FixedRun([], rules, samples).published ==> m.ServiceMessage? && m.serviceRule in rules
  {
    FixedRunStep([], rules, samples);
    if samples != [] {
      var init, last := samples[..|samples| - 1], samples[|samples| - 1];
      OnlyServiceRulesSend(rules, init);
      var s := FixedRun([], rules, init);
      assert AfterRules(s, [], last) == s;
      ServiceRulesSendOwn(s, rules, last);
      ServiceRulesKeepRuleSets(s, rules, last);
    }
  }
}
