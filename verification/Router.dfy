/** Virtual models, cascades and workload preferences over the registry
    (engine/inference/router.py). */
module Router {
  import opened Basics
  import opened Registry

  /** Ordered backend groups; `route` has one, `cascade` any number. */
  datatype VirtualModel = VirtualModel(policy: string, steps: seq<set<string>>)

  datatype Rule = Rule(name: string, kind: string, model: string, preferred: set<string>, enabled: bool)

  datatype Routing = Routing(vmodels: map<string, VirtualModel>, rules: seq<Rule>, rulesEnabled: bool)

  datatype Request = Request(name: string, digest: Option<nat>, features: set<string>)

  datatype Fallback = CascadeEscalation | SpilloverUsed

  /** Why a request landed where it did, with the router's policy context. */
  datatype Decision = Decision(index: nat, reason: Reason, tier: Tier, fallbacks: seq<Fallback>,
                               policy: string, step: Option<nat>, rule: Option<string>)

  datatype RouteResult = Routed(decision: Decision) | RouteUnloaded | RouteUnsupported | RouteBusy

  const STRUCTURED_OUTPUT := "structured_output"

  predicate Virtual(rt: Routing, name: string) { name in rt.vmodels }

  predicate Matches(rule: Rule, req: Request) {
    rule.enabled && rule.kind == "structured_output_preference" && rule.model == req.name
    && STRUCTURED_OUTPUT in req.features
  }

  function FirstMatch(rules: seq<Rule>, req: Request): Option<Rule> {
    if rules == [] then None
    else if Matches(rules[0], req) then Some(rules[0])
    else FirstMatch(rules[1..], req)
  }

  function MatchingRule(rt: Routing, req: Request): Option<Rule> {
    if !rt.rulesEnabled || Virtual(rt, req.name) then None else FirstMatch(rt.rules, req)
  }

  function PhysicalQuery(req: Request, allowed: Option<set<string>>): Query {
    Query(req.digest, allowed, Some(req.name), req.features)
  }

  function StepQuery(req: Request, step: set<string>): Query {
    Query(req.digest, Some(step), None, req.features)
  }

  function TierFallbacks(tier: Tier): seq<Fallback> { if tier.Spillover? then [SpilloverUsed] else [] }

  function Failure(o: Outcome): RouteResult
    requires !o.Leased?
  {
    match o case NotLoaded => RouteUnloaded case FeatureUnsupported => RouteUnsupported case AllBusy => RouteBusy
  }

  function Base(c: Choice, rule: Option<string>): RouteResult {
    Routed(Decision(c.index, c.reason, c.tier, TierFallbacks(c.tier), "base", None, rule))
  }

  function Step(c: Choice, policy: string, i: nat): RouteResult {
    Routed(Decision(c.index, c.reason, c.tier, (if i > 0 then [CascadeEscalation] else []) + TierFallbacks(c.tier),
                    policy, Some(i), None))
  }

  /** A request for a physical model without a preference. */
  function Baseline(entries: seq<Entry>, req: Request): RouteResult {
    var o := Place(entries, PhysicalQuery(req, None));
    if o.Leased? then Base(o.choice, None) else Failure(o)
  }

  /** The registry's answer for one cascade step. */
  function Answer(entries: seq<Entry>, req: Request, step: set<string>): (r: Outcome)
    ensures r.Leased? ==> r.choice.index < |entries|
  {
    Place(entries, StepQuery(req, step))
  }

  /** The rest of a cascade from step `i`, given which failures were seen. */
  function CascadeFrom(entries: seq<Entry>, req: Request, vm: VirtualModel, i: nat, busy: bool,
                       feature: bool): (r: RouteResult)
    requires i <= |vm.steps|
    ensures r.Routed? ==> r.decision.index < |entries|
    decreases |vm.steps| - i
  {
    if i == |vm.steps| then
      if busy then RouteBusy else if feature then RouteUnsupported else RouteUnloaded
    else
      match Answer(entries, req, vm.steps[i])
      case Leased(c) => Step(c, vm.policy, i)
      case AllBusy => CascadeFrom(entries, req, vm, i + 1, true, feature)
      case FeatureUnsupported => CascadeFrom(entries, req, vm, i + 1, busy, true)
      case NotLoaded => CascadeFrom(entries, req, vm, i + 1, busy, feature)
  }

  /** What `acquire` answers in a given registry state. */
  function Route(rt: Routing, entries: seq<Entry>, req: Request): (r: RouteResult)
    ensures r.Routed? ==> r.decision.index < |entries|
  {
    var rule := MatchingRule(rt, req);
    var preferred := if rule.Some? then Place(entries, PhysicalQuery(req, Some(rule.value.preferred))) else NotLoaded;
    if preferred.Leased? then Base(preferred.choice, Some(rule.value.name))
    else if !Virtual(rt, req.name) then Baseline(entries, req)
    else CascadeFrom(entries, req, rt.vmodels[req.name], 0, false, false)
  }

  /** The loop of `Router.acquire` over cascade steps, with its two flags. */
  method AcquireCascade(registry: BackendRegistry, req: Request, vm: VirtualModel) returns (r: RouteResult)
    modifies registry
    ensures r == CascadeFrom(old(registry.entries), req, vm, 0, false, false)
    ensures r.Routed? ==> r.decision.index < |old(registry.entries)|
                          && registry.entries == Reserve(old(registry.entries), r.decision.index)
    ensures !r.Routed? ==> registry.entries == old(registry.entries)
  {
    hide Registry.Place, Registry.CanTake, OnlyAt;
    var sawBusy, sawFeature, i := false, false, 0;
    while i < |vm.steps|
      invariant i <= |vm.steps| && registry.entries == old(registry.entries)
      invariant CascadeFrom(old(registry.entries), req, vm, 0, false, false)
                == CascadeFrom(old(registry.entries), req, vm, i, sawBusy, sawFeature)
    {
      var o := registry.Acquire(StepQuery(req, vm.steps[i]));
      match o {
        case Leased(c) =>
          OneSlotTaken(old(registry.entries), registry.entries, c.index);
          return Step(c, vm.policy, i);
        case AllBusy => sawBusy := true;
        case FeatureUnsupported => sawFeature := true;
        case NotLoaded =>
      }
      i := i + 1;
    }
    r := if sawBusy then RouteBusy else if sawFeature then RouteUnsupported else RouteUnloaded;
  }

  /** `Router.acquire`: a failed attempt leaves the registry as it was; a lease
      takes exactly one slot, on the backend the decision names. */
  method Acquire(rt: Routing, registry: BackendRegistry, req: Request) returns (r: RouteResult)
    modifies registry
    ensures r == Route(rt, old(registry.entries), req)
    ensures r.Routed? ==> r.decision.index < |old(registry.entries)|
                          && registry.entries == Reserve(old(registry.entries), r.decision.index)
    ensures !r.Routed? ==> registry.entries == old(registry.entries)
  {
    hide Registry.Place, CascadeFrom, MatchingRule, Registry.CanTake, OnlyAt;
    var rule := MatchingRule(rt, req);
    if rule.Some? {
      var o := registry.Acquire(PhysicalQuery(req, Some(rule.value.preferred)));
      if o.Leased? {
        OneSlotTaken(old(registry.entries), registry.entries, o.choice.index);
        return Base(o.choice, Some(rule.value.name));
      }
    }
    if !Virtual(rt, req.name) {
      var o := registry.Acquire(PhysicalQuery(req, None));
      if o.Leased? { OneSlotTaken(old(registry.entries), registry.entries, o.choice.index); }
      r := if o.Leased? then Base(o.choice, None) else Failure(o);
    } else {
      r := AcquireCascade(registry, req, rt.vmodels[req.name]);
    }
  }

  // -------------------------------------------- what routing means

  predicate Fails(entries: seq<Entry>, req: Request, vm: VirtualModel, k: nat)
    requires k <= |vm.steps|
  {
    forall j | 0 <= j < k :: !Answer(entries, req, vm.steps[j]).Leased?
  }

  predicate Saw(entries: seq<Entry>, req: Request, vm: VirtualModel, k: nat, o: Outcome)
    requires k <= |vm.steps|
  {
    exists j :: 0 <= j < k && Answer(entries, req, vm.steps[j]) == o
  }

  /** A cascade leases from its first step that can admit the request, recording
      an escalation exactly when that is not the first step; if none can, it
      reports busy over feature over unloaded. */
  lemma {:induction false} CascadeIsFirstFit(entries: seq<Entry>, req: Request, vm: VirtualModel, i: nat, busy: bool,
                                             feature: bool)
    requires i <= |vm.steps| && Fails(entries, req, vm, i)
    requires busy == Saw(entries, req, vm, i, AllBusy) && feature == Saw(entries, req, vm, i, FeatureUnsupported)
    ensures var r := CascadeFrom(entries, req, vm, i, busy, feature);
            var n := |vm.steps|;
            if r.Routed? then
              && r.decision.step.Some? && r.decision.step.value < n
              && Fails(entries, req, vm, r.decision.step.value)
              && Answer(entries, req, vm.steps[r.decision.step.value])
                   == Leased(Choice(r.decision.index, r.decision.reason, r.decision.tier))
              && (CascadeEscalation in r.decision.fallbacks <==> r.decision.step.value > 0)
              && (SpilloverUsed in r.decision.fallbacks <==> r.decision.tier.Spillover?)
              && r.decision.policy == vm.policy && r.decision.rule.None?
            else
              && Fails(entries, req, vm, n)
              && (r.RouteBusy? <==> Saw(entries, req, vm, n, AllBusy))
              && (r.RouteUnsupported? <==>
                    Saw(entries, req, vm, n, FeatureUnsupported) && !Saw(entries, req, vm, n, AllBusy))
    decreases |vm.steps| - i
  {
    hide Registry.Place;
    if i < |vm.steps| {
      var o := Answer(entries, req, vm.steps[i]);
      if !o.Leased? {
        SawStep(entries, req, vm, i, AllBusy);
        SawStep(entries, req, vm, i, FeatureUnsupported);
        CascadeIsFirstFit(entries, req, vm, i + 1, busy || o.AllBusy?, feature || o.FeatureUnsupported?);
      }
    }
  }

  lemma SawStep(entries: seq<Entry>, req: Request, vm: VirtualModel, i: nat, o: Outcome)
    requires i < |vm.steps|
    ensures Saw(entries, req, vm, i + 1, o) <==> Saw(entries, req, vm, i, o) || Answer(entries, req, vm.steps[i]) == o
  {
    hide Answer;
  }

  /** Whatever the policy, a leased backend is ready, supports the request's
      features and had a free slot. */
  lemma RoutedCanTake(rt: Routing, entries: seq<Entry>, req: Request)
    ensures var r := Route(rt, entries, req);
            r.Routed? ==>
              var e := entries[r.decision.index];
              e.IsReady() && e.HasCapacity() && req.features <= e.backend.value.caps.features
              && (!Virtual(rt, req.name) ==> e.LiveModel() == Some(req.name))
  {
    hide Registry.Place;
    hide CascadeFrom;
    var rule := MatchingRule(rt, req);
    if rule.Some? { PlacementIsExact(entries, PhysicalQuery(req, Some(rule.value.preferred))); }
    PlacementIsExact(entries, PhysicalQuery(req, None));
    if Virtual(rt, req.name) {
      var vm := rt.vmodels[req.name];
      CascadeIsFirstFit(entries, req, vm, 0, false, false);
      var r := CascadeFrom(entries, req, vm, 0, false, false);
      if r.Routed? { PlacementIsExact(entries, StepQuery(req, vm.steps[r.decision.step.value])); }
    }
  }

  // ------------------------------------------------------------- dry run

  datatype StepRow = StepRow(targets: Option<set<string>>, chosen: Option<string>, candidates: seq<nat>)

  datatype PlanResult = PlanResult(chosen: Option<string>, chosenStep: Option<nat>, steps: seq<StepRow>)

  function StepQueries(req: Request, steps: seq<set<string>>): (r: seq<Query>)
    ensures |r| == |steps| && forall i | 0 <= i < |r| :: r[i] == StepQuery(req, steps[i])
  {
    seq(|steps|, i requires 0 <= i < |steps| => StepQuery(req, steps[i]))
  }

  /** The placement scopes `plan` walks, in order. */
  function Attempts(rt: Routing, req: Request): (r: seq<Query>) {
    var rule := MatchingRule(rt, req);
    if rule.Some? then [PhysicalQuery(req, Some(rule.value.preferred)), PhysicalQuery(req, None)]
    else if Virtual(rt, req.name) then StepQueries(req, rt.vmodels[req.name].steps)
    else [PhysicalQuery(req, None)]
  }

  lemma PlaceIsSelect(entries: seq<Entry>, q: Query)
    ensures Place(entries, q).Leased? == Select(entries, q).Some?
    ensures Select(entries, q).Some? ==> Place(entries, q) == Leased(Select(entries, q).value)
  {
  }

  /** `acquire` leases from the first of the scopes `plan` walks that selects. */
  lemma RouteIsFirstAttempt(rt: Routing, entries: seq<Entry>, req: Request, k: nat)
    requires var as_ := Attempts(rt, req);
             && k <= |as_|
             && (forall j | 0 <= j < k :: Select(entries, as_[j]).None?)
             && (k < |as_| ==> Select(entries, as_[k]).Some?)
    ensures var as_, r := Attempts(rt, req), Route(rt, entries, req);
            if k == |as_| then !r.Routed?
            else r.Routed? && r.decision.index == Select(entries, as_[k]).value.index
                 && (Virtual(rt, req.name) ==> r.decision.step == Some(k))
  {
    hide Registry.Place;
    hide Registry.Select;
    var as_ := Attempts(rt, req);
    forall j | 0 <= j < |as_|
      ensures Place(entries, as_[j]).Leased? == Select(entries, as_[j]).Some?
      ensures Select(entries, as_[j]).Some? ==> Place(entries, as_[j]) == Leased(Select(entries, as_[j]).value)
    {
      PlaceIsSelect(entries, as_[j]);
    }
    if Virtual(rt, req.name) {
      CascadeAtFirst(entries, req, rt.vmodels[req.name], k, 0, false, false);
    } else {
      PlaceIsSelect(entries, as_[0]);
      PlaceIsSelect(entries, as_[|as_| - 1]);
    }
  }

  lemma {:induction false} CascadeAtFirst(entries: seq<Entry>, req: Request, vm: VirtualModel, k: nat, i: nat,
                                          busy: bool, feature: bool)
    requires i <= k <= |vm.steps| && Fails(entries, req, vm, k)
    requires k < |vm.steps| ==> Answer(entries, req, vm.steps[k]).Leased?
    ensures var r := CascadeFrom(entries, req, vm, i, busy, feature);
            if k == |vm.steps| then !r.Routed?
            else r == Step(Answer(entries, req, vm.steps[k]).choice, vm.policy, k)
    decreases k - i
  {
    hide Answer;
    if i < k {
      var o := Answer(entries, req, vm.steps[i]);
      CascadeAtFirst(entries, req, vm, k, i + 1, busy || o.AllBusy?, feature || o.FeatureUnsupported?);
    }
  }

  /** `Router.plan`. In the same registry state it chooses a backend exactly
      when `acquire` would lease that backend, none exactly when `acquire`
      raises, and for a virtual model the step it names is the lease's step.
      Every row lists exactly the eligible entries of its scope. */
  method Plan(rt: Routing, entries: seq<Entry>, req: Request) returns (p: PlanResult)
    ensures var r := Route(rt, entries, req);
            if r.Routed? then
              && r.decision.index < |entries| && p.chosen == Some(entries[r.decision.index].cfg.name)
              && (Virtual(rt, req.name) ==> p.chosenStep == r.decision.step)
            else p.chosen.None? && p.chosenStep.None?
    ensures |p.steps| == |Attempts(rt, req)|
    ensures forall i | 0 <= i < |p.steps| ::
              && p.steps[i].targets == Attempts(rt, req)[i].allowed
              && p.steps[i].candidates == Positions(entries, Attempts(rt, req)[i], Pool)
              && p.steps[i].chosen == if p.chosenStep == Some(i) then p.chosen else None
  {
    hide Registry.Select;
    hide Route;
    hide Registry.Positions;
    var queries := Attempts(rt, req);
    var chosen: Option<string>, chosenStep: Option<nat> := None, None;
    var rows: seq<StepRow>, i := [], 0;
    ghost var first := |queries|;
    while i < |queries|
      invariant i <= |queries| == |Attempts(rt, req)| && |rows| == i && queries == Attempts(rt, req)
      invariant forall j | 0 <= j < i && j < first :: Select(entries, queries[j]).None?
      invariant if chosenStep.None? then first == |queries| && chosen.None?
                else chosenStep == Some(first) && first < i && Select(entries, queries[first]).Some?
                     && chosen == Some(entries[Select(entries, queries[first]).value.index].cfg.name)
      invariant forall j | 0 <= j < i ::
                  && rows[j].targets == queries[j].allowed && rows[j].candidates == Positions(entries, queries[j], Pool)
                  && rows[j].chosen == if chosenStep == Some(j) then chosen else None
    {
      var entry := if chosen.None? then Select(entries, queries[i]) else None;
      var stepChoice := if entry.Some? then Some(entries[entry.value.index].cfg.name) else None;
      if chosen.None? && stepChoice.Some? {
        chosen, chosenStep := stepChoice, Some(i);
        first := i;
      }
      rows := rows + [StepRow(queries[i].allowed, stepChoice, Positions(entries, queries[i], Pool))];
      i := i + 1;
    }
    RouteIsFirstAttempt(rt, entries, req, first);
    p := PlanResult(chosen, chosenStep, rows);
  }

  // -------------------------------------------------- workload preferences

  /** The answer to a request for a physical model is the registry's, under the
      name of `rule` if a preference placed it. */
  predicate Relays(r: RouteResult, o: Outcome, rule: Option<string>) {
    if o.Leased? then
      && r.Routed? && r.decision.index == o.choice.index && r.decision.reason == o.choice.reason
      && r.decision.tier == o.choice.tier && r.decision.policy == "base" && r.decision.step == None
      && r.decision.fallbacks == (if o.choice.tier == Spillover then [SpilloverUsed] else [])
      && r.decision.rule == rule
    else
      r == (if o == NotLoaded then RouteUnloaded else if o == FeatureUnsupported then RouteUnsupported else RouteBusy)
  }

  lemma {:induction false} FirstMatchIsFirst(rules: seq<Rule>, req: Request, k: nat)
    requires k <= |rules|
    requires forall j | 0 <= j < k :: !Matches(rules[j], req)
    requires k < |rules| ==> Matches(rules[k], req)
    ensures FirstMatch(rules, req) == if k < |rules| then Some(rules[k]) else None
    decreases |rules|
  {
    if k > 0 { FirstMatchIsFirst(rules[1..], req, k - 1); }
  }

  /** A workload preference, exactly. Let rule `k` be the first enabled
      structured-output preference for the requested model (`k` past the end if
      there is none). While preferences are switched on, a request for that
      physical model that requires structured output is placed on one of the
      rule's backends, and says so, whenever one of them can take it. Every other
      request for a physical model gets the registry's unscoped answer. */
  lemma PreferenceIsExact(rt: Routing, entries: seq<Entry>, req: Request, k: nat)
    requires k <= |rt.rules|
    requires forall j | 0 <= j < k ::
               !(rt.rules[j].enabled && rt.rules[j].kind == "structured_output_preference"
                 && rt.rules[j].model == req.name)
    requires k < |rt.rules| ==>
               rt.rules[k].enabled && rt.rules[k].kind == "structured_output_preference"
               && rt.rules[k].model == req.name
    requires req.name !in rt.vmodels
    ensures var r := Route(rt, entries, req);
            var wide := Query(req.digest, None, Some(req.name), req.features);
            if rt.rulesEnabled && k < |rt.rules| && "structured_output" in req.features
               && exists i :: 0 <= i < |entries| && entries[i].cfg.name in rt.rules[k].preferred
                              && CanTake(entries[i], wide)
            then
              && Relays(r, Place(entries, wide.(allowed := Some(rt.rules[k].preferred))), Some(rt.rules[k].name))
              && r.Routed? && entries[r.decision.index].cfg.name in rt.rules[k].preferred
            else Relays(r, Place(entries, wide), None)
  {
    hide Registry.Place;
    if "structured_output" in req.features {
      FirstMatchIsFirst(rt.rules, req, k);
    } else {
      FirstMatchIsFirst(rt.rules, req, |rt.rules|);
    }
    var wide := Query(req.digest, None, Some(req.name), req.features);
    if k < |rt.rules| {
      var narrow := wide.(allowed := Some(rt.rules[k].preferred));
      PlacementIsExact(entries, narrow);
      assert forall e: Entry :: CanTake(e, narrow) == (e.cfg.name in rt.rules[k].preferred && CanTake(e, wide));
    }
  }

  /** No backend of the step can take the request. */
  predicate Refuses(entries: seq<Entry>, req: Request, step: set<string>) {
    !exists i :: 0 <= i < |entries| && CanTake(entries[i], Query(req.digest, Some(step), None, req.features))
  }

  predicate Answers(entries: seq<Entry>, req: Request, step: set<string>, o: Outcome) {
    Place(entries, Query(req.digest, Some(step), None, req.features)) == o
  }

  /** A request for a virtual model, exactly: the registry's answer for the first
      step whose backends can take it, whatever model they serve. */
  lemma CascadeIsExact(rt: Routing, entries: seq<Entry>, req: Request, k: nat)
    requires req.name in rt.vmodels && k <= |rt.vmodels[req.name].steps|
    requires var steps := rt.vmodels[req.name].steps;
             && (forall j | 0 <= j < k :: Refuses(entries, req, steps[j]))
             && (k < |steps| ==> !Refuses(entries, req, steps[k]))
    ensures var r, vm := Route(rt, entries, req), rt.vmodels[req.name];
            if k < |vm.steps| then
              var o := Place(entries, Query(req.digest, Some(vm.steps[k]), None, req.features));
              && o.Leased? && r.Routed? && r.decision.step == Some(k) && r.decision.policy == vm.policy
              && r.decision.index == o.choice.index && r.decision.reason == o.choice.reason
              && r.decision.tier == o.choice.tier && r.decision.rule == None
              && r.decision.fallbacks == (if k > 0 then [CascadeEscalation] else [])
                                         + (if o.choice.tier == Spillover then [SpilloverUsed] else [])
            else
              && !r.Routed?
              && (r.RouteBusy? <==> exists j :: 0 <= j < k && Answers(entries, req, vm.steps[j], AllBusy))
              && (r.RouteUnsupported? <==>
                    !r.RouteBusy? && exists j :: 0 <= j < k && Answers(entries, req, vm.steps[j], FeatureUnsupported))
  {
    hide Registry.Place;
    var vm := rt.vmodels[req.name];
    forall j | 0 <= j < |vm.steps|
      ensures Answer(entries, req, vm.steps[j]).Leased? <==> !Refuses(entries, req, vm.steps[j])
    {
      PlacementIsExact(entries, StepQuery(req, vm.steps[j]));
    }
    CascadeAtFirst(entries, req, vm, k, 0, false, false);
    if k == |vm.steps| {
      CascadeIsFirstFit(entries, req, vm, 0, false, false);
      assert forall j, o | 0 <= j < k ::
          Answers(entries, req, vm.steps[j], o) == (Answer(entries, req, vm.steps[j]) == o);
    }
  }

  /** A preference never costs admission: switching every rule off changes
      neither whether a request is placed nor the error it gets. */
  lemma RulesCostNothing(rt: Routing, entries: seq<Entry>, req: Request)
    ensures var r, off := Route(rt, entries, req), Route(rt.(rulesEnabled := false), entries, req);
            r.Routed? == off.Routed? && (!r.Routed? ==> r == off)
  {
    hide Registry.Place;
    hide CascadeFrom;
    var rule := MatchingRule(rt, req);
    if rule.Some? {
      var narrow, wide := PhysicalQuery(req, Some(rule.value.preferred)), PhysicalQuery(req, None);
      PlacementIsExact(entries, narrow);
      PlacementIsExact(entries, wide);
      assert forall e: Entry :: CanTake(e, narrow) ==> CanTake(e, wide);
    }
  }

  /** The pool configuration builds: `n` primary entries, then spillover ones,
      with distinct names. */
  predicate BuiltPool(entries: seq<Entry>, n: nat) {
    && n <= |entries|
    && (forall i | 0 <= i < |entries| :: entries[i].cfg.spillover == (i >= n))
    && (forall i, j | 0 <= i < j < |entries| :: entries[i].cfg.name != entries[j].cfg.name)
  }

  /** Configuration accepts an enabled rule only if it names primary entries. */
  predicate ValidatedRule(rule: Rule, entries: seq<Entry>, n: nat)
    requires n <= |entries|
  {
    rule.enabled ==> forall name | name in rule.preferred :: exists i :: 0 <= i < n && entries[i].cfg.name == name
  }

  /** A validated rule never places a request on spillover. */
  lemma RulesStayPrimary(rt: Routing, entries: seq<Entry>, n: nat, req: Request)
    requires BuiltPool(entries, n) && forall i | 0 <= i < |rt.rules| :: ValidatedRule(rt.rules[i], entries, n)
    ensures var r := Route(rt, entries, req);
            r.Routed? && r.decision.rule.Some? ==> r.decision.tier == Primary && r.decision.index < n
  {
    hide Registry.Place;
    hide CascadeFrom;
    var rule := MatchingRule(rt, req);
    CascadeNamesNoRule(rt, entries, req);
    if rule.Some? {
      MatchIsListed(rt.rules, req);
      var q := PhysicalQuery(req, Some(rule.value.preferred));
      PlacementIsExact(entries, q);
      if Place(entries, q).Leased? {
        SpilloverIsLastResort(entries, q);
        var k := Place(entries, q).choice.index;
        assert entries[k].cfg.name in rule.value.preferred;
      }
    }
  }

  lemma {:induction false} MatchIsListed(rules: seq<Rule>, req: Request)
    ensures FirstMatch(rules, req).Some? ==>
            FirstMatch(rules, req).value in rules && FirstMatch(rules, req).value.enabled
    decreases |rules|
  {
    if rules != [] { MatchIsListed(rules[1..], req); }
  }

  lemma CascadeNamesNoRule(rt: Routing, entries: seq<Entry>, req: Request)
    ensures Virtual(rt, req.name) ==>
              var r := CascadeFrom(entries, req, rt.vmodels[req.name], 0, false, false);
              r.Routed? ==> r.decision.rule.None?
  {
    if Virtual(rt, req.name) { NoRuleFrom(entries, req, rt.vmodels[req.name], 0, false, false); }
  }

  lemma {:induction false} NoRuleFrom(entries: seq<Entry>, req: Request, vm: VirtualModel, i: nat, busy: bool,
                                      feature: bool)
    requires i <= |vm.steps|
    ensures var r := CascadeFrom(entries, req, vm, i, busy, feature); r.Routed? ==> r.decision.rule.None?
    decreases |vm.steps| - i
  {
    hide Answer;
    if i < |vm.steps| {
      var o := Answer(entries, req, vm.steps[i]);
      NoRuleFrom(entries, req, vm, i + 1, busy || o.AllBusy?, feature || o.FeatureUnsupported?);
    }
  }
}
