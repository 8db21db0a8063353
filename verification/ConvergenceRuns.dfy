/** The actions before the pin, and the convergence of whole runs. */
module ConvergenceRuns {
  import opened Wrappers
  import opened Installation
  import opened Planner
  import opened Convergence
  import opened ConvergenceLate
  import Answers = PlannerAnswers

  // ----- what a plan says about the site it was observed on -----

  /** The parts of readiness that no early action touches. */
  ghost predicate Prospect(setting: Setting, plan: Plan, s: Site) {
    var inputs := setting.request.inputs;
    && setting.additions.Valid()
    && plan.network == s.network.None? && (s.network.Some? ==> NetworkFits(s.network.value, inputs.layout))
    && plan.volume == s.volume.None? && (s.volume.Some? ==> VolumeFits(s.volume.value, inputs.layout))
    && plan.instance == s.instance.None?
    && (s.instance.Some? ==> Compatible(s.instance.value, plan.fingerprint, inputs))
    && (plan.credentials == Generate <==> s.credentials.None?)
    && (plan.credentials == Generate ==> setting.request.roster.Some?)
    && (s.credentials.Some? ==>
          (plan.credentials == Roster <==>
             setting.request.roster.Some? && setting.request.roster.value != s.credentials.value.authorizedKeys))
    && (!plan.deliver ==>
          && s.instance.Some? && s.credentials.Some? && plan.credentials == Reuse
          && MatchesCredentials(s.instance.value.config, Values(s.credentials.value)))
  }

  /** The plan for the site: it exists, and this is it. */
  ghost predicate Planned(setting: Setting, plan: Plan, s: Site) {
    && setting.additions.Valid()
    && Observe(setting, s).Success?
    && PlanOf(Observe(setting, s).value, setting.request) == Success(plan)
  }

  lemma PlannedProspect(setting: Setting, plan: Plan, s: Site)
    requires Planned(setting, plan, s)
    ensures Prospect(setting, plan, s) && Selected(setting, plan, s)
    ensures plan.pin <==> s.pin != Some(plan.fingerprint)
    ensures PlanCheckout(CheckoutOf(setting, s)) == Success(plan.checkout)
    ensures PlanImage(Observe(setting, s).value, setting.request.inputs) == Success(plan.image)
  {
    hide Select, NetworkFits, VolumeFits, JudgeInstance, MatchesCredentials, HasManagedCredentials, Values, PlanImage,
         PlanCheckout, CheckoutOf;
  }

  // ----- the checkout -----

  function Cloned(plan: Plan, s: Site): Site {
    if plan.checkout.None? then s else s.(restorePoint := Some(plan.checkout.value.commit), cloned := true)
  }

  function ImageActions(plan: Plan): seq<Action> {
    If(plan.image.imports, ImportImage) + (If(plan.image.replace.Some?, DeleteImage) + If(plan.image.alias, CreateAlias))
  }

  lemma CheckoutFirst(setting: Setting, plan: Plan, o: Observation, s: Site) returns (o': Observation)
    requires Selected(setting, plan, s) && PlanCheckout(CheckoutOf(setting, s)) == Success(plan.checkout)
    ensures var s' := Cloned(plan, s);
            && PerformAll(setting, Early(plan), plan, o, s) == PerformAll(setting, ImageActions(plan), plan, o', s')
            && Selected(setting, plan, s')
            && (CheckoutOf(setting, s') == Operator || CheckoutOf(setting, s') == Present(true))
            && (plan.checkout.Some? ==> o' == Observe(setting, s').value)
            && (plan.checkout.None? ==> o' == o && s' == s)
  {
    hide Select, JudgeInstance;
    var s' := Cloned(plan, s);
    assert Early(plan) == If(plan.checkout.Some?, MaterializeCheckout) + ImageActions(plan);
    PerformIf(setting, plan.checkout.Some?, MaterializeCheckout, ImageActions(plan), plan, o, s);
    if plan.checkout.Some? {
      o' := Observe(setting, s').value;
      assert Perform(setting, MaterializeCheckout, plan, o, s) == Success((s', o'));
    } else {
      o' := o;
    }
  }

  // ----- the images -----

  /** The content of the source fits the target. */
  ghost predicate ContentFits(setting: Setting) {
    setting.source.Content? && Fitting(setting, setting.source.fingerprint, setting.source.image)
  }

  /** The selected image is in place and, if it was staged, aliased. */
  ghost predicate ImageReady(setting: Setting, plan: Plan, s: Site) {
    && Selected(setting, plan, s) && plan.fingerprint in s.images
    && (setting.source.Content? ==>
          && ORCHESTRATOR in s.aliases && s.aliases[ORCHESTRATOR] == plan.fingerprint
          && Fitting(setting, plan.fingerprint, s.images[plan.fingerprint]))
  }

  /** Only the images and aliases differ. */
  ghost predicate SameButImages(s: Site, s': Site) {
    s' == s.(images := s'.images, aliases := s'.aliases)
  }

  /** The site after the deletion and the alias of a plan. */
  function Aliased(plan: Plan, s: Site): Site {
    var freed :=
      if plan.image.replace.None? then s
      else
        var replaced := plan.image.replace.value.fingerprint;
        s.(images := s.images - {replaced}, aliases := AliasesElsewhere(s.aliases, replaced));
    if plan.image.alias then freed.(aliases := freed.aliases[ORCHESTRATOR := plan.fingerprint]) else freed
  }

  /** What the image actions of a plan leave. */
  function ImagesDone(setting: Setting, plan: Plan, s: Site): Site {
    Aliased(plan, if plan.image.imports && setting.source.Content? then
                    s.(images := s.images[plan.fingerprint := setting.source.image])
                  else s)
  }

  /** What a whole run of a plan leaves. */
  function RunDone(setting: Setting, plan: Plan, s: Site): Site {
    LateDone(setting, plan, Pinned(plan, ImagesDone(setting, plan, Cloned(plan, s))))
  }

  lemma Import(setting: Setting, plan: Plan, o: Observation, s: Site)
    requires setting.source.Content? && plan.fingerprint == setting.source.fingerprint && plan.fingerprint !in s.images
    ensures var s' := s.(images := s.images[plan.fingerprint := setting.source.image]);
            Perform(setting, ImportImage, plan, o, s) ==
            if ContentFits(setting) then Success((s', Observe(setting, s').value)) else Failure(ImageIncompatible)
  {
  }

  lemma Delete(setting: Setting, plan: Plan, o: Observation, s: Site)
    requires setting.source.Content? && plan.image.replace.Some? && plan.image.replace.value.fingerprint in s.images
    requires ORCHESTRATOR in s.aliases && s.aliases[ORCHESTRATOR] == plan.image.replace.value.fingerprint
    ensures var replaced := plan.image.replace.value.fingerprint;
            var s' := s.(images := s.images - {replaced}, aliases := AliasesElsewhere(s.aliases, replaced));
            && Perform(setting, DeleteImage, plan, o, s) == Success((s', Observe(setting, s').value))
            && ORCHESTRATOR !in s'.aliases
  {
    hide ImageOf;
  }

  lemma Alias(setting: Setting, plan: Plan, o: Observation, s: Site)
    requires setting.source.Content? && ORCHESTRATOR !in s.aliases && plan.fingerprint in s.images
    requires plan.fingerprint == setting.source.fingerprint
    ensures var s' := s.(aliases := s.aliases[ORCHESTRATOR := plan.fingerprint]);
            && Perform(setting, CreateAlias, plan, o, s) == Success((s', Observe(setting, s').value))
            && Selected(setting, plan, s')
  {
    hide ImageOf;
  }

  /** What the image plan of staged content says about the store. */
  lemma ContentPlan(setting: Setting, plan: Plan, s: Site)
    requires setting.source.Content? && Observe(setting, s).Success?
    requires plan.fingerprint == Observe(setting, s).value.fingerprint
    requires PlanImage(Observe(setting, s).value, setting.request.inputs) == Success(plan.image)
    ensures var fingerprint := plan.fingerprint;
            && fingerprint == setting.source.fingerprint
            && (plan.image.imports ==> fingerprint !in s.images)
            && (fingerprint in s.images ==> Fitting(setting, fingerprint, s.images[fingerprint]))
            && (!plan.image.imports ==> fingerprint in s.images)
            && (plan.image.alias <==> !(ORCHESTRATOR in s.aliases && s.aliases[ORCHESTRATOR] == fingerprint))
            && (plan.image.replace.Some? <==> ORCHESTRATOR in s.aliases && s.aliases[ORCHESTRATOR] != fingerprint)
            && (plan.image.replace.Some? ==>
                  && plan.image.replace.value.fingerprint == s.aliases[ORCHESTRATOR]
                  && s.aliases[ORCHESTRATOR] in s.images)
  {
  }

  lemma ImagesConverge(setting: Setting, plan: Plan, o: Observation, s: Site)
    requires Selected(setting, plan, s)
    requires PlanImage(Observe(setting, s).value, setting.request.inputs) == Success(plan.image)
    requires FirstGate(plan).None?
    ensures var done := PerformAll(setting, ImageActions(plan), plan, o, s);
            && (done.Success? <==> (plan.image.imports ==> ContentFits(setting)))
            && (done.Success? ==> ImageReady(setting, plan, done.value.0) && SameButImages(s, done.value.0))
            && (done.Success? ==> done.value.0 == ImagesDone(setting, plan, s))
            && (done.Success? && plan.image.replace.Some? ==>
                  plan.image.replace.value.fingerprint !in done.value.0.images)
  {
    if setting.source.Selector? {
      assert ImageActions(plan) == [];
    } else {
      ContentPlan(setting, plan, s);
      ContentConverges(setting, plan, o, s);
    }
  }

  lemma ContentObserved(setting: Setting, s: Site)
    requires setting.source.Content?
    ensures Observe(setting, s).Success?
  {
  }

  /** The deletion and the alias, once the selected content is in the store. */
  lemma AliasConverges(setting: Setting, plan: Plan, o: Observation, s: Site)
    requires Selected(setting, plan, s) && setting.source.Content? && plan.fingerprint == setting.source.fingerprint
    requires plan.fingerprint in s.images && Fitting(setting, plan.fingerprint, s.images[plan.fingerprint])
    requires plan.image.alias <==> !(ORCHESTRATOR in s.aliases && s.aliases[ORCHESTRATOR] == plan.fingerprint)
    requires plan.image.replace.Some? <==> ORCHESTRATOR in s.aliases && s.aliases[ORCHESTRATOR] != plan.fingerprint
    requires plan.image.replace.Some? ==>
      plan.image.replace.value.fingerprint == s.aliases[ORCHESTRATOR] && s.aliases[ORCHESTRATOR] in s.images
    ensures var rest := If(plan.image.replace.Some?, DeleteImage) + If(plan.image.alias, CreateAlias);
            var done := PerformAll(setting, rest, plan, o, s);
            && done.Success? && ImageReady(setting, plan, done.value.0) && SameButImages(s, done.value.0)
            && done.value.0 == Aliased(plan, s)
            && (plan.image.replace.Some? ==> plan.image.replace.value.fingerprint !in done.value.0.images)
  {
    hide Perform, PlanImage, Select, Fitting, JudgeInstance, Observe;
    var image := plan.image;
    PerformIf(setting, image.replace.Some?, DeleteImage, If(image.alias, CreateAlias), plan, o, s);
    var s2, o2 := s, o;
    if image.replace.Some? {
      Delete(setting, plan, o, s);
      var replaced := image.replace.value.fingerprint;
      s2 := s.(images := s.images - {replaced}, aliases := AliasesElsewhere(s.aliases, replaced));
      ContentObserved(setting, s2);
      o2 := Observe(setting, s2).value;
    }
    assert If(image.alias, CreateAlias) == If(image.alias, CreateAlias) + [];
    PerformIf(setting, image.alias, CreateAlias, [], plan, o2, s2);
    if image.alias {
      Alias(setting, plan, o2, s2);
    }
  }

  lemma ContentConverges(setting: Setting, plan: Plan, o: Observation, s: Site)
    requires Selected(setting, plan, s) && setting.source.Content? && plan.fingerprint == setting.source.fingerprint
    requires PlanImage(Observe(setting, s).value, setting.request.inputs) == Success(plan.image)
    requires FirstGate(plan).None?
    ensures var done := PerformAll(setting, ImageActions(plan), plan, o, s);
            && (done.Success? <==> (plan.image.imports ==> ContentFits(setting)))
            && (done.Success? ==> ImageReady(setting, plan, done.value.0) && SameButImages(s, done.value.0))
            && (done.Success? ==> done.value.0 == ImagesDone(setting, plan, s))
            && (done.Success? && plan.image.replace.Some? ==>
                  plan.image.replace.value.fingerprint !in done.value.0.images)
  {
    ContentPlan(setting, plan, s);
    hide Perform, PerformAll, PlanImage, Fitting, JudgeInstance, ImageReady;
    var rest := If(plan.image.replace.Some?, DeleteImage) + If(plan.image.alias, CreateAlias);
    PerformIf(setting, plan.image.imports, ImportImage, rest, plan, o, s);
    if !plan.image.imports {
      AliasConverges(setting, plan, o, s);
    } else {
      Import(setting, plan, o, s);
      if ContentFits(setting) {
        var s' := s.(images := s.images[plan.fingerprint := setting.source.image]);
        AliasConverges(setting, plan, Observe(setting, s').value, s');
      }
    }
  }

  // ----- one gate -----

  /** Everything a run of the plan needs, checkable before it: fitting content, and inputs that admit what is created. */
  ghost predicate Feasible(setting: Setting, plan: Plan, s: Site) {
    (plan.image.imports ==> ContentFits(setting)) && LateFeasible(setting, plan, s)
  }

  lemma CheckoutKeepsImagePlan(setting: Setting, plan: Plan, s: Site)
    requires Selected(setting, plan, s)
    ensures Observe(setting, Cloned(plan, s)).Success?
    ensures PlanImage(Observe(setting, Cloned(plan, s)).value, setting.request.inputs)
         == PlanImage(Observe(setting, s).value, setting.request.inputs)
  {
    hide Select;
  }

  lemma ReadyForLate(setting: Setting, plan: Plan, s: Site, s': Site)
    requires Prospect(setting, plan, s) && SameButImages(Cloned(plan, s), s') && ImageReady(setting, plan, s')
    requires CheckoutOf(setting, Cloned(plan, s)) == Operator || CheckoutOf(setting, Cloned(plan, s)) == Present(true)
    requires plan.pin <==> s.pin != Some(plan.fingerprint)
    ensures LateReady(setting, plan, Pinned(plan, s'))
    ensures Delivered(setting, plan, Pinned(plan, s')) == Delivered(setting, plan, s)
  {
    hide NetworkFits, VolumeFits, JudgeInstance, MatchesCredentials, Values, Fitting, ImageOf, IsContainer, IsFingerprint;
  }

  lemma UngatedConverges(setting: Setting, plan: Plan, o: Observation, s: Site)
    requires Planned(setting, plan, s) && FirstGate(plan).None?
    ensures var done := ApplyActions(setting, plan, o, s);
            && (done.Success? <==> Feasible(setting, plan, s))
            && (done.Success? ==> Matches(setting, done.value.0) && done.value.0 == RunDone(setting, plan, s))
  {
    hide Planned, Prospect, Selected, LateReady, PerformAll, Early, Late, Matches, ImageActions, ContentFits, Delivered,
         PlanImage, PlanCheckout, CheckoutOf, Observe, ImageReady, AdmitsCredentials, Pinned;
    PlannedProspect(setting, plan, s);
    var o1 := CheckoutFirst(setting, plan, o, s);
    var s1 := Cloned(plan, s);
    CheckoutKeepsImagePlan(setting, plan, s);
    ImagesConverge(setting, plan, o1, s1);
    var early := PerformAll(setting, Early(plan), plan, o, s);
    if early.Success? {
      ReadyForLate(setting, plan, s, early.value.0);
      LateConverges(setting, plan, early.value.1, Pinned(plan, early.value.0));
    }
  }

  // ----- two gates -----

  /** What the first gate leaves to plan. */
  function Remaining(full: Plan): Plan {
    full.(checkout := None, image := full.image.(imports := false))
  }

  function Imported(setting: Setting, plan: Plan, s: Site): Site
    requires setting.source.Content?
  {
    var cloned := Cloned(plan, s);
    cloned.(images := cloned.images[plan.fingerprint := setting.source.image])
  }

  lemma GateConverges(setting: Setting, full: Plan, o: Observation, s: Site)
    requires Planned(setting, full, s) && FirstGate(full).Some?
    ensures setting.source.Content? && setting.source.fingerprint == full.fingerprint
    ensures var gate := FirstGate(full).value;
            var s' := Imported(setting, full, s);
            ApplyActions(setting, gate, o, s) ==
               if ContentFits(setting) then Success((s', Observe(setting, s').value)) else Failure(ImageIncompatible)
  {
    PlannedProspect(setting, full, s);
    hide Planned, Prospect, Perform, JudgeInstance, Fitting, CheckoutOf;
    var gate := FirstGate(full).value;
    assert setting.source.Content?;
    ContentPlan(setting, full, s);
    var o1 := CheckoutFirst(setting, gate, o, s);
    var s1 := Cloned(gate, s);
    hide PlanImage;
    assert ImageActions(gate) == If(true, ImportImage) + [];
    PerformIf(setting, true, ImportImage, [], gate, o1, s1);
    Import(setting, gate, o1, s1);
    assert Late(gate) == [];
  }

  /** The imported content passes the container check of an observation. */
  lemma FittingContent(setting: Setting, full: Plan, s: Site)
    requires ContentFits(setting) && setting.source.fingerprint == full.fingerprint
    ensures var s' := Imported(setting, full, s);
            var image := ImageOf(s'.images, s'.aliases, full.fingerprint);
            image.Some? && IsContainer(image.value, full.fingerprint, setting.request.inputs.architecture)
  {
  }

  lemma RemainingImages(setting: Setting, full: Plan, s: Site)
    requires Planned(setting, full, s) && FirstGate(full).Some? && ContentFits(setting)
    requires setting.source.fingerprint == full.fingerprint
    ensures var o, o' := Observe(setting, s).value, Observe(setting, Imported(setting, full, s)).value;
            && PlanImage(o', setting.request.inputs) == Success(Remaining(full).image)
            && o' == o.(image := o'.image, checkout := o'.checkout)
            && PlanCheckout(o'.checkout) == Success(None)
  {
    hide PlanOf, Prospect, LateReady, IsContainer, Fitting, ContentFits;
    PlannedProspect(setting, full, s);
    ContentPlan(setting, full, s);
    FittingContent(setting, full, s);
    var s' := Imported(setting, full, s);
    var o, o' := Observe(setting, s).value, Observe(setting, s').value;
    var alias := s.aliases[ORCHESTRATOR];
    assert ImageOf(s'.images, s'.aliases, alias) == ImageOf(s.images, s.aliases, alias);
    assert o'.aliased == o.aliased && o'.alias == o.alias && o'.pin == o.pin;
  }

  /** The plan after the first gate is the remaining plan, and needs no further gate. */
  lemma RemainingPlan(setting: Setting, full: Plan, s: Site)
    requires Planned(setting, full, s) && FirstGate(full).Some? && ContentFits(setting)
    requires setting.source.fingerprint == full.fingerprint
    ensures Planned(setting, Remaining(full), Imported(setting, full, s))
  {
    hide NetworkFits, VolumeFits, JudgeInstance, MatchesCredentials, HasManagedCredentials, Values, PlanImage, PlanCheckout,
         ImageOf, CheckoutOf;
    RemainingImages(setting, full, s);
  }

  // ----- the theorem -----

  /**
   From any site for which a plan exists, a run with approved gates succeeds exactly
   if the plan is feasible. Each action is then verified, the site needs nothing
   further, and another run dispatches nothing and changes nothing.
   */
  lemma ConfigurationConverges(setting: Setting, s: Site, full: Plan)
    requires Planned(setting, full, s)
    ensures var done := Configure(setting, s);
            && (done.Success? <==> Feasible(setting, full, s))
            && (done.Success? ==>
                  && done.value.1 == full && done.value.0 == RunDone(setting, full, s)
                  && Matches(setting, done.value.0)
                  && var again := Configure(setting, done.value.0);
                     again.Success? && again.value.0 == done.value.0 && ActionsOf(again.value.1) == [])
  {
    hide ApplyActions, Feasible, LateFeasible, ContentFits, PlanOf, Observe, RunDone;
    var observed := Observe(setting, s).value;
    if IsEmpty(full) {
      EmptyPlanIsFeasible(setting, full, s);
    } else if FirstGate(full).None? {
      UngatedConverges(setting, full, observed, s);
    } else {
      GateConverges(setting, full, observed, s);
      if ContentFits(setting) {
        var s' := Imported(setting, full, s);
        RemainingPlan(setting, full, s);
        UngatedConverges(setting, Remaining(full), Observe(setting, s').value, s');
      }
      RemainingFeasible(setting, full, s);
      RemainingDone(setting, full, s);
    }
  }

  lemma EmptyPlanIsFeasible(setting: Setting, plan: Plan, s: Site)
    requires IsEmpty(plan)
    ensures Feasible(setting, plan, s) && RunDone(setting, plan, s) == s
  {
    forall a ensures a !in ActionsOf(plan) {
    }
    Answers.ActionsExactly(plan, MaterializeCheckout);
    Answers.ActionsExactly(plan, ImportImage);
    Answers.ActionsExactly(plan, DeleteImage);
    Answers.ActionsExactly(plan, CreateAlias);
    Answers.ActionsExactly(plan, CreateNetwork);
    Answers.ActionsExactly(plan, CreateVolume);
    Answers.ActionsExactly(plan, CreateInstance);
    Answers.ActionsExactly(plan, UpdateInstance);
    hide ActionsOf, Delivered;
  }

  lemma RemainingDone(setting: Setting, full: Plan, s: Site)
    requires setting.source.Content? && full.image.imports
    ensures RunDone(setting, Remaining(full), Imported(setting, full, s)) == RunDone(setting, full, s)
  {
    RemainingImagesDone(setting, full, s);
    RemainingLateDone(setting, full, Pinned(full, ImagesDone(setting, full, Cloned(full, s))));
    hide LateDone, ImagesDone, Cloned;
  }

  lemma RemainingImagesDone(setting: Setting, full: Plan, s: Site)
    requires setting.source.Content? && full.image.imports
    ensures var s' := Imported(setting, full, s);
            Cloned(Remaining(full), s') == s'
            && ImagesDone(setting, Remaining(full), s') == ImagesDone(setting, full, Cloned(full, s))
  {
    hide AliasesElsewhere, Cloned;
    assert Cloned(Remaining(full), Imported(setting, full, s)) == Imported(setting, full, s) by {
      NothingCloned(Remaining(full), Imported(setting, full, s));
    }
  }

  lemma NothingCloned(plan: Plan, s: Site)
    requires plan.checkout.None?
    ensures Cloned(plan, s) == s
  {
  }

  lemma RemainingLateDone(setting: Setting, full: Plan, s: Site)
    ensures LateDone(setting, Remaining(full), s) == LateDone(setting, full, s)
  {
    hide CreatedInstance, CreatedNetwork, CreatedVolume, InstancePut, Values;
    assert Delivered(setting, Remaining(full), s) == Delivered(setting, full, s);
  }

  lemma RemainingFeasible(setting: Setting, full: Plan, s: Site)
    requires setting.source.Content? && full.image.imports
    ensures Feasible(setting, full, s) <==>
      ContentFits(setting) && Feasible(setting, Remaining(full), Imported(setting, full, s))
  {
    hide ContentFits, AdmitsCredentials, AdmitsBaseImage, ValidSourceRoot;
    assert Delivered(setting, Remaining(full), Imported(setting, full, s)) == Delivered(setting, full, s);
  }

  // ----- what a run that fails may have deleted -----

  /** The site when the run comes to its pin: every checkout and image action of its gates is done. */
  function BeforePin(setting: Setting, s: Site): Result<Site, Refusal> {
    var observed :- Observe(setting, s);
    var full :- PlanOf(observed, setting.request);
    var gated :- if FirstGate(full).Some? then ApplyActions(setting, FirstGate(full).value, observed, s)
                 else Success((s, observed));
    var remaining :- PlanOf(gated.1, setting.request);
    var early :- PerformAll(setting, Early(remaining), remaining, gated.1, gated.0);
    Success(early.0)
  }

  lemma UngatedImages(setting: Setting, plan: Plan, o: Observation, s: Site)
    requires Planned(setting, plan, s) && FirstGate(plan).None?
    ensures var early := PerformAll(setting, Early(plan), plan, o, s);
            && (early.Success? <==> (plan.image.imports ==> ContentFits(setting)))
            && (early.Success? && plan.image.replace.Some? ==>
                  plan.image.replace.value.fingerprint !in early.value.0.images)
  {
    hide Planned, Prospect, Selected, PerformAll, Early, ImageActions, ContentFits, PlanImage, PlanCheckout, CheckoutOf,
         Observe, ImageReady;
    PlannedProspect(setting, plan, s);
    var o1 := CheckoutFirst(setting, plan, o, s);
    CheckoutKeepsImagePlan(setting, plan, s);
    ImagesConverge(setting, plan, o1, Cloned(plan, s));
  }

  /** Up to the pin a run depends on the content alone; by then it has deleted the image it replaces. */
  lemma ImagesComeFirst(setting: Setting, s: Site, full: Plan)
    requires Planned(setting, full, s)
    ensures var early := BeforePin(setting, s);
            && (early.Success? <==> (full.image.imports ==> ContentFits(setting)))
            && (early.Success? && full.image.replace.Some? ==>
                  full.image.replace.value.fingerprint !in early.value.images)
  {
    hide ApplyActions, ContentFits, PlanOf, Observe, PerformAll, Early;
    var observed := Observe(setting, s).value;
    if FirstGate(full).None? {
      UngatedImages(setting, full, observed, s);
    } else {
      GateConverges(setting, full, observed, s);
      if ContentFits(setting) {
        var s' := Imported(setting, full, s);
        RemainingPlan(setting, full, s);
        UngatedImages(setting, Remaining(full), Observe(setting, s').value, s');
      }
    }
  }

  /**
   A run deletes an image and then fails exactly if the plan replaces one, its
   content fits, and what comes after the images is not feasible.
   */
  lemma DeletionWasForNothing(setting: Setting, s: Site, full: Plan)
    requires Planned(setting, full, s)
    ensures full.image.replace.Some? && BeforePin(setting, s).Success? && Configure(setting, s).Failure?
       <==> full.image.replace.Some? && (full.image.imports ==> ContentFits(setting)) && !LateFeasible(setting, full, s)
  {
    hide BeforePin, Configure, Planned, ContentFits, LateFeasible, Matches, Observe, PlanOf;
    ImagesComeFirst(setting, s, full);
    ConfigurationConverges(setting, s, full);
  }

  // ----- plans that cannot complete -----

  const LAYOUT := Layout("pool", "bridge", map[], "volume", map[], "10.0.0.1", map[], map[])

  /** A local checkout at the path, and staged content for the architecture. */
  function LocalSetting(sourceRoot: string, architecture: string): Setting {
    Setting(Request(Inputs("x86_64", LAYOUT, sourceRoot), Some("key")),
            Content(seq(64, i => 'a'), StoredImage(architecture, CONTAINER)), false, "", Credentials("key", "", "", ""),
            Additions(map[], map[], map[]))
  }

  const NOTHING := Site(map[], map[], None, None, None, false, None, None, None)

  /** Content is judged only after its import, so content for another architecture is planned, and the run fails. */
  lemma PlannedMayFail()
    ensures var setting := LocalSetting("/home/me/qiln", "aarch64");
            && (exists plan :: Planned(setting, plan, NOTHING))
            && Configure(setting, NOTHING).Failure?
  {
    var setting := LocalSetting("/home/me/qiln", "aarch64");
    var plan := Plan(setting.source.fingerprint, None, ImagePlan(None, true, true), true, true, true, true, Generate, true);
    assert Planned(setting, plan, NOTHING);
    hide Configure, Planned;
    ConfigurationConverges(setting, NOTHING, plan);
  }

  /** Content that fits, and a control character inside the path of the checkout. */
  function Replacing(): (Setting, Site, Plan) {
    var previous := seq(64, i => 'b');
    (LocalSetting("/home/me/a\tb", "x86_64"),
     NOTHING.(images := map[previous := StoredImage("x86_64", CONTAINER)], aliases := map[ORCHESTRATOR := previous]),
     Plan(seq(64, i => 'a'), None, ImagePlan(Some(Replacement(previous, {ORCHESTRATOR})), true, true), true, true, true,
          true, Generate, true))
  }

  lemma ReplacementPlanned()
    ensures var (setting, s, plan) := Replacing(); Planned(setting, plan, s)
  {
    var (setting, s, plan) := Replacing();
    var previous := plan.image.replace.value.fingerprint;
    assert setting.source.fingerprint[0] != previous[0];
    assert ImageOf(s.images, s.aliases, previous).value.aliases == {ORCHESTRATOR};
  }

  /**
   Without an instance, a control character inside the path of the checkout is
   judged only at the creation. Until then the run has deleted the old image.
   */
  lemma ReplacedForNothing()
    ensures var (setting, s, plan) := Replacing();
            var previous := plan.image.replace.value.fingerprint;
            && Planned(setting, plan, s)
            && previous in s.images && BeforePin(setting, s).Success? && previous !in BeforePin(setting, s).value.images
            && Configure(setting, s).Failure?
  {
    var (setting, s, plan) := Replacing();
    ReplacementPlanned();
    assert !ValidSourceRoot(setting.request.inputs.sourceRoot) by {
      assert setting.request.inputs.sourceRoot[10] == '\t';
    }
    hide Configure, Planned, BeforePin;
    ConfigurationConverges(setting, s, plan);
    ImagesComeFirst(setting, s, plan);
  }
}
