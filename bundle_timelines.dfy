/**
  The timelines the component shows: the schedule properties instantiated at
  an employee count and a product bundle, how the project length depends on
  both, how the module length lines up with the commercial tier, and the
  timeline for 200 employees on ClearRecruit written out in full.
 */
module BundleTimelines {

  import opened Catalog
  import opened Tasks
  import opened Tiers
  import opened TimelineBuilder
  import opened TimelineProperties

  /** A larger company never gets shorter modules. */
  lemma ModuleWeeksMonotone(a: nat, b: nat)
    requires a <= b
    ensures ModuleWeeks(a) <= ModuleWeeks(b)
  {
  }

  /** The module length and the tier change at the same employee counts: 3 weeks for Small Biz, 5 for Mid Market, 6 for Enterprise. */
  lemma TierMatchesModuleWeeks(employeeCount: nat)
    ensures ClassifyTier(employeeCount) == SmallBiz <==> ModuleWeeks(employeeCount) == 3
    ensures ClassifyTier(employeeCount) == MidMarket <==> ModuleWeeks(employeeCount) == 5
    ensures ClassifyTier(employeeCount) == Enterprise <==> ModuleWeeks(employeeCount) == 6
  {
  }

  /**
    A timeline has the four fixed tasks plus two to four per module of the
    bundle. It opens with kickoff (one week) and requirements gathering (two
    weeks) at week 0. Rollout training (two weeks) starts after requirements
    and one module length per module, and go-live (one week) follows it as the
    last task.
   */
  lemma TimelineShape(employeeCount: nat, product: Bundle)
    ensures var ts := Timeline(employeeCount, product);
      var launch := ModuleStart(RequirementsLength, |Modules(product)|, ModuleWeeks(employeeCount));
      && |ts| == 4 + TaskCount(Modules(product))
      && ts[0] == Task(Kickoff, 0, 2)
      && ts[1] == Task(Requirements, 0, 4)
      && ts[|ts| - 2] == Task(RolloutTraining, launch, 4)
      && ts[|ts| - 1] == Task(GoLive, launch + 4, 2)
  {
    ScheduleLength(Modules(product), ModuleWeeks(employeeCount));
    ScheduleEnds(Modules(product), ModuleWeeks(employeeCount));
  }

  /**
    For module i of the bundle, in the window that starts after requirements
    and i module lengths: its implementation over the whole window and its
    testing over the second half are in the timeline; an integration task over
    the second half is in it exactly when the module is Recruiting or
    Onboarding; a historical data import over the second half is in it exactly
    when the module is Recruiting.
   */
  lemma TimelineModule(employeeCount: nat, product: Bundle, i: nat)
    requires i < |Modules(product)|
    ensures var ts := Timeline(employeeCount, product);
      var m := Modules(product)[i];
      var d := ModuleWeeks(employeeCount);
      var start := ModuleStart(RequirementsLength, i, d);
      && Task(Setup(m), start, 2 * d) in ts
      && Task(Testing(m), start + d, d) in ts
      && (Task(Integration(m), start + d, d) in ts <==> m == Recruiting || m == Onboarding)
      && (Task(HistoricalImport, start + d, d) in ts <==> m == Recruiting)
  {
    ScheduleModule(Modules(product), ModuleWeeks(employeeCount), i);
  }

  /**
    A timeline holds an implementation and a testing task only for the
    bundle's modules, an integration task only for a bundle module that is
    Recruiting or Onboarding, and a historical data import only when the bundle
    has Recruiting.
   */
  lemma TimelineOnlyNeeded(employeeCount: nat, product: Bundle)
    ensures forall t :: t in Timeline(employeeCount, product) ==>
      && ((t.kind.Setup? || t.kind.Testing?) ==> t.kind.mod in Modules(product))
      && (t.kind.Integration? ==> t.kind.mod in Modules(product) && NeedsIntegration(t.kind.mod))
      && (t.kind.HistoricalImport? ==> Recruiting in Modules(product))
  {
    ScheduleOnlyNeeded(Modules(product), ModuleWeeks(employeeCount));
  }

  /** No two tasks of a timeline share an id, or a kind, so every module has exactly one task of each kind it gets. */
  lemma TimelineUniqueIds(employeeCount: nat, product: Bundle)
    ensures var ts := Timeline(employeeCount, product);
      forall i, j :: 0 <= i < j < |ts| ==> IdOf(ts[i].kind) != IdOf(ts[j].kind) && ts[i].kind != ts[j].kind
  {
    ScheduleUniqueIds(Modules(product), ModuleWeeks(employeeCount));
  }

  /**
    Start times never decrease along a timeline, every task lasts a positive
    time, and no task ends after go-live, the last one.
   */
  lemma TimelineOrdered(employeeCount: nat, product: Bundle)
    ensures var ts := Timeline(employeeCount, product);
      && StartsOrdered(ts)
      && (forall t :: t in ts ==> t.duration > 0 && End(t) <= End(ts[|ts| - 1]))
  {
    ScheduleOrdered(Modules(product), ModuleWeeks(employeeCount));
    ScheduleDurations(Modules(product), ModuleWeeks(employeeCount));
  }

  /**
    A project lasts five weeks (requirements, rollout training, go-live) plus
    one module length per module of the bundle: the end of go-live, rounded up.
   */
  lemma TimelineTotalWeeks(employeeCount: nat, product: Bundle)
    ensures var ts := Timeline(employeeCount, product);
      && TotalWeeks(ts) == 5 + |Modules(product)| * ModuleWeeks(employeeCount)
      && ts[|ts| - 1].kind == GoLive
      && TotalWeeks(ts) == CeilWeeks(End(ts[|ts| - 1]))
  {
    TimelineShape(employeeCount, product);
    ScheduleTotalWeeks(Modules(product), ModuleWeeks(employeeCount));
  }

  /** A product of n modules of d weeks, and a product of at least as many modules of at least as many weeks. */
  lemma ProductMonotone(n1: nat, d1: nat, n2: nat, d2: nat)
    requires n1 <= n2 && d1 <= d2
    ensures n1 * d1 <= n2 * d2
  {
    assert n1 * d1 <= n1 * d2 <= n2 * d2;
  }

  /** For one bundle, a larger company never gets a shorter project. */
  lemma TotalWeeksMonotoneInHeadcount(a: nat, b: nat, product: Bundle)
    requires a <= b
    ensures TotalWeeks(Timeline(a, product)) <= TotalWeeks(Timeline(b, product))
  {
    TimelineTotalWeeks(a, product);
    TimelineTotalWeeks(b, product);
    ModuleWeeksMonotone(a, b);
    ProductMonotone(|Modules(product)|, ModuleWeeks(a), |Modules(product)|, ModuleWeeks(b));
  }

  /** For one company, a bundle with at least as many modules never gets a shorter project; TotalTalent takes at least as long as ClearRecruit. */
  lemma TotalWeeksMonotoneInModules(employeeCount: nat, small: Bundle, large: Bundle)
    requires |Modules(small)| <= |Modules(large)|
    ensures TotalWeeks(Timeline(employeeCount, small)) <= TotalWeeks(Timeline(employeeCount, large))
  {
    TimelineTotalWeeks(employeeCount, small);
    TimelineTotalWeeks(employeeCount, large);
    var d := ModuleWeeks(employeeCount);
    ProductMonotone(|Modules(small)|, d, |Modules(large)|, d);
  }

  /**
    200 employees on ClearRecruit: kickoff and requirements from week 0;
    Recruiting from week 2 (implementation for 3 weeks, integration, testing and
    historical import from week 3.5 for 1.5 weeks); Onboarding from week 5
    (implementation for 3 weeks, integration and testing from week 6.5 for 1.5
    weeks); rollout training from week 8 for 2 weeks; go-live at week 10 for 1
    week. The project takes 11 weeks: 2 months and 3 weeks.
   */
  lemma ClearRecruitAt200()
    ensures Timeline(200, ClearRecruit) == [
      Task(Kickoff, 0, 2), Task(Requirements, 0, 4),
      Task(Setup(Recruiting), 4, 6), Task(Integration(Recruiting), 7, 3),
      Task(Testing(Recruiting), 7, 3), Task(HistoricalImport, 7, 3),
      Task(Setup(Onboarding), 10, 6), Task(Integration(Onboarding), 13, 3),
      Task(Testing(Onboarding), 13, 3),
      Task(RolloutTraining, 16, 4), Task(GoLive, 20, 2)]
    ensures TotalWeeks(Timeline(200, ClearRecruit)) == 11
    ensures Months(TotalWeeks(Timeline(200, ClearRecruit))) == 2
    ensures RemainingWeeks(TotalWeeks(Timeline(200, ClearRecruit))) == 3
  {
    var mods := Modules(ClearRecruit);
    assert ModuleWeeks(200) == 3;
    ExecutionStep(mods, 0, RequirementsLength, 3);
    ExecutionStep(mods, 1, RequirementsLength, 3);
    assert mods[..0] == [] && mods[..2] == mods;
    assert ModuleTasks(Recruiting, 4, 3) == [
      Task(Setup(Recruiting), 4, 6), Task(Integration(Recruiting), 7, 3),
      Task(Testing(Recruiting), 7, 3), Task(HistoricalImport, 7, 3)];
    assert ModuleTasks(Onboarding, 10, 3) == [
      Task(Setup(Onboarding), 10, 6), Task(Integration(Onboarding), 13, 3),
      Task(Testing(Onboarding), 13, 3)];
  }
}
