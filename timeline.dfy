/**
  The timeline builder: from an employee count and a product bundle, the
  ordered list of tasks of an implementation project, and the project's total
  length in weeks.
 */
module TimelineBuilder {

  import opened Catalog
  import opened Tasks

  /** Base length of one module's implementation, in weeks. */
  const BaseModuleWeeks: real := 3.0

  /** Fixed task lengths, in half-weeks. */
  const KickoffLength: HalfWeeks := 2        // 1 week
  const RequirementsLength: HalfWeeks := 4   // 2 weeks
  const RolloutLength: HalfWeeks := 4        // 2 weeks
  const GoLiveLength: HalfWeeks := 2         // 1 week

  /** Complexity multiplier: more employees means longer modules. */
  function ScaleFactor(employeeCount: nat): (s: real)
    ensures s == 1.0 <==> employeeCount <= 200
    ensures s == 1.5 <==> 200 < employeeCount <= 1000
    ensures s == 2.0 <==> 1000 < employeeCount
  {
    if employeeCount <= 200 then 1.0
    else if employeeCount <= 1000 then 1.5
    else 2.0
  }

  /** The least integer not below `x`. */
  function Ceil(x: real): (r: int)
    ensures r as real - 1.0 < x <= r as real
  {
    -((-x).Floor)
  }

  /**
    The length of every module in one schedule, in weeks: the scaled base
    length rounded up: 3, 5 or 6, changing at the same employee counts as the
    scale factor.
   */
  function ModuleWeeks(employeeCount: nat): (w: nat)
    ensures w as real - 1.0 < BaseModuleWeeks * ScaleFactor(employeeCount) <= w as real
    ensures employeeCount <= 200 ==> w == 3
    ensures 200 < employeeCount <= 1000 ==> w == 5
    ensures 1000 < employeeCount ==> w == 6
  {
    Ceil(BaseModuleWeeks * ScaleFactor(employeeCount))
  }

  /**
    The kinds of task one module gets, in emission order: implementation,
    integration (Recruiting and Onboarding only), testing, and historical data
    import (Recruiting only).
   */
  function ModuleKinds(m: Module): seq<TaskKind>
  {
    [Setup(m)]
    + (if NeedsIntegration(m) then [Integration(m)] else [])
    + [Testing(m)]
    + (if NeedsHistoricalImport(m) then [HistoricalImport] else [])
  }

  /**
    Where a module's task sits when the module starts at `cursor`: the
    implementation over the whole module window, every other task over its
    second half. A module of `moduleWeeks` weeks is 2 * moduleWeeks half-weeks
    long, so its second half starts `moduleWeeks` half-weeks in.
   */
  function Place(k: TaskKind, cursor: HalfWeeks, moduleWeeks: nat): Task
  {
    if k.Setup? then Task(k, cursor, 2 * moduleWeeks) else Task(k, cursor + moduleWeeks, moduleWeeks)
  }

  /** The tasks of one module starting at `cursor`. */
  function ModuleTasks(m: Module, cursor: HalfWeeks, moduleWeeks: nat): seq<Task>
  {
    var kinds := ModuleKinds(m);
    seq(|kinds|, j requires 0 <= j < |kinds| => Place(kinds[j], cursor, moduleWeeks))
  }

  /** The groups of a list, one after another. */
  function Flatten<T>(groups: seq<seq<T>>): seq<T>
    decreases |groups|
  {
    if groups == [] then [] else Flatten(groups[..|groups| - 1]) + groups[|groups| - 1]
  }

  /**
    Where module i's window starts when the first module starts at `cursor`:
    i module lengths, each 2 * moduleWeeks half-weeks, later.
   */
  function ModuleStart(cursor: HalfWeeks, i: nat, moduleWeeks: nat): HalfWeeks
  {
    cursor + 2 * i * moduleWeeks
  }

  /**
    The tasks of each of the modules `mods`, module i in the window that starts
    i module lengths after `cursor`.
   */
  function ModuleGroups(mods: seq<Module>, cursor: HalfWeeks, moduleWeeks: nat): seq<seq<Task>>
  {
    seq(|mods|, i requires 0 <= i < |mods| => ModuleTasks(mods[i], ModuleStart(cursor, i, moduleWeeks), moduleWeeks))
  }

  /** The execution phase for modules `mods` from `cursor`: the modules' tasks, each module starting where the previous one ends. */
  function ExecutionTasks(mods: seq<Module>, cursor: HalfWeeks, moduleWeeks: nat): seq<Task>
  {
    Flatten(ModuleGroups(mods, cursor, moduleWeeks))
  }

  /** Kickoff and requirements gathering, both from week 0. */
  function InitiationTasks(): seq<Task>
  {
    [Task(Kickoff, 0, KickoffLength), Task(Requirements, 0, RequirementsLength)]
  }

  /** Rollout training from `cursor`, then go-live when training ends. */
  function LaunchTasks(cursor: HalfWeeks): seq<Task>
  {
    [Task(RolloutTraining, cursor, RolloutLength), Task(GoLive, cursor + RolloutLength, GoLiveLength)]
  }

  /**
    The schedule for the modules `mods`, each `moduleWeeks` weeks long, in
    emission order: initiation, the modules one after another from the end of
    requirements gathering, then launch from where the last module ends.
   */
  function Schedule(mods: seq<Module>, moduleWeeks: nat): seq<Task>
  {
    InitiationTasks()
    + ExecutionTasks(mods, RequirementsLength, moduleWeeks)
    + LaunchTasks(ModuleStart(RequirementsLength, |mods|, moduleWeeks))
  }

  /** The timeline the component shows for an employee count and a product bundle. */
  function Timeline(employeeCount: nat, product: Bundle): seq<Task>
  {
    Schedule(Modules(product), ModuleWeeks(employeeCount))
  }

  /** The execution tasks of the first i + 1 modules extend those of the first i by module i's tasks. */
  lemma ExecutionStep(mods: seq<Module>, i: nat, cursor: HalfWeeks, moduleWeeks: nat)
    requires i < |mods|
    ensures ExecutionTasks(mods[..i + 1], cursor, moduleWeeks)
         == ExecutionTasks(mods[..i], cursor, moduleWeeks) + ModuleTasks(mods[i], ModuleStart(cursor, i, moduleWeeks), moduleWeeks)
  {
    var groups := ModuleGroups(mods[..i + 1], cursor, moduleWeeks);
    assert groups[..i] == ModuleGroups(mods[..i], cursor, moduleWeeks);
  }

  /** Appending module i's tasks to the schedule so far gives the schedule so far of the first i + 1 modules. */
  lemma ExtendSchedule(mods: seq<Module>, i: nat, moduleWeeks: nat)
    requires i < |mods|
    ensures InitiationTasks() + ExecutionTasks(mods[..i], RequirementsLength, moduleWeeks)
            + ModuleTasks(mods[i], ModuleStart(RequirementsLength, i, moduleWeeks), moduleWeeks)
         == InitiationTasks() + ExecutionTasks(mods[..i + 1], RequirementsLength, moduleWeeks)
  {
    ExecutionStep(mods, i, RequirementsLength, moduleWeeks);
    ConcatAssoc(InitiationTasks(), ExecutionTasks(mods[..i], RequirementsLength, moduleWeeks),
                ModuleTasks(mods[i], ModuleStart(RequirementsLength, i, moduleWeeks), moduleWeeks));
  }

  /**
    Pushing a module's tasks one at a time, as the builder does, appends
    ModuleTasks.
   */
  lemma PushModuleTasks(before: seq<Task>, m: Module, cursor: HalfWeeks, w: nat)
    ensures m == Recruiting ==>
      before + [Task(Setup(m), cursor, 2 * w)] + [Task(Integration(m), cursor + w, w)]
      + [Task(Testing(m), cursor + w, w)] + [Task(HistoricalImport, cursor + w, w)] == before + ModuleTasks(m, cursor, w)
    ensures m == Onboarding ==>
      before + [Task(Setup(m), cursor, 2 * w)] + [Task(Integration(m), cursor + w, w)]
      + [Task(Testing(m), cursor + w, w)] == before + ModuleTasks(m, cursor, w)
    ensures !NeedsIntegration(m) ==>
      before + [Task(Setup(m), cursor, 2 * w)] + [Task(Testing(m), cursor + w, w)] == before + ModuleTasks(m, cursor, w)
  {
  }

  /** Concatenation is associative. */
  lemma ConcatAssoc<T>(a: seq<T>, b: seq<T>, c: seq<T>)
    ensures (a + b) + c == a + (b + c)
  {
  }

  /** Advancing the cursor past n modules and then one more is advancing it past n + 1 modules. */
  lemma CursorAdvance(n: nat, w: nat)
    ensures 2 * n * w + 2 * w == 2 * (n + 1) * w
  {
  }

  /**
    Pushes one module's tasks, in the order the builder emits them: its
    implementation over the whole module window, then, over the second half,
    integration when the module needs it, testing, and historical data import
    for Recruiting. `moduleWeeks` is the module length in weeks: the module
    spans 2 * moduleWeeks half-weeks and its second half moduleWeeks half-weeks,
    which is the source's half of the module length.
   */
  method EmitModule(tasks: seq<Task>, moduleName: Module, currentWeek: HalfWeeks, moduleWeeks: nat)
    returns (result: seq<Task>)
    ensures result == tasks + ModuleTasks(moduleName, currentWeek, moduleWeeks)
  {
    result := tasks + [Task(Setup(moduleName), currentWeek, 2 * moduleWeeks)];
    var needsIntegration := moduleName == Recruiting || moduleName == Onboarding;
    if needsIntegration {
      var integrationDuration := moduleWeeks;
      var integrationStart := currentWeek + moduleWeeks;
      result := result + [Task(Integration(moduleName), integrationStart, integrationDuration)];
    }
    var testingStart := currentWeek + moduleWeeks;
    var testingDuration := moduleWeeks;
    result := result + [Task(Testing(moduleName), testingStart, testingDuration)];
    if moduleName == Recruiting {
      result := result + [Task(HistoricalImport, testingStart, testingDuration)];
    }
    PushModuleTasks(tasks, moduleName, currentWeek, moduleWeeks);
  }

  /**
    Builds the timeline as the component does: pushes the initiation tasks,
    walks the bundle's modules advancing a week cursor, then pushes the launch
    tasks. Times are in half-weeks.
   */
  method BuildTimeline(employeeCount: nat, product: Bundle) returns (tasks: seq<Task>)
    ensures tasks == Timeline(employeeCount, product)
  {
    var scaleFactor := ScaleFactor(employeeCount);
    var modules := Modules(product);
    tasks := [];
    var currentWeek: HalfWeeks := 0;

    tasks := tasks + [Task(Kickoff, currentWeek, KickoffLength)];
    tasks := tasks + [Task(Requirements, currentWeek, RequirementsLength)];
    currentWeek := currentWeek + RequirementsLength;

    ghost var w := ModuleWeeks(employeeCount);
    for i := 0 to |modules|
      invariant currentWeek == ModuleStart(RequirementsLength, i, w)
      invariant tasks == InitiationTasks() + ExecutionTasks(modules[..i], RequirementsLength, w)
    {
      var moduleName := modules[i];
      // In weeks, so the module spans 2 * moduleDuration half-weeks.
      var moduleDuration: nat := Ceil(BaseModuleWeeks * scaleFactor);
      tasks := EmitModule(tasks, moduleName, currentWeek, moduleDuration);
      ExtendSchedule(modules, i, w);
      CursorAdvance(i, w);
      currentWeek := currentWeek + 2 * moduleDuration;
    }
    assert modules[..|modules|] == modules;
    ghost var executed := tasks;

    tasks := tasks + [Task(RolloutTraining, currentWeek, RolloutLength)];
    currentWeek := currentWeek + RolloutLength;
    tasks := tasks + [Task(GoLive, currentWeek, GoLiveLength)];
    ConcatAssoc(executed, [Task(RolloutTraining, currentWeek - RolloutLength, RolloutLength)], [Task(GoLive, currentWeek, GoLiveLength)]);
  }

  /** Half-weeks rounded up to whole weeks. */
  function CeilWeeks(x: HalfWeeks): (w: nat)
    ensures x <= 2 * w < x + 2
  {
    (x + 1) / 2
  }

  /** The project length in weeks: the end of the last task, rounded up; 0 for no tasks. */
  function TotalWeeks(timeline: seq<Task>): (w: nat)
    ensures timeline != [] ==> End(timeline[|timeline| - 1]) <= 2 * w < End(timeline[|timeline| - 1]) + 2
    ensures timeline == [] ==> w == 0
  {
    if |timeline| > 0 then CeilWeeks(End(timeline[|timeline| - 1])) else 0
  }

  /** Whole four-week months in a number of weeks. */
  function Months(totalWeeks: nat): (m: nat)
    ensures 4 * m <= totalWeeks < 4 * m + 4
  {
    totalWeeks / 4
  }

  /** The weeks left over after the whole months. */
  function RemainingWeeks(totalWeeks: nat): (r: nat)
    ensures r < 4 && 4 * Months(totalWeeks) + r == totalWeeks
  {
    totalWeeks % 4
  }
}
