/**
  Properties of the timeline builder's schedule: how many tasks it emits,
  where each module's tasks sit, which tasks exist for which modules, ordering,
  unique ids, and the project length.
 */
module TimelineProperties {

  import opened Catalog
  import opened Tasks
  import opened TimelineBuilder

  // ---------------------------------------------------------------------------
  // Predicates on task lists
  // ---------------------------------------------------------------------------

  /** Every task starts no earlier than `lo`. */
  predicate StartsFrom(ts: seq<Task>, lo: HalfWeeks)
  {
    forall t :: t in ts ==> lo <= t.start
  }

  /** Every task ends no later than `hi`. */
  predicate EndsBy(ts: seq<Task>, hi: HalfWeeks)
  {
    forall t :: t in ts ==> End(t) <= hi
  }

  /** Every task lasts at least `w`. */
  predicate LastsAtLeast(ts: seq<Task>, w: nat)
  {
    forall t :: t in ts ==> w <= t.duration
  }

  /** Every task lies between `lo` and `hi` and lasts at least `w`. */
  predicate Within(ts: seq<Task>, lo: HalfWeeks, hi: HalfWeeks, w: nat)
  {
    StartsFrom(ts, lo) && EndsBy(ts, hi) && LastsAtLeast(ts, w)
  }

  /** Every task is an execution-phase task of one of `mods`. */
  predicate OwnedBy(ts: seq<Task>, mods: seq<Module>)
  {
    forall t :: t in ts ==> PhaseOf(t.kind) == Execution && Owner(t.kind) in mods
  }

  /** Every integration task is for a module that needs integration. */
  predicate IntegrationOnlyWhereNeeded(ts: seq<Task>)
  {
    forall t :: t in ts && t.kind.Integration? ==> NeedsIntegration(t.kind.mod)
  }

  /** No two tasks have the same kind. */
  predicate DistinctKinds(ts: seq<Task>)
  {
    forall i, j :: 0 <= i < j < |ts| ==> ts[i].kind != ts[j].kind
  }

  /** Start times never decrease along the list. */
  predicate StartsOrdered(ts: seq<Task>)
  {
    forall i, j :: 0 <= i < j < |ts| ==> ts[i].start <= ts[j].start
  }

  lemma WithinConcat(a: seq<Task>, b: seq<Task>, lo: HalfWeeks, hi: HalfWeeks, w: nat)
    requires Within(a, lo, hi, w) && Within(b, lo, hi, w)
    ensures Within(a + b, lo, hi, w)
  {
  }

  lemma WithinWiden(a: seq<Task>, lo: HalfWeeks, hi: HalfWeeks, lo': HalfWeeks, hi': HalfWeeks, w: nat)
    requires Within(a, lo, hi, w) && lo' <= lo && hi <= hi'
    ensures Within(a, lo', hi', w)
  {
  }

  lemma OwnedByConcat(a: seq<Task>, b: seq<Task>, mods: seq<Module>, m: Module)
    requires mods != [] && mods[|mods| - 1] == m
    requires OwnedBy(a, mods[..|mods| - 1]) && OwnedBy(b, [m])
    ensures OwnedBy(a + b, mods)
  {
    assert forall x :: x in mods[..|mods| - 1] ==> x in mods;
  }

  lemma IntegrationConcat(a: seq<Task>, b: seq<Task>)
    requires IntegrationOnlyWhereNeeded(a) && IntegrationOnlyWhereNeeded(b)
    ensures IntegrationOnlyWhereNeeded(a + b)
  {
  }

  /** Tasks owned by different modules have different kinds. */
  lemma DistinctOwners(a: seq<Task>, b: seq<Task>, mods: seq<Module>, m: Module)
    requires OwnedBy(a, mods) && OwnedBy(b, [m]) && m !in mods
    ensures forall x, y :: x in a && y in b ==> x.kind != y.kind
  {
  }

  lemma {:induction false} DistinctKindsConcat(a: seq<Task>, b: seq<Task>)
    requires DistinctKinds(a) && DistinctKinds(b)
    requires forall x, y :: x in a && y in b ==> x.kind != y.kind
    ensures DistinctKinds(a + b)
  {
    var ab := a + b;
    forall i, j | 0 <= i < j < |ab|
      ensures ab[i].kind != ab[j].kind
    {
      if j < |a| {
        assert ab[i] == a[i] && ab[j] == a[j];
      } else if i < |a| {
        assert ab[i] == a[i] && ab[j] == b[j - |a|];
        assert a[i] in a && b[j - |a|] in b;
      } else {
        assert ab[i] == b[i - |a|] && ab[j] == b[j - |a|];
      }
    }
  }

  lemma {:induction false} StartsOrderedConcat(a: seq<Task>, b: seq<Task>, mid: HalfWeeks)
    requires StartsOrdered(a) && StartsOrdered(b)
    requires EndsBy(a, mid) && StartsFrom(b, mid)
    ensures StartsOrdered(a + b)
  {
    var ab := a + b;
    forall i, j | 0 <= i < j < |ab|
      ensures ab[i].start <= ab[j].start
    {
      if j < |a| {
        assert ab[i] == a[i] && ab[j] == a[j];
      } else if i < |a| {
        assert ab[i] == a[i] && ab[j] == b[j - |a|];
        assert a[i] in a && b[j - |a|] in b;
      } else {
        assert ab[i] == b[i - |a|] && ab[j] == b[j - |a|];
      }
    }
  }

  // ---------------------------------------------------------------------------
  // One module
  // ---------------------------------------------------------------------------

  /** How many tasks one module contributes: implementation and testing, plus integration and historical import where they apply. */
  function ModuleTaskCount(m: Module): (n: nat)
    ensures 2 <= n <= 4
    ensures n == 4 <==> m == Recruiting
    ensures n == 2 <==> !NeedsIntegration(m)
  {
    2 + (if NeedsIntegration(m) then 1 else 0) + (if NeedsHistoricalImport(m) then 1 else 0)
  }

  /**
    The kinds a module gets: implementation first and only there, then
    testing always, integration exactly for Recruiting and Onboarding,
    historical data import exactly for Recruiting; no kind twice; all of them
    execution tasks owned by the module.
   */
  lemma ModuleKindsSpec(m: Module)
    ensures |ModuleKinds(m)| == ModuleTaskCount(m)
    ensures ModuleKinds(m)[0] == Setup(m)
    ensures forall j :: 0 < j < |ModuleKinds(m)| ==> !ModuleKinds(m)[j].Setup?
    ensures Testing(m) in ModuleKinds(m)
    ensures Integration(m) in ModuleKinds(m) <==> m == Recruiting || m == Onboarding
    ensures HistoricalImport in ModuleKinds(m) <==> m == Recruiting
    ensures forall i, j :: 0 <= i < j < |ModuleKinds(m)| ==> ModuleKinds(m)[i] != ModuleKinds(m)[j]
    ensures forall k :: k in ModuleKinds(m) ==> PhaseOf(k) == Execution && Owner(k) == m
  {
  }

  /**
    One module's tasks from `cursor`, one per kind it gets and in that order:
    implementation at the cursor over the whole window, every other task over
    the window's second half.
   */
  lemma ModuleTasksLayout(m: Module, cursor: HalfWeeks, w: nat)
    ensures var ts := ModuleTasks(m, cursor, w);
      && |ts| == ModuleTaskCount(m)
      && ts[0] == Task(Setup(m), cursor, 2 * w)
      && (forall j :: 0 < j < |ts| ==> ts[j].start == cursor + w && ts[j].duration == w)
      && (forall j :: 0 <= j < |ts| ==> ts[j].kind == ModuleKinds(m)[j])
  {
    ModuleKindsSpec(m);
  }

  /** A module emits ModuleTaskCount tasks. */
  lemma ModuleTasksLength(m: Module, cursor: HalfWeeks, w: nat)
    ensures |ModuleTasks(m, cursor, w)| == ModuleTaskCount(m)
  {
    ModuleKindsSpec(m);
  }

  /** All of a module's tasks end when its window ends, lie inside it, and are in start order. */
  lemma ModuleTasksWindow(m: Module, cursor: HalfWeeks, w: nat)
    ensures forall t :: t in ModuleTasks(m, cursor, w) ==> End(t) == cursor + 2 * w
    ensures Within(ModuleTasks(m, cursor, w), cursor, cursor + 2 * w, w)
    ensures StartsOrdered(ModuleTasks(m, cursor, w))
  {
    var ts := ModuleTasks(m, cursor, w);
    ModuleTasksLayout(m, cursor, w);
    forall t | t in ts
      ensures End(t) == cursor + 2 * w && cursor <= t.start && w <= t.duration
    {
      var j :| 0 <= j < |ts| && ts[j] == t;
    }
  }

  /** A module's tasks are execution tasks of that module, no two of the same kind. */
  lemma ModuleTasksOwned(m: Module, cursor: HalfWeeks, w: nat)
    ensures OwnedBy(ModuleTasks(m, cursor, w), [m])
    ensures DistinctKinds(ModuleTasks(m, cursor, w))
  {
    var ts := ModuleTasks(m, cursor, w);
    ModuleTasksLayout(m, cursor, w);
    ModuleKindsSpec(m);
    forall t | t in ts
      ensures PhaseOf(t.kind) == Execution && Owner(t.kind) in [m]
    {
      var j :| 0 <= j < |ts| && ts[j] == t;
      assert t.kind == ModuleKinds(m)[j];
    }
  }

  /** A module has an integration task only if it needs integration. */
  lemma ModuleTasksIntegration(m: Module, cursor: HalfWeeks, w: nat)
    ensures IntegrationOnlyWhereNeeded(ModuleTasks(m, cursor, w))
  {
    var ts := ModuleTasks(m, cursor, w);
    ModuleTasksLayout(m, cursor, w);
    ModuleKindsSpec(m);
    forall t | t in ts && t.kind.Integration?
      ensures NeedsIntegration(t.kind.mod)
    {
      var j :| 0 <= j < |ts| && ts[j] == t;
      assert t.kind == ModuleKinds(m)[j];
    }
  }

  /** Where a module's task of kind `k` sits, for every kind it gets. */
  lemma ModuleTasksPlaced(m: Module, cursor: HalfWeeks, w: nat)
    ensures Task(Setup(m), cursor, 2 * w) in ModuleTasks(m, cursor, w)
    ensures Task(Testing(m), cursor + w, w) in ModuleTasks(m, cursor, w)
    ensures Task(Integration(m), cursor + w, w) in ModuleTasks(m, cursor, w) <==> NeedsIntegration(m)
    ensures Task(HistoricalImport, cursor + w, w) in ModuleTasks(m, cursor, w) <==> NeedsHistoricalImport(m)
  {
    var ts := ModuleTasks(m, cursor, w);
    var ks := ModuleKinds(m);
    ModuleKindsSpec(m);
    assert forall j :: 0 <= j < |ks| ==> ts[j] == Place(ks[j], cursor, w);
    assert ts[0] == Task(Setup(m), cursor, 2 * w);
    var k :| 0 <= k < |ks| && ks[k] == Testing(m);
    assert ts[k] == Task(Testing(m), cursor + w, w);
    if NeedsIntegration(m) {
      var i :| 0 <= i < |ks| && ks[i] == Integration(m);
      assert ts[i] == Task(Integration(m), cursor + w, w);
    }
    if NeedsHistoricalImport(m) {
      var h :| 0 <= h < |ks| && ks[h] == HistoricalImport;
      assert ts[h] == Task(HistoricalImport, cursor + w, w);
    }
  }

  // ---------------------------------------------------------------------------
  // The execution phase
  // ---------------------------------------------------------------------------

  /** The number of tasks a list of modules contributes. */
  function TaskCount(mods: seq<Module>): (n: nat)
    ensures 2 * |mods| <= n <= 4 * |mods|
  {
    if mods == [] then 0 else TaskCount(mods[..|mods| - 1]) + ModuleTaskCount(mods[|mods| - 1])
  }

  /** Group i lies in the i-th window of length 2 * w from `cursor`, its tasks in start order. */
  predicate Windowed(groups: seq<seq<Task>>, cursor: HalfWeeks, w: nat)
  {
    forall i :: 0 <= i < |groups| ==>
      Within(groups[i], ModuleStart(cursor, i, w), ModuleStart(cursor, i, w) + 2 * w, w) && StartsOrdered(groups[i])
  }

  /** Group i holds execution tasks of module i only, no two of the same kind. */
  predicate OwnedGroups(groups: seq<seq<Task>>, mods: seq<Module>)
  {
    |groups| == |mods| && forall i :: 0 <= i < |groups| ==> OwnedBy(groups[i], [mods[i]]) && DistinctKinds(groups[i])
  }

  /** The groups of the first k modules' tasks are the first k groups. */
  lemma GroupsPrefix(mods: seq<Module>, k: nat, cursor: HalfWeeks, w: nat)
    requires k <= |mods|
    ensures ModuleGroups(mods[..k], cursor, w) == ModuleGroups(mods, cursor, w)[..k]
  {
  }

  /** Each module's group sits in its own window, in start order. */
  lemma GroupsWindowed(mods: seq<Module>, cursor: HalfWeeks, w: nat)
    ensures Windowed(ModuleGroups(mods, cursor, w), cursor, w)
  {
    forall i | 0 <= i < |mods|
      ensures Within(ModuleTasks(mods[i], ModuleStart(cursor, i, w), w), ModuleStart(cursor, i, w), ModuleStart(cursor, i, w) + 2 * w, w)
      ensures StartsOrdered(ModuleTasks(mods[i], ModuleStart(cursor, i, w), w))
    {
      ModuleTasksWindow(mods[i], ModuleStart(cursor, i, w), w);
    }
  }

  /** Each module's group holds that module's tasks, no two of the same kind. */
  lemma GroupsOwned(mods: seq<Module>, cursor: HalfWeeks, w: nat)
    ensures OwnedGroups(ModuleGroups(mods, cursor, w), mods)
  {
    forall i | 0 <= i < |mods|
      ensures OwnedBy(ModuleTasks(mods[i], ModuleStart(cursor, i, w), w), [mods[i]])
      ensures DistinctKinds(ModuleTasks(mods[i], ModuleStart(cursor, i, w), w))
    {
      ModuleTasksOwned(mods[i], ModuleStart(cursor, i, w), w);
    }
  }

  /** No module's group has an integration task the module does not need. */
  lemma GroupsIntegration(mods: seq<Module>, cursor: HalfWeeks, w: nat)
    ensures forall g :: g in ModuleGroups(mods, cursor, w) ==> IntegrationOnlyWhereNeeded(g)
  {
    var groups := ModuleGroups(mods, cursor, w);
    forall g | g in groups
      ensures IntegrationOnlyWhereNeeded(g)
    {
      var i :| 0 <= i < |groups| && groups[i] == g;
      ModuleTasksIntegration(mods[i], ModuleStart(cursor, i, w), w);
    }
  }

  /** Flattening the first k groups gives a prefix of flattening all of them. */
  lemma {:induction false} FlattenPrefix<T>(groups: seq<seq<T>>, k: nat)
    requires k <= |groups|
    ensures Flatten(groups[..k]) <= Flatten(groups)
    decreases |groups|
  {
    if k < |groups| {
      var n := |groups| - 1;
      FlattenPrefix(groups[..n], k);
      assert groups[..n][..k] == groups[..k];
    } else {
      assert groups[..k] == groups;
    }
  }

  /** The window of n modules followed by one more module's window is the window of n + 1 modules. */
  lemma WindowSplit(cursor: HalfWeeks, n: nat, m: nat, w: nat)
    requires m == n + 1
    ensures ModuleStart(cursor, n, w) + 2 * w == ModuleStart(cursor, m, w)
  {
    CursorAdvance(n, w);
  }

  /** Groups in consecutive windows flatten into the window spanning all of them. */
  lemma {:induction false} FlattenWindow(groups: seq<seq<Task>>, cursor: HalfWeeks, w: nat)
    requires Windowed(groups, cursor, w)
    ensures Within(Flatten(groups), cursor, ModuleStart(cursor, |groups|, w), w)
    decreases |groups|
  {
    if groups != [] {
      var n := |groups| - 1;
      var hi := ModuleStart(cursor, |groups|, w);
      var before := Flatten(groups[..n]);
      var last := groups[n];
      assert Windowed(groups[..n], cursor, w);
      FlattenWindow(groups[..n], cursor, w);
      WindowSplit(cursor, n, |groups|, w);
      WithinWiden(before, cursor, ModuleStart(cursor, n, w), cursor, hi, w);
      WithinWiden(last, ModuleStart(cursor, n, w), ModuleStart(cursor, n, w) + 2 * w, cursor, hi, w);
      WithinConcat(before, last, cursor, hi, w);
    }
  }

  /** Groups in consecutive windows, each in start order, flatten into a list in start order. */
  lemma {:induction false} FlattenOrdered(groups: seq<seq<Task>>, cursor: HalfWeeks, w: nat)
    requires Windowed(groups, cursor, w)
    ensures StartsOrdered(Flatten(groups))
    decreases |groups|
  {
    if groups != [] {
      var n := |groups| - 1;
      var mid := ModuleStart(cursor, n, w);
      assert Windowed(groups[..n], cursor, w);
      FlattenOrdered(groups[..n], cursor, w);
      FlattenWindow(groups[..n], cursor, w);
      StartsOrderedConcat(Flatten(groups[..n]), groups[n], mid);
    }
  }

  /** Groups each owned by one module flatten into tasks of those modules. */
  lemma {:induction false} FlattenOwned(groups: seq<seq<Task>>, mods: seq<Module>)
    requires OwnedGroups(groups, mods)
    ensures OwnedBy(Flatten(groups), mods)
    decreases |groups|
  {
    if groups != [] {
      var n := |groups| - 1;
      assert OwnedGroups(groups[..n], mods[..n]);
      FlattenOwned(groups[..n], mods[..n]);
      OwnedByConcat(Flatten(groups[..n]), groups[n], mods, mods[n]);
    }
  }

  /** Groups each owned by one of distinct modules flatten into a list with no two tasks of the same kind. */
  lemma {:induction false} FlattenDistinct(groups: seq<seq<Task>>, mods: seq<Module>)
    requires OwnedGroups(groups, mods)
    requires forall i, j :: 0 <= i < j < |mods| ==> mods[i] != mods[j]
    ensures DistinctKinds(Flatten(groups))
    decreases |groups|
  {
    if groups != [] {
      var n := |groups| - 1;
      var before := Flatten(groups[..n]);
      assert OwnedGroups(groups[..n], mods[..n]);
      FlattenDistinct(groups[..n], mods[..n]);
      FlattenOwned(groups[..n], mods[..n]);
      assert mods[n] !in mods[..n];
      DistinctOwners(before, groups[n], mods[..n], mods[n]);
      DistinctKindsConcat(before, groups[n]);
    }
  }

  /** Groups without unneeded integration tasks flatten into a list without them. */
  lemma {:induction false} FlattenIntegration(groups: seq<seq<Task>>)
    requires forall g :: g in groups ==> IntegrationOnlyWhereNeeded(g)
    ensures IntegrationOnlyWhereNeeded(Flatten(groups))
    decreases |groups|
  {
    if groups != [] {
      var n := |groups| - 1;
      assert forall g :: g in groups[..n] ==> g in groups;
      FlattenIntegration(groups[..n]);
      assert groups[n] in groups;
      IntegrationConcat(Flatten(groups[..n]), groups[n]);
    }
  }

  /** The execution phase emits TaskCount(mods) tasks. */
  lemma {:induction false} ExecutionLength(mods: seq<Module>, cursor: HalfWeeks, w: nat)
    ensures |ExecutionTasks(mods, cursor, w)| == TaskCount(mods)
    decreases |mods|
  {
    if mods != [] {
      var n := |mods| - 1;
      ExecutionLength(mods[..n], cursor, w);
      ExecutionStep(mods, n, cursor, w);
      assert mods[..n + 1] == mods;
      ModuleTasksLength(mods[n], ModuleStart(cursor, n, w), w);
    }
  }

  /** Every execution task lies inside the execution window and lasts at least half a module. */
  lemma ExecutionWindow(mods: seq<Module>, cursor: HalfWeeks, w: nat)
    ensures Within(ExecutionTasks(mods, cursor, w), cursor, ModuleStart(cursor, |mods|, w), w)
  {
    GroupsWindowed(mods, cursor, w);
    FlattenWindow(ModuleGroups(mods, cursor, w), cursor, w);
  }

  /** Execution tasks start in order. */
  lemma ExecutionStartsOrdered(mods: seq<Module>, cursor: HalfWeeks, w: nat)
    ensures StartsOrdered(ExecutionTasks(mods, cursor, w))
  {
    GroupsWindowed(mods, cursor, w);
    FlattenOrdered(ModuleGroups(mods, cursor, w), cursor, w);
  }

  /** Every execution task is a task of one of the modules. */
  lemma ExecutionOwned(mods: seq<Module>, cursor: HalfWeeks, w: nat)
    ensures OwnedBy(ExecutionTasks(mods, cursor, w), mods)
  {
    GroupsOwned(mods, cursor, w);
    FlattenOwned(ModuleGroups(mods, cursor, w), mods);
  }

  /** With no module listed twice, no two execution tasks have the same kind. */
  lemma ExecutionDistinct(mods: seq<Module>, cursor: HalfWeeks, w: nat)
    requires forall i, j :: 0 <= i < j < |mods| ==> mods[i] != mods[j]
    ensures DistinctKinds(ExecutionTasks(mods, cursor, w))
  {
    GroupsOwned(mods, cursor, w);
    FlattenDistinct(ModuleGroups(mods, cursor, w), mods);
  }

  /** The execution phase has integration tasks only for modules that need integration. */
  lemma ExecutionIntegration(mods: seq<Module>, cursor: HalfWeeks, w: nat)
    ensures IntegrationOnlyWhereNeeded(ExecutionTasks(mods, cursor, w))
  {
    GroupsIntegration(mods, cursor, w);
    FlattenIntegration(ModuleGroups(mods, cursor, w));
  }

  /** The first k modules' execution tasks are a prefix of all modules' execution tasks. */
  lemma ExecutionPrefix(mods: seq<Module>, k: nat, cursor: HalfWeeks, w: nat)
    requires k <= |mods|
    ensures ExecutionTasks(mods[..k], cursor, w) <= ExecutionTasks(mods, cursor, w)
  {
    GroupsPrefix(mods, k, cursor, w);
    FlattenPrefix(ModuleGroups(mods, cursor, w), k);
  }

  // ---------------------------------------------------------------------------
  // Schedules for any list of modules
  // ---------------------------------------------------------------------------

  /** A run inside a prefix of the middle part of a three-part sequence sits at the matching offset. */
  lemma RunInMiddle<T>(head: seq<T>, before: seq<T>, run: seq<T>, middle: seq<T>, tail: seq<T>)
    requires before + run <= middle
    ensures |head| + |before| + |run| <= |head + middle + tail|
    ensures forall j :: 0 <= j < |run| ==> (head + middle + tail)[|head| + |before| + j] == run[j]
    ensures (head + middle + tail)[|head| + |before|..|head| + |before| + |run|] == run
  {
    var all := head + middle + tail;
    var lo := |head| + |before|;
    forall j | 0 <= j < |run|
      ensures all[lo + j] == run[j]
    {
      assert all[lo + j] == middle[|before| + j] == (before + run)[|before| + j];
    }
  }

  /** A schedule has the four fixed tasks plus two to four per module. */
  lemma ScheduleLength(mods: seq<Module>, w: nat)
    ensures |Schedule(mods, w)| == 4 + TaskCount(mods)
  {
    ExecutionLength(mods, RequirementsLength, w);
  }

  /**
    Kickoff (one week) and requirements (two weeks) open a schedule at week 0;
    rollout training (two weeks) starts after two weeks of requirements and one
    module length per module; go-live (one week) follows it and is last.
   */
  lemma ScheduleEnds(mods: seq<Module>, w: nat)
    ensures var ts := Schedule(mods, w);
      var launch := ModuleStart(RequirementsLength, |mods|, w);
      && |ts| >= 4
      && ts[0] == Task(Kickoff, 0, 2)
      && ts[1] == Task(Requirements, 0, 4)
      && ts[|ts| - 2] == Task(RolloutTraining, launch, 4)
      && ts[|ts| - 1] == Task(GoLive, launch + 4, 2)
  {
    ScheduleLength(mods, w);
  }

  /**
    Module i occupies a contiguous run of the schedule, right after the
    initiation tasks and the tasks of the modules before it: its tasks, placed
    in its window.
   */
  lemma ModuleRun(mods: seq<Module>, w: nat, i: nat)
    requires i < |mods|
    ensures var ts := Schedule(mods, w);
      var lo := 2 + TaskCount(mods[..i]);
      var group := ModuleTasks(mods[i], ModuleStart(RequirementsLength, i, w), w);
      && |group| == ModuleTaskCount(mods[i])
      && lo + |group| <= |ts|
      && ts[lo..lo + |group|] == group
      && (forall j :: 0 <= j < |group| ==> ts[lo + j] == group[j])
  {
    var head := InitiationTasks();
    var exec := ExecutionTasks(mods, RequirementsLength, w);
    var tail := LaunchTasks(ModuleStart(RequirementsLength, |mods|, w));
    var before := ExecutionTasks(mods[..i], RequirementsLength, w);
    var group := ModuleTasks(mods[i], ModuleStart(RequirementsLength, i, w), w);
    ExecutionStep(mods, i, RequirementsLength, w);
    ExecutionPrefix(mods, i + 1, RequirementsLength, w);
    ExecutionLength(mods[..i], RequirementsLength, w);
    ModuleTasksLength(mods[i], ModuleStart(RequirementsLength, i, w), w);
    RunInMiddle(head, before, group, exec, tail);
  }

  /** Every element of a slice is an element of the whole sequence. */
  lemma SliceIncluded<T>(ts: seq<T>, lo: nat, run: seq<T>)
    requires lo + |run| <= |ts| && ts[lo..lo + |run|] == run
    ensures forall t :: t in run ==> t in ts
  {
    forall t | t in run
      ensures t in ts
    {
      var j :| 0 <= j < |run| && run[j] == t;
      assert ts[lo + j] == t;
    }
  }

  /** Every task of module i, placed in its window, is in the schedule. */
  lemma ModuleTasksIncluded(mods: seq<Module>, w: nat, i: nat)
    requires i < |mods|
    ensures forall t :: t in ModuleTasks(mods[i], ModuleStart(RequirementsLength, i, w), w) ==> t in Schedule(mods, w)
  {
    ModuleRun(mods, w, i);
    SliceIncluded(Schedule(mods, w), 2 + TaskCount(mods[..i]), ModuleTasks(mods[i], ModuleStart(RequirementsLength, i, w), w));
  }

  /**
    Module i's implementation and testing are in the schedule in its window,
    and so are its integration task when it is Recruiting or Onboarding and
    the historical data import when it is Recruiting.
   */
  lemma ModuleTasksPresent(mods: seq<Module>, w: nat, i: nat)
    requires i < |mods|
    ensures Task(Setup(mods[i]), ModuleStart(RequirementsLength, i, w), 2 * w) in Schedule(mods, w)
    ensures Task(Testing(mods[i]), ModuleStart(RequirementsLength, i, w) + w, w) in Schedule(mods, w)
    ensures NeedsIntegration(mods[i]) ==> Task(Integration(mods[i]), ModuleStart(RequirementsLength, i, w) + w, w) in Schedule(mods, w)
    ensures NeedsHistoricalImport(mods[i]) ==> Task(HistoricalImport, ModuleStart(RequirementsLength, i, w) + w, w) in Schedule(mods, w)
  {
    ModuleTasksIncluded(mods, w, i);
    ModuleTasksPlaced(mods[i], ModuleStart(RequirementsLength, i, w), w);
  }

  /** Every task of a schedule is one of the four fixed tasks or a task of one of the modules, integration only where needed. */
  lemma ScheduleTasks(mods: seq<Module>, w: nat)
    ensures forall t :: t in Schedule(mods, w) ==>
      t.kind in {Kickoff, Requirements, RolloutTraining, GoLive}
      || (PhaseOf(t.kind) == Execution && Owner(t.kind) in mods && (t.kind.Integration? ==> NeedsIntegration(t.kind.mod)))
  {
    ExecutionOwned(mods, RequirementsLength, w);
    ExecutionIntegration(mods, RequirementsLength, w);
  }

  /**
    A schedule holds an implementation and a testing task only for its
    modules, an integration task only for one of its modules that is
    Recruiting or Onboarding, and a historical data import only when it has
    Recruiting.
   */
  lemma ScheduleOnlyNeeded(mods: seq<Module>, w: nat)
    ensures forall t :: t in Schedule(mods, w) ==>
      && ((t.kind.Setup? || t.kind.Testing?) ==> t.kind.mod in mods)
      && (t.kind.Integration? ==> t.kind.mod in mods && NeedsIntegration(t.kind.mod))
      && (t.kind.HistoricalImport? ==> Recruiting in mods)
  {
    ScheduleTasks(mods, w);
  }

  /** With no module listed twice, no two tasks of a schedule share a kind, so no two share an id. */
  lemma ScheduleUniqueIds(mods: seq<Module>, w: nat)
    requires forall i, j :: 0 <= i < j < |mods| ==> mods[i] != mods[j]
    ensures DistinctKinds(Schedule(mods, w))
    ensures var ts := Schedule(mods, w);
      forall i, j :: 0 <= i < j < |ts| ==> IdOf(ts[i].kind) != IdOf(ts[j].kind)
  {
    var init := InitiationTasks();
    var exec := ExecutionTasks(mods, RequirementsLength, w);
    var fin := LaunchTasks(ModuleStart(RequirementsLength, |mods|, w));
    ExecutionOwned(mods, RequirementsLength, w);
    ExecutionDistinct(mods, RequirementsLength, w);
    forall x: Task, y: Task | x in init && y in exec
      ensures x.kind != y.kind
    {
      assert PhaseOf(y.kind) == Execution;
    }
    DistinctKindsConcat(init, exec);
    forall x: Task, y: Task | x in init + exec && y in fin
      ensures x.kind != y.kind
    {
      assert x in init || PhaseOf(x.kind) == Execution;
    }
    DistinctKindsConcat(init + exec, fin);
    var ts := init + exec + fin;
    forall i, j | 0 <= i < j < |ts|
      ensures IdOf(ts[i].kind) != IdOf(ts[j].kind)
    {
      if IdOf(ts[i].kind) == IdOf(ts[j].kind) {
        IdOfInjective(ts[i].kind, ts[j].kind);
      }
    }
  }

  /** With modules of positive length, module windows of different modules start at different times. */
  lemma ModuleStartInjective(i: nat, j: nat, w: nat)
    requires w > 0 && ModuleStart(RequirementsLength, i, w) == ModuleStart(RequirementsLength, j, w)
    ensures i == j
  {
    assert 2 * (i - j) * w == 2 * i * w - 2 * j * w == 0;
  }

  /**
    With no module listed twice and modules of positive length, a historical
    data import in module i's window means module i is Recruiting.
   */
  lemma HistoricalImportAtRecruiting(mods: seq<Module>, w: nat, i: nat)
    requires forall i, j :: 0 <= i < j < |mods| ==> mods[i] != mods[j]
    requires w > 0 && i < |mods|
    requires Task(HistoricalImport, ModuleStart(RequirementsLength, i, w) + w, w) in Schedule(mods, w)
    ensures mods[i] == Recruiting
  {
    var ts := Schedule(mods, w);
    var here := Task(HistoricalImport, ModuleStart(RequirementsLength, i, w) + w, w);
    ScheduleOnlyNeeded(mods, w);
    var r :| 0 <= r < |mods| && mods[r] == Recruiting;
    ModuleTasksPresent(mods, w, r);
    var there := Task(HistoricalImport, ModuleStart(RequirementsLength, r, w) + w, w);
    ScheduleUniqueIds(mods, w);
    var a :| 0 <= a < |ts| && ts[a] == here;
    var b :| 0 <= b < |ts| && ts[b] == there;
    assert a == b;
    ModuleStartInjective(i, r, w);
  }

  /** An integration task in a schedule is for a module that needs integration. */
  lemma IntegrationTaskNeeded(mods: seq<Module>, w: nat, t: Task)
    requires t in Schedule(mods, w) && t.kind.Integration?
    ensures NeedsIntegration(t.kind.mod)
  {
    ScheduleOnlyNeeded(mods, w);
  }

  /**
    With no module listed twice and modules of positive length, module i's
    implementation and testing are in the schedule in its window, its
    integration task is there exactly when it needs integration, and a
    historical data import is there exactly when it is Recruiting.
   */
  lemma ScheduleModule(mods: seq<Module>, w: nat, i: nat)
    requires forall i, j :: 0 <= i < j < |mods| ==> mods[i] != mods[j]
    requires w > 0 && i < |mods|
    ensures var ts := Schedule(mods, w);
      var start := ModuleStart(RequirementsLength, i, w);
      && Task(Setup(mods[i]), start, 2 * w) in ts
      && Task(Testing(mods[i]), start + w, w) in ts
      && (Task(Integration(mods[i]), start + w, w) in ts <==> NeedsIntegration(mods[i]))
      && (Task(HistoricalImport, start + w, w) in ts <==> NeedsHistoricalImport(mods[i]))
  {
    var start := ModuleStart(RequirementsLength, i, w);
    ModuleTasksPresent(mods, w, i);
    if Task(Integration(mods[i]), start + w, w) in Schedule(mods, w) {
      IntegrationTaskNeeded(mods, w, Task(Integration(mods[i]), start + w, w));
    }
    if Task(HistoricalImport, start + w, w) in Schedule(mods, w) {
      HistoricalImportAtRecruiting(mods, w, i);
    }
  }

  /** Three lists, each in start order and each starting no earlier than the one before it ends, concatenate into a list in start order. */
  lemma OrderedThreeParts(head: seq<Task>, middle: seq<Task>, tail: seq<Task>, mid1: HalfWeeks, mid2: HalfWeeks)
    requires mid1 <= mid2
    requires StartsOrdered(head) && EndsBy(head, mid1)
    requires StartsOrdered(middle) && StartsFrom(middle, mid1) && EndsBy(middle, mid2)
    requires StartsOrdered(tail) && StartsFrom(tail, mid2)
    ensures StartsOrdered(head + middle + tail)
  {
    StartsOrderedConcat(head, middle, mid1);
    StartsOrderedConcat(head + middle, tail, mid2);
  }

  /** The execution phase starts in order, after requirements gathering and before the launch phase. */
  lemma ExecutionBetween(mods: seq<Module>, w: nat)
    ensures var exec := ExecutionTasks(mods, RequirementsLength, w);
      StartsOrdered(exec) && StartsFrom(exec, RequirementsLength) && EndsBy(exec, ModuleStart(RequirementsLength, |mods|, w))
  {
    ExecutionWindow(mods, RequirementsLength, w);
    ExecutionStartsOrdered(mods, RequirementsLength, w);
  }

  /** Start times never decrease along a schedule. */
  lemma ScheduleOrdered(mods: seq<Module>, w: nat)
    ensures StartsOrdered(Schedule(mods, w))
  {
    var launch := ModuleStart(RequirementsLength, |mods|, w);
    ExecutionBetween(mods, w);
    OrderedThreeParts(InitiationTasks(), ExecutionTasks(mods, RequirementsLength, w), LaunchTasks(launch), RequirementsLength, launch);
  }

  /** With modules of positive length, every task lasts at least half a week, and go-live, the last task, ends no earlier than any other. */
  lemma ScheduleDurations(mods: seq<Module>, w: nat)
    requires w > 0
    ensures var ts := Schedule(mods, w);
      && (forall t :: t in ts ==> t.duration > 0)
      && (forall t :: t in ts ==> End(t) <= End(ts[|ts| - 1]))
  {
    var launch := ModuleStart(RequirementsLength, |mods|, w);
    var init := InitiationTasks();
    var exec := ExecutionTasks(mods, RequirementsLength, w);
    ExecutionWindow(mods, RequirementsLength, w);
    WithinWiden(exec, RequirementsLength, launch, 0, launch + 6, 1);
    WithinWiden(init, 0, 4, 0, launch + 6, 1);
    WithinWiden(LaunchTasks(launch), launch, launch + 6, 0, launch + 6, 1);
    WithinConcat(init, exec, 0, launch + 6, 1);
    WithinConcat(init + exec, LaunchTasks(launch), 0, launch + 6, 1);
  }

  // ---------------------------------------------------------------------------
  // Project length
  // ---------------------------------------------------------------------------

  /** A schedule lasts five weeks (requirements, rollout training, go-live) plus one module length per module. */
  lemma ScheduleTotalWeeks(mods: seq<Module>, w: nat)
    ensures TotalWeeks(Schedule(mods, w)) == 5 + |mods| * w
  {
    ScheduleEnds(mods, w);
  }
}
