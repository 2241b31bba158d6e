# Implementation timeline planner — a Dafny model

The implementation Gantt component plans the rollout of an HR software
bundle. From a company's employee count and a chosen product bundle
("product mix"), it does three things:

- classifies the company into a commercial tier;
- builds the ordered list of project tasks:
  - kickoff and requirements gathering;
  - for each module of the bundle, implementation, then integration, testing and historical data import where they apply;
  - rollout training and go-live;
- sums the project up as a total number of weeks, split into months and weeks.

This project models that logic and proves what it guarantees:

- how many tasks there are and where each one sits;
- which tasks exist for which modules;
- that start times never decrease;
- that task ids are unique;
- the closed form of the project length, `5 + n·d` weeks for `n` modules of `d` weeks.

Every time in the model is counted in **half-weeks** (`Tasks.HalfWeeks`, a `nat`). Every start and duration the component produces is a multiple of half a week, so the arithmetic is exact. A module of `d` weeks spans `2d` half-weeks, and its second half starts `d` half-weeks in.

Files:

- `wrappers.dfy`: `Option`.
- `catalog.dfy` (module `Catalog`):
  - the four modules and the five bundles;
  - each bundle's module list;
  - lookup by key;
  - the lower-cased module names used in task ids.
- `tiers.dfy` (module `Tiers`): the tier classifier.
- `tasks.dfy` (module `Tasks`):
  - tasks and their kinds;
  - the id, name, phase and colour each kind fixes;
  - that ids are injective.
- `timeline.dfy` (module `TimelineBuilder`):
  - scale factor and module length;
  - the specification functions `ModuleTasks`, `ExecutionTasks`, `Schedule` and `Timeline`;
  - `BuildTimeline`, an imperative method. It mirrors the component's loop, pushing tasks and advancing a week cursor, and is proved to return `Timeline(employeeCount, product)`;
  - the total-length summary.
- `timeline_props.dfy` (module `TimelineProperties`): properties of `Schedule(mods, d)` for any module list and module length.
- `bundle_timelines.dfy` (module `BundleTimelines`):
  - those properties for the timelines the component shows;
  - monotonicity of the project length;
  - the agreement of tiers and module lengths;
  - the 200-employee ClearRecruit timeline written out.

## Model

| member | source | states |
|---|---|---|
| Catalog.Modules | src/components/ImplementationGantt.js:38-64 | every bundle installs one to four modules and lists no module twice |
| Catalog.Name | src/components/ImplementationGantt.js:41-61 | no contract: the display names of the four modules, as the catalog spells them; used by Tasks.NameOf |
| Catalog.Key | src/components/ImplementationGantt.js:38-64 | no contract: the key and name of each bundle; see Catalog.LookupBundle and Catalog.LookupKey |
| Catalog.ModuleCount | src/components/ImplementationGantt.js:38-64 | the module count declared beside each bundle equals the length of its module list |
| Catalog.LookupBundle | src/components/ImplementationGantt.js:113-114 | a key finds the bundle with that key; finding nothing means no bundle has that key |
| Catalog.LookupKey | src/components/ImplementationGantt.js:38-64 | every bundle is found under its own key |
| Catalog.LowerChar | src/components/ImplementationGantt.js:150 | no contract: ASCII lower-casing of one character; see Catalog.StemSpelled |
| Catalog.ToLower | src/components/ImplementationGantt.js:150 | no contract: lower-casing of a module name character by character; see Catalog.StemSpelled |
| Catalog.Stem | src/components/ImplementationGantt.js:150 | no contract: the lower-cased module name that starts per-module ids; spelled out in Catalog.StemSpelled, distinct first characters in Catalog.StemHeadInjective |
| Catalog.StemSpelled | src/components/ImplementationGantt.js:150 | the lower-cased module names used in ids are "recruiting", "onboarding", "lms" and "performance/goals/engagement" |
| Catalog.StemHeadInjective | src/components/ImplementationGantt.js:41-61 | different modules' lower-cased names start with different characters |
| Catalog.NeedsIntegration | src/components/ImplementationGantt.js:143 | no contract: Recruiting and Onboarding need integration; its effect is stated in TimelineProperties.ModuleKindsSpec, TimelineProperties.ModuleTasksPlaced and BundleTimelines.TimelineModule |
| Catalog.NeedsHistoricalImport | src/components/ImplementationGantt.js:187 | no contract: only Recruiting imports historical data; its effect is stated in TimelineProperties.ModuleKindsSpec, TimelineProperties.ModuleTasksPlaced and BundleTimelines.TimelineModule |
| Tiers.ClassifyTier | src/components/ImplementationGantt.js:85-97 | Small Biz / ClearCare Pro / 0 check-ins exactly up to 200 employees, Mid Market / ClearCare Advanced / 4 exactly from 201 to 1000, Enterprise / ClearCare Max / 6 exactly above 1000 |
| Tiers.CheckInsMonotone | src/components/ImplementationGantt.js:85-97 | a larger company never gets fewer check-ins per module |
| Tiers.TierBoundaries | src/components/ImplementationGantt.js:85-97 | 200 is Small Biz, 201 and 1000 are Mid Market, 1001 is Enterprise |
| Tasks.Suffix | src/components/ImplementationGantt.js:150-178 | no contract: the "-setup", "-integration" and "-testing" id suffixes; see Tasks.ModuleIdParts |
| Tasks.IdOf | src/components/ImplementationGantt.js:121-216 | no contract: the id each push site sets; injective, see Tasks.IdOfInjective, and unique within a timeline, see BundleTimelines.TimelineUniqueIds |
| Tasks.NameOf | src/components/ImplementationGantt.js:122-217 | no contract: the display name each push site sets; no property is proved about names |
| Tasks.PhaseOf | src/components/ImplementationGantt.js:123-218 | no contract: the phase each push site sets; module tasks are Execution tasks, see TimelineProperties.ModuleKindsSpec and TimelineProperties.ScheduleTasks |
| Tasks.ColorOf | src/components/ImplementationGantt.js:126-221 | no contract: the palette entry each push site sets, kept as an opaque tag |
| Tasks.Owner | src/components/ImplementationGantt.js:186-196 | no contract: the module an execution task belongs to, historical data import belonging to Recruiting; see TimelineProperties.ModuleTasksOwned and TimelineProperties.ExecutionOwned |
| Tasks.ModuleIdParts | src/components/ImplementationGantt.js:150-178 | a module task's id is the lower-cased module name followed by "-setup", "-integration" or "-testing" |
| Tasks.ModuleIdNotFixed | src/components/ImplementationGantt.js:121-216 | no module task's id equals one of the fixed ids (kickoff, requirements, historical-data-import, rollout-training, golive) |
| Tasks.ModuleIdsInjective | src/components/ImplementationGantt.js:150-178 | two module tasks with the same id have the same module and the same kind |
| Tasks.IdOfInjective | src/components/ImplementationGantt.js:121-216 | tasks of different kinds have different ids |
| TimelineBuilder.ScaleFactor | src/components/ImplementationGantt.js:109-111 | the scale is 1 exactly up to 200 employees, 1.5 exactly from 201 to 1000, 2 exactly above 1000 |
| TimelineBuilder.Ceil | src/components/ImplementationGantt.js:146 | the least integer not below its argument |
| TimelineBuilder.ModuleWeeks | src/components/ImplementationGantt.js:146 | the module length is 3 × scale rounded up: 3 weeks up to 200 employees, 5 up to 1000, 6 above |
| TimelineBuilder.ModuleKinds | src/components/ImplementationGantt.js:143-196 | no contract: the kinds of task a module gets, in push order; see TimelineProperties.ModuleKindsSpec |
| TimelineBuilder.Place | src/components/ImplementationGantt.js:149-196 | no contract: implementation over the whole module window, every other task over its second half; see TimelineProperties.ModuleTasksLayout |
| TimelineBuilder.ModuleTasks | src/components/ImplementationGantt.js:149-196 | no contract: the tasks one loop iteration pushes; see TimelineProperties.ModuleTasksLayout, TimelineProperties.ModuleTasksWindow, TimelineProperties.ModuleTasksPlaced and TimelineBuilder.EmitModule |
| TimelineBuilder.ModuleStart | src/components/ImplementationGantt.js:138-199 | no contract: the cursor before module i, two weeks of requirements plus i module lengths; see TimelineProperties.ModuleStartInjective and BundleTimelines.TimelineModule |
| TimelineBuilder.ModuleGroups | src/components/ImplementationGantt.js:141-200 | no contract: each module's tasks at its own cursor; see TimelineProperties.GroupsWindowed and TimelineProperties.GroupsOwned |
| TimelineBuilder.ExecutionTasks | src/components/ImplementationGantt.js:141-200 | no contract: all modules' tasks in loop order; see the TimelineProperties.Execution lemmas |
| TimelineBuilder.InitiationTasks | src/components/ImplementationGantt.js:120-138 | no contract: kickoff and requirements gathering from week 0; see TimelineProperties.ScheduleEnds |
| TimelineBuilder.LaunchTasks | src/components/ImplementationGantt.js:204-222 | no contract: rollout training at the cursor, go-live two weeks later; see TimelineProperties.ScheduleEnds |
| TimelineBuilder.Schedule | src/components/ImplementationGantt.js:107-225 | no contract: the reference timeline for any module list and module length, which every TimelineProperties lemma is about |
| TimelineBuilder.Timeline | src/components/ImplementationGantt.js:107-225 | no contract: the reference timeline for an employee count and a bundle; TimelineBuilder.BuildTimeline returns it, and the BundleTimelines lemmas are about it |
| TimelineBuilder.ExecutionStep | src/components/ImplementationGantt.js:141-200 | the execution tasks of the first i + 1 modules are those of the first i followed by module i's tasks at cursor + i module lengths |
| TimelineBuilder.ExtendSchedule | src/components/ImplementationGantt.js:141-200 | one loop iteration extends the tasks pushed so far for i modules to those for i + 1 modules |
| TimelineBuilder.PushModuleTasks | src/components/ImplementationGantt.js:149-196 | pushing a module's tasks one by one (four for Recruiting, three for Onboarding, two otherwise) appends exactly that module's task list |
| TimelineBuilder.EmitModule | src/components/ImplementationGantt.js:142-196 | one iteration's pushes append the module's implementation at the cursor over the whole module, then integration (Recruiting, Onboarding), testing and historical import (Recruiting) over the second half |
| TimelineBuilder.BuildTimeline | src/components/ImplementationGantt.js:107-225 | the pushed task list is exactly the specified timeline for the employee count and bundle |
| TimelineBuilder.CeilWeeks | src/components/ImplementationGantt.js:242-243 | a half-week count rounded up to whole weeks |
| TimelineBuilder.TotalWeeks | src/components/ImplementationGantt.js:242-243 | the end of the last task rounded up to whole weeks, 0 for an empty list |
| TimelineBuilder.Months | src/components/ImplementationGantt.js:246 | whole four-week months: 4·months ≤ total < 4·months + 4 |
| TimelineBuilder.RemainingWeeks | src/components/ImplementationGantt.js:247 | the weeks left over: below 4, and 4·months + remaining = total |
| TimelineProperties.ModuleTaskCount | src/components/ImplementationGantt.js:143-196 | a module contributes two to four tasks: four exactly for Recruiting, two exactly for modules without integration |
| TimelineProperties.ModuleKindsSpec | src/components/ImplementationGantt.js:143-196 | a module gets implementation first and only first, testing always, integration exactly for Recruiting and Onboarding, historical import exactly for Recruiting, no kind twice, all of them execution tasks of that module |
| TimelineProperties.ModuleTasksLayout | src/components/ImplementationGantt.js:149-196 | implementation sits at the cursor for 2d half-weeks; every later task of the module starts at cursor + d and lasts d |
| TimelineProperties.ModuleTasksLength | src/components/ImplementationGantt.js:149-196 | a module's task list has ModuleTaskCount tasks |
| TimelineProperties.ModuleTasksWindow | src/components/ImplementationGantt.js:149-196 | every task of a module ends exactly when its implementation ends, inside the module's window, in start order |
| TimelineProperties.ModuleTasksOwned | src/components/ImplementationGantt.js:149-196 | a module's tasks are execution tasks of that module, no two of the same kind |
| TimelineProperties.ModuleTasksIntegration | src/components/ImplementationGantt.js:143-170 | a module has an integration task only if it is Recruiting or Onboarding |
| TimelineProperties.ModuleTasksPlaced | src/components/ImplementationGantt.js:149-196 | implementation and testing are always placed; integration is placed if and only if the module needs it; historical import if and only if it is Recruiting |
| TimelineProperties.TaskCount | src/components/ImplementationGantt.js:141-200 | n modules contribute between 2n and 4n tasks |
| TimelineProperties.ExecutionLength | src/components/ImplementationGantt.js:141-200 | the execution phase has TaskCount(mods) tasks |
| TimelineProperties.ExecutionWindow | src/components/ImplementationGantt.js:141-200 | every execution task lies between the cursor and the cursor plus n module lengths and lasts at least half a module |
| TimelineProperties.ExecutionStartsOrdered | src/components/ImplementationGantt.js:141-200 | execution tasks start in order |
| TimelineProperties.ExecutionOwned | src/components/ImplementationGantt.js:141-200 | every execution task belongs to one of the modules |
| TimelineProperties.ExecutionDistinct | src/components/ImplementationGantt.js:141-200 | with no module listed twice, no two execution tasks share a kind |
| TimelineProperties.ExecutionIntegration | src/components/ImplementationGantt.js:143-170 | execution has integration tasks only for Recruiting and Onboarding |
| TimelineProperties.ExecutionPrefix | src/components/ImplementationGantt.js:141-200 | the tasks for the first k modules are a prefix of the tasks for all of them |
| TimelineProperties.ScheduleLength | src/components/ImplementationGantt.js:120-222 | a schedule has 4 + TaskCount(mods) tasks |
| TimelineProperties.ScheduleEnds | src/components/ImplementationGantt.js:120-222 | kickoff (1 week) and requirements (2 weeks) open at week 0; rollout training (2 weeks) starts at 2 + n·d weeks; go-live (1 week) starts at 4 + n·d weeks and is last |
| TimelineProperties.ModuleRun | src/components/ImplementationGantt.js:141-200 | module i's tasks form a contiguous run right after the initiation tasks and the earlier modules' tasks, in module i's window |
| TimelineProperties.ModuleTasksIncluded | src/components/ImplementationGantt.js:141-200 | every task of module i, placed in its window, is in the schedule |
| TimelineProperties.ModuleTasksPresent | src/components/ImplementationGantt.js:149-196 | each module's implementation and testing, its integration when needed and the historical import for Recruiting are in the schedule at the module's window |
| TimelineProperties.ScheduleTasks | src/components/ImplementationGantt.js:120-222 | every task is one of the four fixed tasks or an execution task of one of the modules, integration only where needed |
| TimelineProperties.ScheduleOnlyNeeded | src/components/ImplementationGantt.js:143-196 | implementation and testing only for listed modules; integration only for a listed Recruiting or Onboarding; historical import only when Recruiting is listed |
| TimelineProperties.ScheduleUniqueIds | src/components/ImplementationGantt.js:121-216 | with no module listed twice, no two tasks share a kind or an id |
| TimelineProperties.HistoricalImportAtRecruiting | src/components/ImplementationGantt.js:187-196 | a historical import in module i's window means module i is Recruiting |
| TimelineProperties.IntegrationTaskNeeded | src/components/ImplementationGantt.js:143-170 | an integration task anywhere in a schedule is for a module that needs integration |
| TimelineProperties.ScheduleModule | src/components/ImplementationGantt.js:141-200 | with distinct modules of positive length: module i's implementation and testing are in its window; its integration task is there if and only if it needs integration; a historical import is there if and only if it is Recruiting |
| TimelineProperties.ScheduleOrdered | src/components/ImplementationGantt.js:120-222 | start times never decrease in emission order |
| TimelineProperties.ScheduleDurations | src/components/ImplementationGantt.js:120-222 | every task lasts a positive time and none ends after go-live |
| TimelineProperties.ScheduleTotalWeeks | src/components/ImplementationGantt.js:242-243 | the project lasts 5 + n·d weeks |
| BundleTimelines.ModuleWeeksMonotone | src/components/ImplementationGantt.js:109-146 | a larger company never gets shorter modules |
| BundleTimelines.TierMatchesModuleWeeks | src/components/ImplementationGantt.js:85-111 | Small Biz if and only if 3-week modules, Mid Market if and only if 5, Enterprise if and only if 6 |
| BundleTimelines.TimelineShape | src/components/ImplementationGantt.js:120-222 | the component's timeline has 4 + TaskCount tasks, opens with kickoff and requirements at week 0, and ends with rollout training at 2 + n·d weeks and go-live at 4 + n·d weeks |
| BundleTimelines.TimelineModule | src/components/ImplementationGantt.js:141-200 | for module i: implementation and testing are in its window; integration is there if and only if it is Recruiting or Onboarding; historical import if and only if it is Recruiting |
| BundleTimelines.TimelineOnlyNeeded | src/components/ImplementationGantt.js:143-196 | no task for a module outside the bundle, no integration for a module that needs none, no historical import without Recruiting |
| BundleTimelines.TimelineUniqueIds | src/components/ImplementationGantt.js:121-216 | task ids and kinds are unique within a timeline |
| BundleTimelines.TimelineOrdered | src/components/ImplementationGantt.js:120-222 | start times never decrease, every duration is positive, go-live ends last |
| BundleTimelines.TimelineTotalWeeks | src/components/ImplementationGantt.js:242-243 | total weeks = 5 + n·d = the end of go-live rounded up |
| BundleTimelines.TotalWeeksMonotoneInHeadcount | src/components/ImplementationGantt.js:109-111 | for one bundle, a larger company never gets a shorter project |
| BundleTimelines.TotalWeeksMonotoneInModules | src/components/ImplementationGantt.js:38-64 | for one company, a bundle with at least as many modules (TotalTalent against ClearRecruit) never gets a shorter project |
| BundleTimelines.ClearRecruitAt200 | src/components/ImplementationGantt.js:107-247 | the 200-employee ClearRecruit timeline written out: 11 tasks, 11 weeks, 2 months and 3 weeks |

## Left out

- React plumbing is not modelled:
  - the two effects become a function (`ClassifyTier`) and a method (`BuildTimeline`) of the employee count and bundle;
  - `setTierInfo` and `setTimeline` become their results;
  - recomputation triggered by state changes is left out.
- The timeline effect also re-runs when the tier changes, but never reads it. The model takes no tier input.
- PDF export (`src/components/ImplementationGantt.js:228-239`) is a foreign library doing DOM work.
- JSX rendering, pixel positions and the pluralised duration labels are presentation only.
- Colours are opaque tags (`Tasks.ColorOf`) with no properties. Names (`Tasks.NameOf`) are modelled, and no property is proved about them.
- A task stores its kind, start and duration. Its id, name, phase and colour are functions of its kind, which is how every push site fixes them.
- Floating point is not modelled. Every time is an exact multiple of half a week and is counted in half-weeks. The scale factor is a `real`.
- Catalog.StemSpelled: lower-casing is modelled for ASCII only, which covers the four module names.
- Headcount is not validated. The component has no check in the computation; the minimum of 1 exists only in the input controls. The model accepts every `nat` and cannot represent negative or fractional counts.
- Unknown bundle keys: the component would fail reading the catalog entry of a missing key. `Catalog.LookupBundle` returns `None` instead. `BuildTimeline` takes a `Bundle`, so it is only ever given a catalog entry.
- The constants `requirementsGathering: 1` and `integrationTime: 1.5` are declared but never read. The builder hard-codes two weeks of requirements and derives integration from the module length, and the model follows the code.
- `moduleCount` in the catalog is never read by the builder. `Catalog.ModuleCount` only relates it to the module list.
- The total is the ceiling of the *last* task's end, as the code computes it, not the maximum over all tasks. `TimelineOrdered` shows that go-live ends no earlier than any task, so the two agree.
