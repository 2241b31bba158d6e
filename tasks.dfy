/**
  The tasks of an implementation timeline. Each task the builder emits is one
  of a fixed set of kinds; the kind fixes its id, name, phase and colour.
 */
module Tasks {

  import opened Catalog

  /** Times are counted in half-weeks: every start and duration is a multiple of half a week. */
  type HalfWeeks = nat

  datatype Phase = InitiationAndPlanning | Execution | Launch

  /** Display colours, kept as opaque tags named after the palette entries. */
  datatype Color = PrimaryDark | PrimaryLighter | PrimaryLight | SecondaryAltLight
                 | SecondaryDark | Secondary | SecondaryAlt

  /**
    A task on the chart. Its id, name, phase and colour are those of its kind
    (IdOf, NameOf, PhaseOf, ColorOf).
   */
  datatype Task = Task(kind: TaskKind, start: HalfWeeks, duration: HalfWeeks)

  /** End offset of a task. */
  function End(t: Task): HalfWeeks
  {
    t.start + t.duration
  }

  /** The kinds of task the builder emits: one per push site. */
  datatype TaskKind =
    | Kickoff
    | Requirements
    | Setup(mod: Module)
    | Integration(mod: Module)
    | Testing(mod: Module)
    | HistoricalImport
    | RolloutTraining
    | GoLive

  /** Kinds whose id and name are built from a module's name. */
  predicate PerModule(k: TaskKind)
  {
    k.Setup? || k.Integration? || k.Testing?
  }

  /** The id suffix of a per-module kind. */
  function Suffix(k: TaskKind): string
    requires PerModule(k)
  {
    match k
    case Setup(_) => "-setup"
    case Integration(_) => "-integration"
    case Testing(_) => "-testing"
  }

  /** The id each push site gives its task; per-module ids are the module's stem plus a suffix. */
  function IdOf(k: TaskKind): string
  {
    match k
    case Kickoff => "kickoff"
    case Requirements => "requirements"
    case Setup(_) | Integration(_) | Testing(_) => Stem(k.mod) + Suffix(k)
    case HistoricalImport => "historical-data-import"
    case RolloutTraining => "rollout-training"
    case GoLive => "golive"
  }

  /** The display name each push site gives its task. */
  function NameOf(k: TaskKind): string
  {
    match k
    case Kickoff => "Project Kickoff"
    case Requirements => "Requirements Gathering"
    case Setup(m) => Name(m) + " Implementation"
    case Integration(m) => Name(m) + " Integration"
    case Testing(m) => Name(m) + " Testing & Validation"
    case HistoricalImport => "Historical Data Import"
    case RolloutTraining => "Rollout Training"
    case GoLive => "Go Live"
  }

  /** The phase each push site gives its task. */
  function PhaseOf(k: TaskKind): Phase
  {
    match k
    case Kickoff | Requirements => InitiationAndPlanning
    case Setup(_) | Integration(_) | Testing(_) | HistoricalImport => Execution
    case RolloutTraining | GoLive => Launch
  }

  /** The module an execution-phase task belongs to; historical data import belongs to Recruiting. */
  function Owner(k: TaskKind): Module
    requires PhaseOf(k) == Execution
  {
    if k.HistoricalImport? then Recruiting else k.mod
  }

  /** The palette entry each push site gives its task. */
  function ColorOf(k: TaskKind): Color
  {
    match k
    case Kickoff => PrimaryDark
    case Requirements => PrimaryLighter
    case Setup(_) => PrimaryDark
    case Integration(_) => SecondaryAltLight
    case Testing(_) => SecondaryDark
    case HistoricalImport => PrimaryLight
    case RolloutTraining => Secondary
    case GoLive => SecondaryAlt
  }

  /** A per-module id has the module's stem as its first characters and the kind's suffix after them. */
  lemma ModuleIdParts(k: TaskKind)
    requires PerModule(k)
    ensures |IdOf(k)| == |Stem(k.mod)| + |Suffix(k)|
    ensures IdOf(k)[0] == Stem(k.mod)[0] && IdOf(k)[1] == Stem(k.mod)[1]
    ensures IdOf(k)[|Stem(k.mod)|..] == Suffix(k)
  {
    StemSpelled(k.mod);
    var a, b := Stem(k.mod), Suffix(k);
    assert (a + b)[|a|..] == b;
  }

  /** No per-module id equals one of the fixed ids. */
  lemma {:induction false} ModuleIdNotFixed(k: TaskKind, l: TaskKind)
    requires PerModule(k) && !PerModule(l)
    ensures IdOf(k) != IdOf(l)
  {
    ModuleIdParts(k);
    StemSpelled(k.mod);
  }

  /** Per-module ids tell both the module and the kind apart. */
  lemma {:induction false} ModuleIdsInjective(k1: TaskKind, k2: TaskKind)
    requires PerModule(k1) && PerModule(k2) && IdOf(k1) == IdOf(k2)
    ensures k1 == k2
  {
    ModuleIdParts(k1);
    ModuleIdParts(k2);
    StemHeadInjective(k1.mod, k2.mod);
    assert Suffix(k1) == Suffix(k2);
  }

  /** Different kinds of task have different ids. */
  lemma {:induction false} IdOfInjective(k1: TaskKind, k2: TaskKind)
    requires IdOf(k1) == IdOf(k2)
    ensures k1 == k2
  {
    if PerModule(k1) && PerModule(k2) {
      ModuleIdsInjective(k1, k2);
    } else if PerModule(k1) {
      ModuleIdNotFixed(k1, k2);
    } else if PerModule(k2) {
      ModuleIdNotFixed(k2, k1);
    }
  }
}
