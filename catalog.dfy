/**
  The product catalog: the five product bundles ("product mixes") and the
  ordered list of modules each one installs.
 */
module Catalog {

  import opened Wrappers

  /** The modules a bundle can contain. */
  datatype Module = Recruiting | Onboarding | LMS | PerformanceGoalsEngagement

  /** The module's display name, as the catalog spells it. */
  function Name(m: Module): string
  {
    match m
    case Recruiting => "Recruiting"
    case Onboarding => "Onboarding"
    case LMS => "LMS"
    case PerformanceGoalsEngagement => "Performance/Goals/Engagement"
  }

  /** ASCII lower-casing of one character. */
  function LowerChar(c: char): char
  {
    if 'A' <= c <= 'Z' then (c as int + 32) as char else c
  }

  /** Lower-casing of a string, character by character. */
  function ToLower(s: string): string
  {
    seq(|s|, i requires 0 <= i < |s| => LowerChar(s[i]))
  }

  /** The prefix of a module's task ids: its name in lower case. */
  function Stem(m: Module): string
  {
    ToLower(Name(m))
  }

  /** The stems spelled out; no two start with the same character. */
  lemma StemSpelled(m: Module)
    ensures Stem(m) == match m
      case Recruiting => "recruiting"
      case Onboarding => "onboarding"
      case LMS => "lms"
      case PerformanceGoalsEngagement => "performance/goals/engagement"
  {
  }

  /** A module's stem starts with a character no other module's stem starts with. */
  lemma {:induction false} StemHeadInjective(m1: Module, m2: Module)
    requires Stem(m1)[0] == Stem(m2)[0]
    ensures m1 == m2
  {
    StemSpelled(m1);
    StemSpelled(m2);
  }

  /** Recruiting and Onboarding are integrated with outside systems. */
  predicate NeedsIntegration(m: Module)
  {
    m == Recruiting || m == Onboarding
  }

  /** Only Recruiting imports historical data. */
  predicate NeedsHistoricalImport(m: Module)
  {
    m == Recruiting
  }

  /** The five product bundles. */
  datatype Bundle = ClearRecruit | ClearTalent | TotalTalent | ClearLearn | ClearGrow

  /** The key (and display name) of a bundle. */
  function Key(b: Bundle): string
  {
    match b
    case ClearRecruit => "ClearRecruit"
    case ClearTalent => "ClearTalent"
    case TotalTalent => "TotalTalent"
    case ClearLearn => "ClearLearn"
    case ClearGrow => "ClearGrow"
  }

  /** The modules of a bundle, in installation order. */
  function Modules(b: Bundle): (r: seq<Module>)
    ensures 1 <= |r| <= 4
    ensures forall i, j :: 0 <= i < j < |r| ==> r[i] != r[j]
  {
    match b
    case ClearRecruit => [Recruiting, Onboarding]
    case ClearTalent => [Recruiting, Onboarding, LMS]
    case TotalTalent => [Recruiting, Onboarding, LMS, PerformanceGoalsEngagement]
    case ClearLearn => [LMS]
    case ClearGrow => [LMS, PerformanceGoalsEngagement]
  }

  /** The module count the catalog declares beside each module list. */
  function ModuleCount(b: Bundle): (n: nat)
    ensures n == |Modules(b)|
  {
    match b
    case ClearRecruit => 2
    case ClearTalent => 3
    case TotalTalent => 4
    case ClearLearn => 1
    case ClearGrow => 2
  }

  /** Looks a bundle up by its key; a key that is not in the catalog finds nothing. */
  function LookupBundle(key: string): (r: Option<Bundle>)
    ensures r.Some? ==> Key(r.value) == key
    ensures r.None? ==> forall b :: Key(b) != key
  {
    if key == "ClearRecruit" then Some(ClearRecruit)
    else if key == "ClearTalent" then Some(ClearTalent)
    else if key == "TotalTalent" then Some(TotalTalent)
    else if key == "ClearLearn" then Some(ClearLearn)
    else if key == "ClearGrow" then Some(ClearGrow)
    else None
  }

  /** Every bundle is found under its own key. */
  lemma LookupKey(b: Bundle)
    ensures LookupBundle(Key(b)) == Some(b)
  {
  }
}
