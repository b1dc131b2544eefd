/** What a verdict is worth to an operator: the number it reports, and the engine run on the plan
    it is about. core/src/check.rs and engine/src/lifecycle.rs. */
module Verdict {
  import opened Wrappers
  import opened Model
  import opened Algebra
  import opened Footprint
  import opened Unrolling
  import opened Safety
  import opened Invariant
  import opened Checker
  import opened Soundness
  import Completion
  import Conflicts
  import Siblings
  import E = Engine

  /** Where every list has distinct values and no repeat rebinds an outer name, no application is
      in an unrolling twice. */
  lemma DistinctListsIdentify(s: Setting)
    requires Completion.DistinctLists(s.lists) && Completion.Unshadowed(s.plan.body, {})
    ensures Identified(s)
  {
    hide Unroll, Completion.DistinctLists, Completion.Unshadowed;
    forall ch: Choices, i, j | 0 <= i < j < |Planned(s, ch)|
      ensures Planned(s, ch)[i] != Planned(s, ch)[j]
    {
      Completion.ApplicationsAreIdentified(s.lists, s.plan.body, ch);
      assert Planned(s, ch)[i].AsKey() != Planned(s, ch)[j].AsKey();
    }
  }

  /** A repeat-free plan the checker passes, whose steps up to the number the verdict reports are
      plain and honestly declared. */
  ghost predicate Vouched(s: Setting) {
    && RepeatFree(s.plan.body) && CleanQuery(s.plan.owner, s.plan.body)
    && PlainSteps(s.plan.owner, s.plan.body, ReportedThrough(s.plan.owner, s.plan.body))
    && Declared(s, ReportedThrough(s.plan.owner, s.plan.body))
  }

  /** Every step numbered at most `n` writes only what it observes, or what another entry of its
      footprint has observed: none of it append-only or held. */
  predicate Retracts(items: seq<Item>, n: nat) {
    forall k :: 1 <= k <= |Leaves(items)| && k <= n && OpAt(items, k).Some? ==> Retractable(OpAt(items, k).value.footprint)
  }

  lemma RetractsIsNotLoose(s: Setting, n: nat)
    requires Declared(s, n) && Retracts(s.plan.body, n)
    ensures forall f :: !Loose(s, n, f)
  {
    hide Leaves, Loose, IsPlanned, Retractable;
    NothingIsLooseIff(s, n);
    forall key | IsPlanned(s, key) && Upto(s, n, key.step) ensures Retractable(Entries(s, key)) {
      NoEntriesRetract();
    }
  }

  lemma NoEntriesRetract()
    ensures Retractable([])
  {
  }

  /** Run such a plan in any way. Closed with nothing applied, every reserved fact is as the request
      found it but those a step writes and does not observe, and every one of them where no step
      up to the number has such an entry, unless the run's own history holds the evidence of a
      doubt; one that met none of the states they come from is in none. A step past the number
      can only have been announced at the first knell or after it, so never in a plan without
      one. */
  method Run(s: Setting, rounds: nat) returns (e: E.Engine)
    requires Vouched(s)
    ensures fresh(e) && e.s == s && e.through == ReportedThrough(s.plan.owner, s.plan.body) && e.Sound()
    ensures e.stored.state.Closed? && e.stored.applied == [] && e.doubt.Certain? ==>
      && Restored(s, e.through, e.world)
      && (Retracts(s.plan.body, e.through) ==> forall f :: f in s.umbra ==> Value(e.world, f) == Init(s, f))
    ensures Evidence(s, e.through, e.trail, e.acts, e.doubt)
    ensures Untroubled(s, e.through, e.trail, e.acts) ==> e.doubt == Certain(e.through)
    ensures e.doubt.Past? ==> FirstKnell(s.plan.body).Some? && FirstKnell(s.plan.body).value <= e.doubt.step
  {
    ghost var n := ReportedThrough(s.plan.owner, s.plan.body);
    RepeatFreeIsIdentified(s);
    CleanQueryIsHonest(s, n);
    if Retracts(s.plan.body, n) { RetractsIsNotLoose(s, n); }
    hide Identified, HonestThrough, CleanQuery, PlainSteps, Declared, RepeatFree, ReportedThrough, Kept, Holds, AllProtected, FirstKnell, Untroubled, Retracts, Loose;
    e := new E.Engine(s, n);
    e.Operate(rounds);
    if e.doubt.Past? { PastIsFromTheKnell(s.plan.owner, s.plan.body, e.doubt.step); }
  }
}
