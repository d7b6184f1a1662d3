/**
 Generation numbers come from one counter shared by all sandboxes
 (crates/shbox/src/platform/linux.rs): no two sandboxes ever use the same one.
 */
module DomainNumbers {
  import opened Options
  import opened DomainMachine
  import opened DomainInvariant
  import opened DomainSystem

  /** The sandbox has allocated `g`: it was built, or a launch is about to build it. */
  predicate Uses(b: Box, g: nat) {
    || g in b.gens
    || exists t :: t in b.launches && b.launches[t].Building? && b.launches[t].generation == g
  }

  lemma UsedIsAllocated(b: Box, next: nat, g: nat)
    requires BoxInv(b, next) && Uses(b, g)
    ensures g < next
  {
    if g !in b.gens {
      var t :| t in b.launches && b.launches[t].Building? && b.launches[t].generation == g;
      assert OwningLaunch(b) == Some(b.launches[t]);
    }
  }

  /** The launches of `c` that build are launches of `b` that build, but for `t`. */
  lemma UsesNothingNew(b: Box, c: Box, g: nat)
    requires c.gens.Keys <= b.gens.Keys && Uses(c, g)
    requires forall t :: t in c.launches && c.launches[t].Building? ==>
               t in b.launches && c.launches[t] == b.launches[t]
    ensures Uses(b, g)
  {
  }

  lemma LaunchUses(b: Box, next: nat, accepting: bool, e: BoxEvent, g: nat)
    requires LaunchSide(e) && LaunchEnabled(b, e) && Uses(LaunchStep(b, next, accepting, e), g)
    ensures Uses(b, g) || (e.LaunchAllocate? && e.scopeOk && g == next)
  {
    var c := LaunchStep(b, next, accepting, e);
    if e.LaunchBuild? {
      assert Uses(b, b.launches[e.t].generation);
    }
    if g !in c.gens {
      var t :| t in c.launches && c.launches[t].Building? && c.launches[t].generation == g;
      assert t != e.t ==> t in b.launches && b.launches[t] == c.launches[t];
    }
  }

  lemma OthersUse(b: Box, next: nat, accepting: bool, e: BoxEvent, g: nat)
    requires Enabled(b, next, accepting, e) && !LaunchSide(e) && Uses(Apply(b, next, accepting, e), g)
    ensures Uses(b, g)
  {
    OthersLaunchNothing(b, next, accepting, e);
    UsesNothingNew(b, Apply(b, next, accepting, e), g);
  }

  predicate LaunchesNothing(b: Box, c: Box) {
    c.gens.Keys == b.gens.Keys && (c.launches == b.launches || c.launches == Notify(b).launches)
  }

  lemma TeardownLaunchesNothing(b: Box, e: BoxEvent)
    requires TeardownSide(e) && TeardownEnabled(b, e)
    ensures LaunchesNothing(b, TeardownStep(b, e))
  {
  }

  lemma KernelLaunchesNothing(b: Box, e: BoxEvent)
    requires KernelSide(e) && KernelEnabled(b, e)
    ensures LaunchesNothing(b, KernelStep(b, e))
  {
  }

  lemma ReleaseLaunchesNothing(b: Box, e: BoxEvent)
    requires !LaunchSide(e) && !TeardownSide(e) && !KernelSide(e) && ReleaseEnabled(b, e)
    ensures LaunchesNothing(b, ReleaseStep(b, e))
  {
  }

  lemma OthersLaunchNothing(b: Box, next: nat, accepting: bool, e: BoxEvent)
    requires Enabled(b, next, accepting, e) && !LaunchSide(e)
    ensures LaunchesNothing(b, Apply(b, next, accepting, e))
  {
    if TeardownSide(e) {
      TeardownLaunchesNothing(b, e);
    } else if KernelSide(e) {
      KernelLaunchesNothing(b, e);
    } else {
      ReleaseLaunchesNothing(b, e);
    }
  }

  lemma BroadcastUses(b: Box, mark: bool, notify: bool, g: nat)
    requires Uses(Broadcast(b, mark, notify), g)
    ensures Uses(b, g)
  {
    UsesNothingNew(b, Broadcast(b, mark, notify), g);
  }

  lemma StepUses(s: System, e: Event, id: SandboxId, g: nat)
    requires Allowed(s, e) && Uses(BoxAfter(s, e, id), g)
    ensures Uses(Lookup(s, id), g) || (e.On? && e.id == id && NextAfter(s.nextGeneration, e.step) ==
        s.nextGeneration + 1 && g == s.nextGeneration)
  {
    var b, next := Lookup(s, id), s.nextGeneration;
    match e {
      case On(i, step) =>
        if i == id {
          if LaunchSide(step) {
            LaunchUses(b, next, s.accepting, step, g);
          } else {
            OthersUse(b, next, s.accepting, step, g);
          }
        }
      case ShutdownNext(i) => if i == id { OthersUse(b, next, s.accepting, ReleaseBegin, g); }
      case ShutdownCollect => if s.shutdown.current.value == id { OthersUse(b, next, s.accepting, ReleaseReturn, g); }
      case ShutdownMark(_) => BroadcastUses(b, true, false, g);
      case ShutdownNotify => BroadcastUses(b, false, true, g);
      case ForceMark => BroadcastUses(b, true, true, g);
      case _ =>
    }
  }

  /** No number is used by two of these sandboxes. */
  ghost predicate Apart(s: System, a: SandboxId, b: SandboxId) {
    forall g :: !(Uses(Lookup(s, a), g) && Uses(Lookup(s, b), g))
  }

  lemma StepKeepsApart(s: System, e: Event, a: SandboxId, b: SandboxId)
    requires Inv(s) && Allowed(s, e) && a != b && Apart(s, a, b)
    ensures Apart(Step(s, e), a, b)
  {
    StepAt(s, e, a);
    StepAt(s, e, b);
    LookupSound(s, a);
    LookupSound(s, b);
    forall g ensures !(Uses(BoxAfter(s, e, a), g) && Uses(BoxAfter(s, e, b), g)) {
      if Uses(BoxAfter(s, e, a), g) && Uses(BoxAfter(s, e, b), g) {
        StepUses(s, e, a, g);
        StepUses(s, e, b, g);
        if Uses(Lookup(s, a), g) {
          UsedIsAllocated(Lookup(s, a), s.nextGeneration, g);
        }
        if Uses(Lookup(s, b), g) {
          UsedIsAllocated(Lookup(s, b), s.nextGeneration, g);
        }
      }
    }
  }

  lemma {:induction false} RunKeepsApart(s: System, es: seq<Event>, s': System, a: SandboxId, b: SandboxId)
    requires Inv(s) && Runs(s, es, s') && a != b && Apart(s, a, b)
    ensures Apart(s', a, b)
    decreases |es|
  {
    if es != [] {
      StepKeepsApart(s, es[0], a, b);
      InvKept(s, es[0]);
      RunKeepsApart(Step(s, es[0]), es[1..], s', a, b);
    }
  }

  /** Two sandboxes never use one generation number, in any reachable state. */
  lemma NumbersAreGlobal(es: seq<Event>, s: System, a: SandboxId, b: SandboxId, g: nat)
    requires Runs(Initial, es, s) && Uses(Lookup(s, a), g) && Uses(Lookup(s, b), g)
    ensures a == b
  {
    if a != b {
      RunKeepsApart(Initial, es, s, a, b);
    }
  }
}
