// The planner and executor as they run: the plan replaces the executor's migration list, and
// the executor's connection commits every migration by itself.
module EclMigrationRunner {
  import opened EclMigrationPlan

  datatype Outcome =
    | PlanRefused          // non-contiguous state
    | PrerequisitesMissing
    | Crashed              // between two migrations, or at the commit of one
    | VerificationFailed   // _verify raised, or the protected history counts moved
    | Completed

  // How one invocation meets the world: `survives` migrations commit before the process dies.
  datatype Invocation = Invocation(prerequisites: bool, survives: nat, verifies: bool)

  class LiveDatabase {
    var installed: set<string>
    var executed: seq<string>

    constructor (installed: set<string>)
      ensures this.installed == installed && executed == []
    {
      this.installed, executed := installed, [];
    }

    // One invocation of the tool. Whatever its outcome, what has been executed is the planned
    // suffix up to the crash, and nothing is rolled back.
    method Invoke(migrations: seq<string>, invocation: Invocation) returns (outcome: Outcome, ghost done: nat)
      modifies this
      ensures var plan := SelectMissing(migrations, Probe(migrations, old(installed)));
              if plan.NonContiguous? || !invocation.prerequisites then
                && done == 0 && outcome == (if plan.NonContiguous? then PlanRefused else PrerequisitesMissing)
                && installed == old(installed) && executed == old(executed)
              else
                && done == (if invocation.survives < |plan.migrations| then invocation.survives else |plan.migrations|)
                && outcome == (if invocation.survives < |plan.migrations| then Crashed
                               else if invocation.verifies then Completed else VerificationFailed)
                && executed == old(executed) + plan.migrations[..done]
                && installed == old(installed) + Prefix(plan.migrations, done)
    {
      done := 0;
      var plan := SelectMissing(migrations, Probe(migrations, installed));
      if plan.NonContiguous? { return PlanRefused, 0; }
      var selected := plan.migrations;
      if !invocation.prerequisites { return PrerequisitesMissing, 0; }
      for i := 0 to |selected|
        invariant done == i <= invocation.survives
        invariant executed == old(executed) + selected[..i]
        invariant installed == old(installed) + Prefix(selected, i)
      {
        if i == invocation.survives { return Crashed, i; }
        assert Prefix(selected, i + 1) == Prefix(selected, i) + {selected[i]};
        installed, executed := installed + {selected[i]}, executed + [selected[i]];
        assert selected[..i + 1] == selected[..i] + [selected[i]];
        done := i + 1;
      }
      assert selected[..|selected|] == selected;
      return if invocation.verifies then Completed else VerificationFailed, done;
    }

    // Any number of invocations, one after another: together they execute one contiguous piece
    // of the list, and a run that was not refused and did not crash leaves nothing missing.
    method InvokeAll(migrations: seq<string>, invocations: seq<Invocation>, ghost k0: nat) returns (ghost k: nat)
      requires Distinct(migrations) && k0 <= |migrations| && installed == Prefix(migrations, k0) && executed == []
      modifies this
      ensures k0 <= k <= |migrations| && installed == Prefix(migrations, k) && executed == migrations[k0..k]
      ensures (exists v :: v in invocations && v.prerequisites && v.survives >= |migrations| - k0) ==> k == |migrations|
    {
      hide SelectMissing, Probe, Prefix, Distinct;
      k := k0;
      for i := 0 to |invocations|
        invariant k0 <= k <= |migrations| && installed == Prefix(migrations, k) && executed == migrations[k0..k]
        invariant (exists j :: 0 <= j < i && invocations[j].prerequisites && invocations[j].survives >= |migrations| - k0)
                  ==> k == |migrations|
      {
        ProbePrefix(migrations, k);
        var outcome, done := Invoke(migrations, invocations[i]);
        PrefixOfSuffix(migrations, k, done);
        Contiguous(migrations, k0, k, done);
        k := k + done;
      }
    }

    static lemma Contiguous(migrations: seq<string>, k0: nat, k: nat, n: nat)
      requires k0 <= k && k + n <= |migrations|
      ensures migrations[k0..k] + migrations[k..][..n] == migrations[k0..k + n]
    {
      assert migrations[k..][..n] == migrations[k..k + n];
    }

    static lemma PrefixOfSuffix(migrations: seq<string>, k: nat, n: nat)
      requires k + n <= |migrations|
      ensures Prefix(migrations, k) + Prefix(migrations[k..], n) == Prefix(migrations, k + n)
    {
      var whole := Prefix(migrations, k + n);
      forall m ensures m in whole <==> m in Prefix(migrations, k) + Prefix(migrations[k..], n) {
        if m in whole {
          var i :| 0 <= i < k + n && migrations[i] == m;
          if i >= k { assert migrations[k..][i - k] == m; }
        }
      }
    }
  }
}
