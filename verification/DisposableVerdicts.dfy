// When a disposable validation returns, what a drop ends in and which databases are lost, on the
// script of the run itself.
module DisposableVerdicts {
  import opened Options
  import opened DisposableDatabases

  // The step goes through: nothing fails and nobody takes the name.
  ghost predicate Makes(databases: set<string>, step: CreateStep) {
    && step.connect == None && step.lookup == None && step.name !in databases && step.name !in step.foreign
    && step.create == Created
  }

  ghost predicate Waits(turns: nat -> Turn, k: nat) {
    forall j: nat | j < k :: turns(j) == SessionsRemain || turns(j) == InUse
  }

  // One of five turns reaches DROP.
  ghost predicate DropWorks(d: DropScript) {
    d.connect == None && exists k: nat :: k < 5 && Waits(d.turns, k) && d.turns(k) == Done
  }

  lemma MakesIff(s: State, step: CreateStep)
    ensures Create(s, step).error == None <==> Makes(s.databases, step)
    ensures Makes(s.databases, step) ==>
              Create(s, step).state == s.(databases := s.databases + step.foreign + {step.name}, owned := s.owned + [step.name])
  {
  }

  // ----- Drops -----

  // What a drop ends in: the error of the connection; the first of five turns that does not wait;
  // or, after five waits, a database error if DROP ever found the database in use, else an exit.
  lemma DropIs(d: DropScript)
    ensures d.connect.Some? ==> Drop(d) == Failed(d.connect.value, false)
    ensures forall k: nat | k < 5 && d.connect == None && Waits(d.turns, k) ::
              && (d.turns(k) == Done ==> Drop(d) == Dropped)
              && (d.turns(k).Breaks? ==> Drop(d) == Failed(d.turns(k).error, d.turns(k).gone))
    ensures d.connect == None && Waits(d.turns, 5) ==>
              Drop(d) == Failed(if exists k: nat :: k < 5 && d.turns(k) == InUse then Psycopg("database in use")
                                else Exit("sessions did not terminate"), false)
  {
    forall k: nat | k < 5 && d.connect == None && Waits(d.turns, k) && !d.turns(k).SessionsRemain? && !d.turns(k).InUse?
      ensures Drop(d) == if d.turns(k) == Done then Dropped else Failed(d.turns(k).error, d.turns(k).gone)
    {
      EndsAtTurn(d.turns, 0, k, false);
    }
    if d.connect == None && Waits(d.turns, 5) { WaitsToTheEnd(d.turns, 0, false); }
  }

  lemma {:induction false} EndsAtTurn(turns: nat -> Turn, i: nat, k: nat, used: bool)
    requires i <= k < 5 && Waits(turns, k) && (turns(k) == Done || turns(k).Breaks?)
    ensures DropFrom(turns, i, used) == if turns(k) == Done then Dropped else Failed(turns(k).error, turns(k).gone)
    decreases k - i
  {
    if i < k { EndsAtTurn(turns, i + 1, k, used || turns(i) == InUse); }
  }

  lemma {:induction false} WaitsToTheEnd(turns: nat -> Turn, i: nat, used: bool)
    requires i <= 5 && Waits(turns, 5)
    ensures var inUse := used || exists k: nat :: i <= k < 5 && turns(k) == InUse;
            DropFrom(turns, i, used)
            == Failed(if inUse then Psycopg("database in use") else Exit("sessions did not terminate"), false)
    decreases 5 - i
  {
    if i < 5 {
      WaitsToTheEnd(turns, i + 1, used || turns(i) == InUse);
      assert turns(i) == SessionsRemain || turns(i) == InUse;
      if k: nat :| i <= k < 5 && turns(k) == InUse { assert k == i || i + 1 <= k; }
    }
  }

  lemma WorksIff(d: DropScript)
    ensures Drop(d).Dropped? <==> DropWorks(d)
  {
    DropIs(d);
    if d.connect == None && !DropWorks(d) { var _ := FirstEnd(d.turns); }
  }

  // Five waits, or a first turn that does not wait.
  lemma FirstEnd(turns: nat -> Turn) returns (k: nat)
    ensures k <= 5 && Waits(turns, k) && (k < 5 ==> turns(k) == Done || turns(k).Breaks?)
  {
    k := 0;
    while k < 5 && (turns(k) == SessionsRemain || turns(k) == InUse)
      invariant k <= 5 && Waits(turns, k)
    {
      k := k + 1;
    }
  }

  // ----- The run -----

  // Everything goes well, in this order.
  ghost predicate Succeeds(databases: set<string>, x: Script) {
    && Makes(databases, x.first) && x.upgrade == None && x.upgradeTests == Ends(0)
    && Makes(databases + x.first.foreign + {x.first.name}, x.second)
    && !x.missing && x.current == None && x.checks == None && x.currentTests == Ends(0)
  }

  lemma ProofHoldsIff(s: State, x: Script)
    ensures Proof(s, x).error == None <==> Succeeds(s.databases, x)
    ensures Succeeds(s.databases, x) ==>
              Proof(s, x).state == s.(databases := s.databases + x.first.foreign + {x.first.name} + x.second.foreign + {x.second.name},
                                      owned := s.owned + [x.first.name, x.second.name], bounds := s.bounds + [109, 111])
  {
    hide Create;
    MakesIff(s, x.first);
    var made := Create(s, x.first).state;
    MakesIff(made.(bounds := s.bounds + [109]), x.second);
    hide Makes;
    assert s.bounds + [109] + [111] == s.bounds + [109, 111];
    assert s.owned + [x.first.name] + [x.second.name] == s.owned + [x.first.name, x.second.name];
  }

  // The run returns if and only if both databases can be made, both suites end with 0, no step of
  // either proof fails, and both drops reach DROP in five turns. Then both are dropped, the second
  // one first, each schema was bootstrapped under its own bound, and only what others made is left.
  lemma RunReturnsIff(s: State, x: Script)
    requires s.owned == [] && s.attempts == []
    ensures Validate(s, x).outcome == Returned <==>
            Succeeds(s.databases, x) && DropWorks(x.drops(x.first.name)) && DropWorks(x.drops(x.second.name))
    ensures Validate(s, x).outcome == Returned ==>
            && Validate(s, x).state.attempts == [x.second.name, x.first.name]
            && Validate(s, x).state.bounds == s.bounds + [109, 111]
            && Validate(s, x).state.databases
               == s.databases + x.first.foreign + x.second.foreign - {x.first.name, x.second.name}
  {
    hide Proof, CleanUp, Drop, DropWorks, Reversed, Succeeds;
    ProofHoldsIff(s, x);
    SuccessLeavesNothingBehind(s, x);
    WorksIff(x.drops(x.first.name));
    WorksIff(x.drops(x.second.name));
    if Succeeds(s.databases, x) {
      var t := Proof(s, x).state;
      assert t.owned == [x.first.name, x.second.name];
      assert forall d :: d in t.owned <==> d == x.first.name || d == x.second.name;
      ReversedPair(x.first.name, x.second.name);
      TwoDrops(t, x.second.name, x.first.name, x.drops);
      NamesWereFree(s, x);
      if Validate(s, x).outcome == Returned {
        assert t.databases - {x.second.name} - {x.first.name}
            == s.databases + x.first.foreign + x.second.foreign - {x.first.name, x.second.name};
      }
    }
  }

  lemma NamesWereFree(s: State, x: Script)
    requires Succeeds(s.databases, x)
    ensures x.first.name !in s.databases && x.second.name !in s.databases && x.first.name != x.second.name
  {
  }

  lemma ReversedPair(a: string, b: string)
    ensures Reversed([a, b]) == [b, a]
  {
  }

  // Two owned databases: the other drop follows exactly when the first one raises nothing but
  // database errors and exits, and the first error, as an exit, is what the cleanup reports.
  lemma TwoDrops(s: State, a: string, b: string, drops: string -> DropScript)
    ensures var c, r, q := CleanUp(s, [a, b], drops), Drop(drops(a)), Drop(drops(b));
            var s1 := s.(attempts := s.attempts + [a], databases := s.databases - if Removes(r) then {a} else {});
            var s2 := s1.(attempts := s1.attempts + [b], databases := s1.databases - if Removes(q) then {b} else {});
            if r.Failed? && r.error.Other? then c == Cleanup(s1, [], Some(r.error))
            else
              && c.state == s2.(attempts := s.attempts + [a, b])
              && c.escaped == (if q.Failed? && q.error.Other? then Some(q.error) else None)
              && (c.escaped == None ==>
                    c.failures == (if r.Failed? then [r.error] else []) + (if q.Failed? then [q.error] else []))
  {
    hide Drop;
    assert [a, b][..1] == [a] && [a][..0] == [];
    assert CleanUp(s, [], drops) == Cleanup(s, [], None);
    assert s.attempts + [a] + [b] == s.attempts + [a, b];
  }

  // DROP was done, or broke after the database had gone.
  ghost predicate Removes(r: DropResult) {
    match r
    case Dropped => true
    case Failed(_, gone) => gone
  }

  // A database that is there after the proof is lost exactly when it was attempted and the drop
  // reached DROP, or broke off with the database gone.
  lemma LostIffRemoved(s: State, x: Script, d: string)
    requires s.owned == [] && s.attempts == [] && d in Proof(s, x).state.databases
    ensures var t := Validate(s, x).state; d !in t.databases <==> d in t.attempts && Removes(Drop(x.drops(d)))
  {
    hide Proof, CleanUp, Drop, Validate;
    DatabaseIsLostIff(s, x, d);
  }

  // What the caller sees of a broken proof when all drops work: a database error as an exit with
  // its text, an exit and any other error as they are, and a suite's exit code not at all.
  lemma BrokenProofIsReported(s: State, x: Script)
    requires s.owned == [] && s.attempts == [] && forall d :: DropWorks(x.drops(d))
    ensures match Proof(s, x).error
            case None => Validate(s, x).outcome == Returned
            case Some(Psycopg(t)) => Validate(s, x).outcome == Raised(Exit(t))
            case Some(Exit(t)) => Validate(s, x).outcome == Raised(Exit(t))
            case Some(Other(t)) => Validate(s, x).outcome == Raised(Other(t))
  {
    hide Proof, CleanUp, Drop, DropWorks;
    forall d ensures DropOf(x.drops, d).Dropped? { WorksIff(x.drops(d)); }
    SuccessLeavesNothingBehind(s, x);
    if Proof(s, x).error.Some? { TheFirstErrorIsReportedIff(s, x); }
  }

  // A suite that ends with another code than 0 is an error of its own; one that raises, the error
  // raised. Nothing after it is done.
  lemma FailingTestsEndTheProof(s: State, x: Script)
    requires Makes(s.databases, x.first) && x.upgrade == None && x.upgradeTests != Ends(0)
    ensures Proof(s, x).error == Some(if x.upgradeTests.TestsRaise? then x.upgradeTests.error else Exit("upgrade tests failed"))
    ensures Proof(s, x).state.owned == s.owned + [x.first.name] && Proof(s, x).state.bounds == s.bounds + [109]
  {
  }

  lemma FailingIntegrationTestsEndTheProof(s: State, x: Script)
    requires Succeeds(s.databases, x.(currentTests := Ends(0))) && x.currentTests != Ends(0)
    ensures Proof(s, x).error
            == Some(if x.currentTests.TestsRaise? then x.currentTests.error else Exit("integration tests failed"))
  {
    hide Create;
    MakesIff(s, x.first);
    MakesIff(Create(s, x.first).state.(bounds := s.bounds + [109]), x.second);
  }

  // A name that is taken is refused: before CREATE without owning it, at CREATE owning it.
  lemma TakenNamesAreRefused(s: State, step: CreateStep)
    requires step.connect == None && step.lookup == None && (step.name in s.databases || step.name in step.foreign)
    ensures Create(s, step)
            == if step.name in s.databases then Partial(s, Some(Exit("generated database already exists")))
               else Partial(s.(databases := s.databases + step.foreign, owned := s.owned + [step.name]),
                            Some(Psycopg("duplicate database")))
  {
  }

  // A missing migration ends the proof between the two bounds.
  lemma MissingMigrationEndsTheProof(s: State, x: Script)
    requires Succeeds(s.databases, x.(missing := false, current := None, checks := None, currentTests := Ends(0)))
    requires x.missing
    ensures Proof(s, x).error == Some(Exit("migration is missing")) && Proof(s, x).state.bounds == s.bounds + [109]
  {
    hide Create;
    MakesIff(s, x.first);
    MakesIff(Create(s, x.first).state.(bounds := s.bounds + [109]), x.second);
  }
}
