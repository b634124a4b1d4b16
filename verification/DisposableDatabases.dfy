// A validation run in two disposable databases that it must drop again, whatever happens.
module DisposableDatabases {
  import opened Options

  const UPGRADE_BOUND := 109
  const CURRENT_BOUND := 111
  const DROP_TRIES := 5

  datatype Exception = Psycopg(text: string) | Exit(text: string) | Other(text: string)

  // What CREATE DATABASE reports. A failure may be ambiguous: the server may have created it.
  datatype CreateOutcome = Created | Fails(error: Exception, happened: bool)

  // One _create_disposable_database call: the generated name, what connecting and looking up the
  // name raise, the databases other sessions create between the look-up and CREATE, and CREATE.
  datatype CreateStep = CreateStep(name: string, connect: Option<Exception>, lookup: Option<Exception>,
                                   foreign: set<string>, create: CreateOutcome)

  datatype Tests = Ends(code: int) | TestsRaise(error: Exception)

  // The world's part in a run. checks is what happens after the current bootstrap; missing says
  // whether the Area Management migration file is missing.
  datatype Script = Script(first: CreateStep, upgrade: Option<Exception>, upgradeTests: Tests,
                           second: CreateStep, missing: bool, current: Option<Exception>, checks: Option<Exception>,
                           currentTests: Tests, drops: string -> DropScript)

  // One turn of the drop loop: sessions that do not end, the database in use, DROP done, or
  // another error, after which the database may be gone.
  datatype Turn = SessionsRemain | InUse | Done | Breaks(error: Exception, gone: bool)

  datatype DropScript = DropScript(connect: Option<Exception>, turns: nat -> Turn)

  // The server's databases; the names this run owns; the drop attempts so far; the shared bound
  // of the bootstrap helper, and the bounds it was used with.
  datatype State = State(databases: set<string>, owned: seq<string>, attempts: seq<string>, through: int, bounds: seq<int>)

  datatype Partial = Partial(state: State, error: Option<Exception>)

  // ----- Creating -----

  function Create(s: State, step: CreateStep): Partial {
    if step.connect.Some? then Partial(s, step.connect)
    else if step.lookup.Some? then Partial(s, step.lookup)
    else if step.name in s.databases then Partial(s, Some(Exit("generated database already exists")))
    else
      var t := s.(databases := s.databases + step.foreign, owned := s.owned + [step.name]);
      if step.name in t.databases then Partial(t, Some(Psycopg("duplicate database")))
      else match step.create
        case Created => Partial(t.(databases := t.databases + {step.name}), None)
        case Fails(e, happened) => Partial(if happened then t.(databases := t.databases + {step.name}) else t, Some(e))
  }

  // The bootstrap helper under a temporary bound.
  function Bootstrap(s: State, bound: int, error: Option<Exception>): Partial {
    Partial(s.(bounds := s.bounds + [bound]), error)
  }

  function TestError(t: Tests, what: string): Option<Exception> {
    match t
    case Ends(code) => if code != 0 then Some(Exit(what)) else None
    case TestsRaise(e) => Some(e)
  }

  function UpgradeProof(s: State, x: Script): Partial {
    var made := Create(s, x.first);
    if made.error.Some? then made
    else
      var ready := Bootstrap(made.state, UPGRADE_BOUND, x.upgrade);
      if ready.error.Some? then ready else Partial(ready.state, TestError(x.upgradeTests, "upgrade tests failed"))
  }

  function BootstrapCurrent(s: State, x: Script): Partial {
    if x.missing then Partial(s, Some(Exit("migration is missing")))
    else
      var ready := Bootstrap(s, CURRENT_BOUND, x.current);
      if ready.error.Some? then ready else Partial(ready.state, x.checks)
  }

  function CurrentProof(s: State, x: Script): Partial {
    var made := Create(s, x.second);
    if made.error.Some? then made
    else
      var ready := BootstrapCurrent(made.state, x);
      if ready.error.Some? then ready else Partial(ready.state, TestError(x.currentTests, "integration tests failed"))
  }

  function Proof(s: State, x: Script): Partial {
    var upgraded := UpgradeProof(s, x);
    if upgraded.error.Some? then upgraded else CurrentProof(upgraded.state, x)
  }

  // ----- Dropping -----

  datatype DropResult = Dropped | Failed(error: Exception, gone: bool)

  // The rest of the retry loop, from turn i on; used says whether DROP found the database in use.
  function DropFrom(turns: nat -> Turn, i: nat, used: bool): DropResult
    requires i <= DROP_TRIES
    decreases DROP_TRIES - i
  {
    if i == DROP_TRIES then Failed(if used then Psycopg("database in use") else Exit("sessions did not terminate"), false)
    else match turns(i)
      case SessionsRemain => DropFrom(turns, i + 1, used)
      case InUse => DropFrom(turns, i + 1, true)
      case Done => Dropped
      case Breaks(e, gone) => Failed(e, gone)
  }

  function Drop(d: DropScript): DropResult {
    if d.connect.Some? then Failed(d.connect.value, false) else DropFrom(d.turns, 0, false)
  }

  // The cleanup loop goes on after these errors only.
  predicate Tolerated(e: Exception) {
    e.Psycopg? || e.Exit?
  }

  predicate Escapes(r: DropResult) {
    r.Failed? && !Tolerated(r.error)
  }

  predicate Gone(r: DropResult) {
    r.Dropped? || r.gone
  }

  datatype Cleanup = Cleanup(state: State, failures: seq<Exception>, escaped: Option<Exception>)

  function AttemptDrop(s: State, name: string, r: DropResult): State {
    s.(attempts := s.attempts + [name], databases := if Gone(r) then s.databases - {name} else s.databases)
  }

  function CleanUp(s: State, names: seq<string>, drops: string -> DropScript): Cleanup {
    if names == [] then Cleanup(s, [], None)
    else
      var front, last := CleanUp(s, names[..|names| - 1], drops), names[|names| - 1];
      if front.escaped.Some? then front
      else
        var r := Drop(drops(last));
        var t := AttemptDrop(front.state, last, r);
        if Escapes(r) then Cleanup(t, front.failures, Some(r.error))
        else Cleanup(t, if r.Failed? then front.failures + [r.error] else front.failures, None)
  }

  function Reversed(s: seq<string>): (r: seq<string>)
    ensures |r| == |s| && forall i | 0 <= i < |s| :: r[i] == s[|s| - 1 - i]
  {
    if s == [] then [] else [s[|s| - 1]] + Reversed(s[..|s| - 1])
  }

  datatype Outcome = Returned | Raised(error: Exception)

  // A database error is reported as an exit with its text; any other error is raised again.
  function Reported(e: Exception): Exception {
    if e.Psycopg? then Exit(e.text) else e
  }

  function Verdict(error: Option<Exception>, c: Cleanup): Outcome {
    if c.escaped.Some? then Raised(c.escaped.value)
    else if error.Some? then Raised(Reported(error.value))
    else if c.failures != [] then Raised(Exit(c.failures[0].text))
    else Returned
  }

  datatype Finish = Finish(state: State, outcome: Outcome)

  function Validate(s: State, x: Script): Finish {
    var proof := Proof(s, x);
    var c := CleanUp(proof.state, Reversed(proof.state.owned), x.drops);
    Finish(c.state, Verdict(proof.error, c))
  }

  // ----- The run -----

  class Validation {
    var databases: set<string>
    var owned: seq<string>
    var attempts: seq<string>
    var through: int
    var bounds: seq<int>

    ghost function Abstract(): State
      reads this
    {
      State(databases, owned, attempts, through, bounds)
    }

    constructor (databases: set<string>)
      ensures Abstract() == State(databases, [], [], UPGRADE_BOUND, [])
    {
      this.databases, owned, attempts, through, bounds := databases, [], [], UPGRADE_BOUND, [];
    }

    method CreateDisposableDatabase(step: CreateStep) returns (error: Option<Exception>)
      modifies this
      ensures Partial(Abstract(), error) == Create(old(Abstract()), step)
    {
      if step.connect.Some? { return step.connect; }
      if step.lookup.Some? { return step.lookup; }
      if step.name in databases { return Some(Exit("generated database already exists")); }
      owned := owned + [step.name];
      databases := databases + step.foreign;
      if step.name in databases { return Some(Psycopg("duplicate database")); }
      match step.create {
        case Created =>
          databases := databases + {step.name};
          return None;
        case Fails(e, happened) =>
          if happened { databases := databases + {step.name}; }
          return Some(e);
      }
    }

    // try: set the shared bound and bootstrap; finally: put the bound back.
    method BootstrapSchema(bound: int, failure: Option<Exception>) returns (error: Option<Exception>)
      modifies this
      ensures Partial(Abstract(), error) == Bootstrap(old(Abstract()), bound, failure)
    {
      var previous := through;
      through := bound;
      bounds := bounds + [through];
      error := failure;
      through := previous;
    }

    method RunProof(x: Script) returns (error: Option<Exception>)
      modifies this
      ensures Partial(Abstract(), error) == Proof(old(Abstract()), x)
    {
      error := CreateDisposableDatabase(x.first);
      if error.Some? { return; }
      error := BootstrapSchema(UPGRADE_BOUND, x.upgrade);
      if error.Some? { return; }
      error := TestError(x.upgradeTests, "upgrade tests failed");
      if error.Some? { return; }
      error := CreateDisposableDatabase(x.second);
      if error.Some? { return; }
      if x.missing { return Some(Exit("migration is missing")); }
      error := BootstrapSchema(CURRENT_BOUND, x.current);
      if error.Some? { return; }
      if x.checks.Some? { return x.checks; }
      error := TestError(x.currentTests, "integration tests failed");
    }

    // _drop_database for one owned database, on a connection of its own.
    method DropDatabase(name: string, d: DropScript) returns (r: DropResult)
      modifies this
      ensures r == Drop(d) && Abstract() == AttemptDrop(old(Abstract()), name, r)
    {
      attempts := attempts + [name];
      if d.connect.Some? { return Failed(d.connect.value, false); }
      var used, i: nat := false, 0;
      while i < DROP_TRIES
        invariant i <= DROP_TRIES && DropFrom(d.turns, i, used) == Drop(d)
        invariant Abstract() == old(Abstract()).(attempts := old(attempts) + [name])
      {
        match d.turns(i) {
          case SessionsRemain =>
          case InUse => used := true;
          case Done =>
            databases := databases - {name};
            return Dropped;
          case Breaks(e, gone) =>
            if gone { databases := databases - {name}; }
            return Failed(e, gone);
        }
        i := i + 1;
      }
      return Failed(if used then Psycopg("database in use") else Exit("sessions did not terminate"), false);
    }

    // The loop of the finally block.
    method DropOwned(drops: string -> DropScript) returns (failures: seq<Exception>, escaped: Option<Exception>)
      modifies this
      ensures Cleanup(Abstract(), failures, escaped) == CleanUp(old(Abstract()), Reversed(old(owned)), drops)
    {
      hide Drop, AttemptDrop, Reversed, Tolerated;
      var names := Reversed(owned);
      failures := [];
      for i := 0 to |names|
        invariant Cleanup(Abstract(), failures, None) == CleanUp(old(Abstract()), names[..i], drops)
      {
        assert names[..i + 1][..i] == names[..i];
        var r := DropDatabase(names[i], drops(names[i]));
        if r.Failed? {
          if !Tolerated(r.error) {
            EscapeEndsTheLoop(old(Abstract()), names, i + 1, drops);
            return failures, Some(r.error);
          }
          failures := failures + [r.error];
        }
      }
      assert names[..|names|] == names;
      escaped := None;
    }

    method Run(x: Script) returns (outcome: Outcome)
      modifies this
      ensures Finish(Abstract(), outcome) == Validate(old(Abstract()), x)
    {
      var primary := RunProof(x);
      var failures, escaped := DropOwned(x.drops);
      if escaped.Some? { return Raised(escaped.value); }
      if primary.Some? { return Raised(Reported(primary.value)); }
      if failures != [] { return Raised(Exit(failures[0].text)); }
      return Returned;
    }
  }

  lemma {:induction false} EscapeEndsTheLoop(s: State, names: seq<string>, i: nat, drops: string -> DropScript)
    requires i <= |names| && CleanUp(s, names[..i], drops).escaped.Some?
    ensures CleanUp(s, names, drops) == CleanUp(s, names[..i], drops)
    decreases |names| - i
  {
    hide Drop, AttemptDrop;
    if i == |names| {
      assert names[..i] == names;
    } else {
      assert names[..i + 1][..i] == names[..i];
      EscapeEndsTheLoop(s, names, i + 1, drops);
    }
  }

  // ----- Ownership -----

  // Everything a run may create is owned before it can exist, and nothing that existed when it
  // looked is ever owned.
  lemma CreateOwnsFirst(s: State, step: CreateStep)
    ensures var p := Create(s, step);
            && s.owned <= p.state.owned && s.databases <= p.state.databases
            && p.state.through == s.through && p.state.attempts == s.attempts
            && (forall d | d in p.state.databases && d !in s.databases :: d in step.foreign || d in p.state.owned)
            && (p.state.owned == s.owned || (p.state.owned == s.owned + [step.name] && step.name !in s.databases))
            && (p.state.owned == s.owned ==> p.state.databases == s.databases)
  {
  }

  ghost predicate OnlyOwnedOrForeign(s: State, x: Script, t: State) {
    forall d | d in t.databases && d !in s.databases :: d in x.first.foreign || d in x.second.foreign || d in t.owned
  }

  // Any exit from the proof, also right after an ambiguous CREATE: each new database is owned or
  // another session's, and no database that was there at the start is owned.
  lemma NewDatabasesAreOwned(s: State, x: Script)
    requires s.owned == []
    ensures var t := Proof(s, x).state;
            && OnlyOwnedOrForeign(s, x, t) && s.databases <= t.databases
            && (forall d | d in t.owned :: d !in s.databases)
            && t.through == s.through && t.attempts == s.attempts
            && |t.owned| <= 2
  {
    hide Create;
    CreateOwnsFirst(s, x.first);
    CreateOwnsFirst(Create(s, x.first).state, x.second);
    CreateOwnsFirst(UpgradeProof(s, x).state, x.second);
  }

  // ----- Cleanup -----

  function DropOf(x: string -> DropScript, name: string): DropResult {
    Drop(x(name))
  }

  // The attempts are made in order, one for each name, up to and including the first that
  // raises something the loop does not tolerate.
  lemma {:induction false} OneAttemptEach(s: State, names: seq<string>, drops: string -> DropScript) returns (n: nat)
    ensures n <= |names| && CleanUp(s, names, drops).state.attempts == s.attempts + names[..n]
    ensures forall i | 0 <= i < n - 1 :: !Escapes(DropOf(drops, names[i]))
    ensures CleanUp(s, names, drops).escaped.None? <==> n == |names| && (n > 0 ==> !Escapes(DropOf(drops, names[n - 1])))
    ensures CleanUp(s, names, drops).escaped.Some? ==> n > 0 && Escapes(DropOf(drops, names[n - 1]))
  {
    hide Drop, Escapes;
    if names == [] {
      n := 0;
    } else {
      var front := names[..|names| - 1];
      n := OneAttemptEach(s, front, drops);
      assert names[..n] == front[..n];
      if CleanUp(s, front, drops).escaped.None? {
        assert forall i | 0 <= i < |front| :: names[i] == front[i];
        n := |names|;
        assert names[..n] == front + [names[|names| - 1]];
      }
    }
  }

  lemma {:induction false} DroppedDatabases(s: State, names: seq<string>, drops: string -> DropScript)
    ensures var c := CleanUp(s, names, drops);
            && c.state.databases <= s.databases
            && (forall d | d in s.databases && d !in c.state.databases :: d in names)
            && (c.escaped.None? && c.failures == [] ==> forall d | d in names :: d !in c.state.databases)
            && c.state.owned == s.owned && c.state.through == s.through
  {
    hide Drop;
    if names != [] {
      var front, last := names[..|names| - 1], names[|names| - 1];
      DroppedDatabases(s, front, drops);
      assert forall d :: d in names <==> d in front || d == last;
    }
  }

  lemma {:induction false} FailuresAreTheFailedDrops(s: State, names: seq<string>, drops: string -> DropScript)
    requires CleanUp(s, names, drops).escaped.None?
    ensures CleanUp(s, names, drops).failures == [] <==> forall d | d in names :: DropOf(drops, d).Dropped?
  {
    hide Drop, AttemptDrop;
    if names != [] {
      var front, last := names[..|names| - 1], names[|names| - 1];
      FailuresAreTheFailedDrops(s, front, drops);
      assert forall d :: d in names <==> d in front || d == last;
      var r, c := DropOf(drops, last), CleanUp(s, names, drops);
      assert r.Failed? ==> |c.failures| > 0;
    }
  }

  lemma ReversedMembers(s: seq<string>)
    ensures forall d :: d in Reversed(s) <==> d in s
  {
    forall d ensures d in Reversed(s) <==> d in s {
      if d in s {
        var i :| 0 <= i < |s| && s[i] == d;
        assert Reversed(s)[|s| - 1 - i] == d;
      }
    }
  }

  // ----- Main results -----

  // On every exit path the owned databases get one drop attempt each, last created first; the
  // only way to lose one is an error other than a database error or an exit from an earlier drop.
  lemma EveryOwnedDatabaseIsAttemptedOnce(s: State, x: Script)
    requires s.owned == [] && s.attempts == []
    ensures var owned, attempts := Proof(s, x).state.owned, Validate(s, x).state.attempts;
            && attempts <= Reversed(owned)
            && (attempts == Reversed(owned) <==>
                  forall i | 0 < i < |owned| :: !Escapes(DropOf(x.drops, owned[i])))
  {
    hide Proof, CleanUp, Escapes, DropOf;
    NewDatabasesAreOwned(s, x);
    var t := Proof(s, x).state;
    var names := Reversed(t.owned);
    var n := OneAttemptEach(t, names, x.drops);
    assert [] + names[..n] == names[..n];
    assert |names[..n]| == n;
    forall i | 0 < i < |t.owned| ensures t.owned[i] == names[|names| - 1 - i] {}
    if n == |names| {
      assert names[..n] == names;
    } else {
      assert Escapes(DropOf(x.drops, t.owned[|names| - n]));
    }
  }

  // A database that was there before is never attempted and is there afterwards.
  lemma ExistingDatabasesSurvive(s: State, x: Script)
    requires s.owned == [] && s.attempts == []
    ensures s.databases <= Validate(s, x).state.databases
    ensures forall d | d in Validate(s, x).state.attempts :: d !in s.databases
  {
    hide Proof, CleanUp;
    NewDatabasesAreOwned(s, x);
    var t := Proof(s, x).state;
    DroppedDatabases(t, Reversed(t.owned), x.drops);
    ReversedMembers(t.owned);
    var n := OneAttemptEach(t, Reversed(t.owned), x.drops);
    assert Validate(s, x).state.attempts == Reversed(t.owned)[..n];
  }

  // Success means the proof held and every drop was done; then nothing this run created is left.
  lemma SuccessLeavesNothingBehind(s: State, x: Script)
    requires s.owned == [] && s.attempts == []
    ensures var p := Proof(s, x);
            Validate(s, x).outcome == Returned <==> p.error.None? && forall d | d in p.state.owned :: DropOf(x.drops, d).Dropped?
    ensures Validate(s, x).outcome == Returned ==>
              forall d | d in Validate(s, x).state.databases && d !in s.databases :: d in x.first.foreign || d in x.second.foreign
  {
    hide Proof, CleanUp, Drop;
    NewDatabasesAreOwned(s, x);
    var t := Proof(s, x).state;
    DroppedDatabases(t, Reversed(t.owned), x.drops);
    ReversedMembers(t.owned);
    var n := OneAttemptEach(t, Reversed(t.owned), x.drops);
    NoEscapeWhenDropped(t, x.drops, Reversed(t.owned), n);
    if CleanUp(t, Reversed(t.owned), x.drops).escaped.None? { FailuresAreTheFailedDrops(t, Reversed(t.owned), x.drops); }
  }

  lemma NoEscapeWhenDropped(s: State, drops: string -> DropScript, names: seq<string>, n: nat)
    requires n <= |names|
    requires CleanUp(s, names, drops).escaped.Some? ==> n > 0 && Escapes(DropOf(drops, names[n - 1]))
    ensures (forall d | d in names :: DropOf(drops, d).Dropped?) ==> CleanUp(s, names, drops).escaped.None?
  {
    hide CleanUp, Drop;
    if CleanUp(s, names, drops).escaped.Some? { assert names[n - 1] in names; }
  }

  // The error of the proof is what the run raises, if and only if no cleanup error escapes or
  // the escaping one is the same; and one escapes if and only if some owned database's drop
  // raises anything but a database error or an exit.
  lemma TheFirstErrorIsReportedIff(s: State, x: Script)
    requires Proof(s, x).error.Some?
    ensures var p := Proof(s, x);
            var escaped := CleanUp(p.state, Reversed(p.state.owned), x.drops).escaped;
            && (Validate(s, x).outcome == Raised(Reported(p.error.value))
                <==> escaped.None? || escaped.value == Reported(p.error.value))
            && (escaped.None? <==> forall d | d in p.state.owned :: !Escapes(DropOf(x.drops, d)))
  {
    hide Proof, CleanUp, Drop, Escapes, DropOf;
    var t := Proof(s, x).state;
    ReversedMembers(t.owned);
    var names := Reversed(t.owned);
    var n := OneAttemptEach(t, names, x.drops);
    if CleanUp(t, names, x.drops).escaped.None? {
      forall d | d in t.owned ensures !Escapes(DropOf(x.drops, d)) {
        assert d in names;
        var i :| 0 <= i < |names| && names[i] == d;
      }
    } else {
      assert names[n - 1] in t.owned;
    }
  }

  // When one does escape: from every server, after an ambiguous CREATE the interrupted drop's
  // error is all the caller sees, and the database is left behind.
  lemma AnInterruptedDropReplacesTheError(s: State, name: string) returns (x: Script)
    requires s.owned == [] && name !in s.databases
    ensures Proof(s, x).error == Some(Psycopg("connection lost"))
    ensures Validate(s, x).outcome == Raised(Other("interrupted")) && name in Validate(s, x).state.databases
  {
    var step := CreateStep(name, None, None, {}, Fails(Psycopg("connection lost"), true));
    x := Script(step, None, Ends(0), step, false, None, None, Ends(0), _ => DropScript(Some(Other("interrupted")), _ => Done));
    InterruptedAtOnce(Proof(s, x).state, name, x.drops, "interrupted");
    assert Reversed([name]) == [name];
    hide CleanUp;
  }

  lemma InterruptedAtOnce(s: State, name: string, drops: string -> DropScript, text: string)
    requires drops(name).connect == Some(Other(text))
    ensures CleanUp(s, [name], drops) == Cleanup(s.(attempts := s.attempts + [name]), [], Some(Other(text)))
  {
    assert [name][..0] == [];
  }

  // The shared bootstrap bound is what it was, on every path, and each bootstrap used its own.
  lemma BoundIsRestored(s: State, x: Script)
    requires s.owned == []
    ensures Validate(s, x).state.through == s.through
    ensures Proof(s, x).state.bounds <= s.bounds + [UPGRADE_BOUND, CURRENT_BOUND]
  {
    hide CleanUp, Create;
    NewDatabasesAreOwned(s, x);
    var t := Proof(s, x).state;
    DroppedDatabases(t, Reversed(t.owned), x.drops);
    CreateKeepsBounds(s, x.first);
    CreateKeepsBounds(UpgradeProof(s, x).state, x.second);
  }

  lemma CreateKeepsBounds(s: State, step: CreateStep)
    ensures Create(s, step).state.bounds == s.bounds
  {
  }

  // ----- Databases of other sessions -----

  lemma {:induction false} DroppedIffAttemptedAndGone(s: State, names: seq<string>, drops: string -> DropScript, d: string)
    requires d in s.databases && d !in s.attempts
    ensures var t := CleanUp(s, names, drops).state;
            d !in t.databases <==> d in t.attempts && Gone(DropOf(drops, d))
  {
    hide Drop, Gone;
    if names != [] { DroppedIffAttemptedAndGone(s, names[..|names| - 1], drops, d); }
  }

  // Whose it may be: a database that is there after the proof is lost if and only if its drop
  // was attempted and removed it.
  lemma DatabaseIsLostIff(s: State, x: Script, d: string)
    requires s.owned == [] && s.attempts == [] && d in Proof(s, x).state.databases
    ensures var t := Validate(s, x).state;
            d !in t.databases <==> d in t.attempts && Gone(DropOf(x.drops, d))
  {
    hide Proof, CleanUp, Gone, DropOf;
    NewDatabasesAreOwned(s, x);
    var t := Proof(s, x).state;
    DroppedIffAttemptedAndGone(t, Reversed(t.owned), x.drops, d);
  }

  // The look-up of the step found the name free, so that it goes on to CREATE.
  predicate PassesLookup(s: State, step: CreateStep) {
    step.connect.None? && step.lookup.None? && step.name !in s.databases
  }

  // A database another session creates between the first look-up and CREATE is lost if and only
  // if it took the generated name and the drop of that name removes it.
  lemma ForeignDatabaseOfTheFirstGap(s: State, x: Script, d: string)
    requires s.owned == [] && s.attempts == []
    requires PassesLookup(s, x.first) && d in x.first.foreign && d !in s.databases
    ensures d in Proof(s, x).state.databases
    ensures d !in Validate(s, x).state.databases <==> d == x.first.name && Gone(DropOf(x.drops, d))
  {
    hide CleanUp, Drop, Gone;
    FirstGapOwners(s, x, d);
    OwnedIsLostIff(s, x, d);
  }

  lemma FirstGapOwners(s: State, x: Script, d: string)
    requires s.owned == [] && PassesLookup(s, x.first) && d in x.first.foreign && d !in s.databases
    ensures var t := Proof(s, x).state;
            && d in t.databases && (d in t.owned <==> d == x.first.name)
            && (d in t.owned ==> t.owned[|t.owned| - 1] == d)
  {
    hide Create;
    var made := Create(s, x.first);
    CreatedWith(s, x.first);
    CreateOwnsFirst(UpgradeProof(s, x).state, x.second);
  }

  lemma CreatedWith(s: State, step: CreateStep)
    requires PassesLookup(s, step)
    ensures var p := Create(s, step);
            && p.state.owned == s.owned + [step.name] && step.foreign <= p.state.databases
            && (step.name in step.foreign ==> p.error.Some?)
            && (p.error.None? ==> step.name in p.state.databases)
  {
  }

  // Likewise for the second look-up and CREATE.
  lemma ForeignDatabaseOfTheSecondGap(s: State, x: Script, d: string)
    requires s.owned == [] && s.attempts == [] && UpgradeProof(s, x).error.None?
    requires PassesLookup(UpgradeProof(s, x).state, x.second)
    requires d in x.second.foreign && d !in UpgradeProof(s, x).state.databases
    ensures d in Proof(s, x).state.databases
    ensures d !in Validate(s, x).state.databases <==> d == x.second.name && Gone(DropOf(x.drops, d))
  {
    hide CleanUp, Drop, Gone, UpgradeProof, CurrentProof;
    SecondGapOwners(s, x, d);
    OwnedIsLostIff(s, x, d);
  }

  lemma SecondGapOwners(s: State, x: Script, d: string)
    requires s.owned == [] && UpgradeProof(s, x).error.None? && PassesLookup(UpgradeProof(s, x).state, x.second)
    requires d in x.second.foreign && d !in UpgradeProof(s, x).state.databases
    ensures var t := Proof(s, x).state;
            && d in t.databases && (d in t.owned <==> d == x.second.name)
            && (d in t.owned ==> t.owned[|t.owned| - 1] == d)
  {
    hide Create;
    CreateOwnsFirst(s, x.first);
    if PassesLookup(s, x.first) { CreatedWith(s, x.first); }
    NotOwnedUnlessPassed(s, x.first);
    CreatedWith(UpgradeProof(s, x).state, x.second);
  }

  lemma NotOwnedUnlessPassed(s: State, step: CreateStep)
    ensures !PassesLookup(s, step) ==> Create(s, step).error.Some?
  {
  }

  // The database owned last is the first to be attempted, so that nothing can come before it.
  lemma OwnedIsLostIff(s: State, x: Script, d: string)
    requires s.owned == [] && s.attempts == [] && d in Proof(s, x).state.databases
    requires var owned := Proof(s, x).state.owned; d in owned ==> owned[|owned| - 1] == d
    ensures d !in Validate(s, x).state.databases <==> d in Proof(s, x).state.owned && Gone(DropOf(x.drops, d))
  {
    hide Proof, CleanUp, Gone, DropOf, Escapes;
    NewDatabasesAreOwned(s, x);
    DatabaseIsLostIff(s, x, d);
    var t := Proof(s, x).state;
    var names := Reversed(t.owned);
    ReversedMembers(t.owned);
    var n := OneAttemptEach(t, names, x.drops);
    var attempts := Validate(s, x).state.attempts;
    assert attempts == names[..n];
    if d in t.owned {
      assert names[0] == d;
      assert n > 0 && attempts[0] == d;
    } else {
      assert forall a | a in attempts :: a in names;
    }
  }

  // A drop succeeds exactly when one of its five turns reaches DROP and no earlier turn breaks.
  lemma {:induction false} DropSucceedsIff(turns: nat -> Turn, i: nat, used: bool)
    requires i <= DROP_TRIES
    ensures DropFrom(turns, i, used).Dropped? <==>
              exists k :: i <= k < DROP_TRIES && turns(k).Done? && forall j | i <= j < k :: !turns(j).Breaks?
    decreases DROP_TRIES - i
  {
    if i < DROP_TRIES && !turns(i).Done? && !turns(i).Breaks? {
      DropSucceedsIff(turns, i + 1, used || turns(i).InUse?);
      if k :| i + 1 <= k < DROP_TRIES && turns(k).Done? && forall j | i + 1 <= j < k :: !turns(j).Breaks? {
        assert forall j | i <= j < k :: !turns(j).Breaks?;
      }
    } else if i < DROP_TRIES && turns(i).Done? {
      assert i <= i < DROP_TRIES;
    }
  }
}
