// tools/apply_ecl_live_migrations_version_aware.py and the executor it hands over to,
// tools/apply_ecl_credit_risk_labels_migration.py: forward migrations that must never be
// replayed, each committing on its own.
module EclMigrationPlan {

  datatype Plan = Selected(migrations: seq<string>) | NonContiguous

  // The position of the first missing migration; the length of the list if none is missing.
  function FirstMissing(installed: seq<bool>): (k: nat)
    ensures k <= |installed|
    ensures forall i | 0 <= i < k :: installed[i]
    ensures k < |installed| ==> !installed[k]
  {
    if installed == [] || !installed[0] then 0 else 1 + FirstMissing(installed[1..])
  }

  function SelectMissing(migrations: seq<string>, installed: seq<bool>): Plan
    requires |installed| == |migrations|
  {
    var first := FirstMissing(installed);
    if exists i :: first <= i < |installed| && installed[i] then NonContiguous else Selected(migrations[first..])
  }

  // The migrations that are not selected, in list order.
  function Skipped(migrations: seq<string>, selected: seq<string>): seq<string> {
    if migrations == [] then []
    else (if migrations[0] in selected then [] else [migrations[0]]) + Skipped(migrations[1..], selected)
  }

  ghost predicate Distinct(s: seq<string>) {
    forall i, j | 0 <= i < j < |s| :: s[i] != s[j]
  }

  // true ... true false ... false
  ghost predicate InstalledUpTo(installed: seq<bool>, k: nat) {
    k <= |installed| && forall i | 0 <= i < |installed| :: installed[i] <==> i < k
  }

  // Planning succeeds exactly on the vectors true...true false...false; the plan is then the
  // missing suffix, and what is skipped followed by what is planned is the whole list in order.
  lemma PlanIffContiguous(migrations: seq<string>, installed: seq<bool>)
    requires |installed| == |migrations| && Distinct(migrations)
    ensures SelectMissing(migrations, installed).Selected? <==> exists k: nat :: InstalledUpTo(installed, k)
    ensures forall k: nat | InstalledUpTo(installed, k) ::
              SelectMissing(migrations, installed) == Selected(migrations[k..])
    ensures var plan := SelectMissing(migrations, installed);
            plan.Selected? ==> Skipped(migrations, plan.migrations) + plan.migrations == migrations
  {
    var plan, first := SelectMissing(migrations, installed), FirstMissing(installed);
    if plan.Selected? {
      assert InstalledUpTo(installed, first);
      SkippedIsPrefix(migrations, first);
    }
    forall k: nat | InstalledUpTo(installed, k) ensures plan == Selected(migrations[k..]) {
      if first < |installed| { assert !installed[first]; }
      if k < |installed| { assert !installed[k]; }
      assert first == k;
    }
  }

  lemma {:induction false} SkippedOutside(migrations: seq<string>, selected: seq<string>)
    requires forall m | m in migrations :: m in selected
    ensures Skipped(migrations, selected) == []
  {
    if migrations != [] {
      assert migrations[0] in migrations;
      SkippedOutside(migrations[1..], selected);
    }
  }

  lemma {:induction false} SkippedIsPrefix(migrations: seq<string>, k: nat)
    requires k <= |migrations| && Distinct(migrations)
    ensures Skipped(migrations, migrations[k..]) == migrations[..k]
  {
    if k == 0 {
      SkippedOutside(migrations, migrations[0..]);
    } else {
      var rest := migrations[1..];
      SkippedIsPrefix(rest, k - 1);
      assert rest[k - 1..] == migrations[k..];
      assert migrations[0] !in migrations[k..];
      assert migrations[..k] == [migrations[0]] + rest[..k - 1];
    }
  }

  // ----- Sessions against a live database -----

  // `installed` is what the probes see, `executed` every execution so far. A session is one
  // operator's run: it has planned, and still has `sessions[id]` to execute.
  datatype System = System(installed: set<string>, executed: seq<string>, sessions: map<nat, seq<string>>)

  datatype Event =
    | Open(id: nat)       // probe and plan; a refusal opens no session
    | Execute(id: nat)    // the next migration runs and commits
    | Close(id: nat)      // completed, crashed, or failed a check: nothing is rolled back

  // The probes are truthful: a migration looks installed if and only if it has been executed.
  function Probe(migrations: seq<string>, installed: set<string>): (flags: seq<bool>)
    ensures |flags| == |migrations|
  {
    seq(|migrations|, i requires 0 <= i < |migrations| => migrations[i] in installed)
  }

  function Step(migrations: seq<string>, s: System, e: Event): System {
    match e
    case Open(id) =>
      var plan := SelectMissing(migrations, Probe(migrations, s.installed));
      if plan.Selected? && id !in s.sessions then s.(sessions := s.sessions[id := plan.migrations]) else s
    case Execute(id) =>
      if id in s.sessions && s.sessions[id] != [] then
        var m := s.sessions[id][0];
        System(s.installed + {m}, s.executed + [m], s.sessions[id := s.sessions[id][1..]])
      else s
    case Close(id) => s.(sessions := s.sessions - {id})
  }

  function Run(migrations: seq<string>, s: System, events: seq<Event>): System {
    if events == [] then s
    else Step(migrations, Run(migrations, s, events[..|events| - 1]), events[|events| - 1])
  }

  function Prefix(migrations: seq<string>, k: nat): set<string>
    requires k <= |migrations|
  {
    set i | 0 <= i < k :: migrations[i]
  }

  // Before the run: the first k migrations are there and no session is open.
  predicate StartsAt(migrations: seq<string>, s: System, k: nat) {
    k <= |migrations| && s == System(Prefix(migrations, k), [], map[])
  }

  lemma ProbePrefix(migrations: seq<string>, k: nat)
    requires k <= |migrations| && Distinct(migrations)
    ensures InstalledUpTo(Probe(migrations, Prefix(migrations, k)), k)
    ensures SelectMissing(migrations, Probe(migrations, Prefix(migrations, k))) == Selected(migrations[k..])
  {
    var flags := Probe(migrations, Prefix(migrations, k));
    forall i | 0 <= i < |flags| ensures flags[i] <==> i < k {
      if k <= i {
        assert forall j | 0 <= j < k :: migrations[j] != migrations[i];
      } else {
        assert migrations[i] in Prefix(migrations, k);
      }
    }
    PlanIffContiguous(migrations, flags);
  }

  // ----- Any sessions, even overlapping ones -----

  // The installed set is a prefix, every open session still has a suffix to execute that starts
  // no earlier than the run did and no later than the prefix ends, and what was executed is what
  // the prefix has grown by, repetitions aside.
  ghost predicate Inv(migrations: seq<string>, s: System, k0: nat, k: nat) {
    && k0 <= k <= |migrations| && s.installed == Prefix(migrations, k)
    && (forall id | id in s.sessions ::
          |migrations| - k <= |s.sessions[id]| <= |migrations| - k0
          && s.sessions[id] == migrations[|migrations| - |s.sessions[id]|..])
    && (forall m :: m in s.executed <==> m in migrations[k0..k])
    && |s.executed| >= k - k0
  }

  ghost predicate Executes(s: System, e: Event) {
    e.Execute? && e.id in s.sessions && s.sessions[e.id] != []
  }

  lemma ExecuteStep(migrations: seq<string>, s: System, k0: nat, k: nat, id: nat)
    requires Distinct(migrations) && Inv(migrations, s, k0, k) && Executes(s, Execute(id))
    ensures var at := |migrations| - |s.sessions[id]|;
            var more := if at == k then k + 1 else k;
            && k0 <= at <= k && s.sessions[id][0] == migrations[at]
            && (s.sessions[id][0] in s.installed <==> at < k)
            && Inv(migrations, Step(migrations, s, Execute(id)), k0, more)
  {
    hide SelectMissing, Probe;
    var at := |migrations| - |s.sessions[id]|;
    var m, t := s.sessions[id][0], Step(migrations, s, Execute(id));
    assert m == migrations[at] && s.sessions[id][1..] == migrations[at + 1..];
    if at == k {
      assert Prefix(migrations, k + 1) == Prefix(migrations, k) + {m};
      assert migrations[k0..k + 1] == migrations[k0..k] + [m];
    } else {
      assert migrations[k0..k][at - k0] == m;
    }
    forall x ensures x in t.executed <==> x in s.executed || x == m {}
  }

  lemma OpenStep(migrations: seq<string>, s: System, k0: nat, k: nat, id: nat)
    requires Distinct(migrations) && Inv(migrations, s, k0, k)
    ensures Inv(migrations, Step(migrations, s, Open(id)), k0, k)
  {
    ProbePrefix(migrations, k);
    hide SelectMissing, Probe, Prefix, Distinct;
  }

  // However many sessions overlap, crash and are repeated, the installed set stays a prefix of
  // the list and never loses a migration.
  lemma {:induction false} InstalledStaysAPrefix(migrations: seq<string>, s0: System, k0: nat, events: seq<Event>) returns (k: nat)
    requires Distinct(migrations) && StartsAt(migrations, s0, k0)
    ensures Inv(migrations, Run(migrations, s0, events), k0, k)
  {
    if events == [] {
      k := k0;
      assert migrations[k0..k0] == [];
    } else {
      hide SelectMissing, Probe, Prefix, Distinct;
      k := InstalledStaysAPrefix(migrations, s0, k0, events[..|events| - 1]);
      var s, e := Run(migrations, s0, events[..|events| - 1]), events[|events| - 1];
      if Executes(s, e) {
        ExecuteStep(migrations, s, k0, k, e.id);
        k := if |migrations| - |s.sessions[e.id]| == k then k + 1 else k;
      } else if e.Open? {
        OpenStep(migrations, s, k0, k, e.id);
      }
    }
  }

  // ----- Exactly when nothing is replayed -----

  // The migration about to run is still missing: one more probe, right before it, would say so.
  ghost predicate Fresh(s: System, e: Event) {
    Executes(s, e) ==> s.sessions[e.id][0] !in s.installed
  }

  ghost predicate AllFresh(migrations: seq<string>, s0: System, events: seq<Event>) {
    events == []
    || (AllFresh(migrations, s0, events[..|events| - 1])
        && Fresh(Run(migrations, s0, events[..|events| - 1]), events[|events| - 1]))
  }

  // For every schedule, overlapping or not: what was executed is the list from k0 to k, each
  // migration once and in order, if and only if every migration was still missing when it ran.
  // Otherwise some migration ran twice.
  lemma {:induction false} ExactlyOnceIffFresh(migrations: seq<string>, s0: System, k0: nat, events: seq<Event>) returns (k: nat)
    requires Distinct(migrations) && StartsAt(migrations, s0, k0)
    ensures Inv(migrations, Run(migrations, s0, events), k0, k)
    ensures Run(migrations, s0, events).executed == migrations[k0..k] <==> AllFresh(migrations, s0, events)
    ensures Distinct(Run(migrations, s0, events).executed) <==> AllFresh(migrations, s0, events)
    ensures !AllFresh(migrations, s0, events) ==> |Run(migrations, s0, events).executed| > k - k0
  {
    if events == [] {
      k := k0;
      assert migrations[k0..k0] == [];
    } else {
      hide Step, Inv, Prefix, Fresh;
      var front, e := events[..|events| - 1], events[|events| - 1];
      var j := ExactlyOnceIffFresh(migrations, s0, k0, front);
      k := FreshStep(migrations, Run(migrations, s0, front), k0, j, e, AllFresh(migrations, s0, front));
    }
  }

  ghost predicate InOrder(migrations: seq<string>, s: System, k0: nat, k: nat, once: bool)
    requires k0 <= k <= |migrations|
  {
    && (s.executed == migrations[k0..k] <==> once) && (Distinct(s.executed) <==> once)
    && (!once ==> |s.executed| > k - k0)
  }

  lemma FreshStep(migrations: seq<string>, s: System, k0: nat, j: nat, e: Event, before: bool) returns (k: nat)
    requires Distinct(migrations) && Inv(migrations, s, k0, j) && InOrder(migrations, s, k0, j, before)
    ensures Inv(migrations, Step(migrations, s, e), k0, k)
    ensures InOrder(migrations, Step(migrations, s, e), k0, k, before && Fresh(s, e))
  {
    k := j;
    if Executes(s, e) {
      ExecuteStep(migrations, s, k0, j, e.id);
      var at := |migrations| - |s.sessions[e.id]|;
      var m, t := migrations[at], Step(migrations, s, e);
      if at == j {
        k := j + 1;
        hide Step, Inv, Prefix;
        assert migrations[k0..k] == migrations[k0..j] + [m];
        AppendDistinct(s.executed, m);
        if t.executed == migrations[k0..k] { assert t.executed[..|s.executed|] == migrations[k0..k][..j - k0]; }
      } else {
        assert migrations[k0..j][at - k0] == m;
        AppendDistinct(s.executed, m);
      }
    } else if e.Open? {
      OpenStep(migrations, s, k0, j, e.id);
    }
  }

  lemma AppendDistinct(s: seq<string>, m: string)
    ensures Distinct(s + [m]) <==> Distinct(s) && m !in s
  {
    var t := s + [m];
    if Distinct(t) {
      forall i, j | 0 <= i < j < |s| ensures s[i] != s[j] { assert t[i] != t[j]; }
      forall i | 0 <= i < |s| ensures s[i] != m { assert t[i] != t[|s|]; }
    }
  }

  // ----- One session after another -----

  // Every session is closed before the next one opens.
  ghost predicate Sequential(migrations: seq<string>, s: System, events: seq<Event>) {
    events != [] ==>
      var before := events[..|events| - 1];
      && Sequential(migrations, s, before)
      && (events[|events| - 1].Open? ==> Run(migrations, s, before).sessions == map[])
  }

  // What is executed is exactly the list from k0 to k; an open session has the rest to do.
  ghost predicate SequentialInv(migrations: seq<string>, s: System, k0: nat, k: nat) {
    && k0 <= k <= |migrations| && s.installed == Prefix(migrations, k)
    && s.executed == migrations[k0..k]
    && (forall id | id in s.sessions :: s.sessions[id] == migrations[k..])
    && (forall a, b | a in s.sessions && b in s.sessions :: a == b)
  }

  // Over any number of sequential sessions, each crashing wherever it likes, the executions are a
  // contiguous piece of the list.
  lemma {:induction false} SessionsInTurn(migrations: seq<string>, s0: System, k0: nat, events: seq<Event>) returns (k: nat)
    requires Distinct(migrations) && StartsAt(migrations, s0, k0) && Sequential(migrations, s0, events)
    ensures SequentialInv(migrations, Run(migrations, s0, events), k0, k)
  {
    if events == [] {
      k := k0;
    } else {
      var j := SessionsInTurn(migrations, s0, k0, events[..|events| - 1]);
      var s, e := Run(migrations, s0, events[..|events| - 1]), events[|events| - 1];
      k := j;
      if e.Execute? && e.id in s.sessions && s.sessions[e.id] != [] {
        k := j + 1;
        assert Prefix(migrations, k) == Prefix(migrations, j) + {migrations[j]};
        assert migrations[k0..k] == migrations[k0..j] + [migrations[j]];
      } else if e.Open? {
        ProbePrefix(migrations, j);
      }
    }
  }

  // Sessions that take turns meet the condition of ExactlyOnceIffFresh: nothing is replayed.
  lemma SessionsInTurnReplayNothing(migrations: seq<string>, s0: System, k0: nat, events: seq<Event>)
    requires Distinct(migrations) && StartsAt(migrations, s0, k0) && Sequential(migrations, s0, events)
    ensures AllFresh(migrations, s0, events)
  {
    hide Run, Inv, Prefix, AllFresh;
    var k := SessionsInTurn(migrations, s0, k0, events);
    var j := ExactlyOnceIffFresh(migrations, s0, k0, events);
    assert Distinct(migrations[k0..k]);
  }

  function Missing(migrations: seq<string>, s: System): set<string> {
    set m | m in migrations && m !in s.installed
  }

  // Each execution of a sequential run lowers the missing count by one; a session that has
  // nothing left has brought it to zero.
  lemma EverySessionMakesProgress(migrations: seq<string>, s0: System, k0: nat, events: seq<Event>, id: nat)
    requires Distinct(migrations) && StartsAt(migrations, s0, k0) && Sequential(migrations, s0, events)
    requires id in Run(migrations, s0, events).sessions
    ensures var s := Run(migrations, s0, events);
            var next := Step(migrations, s, Execute(id));
            if s.sessions[id] == [] then Missing(migrations, s) == {}
            else |Missing(migrations, next)| == |Missing(migrations, s)| - 1
  {
    var s := Run(migrations, s0, events);
    var k := SessionsInTurn(migrations, s0, k0, events);
    if s.sessions[id] == [] {
      assert k == |migrations|;
    } else {
      var next := Step(migrations, s, Execute(id));
      assert s.sessions[id][0] == migrations[k];
      forall m ensures m in Missing(migrations, next) <==> m in Missing(migrations, s) - {migrations[k]} {
      }
      assert Missing(migrations, next) == Missing(migrations, s) - {migrations[k]};
      assert migrations[k] !in s.installed;
    }
  }

  // From a state that is not a prefix no session ever opens and nothing is ever executed.
  lemma {:induction false} NonContiguousIsNeverTouched(migrations: seq<string>, s0: System, events: seq<Event>)
    requires s0.sessions == map[] && SelectMissing(migrations, Probe(migrations, s0.installed)).NonContiguous?
    ensures Run(migrations, s0, events) == s0
  {
    if events != [] {
      NonContiguousIsNeverTouched(migrations, s0, events[..|events| - 1]);
      assert s0.sessions - {events[|events| - 1].id} == s0.sessions;
    }
  }

  // Nothing in the source keeps two operators apart. Wherever the run starts, with two migrations
  // missing two sessions that both planned first run the older one again after the newer.
  lemma OverlappingSessionsReplay(migrations: seq<string>, k0: nat)
    requires k0 + 2 <= |migrations| && Distinct(migrations)
    ensures var s0, events := System(Prefix(migrations, k0), [], map[]), [Open(0), Open(1), Execute(0), Execute(0), Execute(1)];
            && StartsAt(migrations, s0, k0)
            && Run(migrations, s0, events).executed == [migrations[k0], migrations[k0 + 1], migrations[k0]]
            && !AllFresh(migrations, s0, events)
  {
    hide Run, AllFresh, Prefix;
    var rest, s0 := migrations[k0..], System(Prefix(migrations, k0), [], map[]);
    var events := [Open(0), Open(1), Execute(0), Execute(0), Execute(1)];
    Opens(migrations, s0, k0, 0);
    Opens(migrations, s0.(sessions := map[0 := rest]), k0, 1);
    assert map[0 := rest][1 := rest] == map[0 := rest, 1 := rest];
    RunFive(migrations, s0, Open(0), Open(1), Execute(0), Execute(0), Execute(1));
    ReplayFrom(migrations, s0.(sessions := map[0 := rest, 1 := rest]), rest);
    var executed := Run(migrations, s0, events).executed;
    assert executed[0] == executed[2];
    var k := ExactlyOnceIffFresh(migrations, s0, k0, events);
  }

  // One missing migration is enough for a replay.
  lemma OneMissingMigrationCanRunTwice(migrations: seq<string>, k0: nat)
    requires k0 < |migrations| && Distinct(migrations)
    ensures var s0 := System(Prefix(migrations, k0), [], map[]);
            Run(migrations, s0, [Open(0), Open(1), Execute(0), Close(0), Execute(1)]).executed == [migrations[k0], migrations[k0]]
  {
    hide Run, Prefix;
    var rest, s0 := migrations[k0..], System(Prefix(migrations, k0), [], map[]);
    Opens(migrations, s0, k0, 0);
    Opens(migrations, s0.(sessions := map[0 := rest]), k0, 1);
    assert map[0 := rest][1 := rest] == map[0 := rest, 1 := rest];
    RunFive(migrations, s0, Open(0), Open(1), Execute(0), Close(0), Execute(1));
    TwiceFrom(migrations, s0.(sessions := map[0 := rest, 1 := rest]), rest);
  }

  lemma Opens(migrations: seq<string>, s: System, k: nat, id: nat)
    requires Distinct(migrations) && k <= |migrations| && s.installed == Prefix(migrations, k) && id !in s.sessions
    ensures Step(migrations, s, Open(id)) == s.(sessions := s.sessions[id := migrations[k..]])
  {
    ProbePrefix(migrations, k);
    hide SelectMissing, Probe, Distinct, Prefix;
  }

  lemma ReplayFrom(migrations: seq<string>, s: System, rest: seq<string>)
    requires |rest| >= 2 && s.executed == [] && s.sessions == map[0 := rest, 1 := rest]
    ensures var t := Step(migrations, Step(migrations, Step(migrations, s, Execute(0)), Execute(0)), Execute(1));
            t.executed == [rest[0], rest[1], rest[0]]
  {
    hide SelectMissing, Probe;
    var t := Step(migrations, s, Execute(0));
    assert t.executed == [rest[0]] && t.sessions[0] == rest[1..] && t.sessions[1] == rest;
    var u := Step(migrations, t, Execute(0));
    assert u.executed == [rest[0]] + [rest[1]] && u.sessions[1] == rest;
    assert [rest[0]] + [rest[1]] + [rest[0]] == [rest[0], rest[1], rest[0]];
  }

  lemma TwiceFrom(migrations: seq<string>, s: System, rest: seq<string>)
    requires |rest| >= 1 && s.executed == [] && s.sessions == map[0 := rest, 1 := rest]
    ensures var t := Step(migrations, Step(migrations, Step(migrations, s, Execute(0)), Close(0)), Execute(1));
            t.executed == [rest[0], rest[0]]
  {
    hide SelectMissing, Probe;
    var t := Step(migrations, s, Execute(0));
    assert t.executed == [rest[0]] && t.sessions[1] == rest;
    assert [rest[0]] + [rest[0]] == [rest[0], rest[0]];
  }

  lemma RunFive(migrations: seq<string>, s: System, a: Event, b: Event, c: Event, d: Event, e: Event)
    ensures Run(migrations, s, [a, b, c, d, e])
            == Step(migrations, Step(migrations, Step(migrations, Step(migrations, Step(migrations, s, a), b), c), d), e)
  {
    hide Step;
    RunNone(migrations, s);
    RunSnoc(migrations, s, [], a);
    RunSnoc(migrations, s, [a], b);
    RunSnoc(migrations, s, [a, b], c);
    RunSnoc(migrations, s, [a, b, c], d);
    RunSnoc(migrations, s, [a, b, c, d], e);
    hide Run;
    assert [] + [a] == [a] && [a] + [b] == [a, b] && [a, b] + [c] == [a, b, c];
    assert [a, b, c] + [d] == [a, b, c, d] && [a, b, c, d] + [e] == [a, b, c, d, e];
  }

  lemma RunNone(migrations: seq<string>, s: System)
    ensures Run(migrations, s, []) == s
  {
  }

  lemma RunSnoc(migrations: seq<string>, s: System, events: seq<Event>, e: Event)
    ensures Run(migrations, s, events + [e]) == Step(migrations, Run(migrations, s, events), e)
  {
    assert (events + [e])[..|events + [e]| - 1] == events;
  }
}
