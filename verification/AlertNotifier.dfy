// notify: alert on a change of the failing checks, repeat hourly while they persist, and keep
// the last acknowledged set in a state file.
module AlertNotifier {
  import opened JsonValues

  const REPEAT := 3600.0

  datatype StateFile = Missing | Corrupt | Document(json: Json)

  // How far one delivery gets: refused by the mail server; accepted but the state file could not
  // be written; saved; or broken off by an exception notify does not catch.
  datatype Delivery = Refused | Unsaved | Saved | Escapes

  datatype Outcome = Done(ok: bool) | Raised

  datatype Call = Call(failures: seq<string>, now: real, delivery: Delivery)

  // What the state file says was last acknowledged.
  datatype Record = Record(failures: seq<Json>, at: real)

  function Strings(s: seq<string>): (r: seq<Json>)
    ensures |r| == |s| && forall i | 0 <= i < |s| :: r[i] == JStr(s[i])
  {
    seq(|s|, i requires 0 <= i < |s| => JStr(s[i]))
  }

  predicate Shaped(file: StateFile) {
    file.Document? && file.json.JObj? && Get(file.json.fields, "failures").JList? && Numeric(Get(file.json.fields, "notified_at"))
  }

  function StampOf(file: StateFile): real
    requires Shaped(file)
  {
    NumericValue(Get(file.json.fields, "notified_at"))
  }

  function Previous(file: StateFile, now: real): Record {
    if Shaped(file) && 0.0 <= StampOf(file) <= now
    then Record(Get(file.json.fields, "failures").items, StampOf(file))
    else Record([], 0.0)
  }

  predicate Due(previous: Record, failures: seq<string>, now: real) {
    Strings(failures) != previous.failures || (failures != [] && now - previous.at >= REPEAT)
  }

  function Saving(failures: seq<string>, now: real): StateFile {
    Document(JObj(map["failures" := JList(Strings(failures)), "notified_at" := JFloat(now)]))
  }

  // The call tries to deliver an alert.
  predicate Tries(file: StateFile, c: Call) {
    Due(Previous(file, c.now), c.failures, c.now)
  }

  predicate Stores(file: StateFile, c: Call) {
    Tries(file, c) && c.delivery == Saved
  }

  function After(file: StateFile, c: Call): StateFile {
    if Stores(file, c) then Saving(c.failures, c.now) else file
  }

  function OutcomeOf(file: StateFile, c: Call): Outcome {
    if !Tries(file, c) then Done(true)
    else match c.delivery
      case Saved => Done(true)
      case Escapes => Raised
      case _ => Done(false)
  }

  // ----- The monitor -----

  class Monitor {
    var file: StateFile
    ghost const start: StateFile
    ghost var calls: seq<Call>

    ghost predicate Valid()
      reads this
    {
      file == FileAfter(start, calls)
    }

    constructor (file: StateFile)
      ensures Valid() && start == file && calls == [] && this.file == file
    {
      this.file, start, calls := file, file, [];
    }

    method Notify(failures: seq<string>, now: real, delivery: Delivery) returns (outcome: Outcome)
      requires Valid()
      modifies this
      ensures Valid() && calls == old(calls) + [Call(failures, now, delivery)]
      ensures outcome == OutcomeOf(old(file), Call(failures, now, delivery))
    {
      calls := calls + [Call(failures, now, delivery)];
      assert calls[..|calls| - 1] == old(calls);
      var previous := Previous(file, now);
      var changed := Strings(failures) != previous.failures;
      var repeatDue := failures != [] && now - previous.at >= REPEAT;
      if !changed && !repeatDue { return Done(true); }
      match delivery {
        case Refused => return Done(false);
        case Unsaved => return Done(false);
        case Escapes => return Raised;
        case Saved =>
          file := Saving(failures, now);
          return Done(true);
      }
    }
  }

  // ----- When a call tries -----

  // The file is a document with a list and a number, bools included, of that age.
  ghost predicate Says(file: StateFile, failures: seq<Json>, at: real) {
    && file.Document? && file.json.JObj?
    && "failures" in file.json.fields && file.json.fields["failures"] == JList(failures)
    && "notified_at" in file.json.fields
    && match file.json.fields["notified_at"]
       case JInt(n) => at == n as real
       case JFloat(x) => at == x
       case JBool(b) => at == if b then 1.0 else 0.0
       case _ => false
  }

  ghost predicate AreTheTexts(items: seq<Json>, texts: seq<string>) {
    |items| == |texts| && forall i | 0 <= i < |items| :: items[i] == JStr(texts[i])
  }

  // A call tries to alert if and only if its failures are not the recorded texts, or are not
  // empty and were recorded an hour ago; a file that is missing, malformed, from the future or
  // from before the epoch records no failures.
  lemma TriesIff(file: StateFile, c: Call)
    ensures forall items, at | Says(file, items, at) && 0.0 <= at <= c.now ::
              Tries(file, c) <==> !AreTheTexts(items, c.failures) || (c.failures != [] && c.now - at >= 3600.0)
    ensures (forall items, at | Says(file, items, at) :: !(0.0 <= at <= c.now)) ==> (Tries(file, c) <==> c.failures != [])
  {
    hide Strings;
    forall items ensures AreTheTexts(items, c.failures) <==> Strings(c.failures) == items { TextsIff(items, c.failures); }
    TextsIff([], c.failures);
    if Shaped(file) { assert Says(file, Get(file.json.fields, "failures").items, StampOf(file)); }
  }

  lemma TextsIff(items: seq<Json>, texts: seq<string>)
    ensures AreTheTexts(items, texts) <==> Strings(texts) == items
  {
    if AreTheTexts(items, texts) { assert Strings(texts) == items; }
  }

  // ----- Runs -----

  // The state file after the calls, when only notify writes it.
  function FileAfter(start: StateFile, calls: seq<Call>): StateFile {
    if calls == [] then start else After(FileAfter(start, calls[..|calls| - 1]), calls[|calls| - 1])
  }

  function FileAt(start: StateFile, calls: seq<Call>, i: nat): StateFile
    requires i <= |calls|
  {
    FileAfter(start, calls[..i])
  }

  predicate Acknowledged(start: StateFile, calls: seq<Call>, i: nat)
    requires i < |calls|
  {
    OutcomeOf(FileAt(start, calls, i), calls[i]) == Done(true)
  }

  predicate StoresAt(start: StateFile, calls: seq<Call>, i: nat)
    requires i < |calls|
  {
    Stores(FileAt(start, calls, i), calls[i])
  }

  // The clock never goes back, and the state file is not from the future.
  ghost predicate Clocked(start: StateFile, calls: seq<Call>) {
    && (forall i, j | 0 <= i <= j < |calls| :: 0.0 <= calls[i].now <= calls[j].now)
    && (calls != [] && Shaped(start) ==> StampOf(start) <= calls[0].now)
  }

  lemma FileStep(start: StateFile, calls: seq<Call>, i: nat)
    requires i < |calls|
    ensures FileAt(start, calls, i + 1) == After(FileAt(start, calls, i), calls[i])
  {
    assert calls[..i + 1][..i] == calls[..i];
  }

  lemma {:induction false} NeverFromTheFuture(start: StateFile, calls: seq<Call>, i: nat)
    requires Clocked(start, calls) && i < |calls|
    ensures Shaped(FileAt(start, calls, i)) ==> StampOf(FileAt(start, calls, i)) <= calls[i].now
  {
    if i == 0 {
      assert calls[..0] == [];
    } else {
      NeverFromTheFuture(start, calls, i - 1);
      FileStep(start, calls, i - 1);
      assert calls[i - 1].now <= calls[i].now;
    }
  }

  // As long as nothing is stored, every later call reads the same record.
  lemma {:induction false} QuietRecord(start: StateFile, calls: seq<Call>, i: nat, j: nat)
    requires Clocked(start, calls) && i <= j < |calls|
    requires forall k | i <= k < j :: !StoresAt(start, calls, k)
    ensures FileAt(start, calls, j) == FileAt(start, calls, i)
    ensures Previous(FileAt(start, calls, j), calls[j].now) == Previous(FileAt(start, calls, i), calls[i].now)
    decreases j
  {
    hide Tries, FileAt;
    if i < j {
      QuietRecord(start, calls, i, j - 1);
      FileStep(start, calls, j - 1);
      assert !StoresAt(start, calls, j - 1);
      NeverFromTheFuture(start, calls, i);
      assert calls[i].now <= calls[j].now;
    }
  }

  lemma ReadsBack(failures: seq<string>, at: real, now: real)
    requires 0.0 <= at <= now
    ensures Previous(Saving(failures, at), now) == Record(Strings(failures), at)
  {
  }

  lemma StoredRecord(start: StateFile, calls: seq<Call>, i: nat, j: nat)
    requires Clocked(start, calls) && i < j < |calls| && StoresAt(start, calls, i)
    requires forall k | i < k < j :: !StoresAt(start, calls, k)
    ensures Previous(FileAt(start, calls, j), calls[j].now) == Record(Strings(calls[i].failures), calls[i].now)
  {
    hide Tries, FileAt, Saving, Previous;
    QuietRecord(start, calls, i + 1, j);
    FileStep(start, calls, i);
    assert 0.0 <= calls[i].now <= calls[i + 1].now;
    ReadsBack(calls[i].failures, calls[i].now, calls[i + 1].now);
  }

  // A call compares with the last acknowledged set: what it finds recorded is what the latest
  // call that returned True was given, whatever was tried and failed in between.
  lemma ComparesWithTheLastAcknowledged(start: StateFile, calls: seq<Call>, i: nat, j: nat)
    requires Clocked(start, calls) && i < j < |calls| && Acknowledged(start, calls, i)
    requires forall k | i < k < j :: !Acknowledged(start, calls, k)
    ensures Previous(FileAt(start, calls, j), calls[j].now).failures == Strings(calls[i].failures)
  {
    hide FileAt, Previous, Due;
    forall k | i < k < j ensures !StoresAt(start, calls, k) { assert !Acknowledged(start, calls, k); }
    if StoresAt(start, calls, i) {
      StoredRecord(start, calls, i, j);
    } else {
      QuietRecord(start, calls, i, j);
      NotDueMeansSame(Previous(FileAt(start, calls, i), calls[i].now), calls[i].failures, calls[i].now);
    }
  }

  lemma NotDueMeansSame(previous: Record, failures: seq<string>, now: real)
    ensures !Due(previous, failures, now) ==> previous.failures == Strings(failures)
  {
  }

  // A failed call changes nothing, and the next call with the same failures tries again.
  lemma FailureIsRetried(start: StateFile, calls: seq<Call>, i: nat)
    requires Clocked(start, calls) && i + 1 < |calls| && !Acknowledged(start, calls, i)
    requires calls[i + 1].failures == calls[i].failures
    ensures FileAt(start, calls, i + 1) == FileAt(start, calls, i)
    ensures Tries(FileAt(start, calls, i + 1), calls[i + 1])
  {
    hide FileAt, Previous;
    FileStep(start, calls, i);
    QuietRecord(start, calls, i, i + 1);
    assert calls[i].now <= calls[i + 1].now;
  }

  // Two alerts stored one after the other: either the failing set changed, or it is a repeat of
  // a set that still fails, at least an hour later.
  lemma StoredAlertsAreAnHourApart(start: StateFile, calls: seq<Call>, i: nat, j: nat)
    requires Clocked(start, calls) && i < j < |calls| && StoresAt(start, calls, i) && StoresAt(start, calls, j)
    requires forall k | i < k < j :: !StoresAt(start, calls, k)
    requires calls[i].failures == calls[j].failures
    ensures calls[j].failures != [] && calls[j].now - calls[i].now >= 3600.0
  {
    hide FileAt, Previous;
    StoredRecord(start, calls, i, j);
  }

  // With working delivery, polls of a persisting failure at gaps of at most d repeat the alert
  // no sooner than an hour and less than an hour and d after the last one.
  lemma {:induction false} PersistingFailureIsRepeated(start: StateFile, calls: seq<Call>, i: nat, j: nat, d: real) returns (k: nat)
    requires Clocked(start, calls) && i < j < |calls| && StoresAt(start, calls, i) && calls[i].failures != []
    requires forall m | i < m <= j :: calls[m].failures == calls[i].failures && calls[m].delivery == Saved
    requires forall m | i < m <= j :: calls[m].now - calls[m - 1].now <= d
    requires calls[j].now - calls[i].now >= 3600.0
    ensures i < k <= j && StoresAt(start, calls, k) && forall m | i < m < k :: !StoresAt(start, calls, m)
    ensures 3600.0 <= calls[k].now - calls[i].now < 3600.0 + d
  {
    hide FileAt, Previous, Strings;
    k := i + 1;
    while calls[k].now - calls[i].now < 3600.0
      invariant i < k <= j
      invariant calls[k - 1].now - calls[i].now < 3600.0
      invariant forall m | i < m < k :: !StoresAt(start, calls, m)
      decreases j - k
    {
      StoredRecord(start, calls, i, k);
      k := k + 1;
    }
    StoredRecord(start, calls, i, k);
    assert calls[k].now - calls[k - 1].now <= d;
  }

  // A recovery is announced exactly when something was acknowledged as failing, and never repeated.
  lemma RecoveryIsAnnouncedOnce(start: StateFile, calls: seq<Call>, i: nat, j: nat)
    requires Clocked(start, calls) && i < j < |calls| && Acknowledged(start, calls, i)
    requires forall k | i < k < j :: !Acknowledged(start, calls, k)
    requires calls[j].failures == []
    ensures Tries(FileAt(start, calls, j), calls[j]) <==> calls[i].failures != []
  {
    hide FileAt, Previous;
    ComparesWithTheLastAcknowledged(start, calls, i, j);
    if calls[i].failures != [] { assert Strings(calls[i].failures) != Strings([]); }
  }
}
