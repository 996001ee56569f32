/**
 Counting while records rotate. An increment loads the pointer to the current record and then adds
 to its cell; pushData loads the pointer and then stores that of an empty record. The two interleave
 freely, and an archived copy of a record shares the cells of the original.
 */
module Counters {
  import opened Common
  import opened Telemetries

  /** A thread is idle or has loaded the pointer to a record and is about to add to one of its cells. */
  datatype Thread = Resting | Adding(record: nat, counter: nat, amount: int)

  /**
   records are the cells of every record ever installed, oldest first, and current is the one
   installed now; rotating holds while pushData is between its load and its store. completed is
   history: what has been added to each counter, unreduced.
   */
  datatype State = State(records: seq<seq<Word>>, current: nat, rotating: bool, threads: seq<Thread>, completed: seq<int>)

  datatype Step =
    | Load(t: nat, counter: nat, amount: int)
    | Add(t: nat)
    | LoadCurrent
    | StoreEmpty

  function EmptyRecord(): (r: seq<Word>)
    ensures |r| == COUNTERS
  {
    seq(COUNTERS, k => 0)
  }

  /** Addition in a 32-bit cell wraps around. */
  function Plus(x: Word, amount: int): Word {
    (x + amount) % WORD
  }

  ghost function Init(threads: nat): State {
    State([EmptyRecord()], 0, false, seq(threads, t => Resting), seq(COUNTERS, k => 0))
  }

  ghost predicate Valid(s: State) {
    && s.current + 1 == |s.records| && |s.completed| == COUNTERS
    && (forall r :: 0 <= r < |s.records| ==> |s.records[r]| == COUNTERS)
    && forall t :: 0 <= t < |s.threads| && s.threads[t].Adding? ==>
        s.threads[t].record < |s.records| && s.threads[t].counter < COUNTERS
  }

  ghost predicate Enabled(s: State, step: Step) {
    match step
    case Load(t, counter, _) => t < |s.threads| && s.threads[t].Resting? && counter < COUNTERS
    case Add(t) => t < |s.threads| && s.threads[t].Adding?
    case LoadCurrent => !s.rotating
    case StoreEmpty => s.rotating
  }

  ghost function Apply(s: State, step: Step): State
    requires Valid(s) && Enabled(s, step)
  {
    match step
    case Load(t, counter, amount) => s.(threads := s.threads[t := Adding(s.current, counter, amount)])
    case Add(t) =>
      var Adding(r, k, amount) := s.threads[t];
      var record: seq<Word> := s.records[r][k := Plus(s.records[r][k], amount)];
      s.(records := s.records[r := record],
         threads := s.threads[t := Resting],
         completed := s.completed[k := s.completed[k] + amount])
    case LoadCurrent => s.(rotating := true)
    case StoreEmpty => s.(records := s.records + [EmptyRecord()], current := |s.records|, rotating := false)
  }

  ghost function Run(s: State, steps: seq<Step>): (r: Option<State>)
    requires Valid(s)
    ensures r.Some? ==> Valid(r.value)
  {
    if steps == [] then Some(s)
    else
      match Run(s, steps[..|steps| - 1])
      case None => None
      case Some(t) => if Enabled(t, steps[|steps| - 1]) then Some(Apply(t, steps[|steps| - 1])) else None
  }

  /** The cell of counter k in a record, to be summed. */
  ghost function Cell(k: nat): seq<Word> -> nat {
    (record: seq<Word>) => if k < |record| then record[k] else 0
  }

  /** Over all records ever installed, counter k shows what has been added to it, modulo 2^32. */
  ghost predicate Conserved(s: State, k: nat) {
    k < |s.completed| && Sum(Cell(k), s.records) % WORD == s.completed[k] % WORD
  }

  lemma StepConserves(s: State, step: Step, k: nat)
    requires Valid(s) && Enabled(s, step) && Conserved(s, k)
    ensures Conserved(Apply(s, step), k)
  {
    match step
    case Load(t, counter, amount) =>
    case LoadCurrent =>
    case StoreEmpty => SumAppend(Cell(k), s.records, EmptyRecord());
    case Add(t) =>
      var Adding(r, j, amount) := s.threads[t];
      var record: seq<Word> := s.records[r][j := Plus(s.records[r][j], amount)];
      SumUpdate(Cell(k), s.records, r, record);
      if k == j {
        WrapsTogether(Sum(Cell(k), s.records), Sum(Cell(k), s.records[r := record]), s.records[r][j], amount, s.completed[k]);
      }
  }

  lemma WrapsTogether(before: int, after: int, cell: int, amount: int, total: int)
    requires after + cell == before + (cell + amount) % WORD && before % WORD == total % WORD
    ensures after % WORD == (total + amount) % WORD
  {
    var q := (cell + amount) / WORD;
    assert (cell + amount) % WORD == cell + amount - WORD * q;
    assert after == before + amount - WORD * q;
    ModEqual(after, total + amount, before / WORD - q - total / WORD);
  }

  lemma ModEqual(x: int, y: int, q: int)
    requires x == y + WORD * q
    ensures x % WORD == y % WORD
  {
  }

  /** No interleaving of increments and rotations loses or invents a count, late additions included. */
  lemma {:induction false} CountsAreConserved(threads: nat, steps: seq<Step>, k: nat)
    requires k < COUNTERS && Run(Init(threads), steps).Some?
    ensures Conserved(Run(Init(threads), steps).value, k)
  {
    if steps == [] {
      assert Init(threads).records[1..] == [];
      assert Sum(Cell(k), Init(threads).records) == 0 + Sum(Cell(k), []);
    } else {
      CountsAreConserved(threads, steps[..|steps| - 1], k);
      StepConserves(Run(Init(threads), steps[..|steps| - 1]).value, steps[|steps| - 1], k);
    }
  }

  /** Record r is rotated out, and no thread is about to add to it. */
  ghost predicate Settled(s: State, r: nat) {
    r < s.current && forall t :: 0 <= t < |s.threads| && s.threads[t].Adding? ==> s.threads[t].record != r
  }

  /** A rotated record changes only by additions already under way: once settled it is final. */
  lemma {:induction false} SettledRecordsAreFinal(s: State, steps: seq<Step>, r: nat)
    requires Valid(s) && Settled(s, r) && Run(s, steps).Some?
    ensures var t := Run(s, steps).value; Settled(t, r) && t.records[r] == s.records[r]
  {
    if steps != [] {
      SettledRecordsAreFinal(s, steps[..|steps| - 1], r);
    }
  }

  ghost function Targets(r: nat): Thread -> nat {
    (t: Thread) => if t.Adding? && t.record == r then 1 else 0
  }

  /** The additions to record r among the steps. */
  ghost function Additions(s: State, steps: seq<Step>, r: nat): nat
    requires Valid(s) && Run(s, steps).Some?
  {
    if steps == [] then 0
    else
      var t, step := Run(s, steps[..|steps| - 1]).value, steps[|steps| - 1];
      Additions(s, steps[..|steps| - 1], r) + if step.Add? then Targets(r)(t.threads[step.t]) else 0
  }

  /** A rotated record sees at most as many late additions as threads had loaded it by then. */
  lemma {:induction false} LateAdditionsAreBounded(s: State, steps: seq<Step>, r: nat)
    requires Valid(s) && r < s.current && Run(s, steps).Some?
    ensures r < Run(s, steps).value.current
    ensures Additions(s, steps, r) + Sum(Targets(r), Run(s, steps).value.threads) == Sum(Targets(r), s.threads)
  {
    if steps != [] {
      var t, step := Run(s, steps[..|steps| - 1]).value, steps[|steps| - 1];
      LateAdditionsAreBounded(s, steps[..|steps| - 1], r);
      if step.Load? || step.Add? {
        SumUpdate(Targets(r), t.threads, step.t, Apply(t, step).threads[step.t]);
        assert Apply(t, step).threads == t.threads[step.t := Apply(t, step).threads[step.t]];
      }
    }
  }

  lemma ModAdd(x: int, y: int)
    ensures (x % WORD + y) % WORD == (x + y) % WORD
  {
    ModEqual(x % WORD + y, x + y, -(x / WORD));
  }

  /** What one step adds to counter k of record r. */
  ghost function AmountOf(s: State, step: Step, r: nat, k: nat): int
    requires Valid(s) && Enabled(s, step)
  {
    match step
    case Add(u) => if s.threads[u].record == r && s.threads[u].counter == k then s.threads[u].amount else 0
    case _ => 0
  }

  lemma StepLands(s: State, step: Step, r: nat, k: nat)
    requires Valid(s) && Enabled(s, step) && r < |s.records| && k < COUNTERS
    ensures r < |Apply(s, step).records| && Apply(s, step).records[r][k] == Plus(s.records[r][k], AmountOf(s, step, r, k))
  {
  }

  /** The amounts that the steps add to counter k of record r. */
  ghost function AddedSince(s: State, steps: seq<Step>, r: nat, k: nat): int
    requires Valid(s) && Run(s, steps).Some?
  {
    if steps == [] then 0
    else
      var shorter, step := steps[..|steps| - 1], steps[|steps| - 1];
      AddedSince(s, shorter, r, k) + AmountOf(Run(s, shorter).value, step, r, k)
  }

  lemma {:induction false} NoAdditionsAddNothing(s: State, steps: seq<Step>, r: nat, k: nat)
    requires Valid(s) && Run(s, steps).Some? && Additions(s, steps, r) == 0
    ensures AddedSince(s, steps, r, k) == 0
  {
    if steps != [] {
      NoAdditionsAddNothing(s, steps[..|steps| - 1], r, k);
    }
  }

  lemma PlusLands(x: Word, y: Word, added: int, amount: int)
    requires y == (x + added) % WORD
    ensures Plus(y, amount) == (x + (added + amount)) % WORD
  {
    ModAdd(x + added, amount);
  }

  /** Those amounts are what the cell changes by. */
  lemma {:induction false} AdditionsLand(s: State, steps: seq<Step>, r: nat, k: nat)
    requires Valid(s) && r < |s.records| && k < COUNTERS && Run(s, steps).Some?
    ensures r < |Run(s, steps).value.records|
    ensures Run(s, steps).value.records[r][k] == (s.records[r][k] + AddedSince(s, steps, r, k)) % WORD
  {
    if steps != [] {
      var shorter, step := steps[..|steps| - 1], steps[|steps| - 1];
      var t := Run(s, shorter).value;
      assert Run(s, steps) == Some(Apply(t, step));
      AdditionsLand(s, shorter, r, k);
      StepLands(t, step, r, k);
      PlusLands(s.records[r][k], t.records[r][k], AddedSince(s, shorter, r, k), AmountOf(t, step, r, k));
    }
  }

  // The same from the steps alone: an increment belongs to the record that was current when its thread loaded.

  /** How often the record has been replaced. */
  ghost function Stores(steps: seq<Step>): nat {
    if steps == [] then 0 else Stores(steps[..|steps| - 1]) + if steps[|steps| - 1].StoreEmpty? then 1 else 0
  }

  /** What thread t has loaded and not yet added: the record current at its load, numbered from 0. */
  ghost function LastLoad(steps: seq<Step>, t: nat): Thread {
    if steps == [] then Resting
    else
      var shorter := steps[..|steps| - 1];
      match steps[|steps| - 1]
      case Load(u, counter, amount) => if u == t then Adding(Stores(shorter), counter, amount) else LastLoad(shorter, t)
      case Add(u) => if u == t then Resting else LastLoad(shorter, t)
      case _ => LastLoad(shorter, t)
  }

  /** The amounts that the completed additions bring to counter k of record r. */
  ghost function Landed(steps: seq<Step>, r: nat, k: nat): int {
    if steps == [] then 0
    else
      var shorter := steps[..|steps| - 1];
      Landed(shorter, r, k)
      + match steps[|steps| - 1]
        case Add(t) =>
          (match LastLoad(shorter, t)
           case Adding(record, counter, amount) => if record == r && counter == k then amount else 0
           case Resting => 0)
        case _ => 0
  }

  lemma {:induction false} ThreadsHoldTheirLoads(threads: nat, steps: seq<Step>)
    requires Run(Init(threads), steps).Some?
    ensures var s := Run(Init(threads), steps).value;
      && |s.records| == Stores(steps) + 1 && |s.threads| == threads
      && forall t :: 0 <= t < threads ==> s.threads[t] == LastLoad(steps, t)
  {
    if steps != [] {
      ThreadsHoldTheirLoads(threads, steps[..|steps| - 1]);
    }
  }

  /**
   Record by record and counter by counter, in every interleaving: a cell holds the completed additions
   whose thread had loaded that record, modulo 2^32, however late they came.
   */
  lemma {:induction false} EveryRecordHoldsItsOwn(threads: nat, steps: seq<Step>, r: nat, k: nat)
    requires Run(Init(threads), steps).Some? && k < COUNTERS
    ensures var s := Run(Init(threads), steps).value;
      && |s.records| == Stores(steps) + 1
      && (r < |s.records| ==> s.records[r][k] == Landed(steps, r, k) % 0x1_0000_0000)
      && (r > Stores(steps) ==> Landed(steps, r, k) == 0)
  {
    ThreadsHoldTheirLoads(threads, steps);
    if steps != [] {
      var shorter, step := steps[..|steps| - 1], steps[|steps| - 1];
      EveryRecordHoldsItsOwn(threads, shorter, r, k);
      ThreadsHoldTheirLoads(threads, shorter);
      if step.Add? {
        var amount := Landed(steps, r, k) - Landed(shorter, r, k);
        ModAdd(Landed(shorter, r, k), amount);
      }
    }
  }
}
