/** What the conditional UPDATE guarantees to its clients, over every run. */
module LockLaws {
  import opened Truth
  import opened RecordLock

  // ---------------------------------------------------------------- all NULL or all set

  predicate AllNull(r: Record) {
    r.id == NullCell && r.at == NullCell && r.exp == NullCell
  }

  predicate AllSet(r: Record) {
    r.id != NullCell && r.at.TimeCell? && r.exp.TimeCell?
  }

  predicate Shaped(r: Record) {
    AllNull(r) || AllSet(r)
  }

  /** A step that updates a record leaves it all NULL or all set iff it is a release or names an owner. */
  lemma UpdateShapesIff(s: Setting, r: Record, step: Step)
    requires Apply(s, r, step).1
    ensures Shaped(Apply(s, r, step).0) <==> step.kind.Release? || IdOf(step) != NullCell
    ensures step.kind.Release? <==> AllNull(Apply(s, r, step).0)
  {
    StepMeans(s, r, step);
  }

  /** From all NULL, the columns stay all NULL or all set as long as nobody takes a lock without naming an owner. */
  lemma {:induction false} ShapedThroughout(s: Setting, r: Record, steps: seq<Step>)
    requires Shaped(r) && forall step :: step in steps && step.kind.Get? ==> IdOf(step) != NullCell
    ensures Shaped(After(s, r, steps))
    decreases steps
  {
    if steps != [] {
      var init, last := steps[..|steps| - 1], steps[|steps| - 1];
      assert last in steps && forall step :: step in init ==> step in steps;
      ShapedThroughout(s, r, init);
      if Apply(s, After(s, r, init), last).1 {
        UpdateShapesIff(s, After(s, r, init), last);
      }
    }
  }

  /** Validation accepts a null owner: it takes the free record and leaves a lock that is nobody's. */
  lemma OwnerlessLock(s: Setting, r: Record, step: Step)
    requires AllNull(r) && step.kind.Get? && Effective(s, step) && Asks(r, step)
    requires VALUE_VAR in step.variables && step.variables[VALUE_VAR] == NullArg
    ensures Apply(s, r, step).1 && !Shaped(Apply(s, r, step).0)
    ensures forall other: Step, now :: Free(Apply(s, r, step).0, IdOf(other), now)
  {
    StepMeans(s, r, step);
  }

  // ---------------------------------------------------------------- a lock with an owner and an expiry

  datatype Lock = Unheld | Held(owner: Cell, expiry: int)

  function LockOf(r: Record): Lock
    requires Shaped(r)
  {
    if AllNull(r) then Unheld else Held(r.id, r.exp.t)
  }

  predicate Available(l: Lock, id: Cell, now: int) {
    l.Unheld? || l.owner == id || l.expiry < now
  }

  /** Taking or renewing, and releasing, on the two-state lock. */
  function Take(l: Lock, id: Cell, now: int, ttl: int): (Lock, bool) {
    if Available(l, id, now) then (Held(id, now + ttl), true) else (l, false)
  }

  function Drop(l: Lock, id: Cell, now: int): (Lock, bool) {
    if Available(l, id, now) then (Unheld, true) else (l, false)
  }

  /** The four-way SQL condition refines the two-state lock. */
  lemma Refines(s: Setting, r: Record, step: Step)
    requires Shaped(r) && Effective(s, step) && Asks(r, step) && (step.kind.Get? ==> IdOf(step) != NullCell)
    ensures Shaped(Apply(s, r, step).0) && (step.kind.Get? ==> TtlOf(s, step).Some?)
    ensures (LockOf(Apply(s, r, step).0), Apply(s, r, step).1) ==
              if step.kind.Get? then Take(LockOf(r), IdOf(step), step.now, TtlOf(s, step).value)
              else Drop(LockOf(r), IdOf(step), step.now)
  {
    StepMeans(s, r, step);
  }

  // ---------------------------------------------------------------- what a client is told

  predicate OnlyOneAsked(records: seq<Record>, p: nat, step: Step)
    requires p < |records|
  {
    forall i :: 0 <= i < |records| && i != p ==> !Asks(records[i], step)
  }

  /** With one record of the key, the count tells whether that record was updated. */
  lemma {:induction false} CountTells(s: Setting, records: seq<Record>, p: nat, step: Step)
    requires p < |records| && OnlyOneAsked(records, p, step)
    ensures Count(s, records, step) == if Apply(s, records[p], step).1 then 1 else 0
    decreases records
  {
    StepMeans(s, records[0], step);
    var rest := records[1..];
    assert forall i :: 0 <= i < |rest| ==> rest[i] == records[i + 1];
    if p == 0 {
      NobodyCounts(s, rest, step);
    } else {
      CountTells(s, rest, p - 1, step);
    }
  }

  lemma {:induction false} NobodyCounts(s: Setting, records: seq<Record>, step: Step)
    requires forall i :: 0 <= i < |records| ==> !Asks(records[i], step)
    ensures Count(s, records, step) == 0
    decreases records
  {
    if records != [] {
      StepMeans(s, records[0], step);
      assert forall i :: 0 <= i < |records[1..]| ==> records[1..][i] == records[i + 1];
      NobodyCounts(s, records[1..], step);
    }
  }

  /** A release is told 0 exactly when somebody else holds the record unexpired. */
  lemma ReleaseToldZeroIff(s: Setting, records: seq<Record>, p: nat, step: Step)
    requires p < |records| && OnlyOneAsked(records, p, step) && Asks(records[p], step) && Shaped(records[p])
    requires step.kind.Release? && Effective(s, step)
    ensures Count(s, records, step) == 0 <==>
              LockOf(records[p]).Held? && LockOf(records[p]).owner != IdOf(step) &&
              LockOf(records[p]).expiry >= step.now
  {
    CountTells(s, records, p, step);
    Refines(s, records[p], step);
  }

  // ---------------------------------------------------------------- safety

  lemma {:induction false} ColumnsStay(s: Setting, r: Record, steps: seq<Step>)
    ensures After(s, r, steps).columns == r.columns
    decreases steps
  {
    if steps != [] {
      ColumnsStay(s, r, steps[..|steps| - 1]);
      StepMeans(s, After(s, r, steps[..|steps| - 1]), steps[|steps| - 1]);
    }
  }

  /** The record is held by id since a get at time t with time to live d. */
  predicate HeldSince(r: Record, id: Cell, t: int, d: int) {
    r.id == id && r.at == TimeCell(t) && r.exp == TimeCell(t + d)
  }

  /** Someone else's step changes nothing before the lock expires; after that, any asking step succeeds. */
  lemma StrangerFailsIff(s: Setting, r: Record, id: Cell, t: int, d: int, step: Step)
    requires id != NullCell && HeldSince(r, id, t, d) && IdOf(step) != id && Effective(s, step) && Asks(r, step)
    ensures Apply(s, r, step).1 <==> step.now > t + d
  {
    StepMeans(s, r, step);
  }

  /** From position i on, no step on this record renews or releases for id, or comes later than `until`. */
  predicate Quiet(r: Record, steps: seq<Step>, i: nat, id: Cell, until: int) {
    forall k | i < k < |steps| :: Asks(r, steps[k]) ==> IdOf(steps[k]) != id && steps[k].now <= until
  }

  /** One step that is not for id and does not come too late leaves the lock alone. */
  lemma HeldStep(s: Setting, r: Record, step: Step, id: Cell, t: int, d: int)
    requires id != NullCell && HeldSince(r, id, t, d)
    requires Asks(r, step) ==> IdOf(step) != id && step.now <= t + d
    ensures HeldSince(Apply(s, r, step).0, id, t, d)
  {
    StepMeans(s, r, step);
  }

  /** A get that is told 1 holds the record. */
  lemma HeldByGet(s: Setting, r: Record, step: Step, d: int)
    requires step.kind.Get? && Apply(s, r, step).1 && TtlOf(s, step) == Some(d)
    ensures HeldSince(Apply(s, r, step).0, IdOf(step), step.now, d)
  {
    StepMeans(s, r, step);
  }

  /** The last step of a run. */
  lemma LastStep(s: Setting, r: Record, steps: seq<Step>)
    requires steps != []
    ensures var init, last := steps[..|steps| - 1], steps[|steps| - 1];
            After(s, r, steps) == Apply(s, After(s, r, init), last).0 &&
            (Asks(After(s, r, init), last) <==> Asks(r, last))
  {
    ColumnsStay(s, r, steps[..|steps| - 1]);
  }

  lemma {:induction false} StaysHeld(s: Setting, r: Record, steps: seq<Step>, i: nat, id: Cell, d: int)
    requires i < |steps| && steps[i].kind.Get? && IdOf(steps[i]) == id && id != NullCell
    requires Apply(s, After(s, r, steps[..i]), steps[i]).1 && TtlOf(s, steps[i]) == Some(d)
    requires Quiet(r, steps, i, id, steps[i].now + d)
    ensures HeldSince(After(s, r, steps), id, steps[i].now, d)
    decreases steps
  {
    var n := |steps| - 1;
    LastStep(s, r, steps);
    if i == n {
      HeldByGet(s, After(s, r, steps[..i]), steps[i], d);
    } else {
      var init := steps[..n];
      assert init[..i] == steps[..i] && init[i] == steps[i];
      QuietBefore(r, steps, i, id, steps[i].now + d);
      StaysHeld(s, r, init, i, id, d);
      HeldStep(s, After(s, r, init), steps[n], id, steps[i].now, d);
    }
  }

  lemma QuietBefore(r: Record, steps: seq<Step>, i: nat, id: Cell, until: int)
    requires i + 1 < |steps| && Quiet(r, steps, i, id, until)
    ensures Quiet(r, steps[..|steps| - 1], i, id, until)
    ensures Asks(r, steps[|steps| - 1]) ==> IdOf(steps[|steps| - 1]) != id && steps[|steps| - 1].now <= until
  {
    var init := steps[..|steps| - 1];
    assert forall k :: 0 <= k < |init| ==> init[k] == steps[k];
  }

  /** On the record itself. */
  lemma StrangerRefused(s: Setting, r: Record, steps: seq<Step>, i: nat, j: nat, d: int)
    requires i < j < |steps| && steps[i].kind.Get? && IdOf(steps[i]) != NullCell && TtlOf(s, steps[i]) == Some(d)
    requires Apply(s, After(s, r, steps[..i]), steps[i]).1
    requires Quiet(r, steps[..j + 1], i, IdOf(steps[i]), steps[i].now + d)
    ensures HeldSince(After(s, r, steps[..j]), IdOf(steps[i]), steps[i].now, d)
    ensures !Apply(s, After(s, r, steps[..j]), steps[j]).1
  {
    var before, upTo := steps[..j], steps[..j + 1];
    assert before[..i] == steps[..i] && before[i] == steps[i] && upTo[j] == steps[j];
    assert forall k :: i < k < |before| ==> before[k] == upTo[k];
    StaysHeld(s, r, before, i, IdOf(steps[i]), d);
    ColumnsStay(s, r, before);
    StepMeans(s, After(s, r, before), steps[j]);
  }

  /**
   Lock safety over every run of any clients: once a get for id at time t with time to live d was told 1, every get
   and every release of the same record for another id (NULL included) is told 0, until a step for id comes or the
   clock passes t + d. Clocks of different clients need not agree or advance.
   */
  lemma LockSafety(
      s: Setting, records: seq<Record>, steps: seq<Step>, p: nat, i: nat, j: nat, d: int)
    requires i < j < |steps| && p < |records|
    requires OnlyOneAsked(records, p, steps[i]) && OnlyOneAsked(records, p, steps[j])
    requires steps[i].kind.Get? && IdOf(steps[i]) != NullCell && TtlOf(s, steps[i]) == Some(d)
    requires Count(s, TableAfter(s, records, steps[..i]), steps[i]) == 1
    requires Quiet(records[p], steps[..j + 1], i, IdOf(steps[i]), steps[i].now + d)
    ensures Count(s, TableAfter(s, records, steps[..j]), steps[j]) == 0
    ensures HeldSince(TableAfter(s, records, steps[..j])[p], IdOf(steps[i]), steps[i].now, d)
  {
    AskedStays(s, records, steps[..i], p, steps[i]);
    AskedStays(s, records, steps[..j], p, steps[j]);
    CountTells(s, TableAfter(s, records, steps[..i]), p, steps[i]);
    CountTells(s, TableAfter(s, records, steps[..j]), p, steps[j]);
    StrangerRefused(s, records[p], steps, i, j, d);
  }

  lemma AskedStays(s: Setting, records: seq<Record>, steps: seq<Step>, p: nat, step: Step)
    requires p < |records| && OnlyOneAsked(records, p, step)
    ensures OnlyOneAsked(TableAfter(s, records, steps), p, step)
  {
    forall i | 0 <= i < |records| && i != p
      ensures !Asks(TableAfter(s, records, steps)[i], step)
    {
      ColumnsStay(s, records[i], steps);
    }
  }
}
