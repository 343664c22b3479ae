/**
  Three places where the budget screen's handlers let `remainingAmount` or an
  allocation drift from what the ledger's bookkeeping promises, each shown on a
  concrete ledger, and the handler the bookkeeping evidently intends, proved to
  keep it:

  - reduce guards on `allocatedAmount > 0` and then takes a whole step, so an
    allocation below one step goes negative;
  - delete drops an entry without returning its allocation to the remaining
    amount;
  - saving an edited entry replaces its allocation without moving the
    difference into or out of the remaining amount.

  `Run` below performs any sequence of user actions with the reconciled
  handlers and keeps the invariant with no side condition at all.
 */
module Reconciled {
  import opened Budget

  // ---------------------------------------------------------------------------
  // The handlers as written, on concrete ledgers
  // ---------------------------------------------------------------------------

  /** One entry holding 50 (set through the edit dialog) sits in a consistent
      ledger; one reduce press leaves it at -50. */
  lemma ReduceBelowZero()
    ensures var l := Ledger(1000, 950, [Entry("Car", 50, 5000, "Dec 2025", Goal)]);
      && Consistent(l)
      && l.entries[0].allocatedAmount >= 0
      && ReduceAmount(l, 0).entries[0].allocatedAmount == -50
  {
  }

  /** Deleting the only entry, which holds 100, from a consistent ledger of
      1000 leaves 900 remaining with nothing allocated. */
  lemma DeleteStrandsAllocation()
    ensures var l := Ledger(1000, 900, [Entry("Car", 100, 5000, "Dec 2025", Goal)]);
      && Consistent(l)
      && var r := DeleteComponent(l, 0);
      && r.entries == []
      && r.remainingAmount == 900
      && !Consistent(r)
  {
  }

  /** Editing the only entry's allocation from 100 to 300 in a consistent
      ledger of 1000 leaves 900 remaining although 300 is allocated. */
  lemma EditDriftsRemaining()
    ensures var l := Ledger(1000, 900, [Entry("Car", 100, 5000, "Dec 2025", Goal)]);
      && Consistent(l)
      && var r := SaveComponent(l, false, ModalData("Car", 300, 5000, "Dec 2025", Goal, Some(0)));
      && Sum(r.entries) == 300
      && r.remainingAmount == 900
      && !Consistent(r)
  {
  }

  // ---------------------------------------------------------------------------
  // The reconciled handlers
  // ---------------------------------------------------------------------------

  /** Every allocation is non-negative. */
  predicate NonNegative(l: Ledger) {
    forall k :: 0 <= k < |l.entries| ==> l.entries[k].allocatedAmount >= 0
  }

  /** Reduce that takes a step only when a whole step is allocated, and is a
      no-op otherwise: a non-negative allocation stays non-negative, and the
      ledger stays consistent. */
  function ReduceClamped(l: Ledger, i: int): (r: Ledger)
    requires 0 <= i < |l.entries|
    ensures r == l <==> l.entries[i].allocatedAmount < Step
    ensures |r.entries| == |l.entries| && r.totalAmount == l.totalAmount
    ensures forall k :: 0 <= k < |l.entries| && k != i ==> r.entries[k] == l.entries[k]
    ensures l.entries[i].allocatedAmount >= Step ==>
      && r.entries[i] == l.entries[i].(allocatedAmount := l.entries[i].allocatedAmount - Step)
      && r.remainingAmount == l.remainingAmount + Step
    ensures NonNegative(l) ==> NonNegative(r)
    ensures Consistent(r) <==> Consistent(l)
  {
    var e := l.entries[i];
    if e.allocatedAmount >= Step then
      SumUpdate(l.entries, i, e.(allocatedAmount := e.allocatedAmount - Step));
      Ledger(l.totalAmount, l.remainingAmount + Step,
             l.entries[i := e.(allocatedAmount := e.allocatedAmount - Step)])
    else
      l
  }

  /** Delete that returns the removed entry's allocation to the remaining
      amount. */
  function DeleteFreeing(l: Ledger, index: int): (r: Ledger)
    ensures r.totalAmount == l.totalAmount
    ensures r.entries == DeleteComponent(l, index).entries
    ensures 0 <= index < |l.entries| ==>
      r.remainingAmount == l.remainingAmount + l.entries[index].allocatedAmount
    ensures !(0 <= index < |l.entries|) ==> r == l
    ensures Consistent(r) <==> Consistent(l)
    ensures NonNegative(l) ==> NonNegative(r)
  {
    if 0 <= index < |l.entries| then
      SumRemove(l.entries, index);
      var r := DeleteComponent(l, index);
      r.(remainingAmount := r.remainingAmount + l.entries[index].allocatedAmount)
    else
      l
  }

  /** Save that moves the change in allocated money out of the remaining
      amount: an appended entry's allocation is taken from it, an edited
      entry's old allocation is returned to it and the new one taken. */
  function SaveReconciled(l: Ledger, isNewGoal: bool, d: ModalData): (r: Ledger)
    requires SaveAllowed(l, isNewGoal, d)
    ensures r.totalAmount == l.totalAmount
    ensures r.entries == SaveComponent(l, isNewGoal, d).entries
    ensures isNewGoal ==> r.remainingAmount == l.remainingAmount - d.allocatedAmount
    ensures !isNewGoal && d.index.Some? ==>
      r.remainingAmount == l.remainingAmount + l.entries[d.index.value].allocatedAmount - d.allocatedAmount
    ensures !isNewGoal && d.index.None? ==> r == l
    ensures Consistent(r) <==> Consistent(l)
    ensures NonNegative(l) && d.allocatedAmount >= 0 ==> NonNegative(r)
  {
    var saved := SaveComponent(l, isNewGoal, d);
    if isNewGoal then
      SumAppend(l.entries, ToEntry(d));
      saved.(remainingAmount := l.remainingAmount - d.allocatedAmount)
    else if d.index.Some? then
      var k := d.index.value;
      SumUpdate(l.entries, k, ToEntry(d));
      saved.(remainingAmount := l.remainingAmount + l.entries[k].allocatedAmount - d.allocatedAmount)
    else
      saved
  }

  // ---------------------------------------------------------------------------
  // Sequences of user actions with the reconciled handlers
  // ---------------------------------------------------------------------------

  // Apply, Runnable and Run mirror Budget.Apply, Budget.Runnable and Budget.Run
  // on purpose: the user actions and their enabling conditions are the same,
  // only reduce, delete and save are the reconciled handlers.

  function Apply(l: Ledger, op: Op): Ledger
    requires Enabled(l, op)
  {
    match op
    case EditAmount(t) => EditTotal(l, t)
    case AddTo(i) => AddAmount(l, i)
    case ReduceFrom(i) => ReduceClamped(l, i)
    case Delete(i) => DeleteFreeing(l, i)
    case Save(isNewGoal, d) => SaveReconciled(l, isNewGoal, d)
  }

  predicate Runnable(l: Ledger, ops: seq<Op>)
    decreases |ops|
  {
    ops == [] || (Enabled(l, ops[0]) && Runnable(Apply(l, ops[0]), ops[1..]))
  }

  function Run(l: Ledger, ops: seq<Op>): Ledger
    requires Runnable(l, ops)
    decreases |ops|
  {
    if ops == [] then l else Run(Apply(l, ops[0]), ops[1..])
  }

  /** A dialog save that carries no negative allocation. */
  predicate SavesNonNegative(op: Op) {
    op.Save? ==> op.data.allocatedAmount >= 0
  }

  /** Every sequence of user actions, with the reconciled handlers, keeps a
      consistent ledger consistent; and as long as the dialog never saves a
      negative allocation, no allocation ever becomes negative. */
  lemma {:induction false} RunKeepsBookkeeping(l: Ledger, ops: seq<Op>)
    requires Runnable(l, ops)
    ensures Consistent(Run(l, ops)) <==> Consistent(l)
    ensures NonNegative(l) && (forall k :: 0 <= k < |ops| ==> SavesNonNegative(ops[k])) ==>
      NonNegative(Run(l, ops))
    decreases |ops|
  {
    if ops != [] {
      var op := ops[0];
      var next := Apply(l, op);
      match op {
        case EditAmount(t) =>
        case AddTo(i) =>
          AddAmountKeepsConsistent(l, i);
          assert NonNegative(l) ==> NonNegative(next) by {
            if NonNegative(l) {
              forall k | 0 <= k < |next.entries|
                ensures next.entries[k].allocatedAmount >= 0
              {
              }
            }
          }
        case ReduceFrom(i) =>
        case Delete(i) =>
        case Save(isNewGoal, d) =>
      }
      if forall k :: 0 <= k < |ops| ==> SavesNonNegative(ops[k]) {
        forall k | 0 <= k < |ops[1..]|
          ensures SavesNonNegative(ops[1..][k])
        {
          assert ops[1..][k] == ops[k + 1];
        }
        assert SavesNonNegative(ops[0]);
      }
      RunKeepsBookkeeping(next, ops[1..]);
    }
  }
}
