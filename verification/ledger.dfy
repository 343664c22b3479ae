/**
  The budget screen's ledger: a total, a remaining amount and an ordered list
  of allocation entries, together with the screen's handlers, each written as
  one atomic transition from the ledger before the user action to the ledger
  after it.

  The bookkeeping invariant the screen is meant to keep is
  `remainingAmount == totalAmount - Sum(entries)`. The handlers that move
  money (edit total, add, reduce) keep it; delete and the edit path of save
  leave `remainingAmount` alone and can break it. Both facts are proved below.
 */
module Budget {

  /** Amount moved by one press of an entry's add or reduce button. */
  const Step: int := 100

  datatype Category = Goal | Want | EmergencyFund

  datatype Entry = Entry(
    title: string,
    allocatedAmount: int,
    targetAmount: int,
    targetDate: string,
    kind: Category)

  datatype Ledger = Ledger(totalAmount: int, remainingAmount: int, entries: seq<Entry>)

  datatype Option<T> = None | Some(value: T)

  /** What the edit dialog hands back: an entry, plus the position it was
      opened for when it edits an existing entry. */
  datatype ModalData = ModalData(
    title: string,
    allocatedAmount: int,
    targetAmount: int,
    targetDate: string,
    kind: Category,
    index: Option<int>)

  function ToEntry(d: ModalData): Entry {
    Entry(d.title, d.allocatedAmount, d.targetAmount, d.targetDate, d.kind)
  }

  /** Total of the allocations of a list of entries. */
  function Sum(entries: seq<Entry>): int {
    if entries == [] then 0 else entries[0].allocatedAmount + Sum(entries[1..])
  }

  /** The bookkeeping invariant: what remains is the total minus what is allocated. */
  predicate Consistent(l: Ledger) {
    l.remainingAmount == l.totalAmount - Sum(l.entries)
  }

  /** Every allocation is a non-negative multiple of the step. */
  predicate Stepped(l: Ledger) {
    forall k :: 0 <= k < |l.entries| ==>
      l.entries[k].allocatedAmount >= 0 && l.entries[k].allocatedAmount % Step == 0
  }

  // ---------------------------------------------------------------------------
  // Sum over the list operations the handlers use
  // ---------------------------------------------------------------------------

  lemma {:induction false} SumConcat(a: seq<Entry>, b: seq<Entry>)
    ensures Sum(a + b) == Sum(a) + Sum(b)
  {
    if a == [] {
      assert a + b == b;
    } else {
      assert (a + b)[1..] == a[1..] + b;
      SumConcat(a[1..], b);
    }
  }

  lemma SumSplit(s: seq<Entry>, i: int)
    requires 0 <= i < |s|
    ensures Sum(s) == Sum(s[..i]) + s[i].allocatedAmount + Sum(s[i+1..])
  {
    assert s == s[..i] + ([s[i]] + s[i+1..]);
    SumConcat(s[..i], [s[i]] + s[i+1..]);
    SumConcat([s[i]], s[i+1..]);
  }

  /** Replacing one entry changes the sum by the difference of the two allocations. */
  lemma SumUpdate(s: seq<Entry>, i: int, e: Entry)
    requires 0 <= i < |s|
    ensures Sum(s[i := e]) == Sum(s) - s[i].allocatedAmount + e.allocatedAmount
  {
    SumSplit(s, i);
    SumSplit(s[i := e], i);
    assert s[i := e][..i] == s[..i];
    assert s[i := e][i+1..] == s[i+1..];
  }

  /** Removing one entry lowers the sum by its allocation. */
  lemma SumRemove(s: seq<Entry>, i: int)
    requires 0 <= i < |s|
    ensures Sum(s[..i] + s[i+1..]) == Sum(s) - s[i].allocatedAmount
  {
    SumSplit(s, i);
    SumConcat(s[..i], s[i+1..]);
  }

  lemma SumAppend(s: seq<Entry>, e: Entry)
    ensures Sum(s + [e]) == Sum(s) + e.allocatedAmount
  {
    SumConcat(s, [e]);
  }

  // ---------------------------------------------------------------------------
  // The handlers
  // ---------------------------------------------------------------------------

  /** handleEditAmount: the total becomes the new value and the remaining
      amount moves by the same difference, so what is committed
      (total minus remaining) does not change. The screen passes this handler
      to the header as `onEditAmount`, but the header never declares or calls
      that prop, so no user action reaches it; it is modelled as written. */
  function EditTotal(l: Ledger, newTotal: int): (r: Ledger)
    ensures r.totalAmount == newTotal
    ensures r.totalAmount - r.remainingAmount == l.totalAmount - l.remainingAmount
    ensures r.entries == l.entries
    ensures Consistent(r) <==> Consistent(l)
  {
    var difference := newTotal - l.totalAmount;
    Ledger(newTotal, l.remainingAmount + difference, l.entries)
  }

  /** handleAddAmount: entry `i` gains one step, the remaining amount loses it,
      and nothing else changes. Out-of-range indexes throw in the source. */
  function AddAmount(l: Ledger, i: int): (r: Ledger)
    requires 0 <= i < |l.entries|
    ensures |r.entries| == |l.entries|
    ensures r.entries[i].allocatedAmount == l.entries[i].allocatedAmount + Step
    ensures r.entries[i] == l.entries[i].(allocatedAmount := r.entries[i].allocatedAmount)
    ensures forall k :: 0 <= k < |l.entries| && k != i ==> r.entries[k] == l.entries[k]
    ensures r.totalAmount == l.totalAmount
    ensures r.remainingAmount == l.remainingAmount - Step
  {
    var e := l.entries[i];
    Ledger(l.totalAmount, l.remainingAmount - Step,
           l.entries[i := e.(allocatedAmount := e.allocatedAmount + Step)])
  }

  /** handleReduceAmount: when entry `i` holds a positive allocation it loses
      one step and the remaining amount gains it; otherwise nothing happens.
      The guard is `> 0`, not `>= Step`. */
  function ReduceAmount(l: Ledger, i: int): (r: Ledger)
    requires 0 <= i < |l.entries|
    ensures r == l <==> l.entries[i].allocatedAmount <= 0
    ensures |r.entries| == |l.entries|
    ensures r.totalAmount == l.totalAmount
    ensures forall k :: 0 <= k < |l.entries| && k != i ==> r.entries[k] == l.entries[k]
    ensures l.entries[i].allocatedAmount > 0 ==>
      && r.entries[i].allocatedAmount == l.entries[i].allocatedAmount - Step
      && r.entries[i] == l.entries[i].(allocatedAmount := r.entries[i].allocatedAmount)
      && r.remainingAmount == l.remainingAmount + Step
  {
    var e := l.entries[i];
    if e.allocatedAmount > 0 then
      Ledger(l.totalAmount, l.remainingAmount + Step,
             l.entries[i := e.(allocatedAmount := e.allocatedAmount - Step)])
    else
      l
  }

  /** handleDeleteComponent: keeps every entry whose position differs from
      `index`. An index that names no entry removes nothing. The total and the
      remaining amount are left as they were. */
  function DeleteComponent(l: Ledger, index: int): (r: Ledger)
    ensures r.totalAmount == l.totalAmount && r.remainingAmount == l.remainingAmount
    ensures !(0 <= index < |l.entries|) ==> r == l
    ensures 0 <= index < |l.entries| ==>
      && |r.entries| == |l.entries| - 1
      && (forall k :: 0 <= k < index ==> r.entries[k] == l.entries[k])
      && (forall k :: index <= k < |r.entries| ==> r.entries[k] == l.entries[k + 1])
      && multiset(r.entries) + multiset{l.entries[index]} == multiset(l.entries)
  {
    if 0 <= index < |l.entries| then
      assert l.entries == l.entries[..index] + [l.entries[index]] + l.entries[index+1..];
      l.(entries := l.entries[..index] + l.entries[index+1..])
    else
      l
  }

  /** What the source needs from a save: in edit mode the dialog's index must
      name an existing entry (the dialog is opened from that entry). */
  predicate SaveAllowed(l: Ledger, isNewGoal: bool, d: ModalData) {
    isNewGoal || d.index.None? || 0 <= d.index.value < |l.entries|
  }

  /** handleSaveComponent: in new-goal mode the dialog's entry is appended;
      otherwise, when the dialog carries an index, that position is replaced;
      with neither, nothing changes. The total and remaining amount are never
      touched. */
  function SaveComponent(l: Ledger, isNewGoal: bool, d: ModalData): (r: Ledger)
    requires SaveAllowed(l, isNewGoal, d)
    ensures r.totalAmount == l.totalAmount && r.remainingAmount == l.remainingAmount
    ensures isNewGoal ==>
      && |r.entries| == |l.entries| + 1
      && r.entries[..|l.entries|] == l.entries
      && r.entries[|l.entries|] == ToEntry(d)
    ensures !isNewGoal && d.index.Some? ==>
      && |r.entries| == |l.entries|
      && r.entries[d.index.value] == ToEntry(d)
      && (forall k :: 0 <= k < |l.entries| && k != d.index.value ==> r.entries[k] == l.entries[k])
    ensures !isNewGoal && d.index.None? ==> r == l
  {
    if isNewGoal then
      l.(entries := l.entries + [ToEntry(d)])
    else if d.index.Some? then
      l.(entries := l.entries[d.index.value := ToEntry(d)])
    else
      l
  }

  /** handleEditComponent: the dialog opened on entry `i` holds that entry's
      fields and its position. */
  function EditDialog(l: Ledger, i: int): (d: ModalData)
    requires 0 <= i < |l.entries|
    ensures ToEntry(d) == l.entries[i]
    ensures d.index == Some(i)
  {
    var e := l.entries[i];
    ModalData(e.title, e.allocatedAmount, e.targetAmount, e.targetDate, e.kind, Some(i))
  }

  /** handleAddNewGoal: the dialog contents offered for a new entry. */
  function NewGoalTemplate(): ModalData {
    ModalData("New Goal", 0, 1000, "Dec 2025", Goal, None)
  }

  // ---------------------------------------------------------------------------
  // The invariant, handler by handler
  // ---------------------------------------------------------------------------

  lemma AddAmountKeepsConsistent(l: Ledger, i: int)
    requires 0 <= i < |l.entries|
    ensures Consistent(AddAmount(l, i)) <==> Consistent(l)
  {
    var e := l.entries[i];
    SumUpdate(l.entries, i, e.(allocatedAmount := e.allocatedAmount + Step));
  }

  lemma ReduceAmountKeepsConsistent(l: Ledger, i: int)
    requires 0 <= i < |l.entries|
    ensures Consistent(ReduceAmount(l, i)) <==> Consistent(l)
  {
    var e := l.entries[i];
    SumUpdate(l.entries, i, e.(allocatedAmount := e.allocatedAmount - Step));
  }

  /** Add keeps every allocation a non-negative multiple of the step. */
  lemma AddAmountKeepsStepped(l: Ledger, i: int)
    requires 0 <= i < |l.entries| && Stepped(l)
    ensures Stepped(AddAmount(l, i))
  {
  }

  /** From non-negative multiples of the step, the `> 0` guard means "at least
      one step", so reduce cannot make an allocation negative. */
  lemma ReduceAmountKeepsStepped(l: Ledger, i: int)
    requires 0 <= i < |l.entries| && Stepped(l)
    ensures Stepped(ReduceAmount(l, i))
    ensures ReduceAmount(l, i).entries[i].allocatedAmount >= 0
  {
  }

  /** Starting from a consistent ledger, delete leaves it consistent exactly
      when the removed entry held nothing. */
  lemma DeleteConsistentIff(l: Ledger, index: int)
    requires Consistent(l) && 0 <= index < |l.entries|
    ensures Consistent(DeleteComponent(l, index)) <==> l.entries[index].allocatedAmount == 0
  {
    SumRemove(l.entries, index);
  }

  /** Starting from a consistent ledger, an appended entry keeps it consistent
      exactly when it arrives with no allocation. */
  lemma SaveNewConsistentIff(l: Ledger, d: ModalData)
    requires Consistent(l)
    ensures Consistent(SaveComponent(l, true, d)) <==> d.allocatedAmount == 0
  {
    SumAppend(l.entries, ToEntry(d));
  }

  /** Starting from a consistent ledger, an edit keeps it consistent exactly
      when it leaves the entry's allocation as it was. */
  lemma SaveEditConsistentIff(l: Ledger, d: ModalData)
    requires Consistent(l) && d.index.Some? && 0 <= d.index.value < |l.entries|
    ensures Consistent(SaveComponent(l, false, d)) <==>
      d.allocatedAmount == l.entries[d.index.value].allocatedAmount
  {
    SumUpdate(l.entries, d.index.value, ToEntry(d));
  }

  /** Saving the untouched new-goal template appends one Goal entry with no
      allocation, target 1000 and date "Dec 2025", and keeps the invariant. */
  lemma NewGoalKeepsConsistent(l: Ledger)
    requires Consistent(l)
    ensures var r := SaveComponent(l, true, NewGoalTemplate());
      && Consistent(r)
      && |r.entries| == |l.entries| + 1
      && r.entries[|l.entries|] == Entry("New Goal", 0, 1000, "Dec 2025", Goal)
  {
    SumAppend(l.entries, ToEntry(NewGoalTemplate()));
  }

  /** Opening the edit dialog on an entry and saving it untouched changes
      nothing. */
  lemma SaveUneditedDialog(l: Ledger, i: int)
    requires 0 <= i < |l.entries|
    ensures SaveAllowed(l, false, EditDialog(l, i))
    ensures SaveComponent(l, false, EditDialog(l, i)) == l
  {
  }

  // ---------------------------------------------------------------------------
  // Sequences of user actions
  // ---------------------------------------------------------------------------

  datatype Op =
    | EditAmount(newTotal: int)
    | AddTo(index: int)
    | ReduceFrom(index: int)
    | Delete(index: int)
    | Save(isNewGoal: bool, data: ModalData)

  /** The user actions that only move money between the total, the remaining
      amount and the entries. */
  predicate MovesMoney(op: Op) {
    op.EditAmount? || op.AddTo? || op.ReduceFrom?
  }

  /** Whether the source can perform `op` on `l` without throwing. */
  predicate Enabled(l: Ledger, op: Op) {
    match op
    case AddTo(i) => 0 <= i < |l.entries|
    case ReduceFrom(i) => 0 <= i < |l.entries|
    case Save(isNewGoal, d) => SaveAllowed(l, isNewGoal, d)
    case _ => true
  }

  function Apply(l: Ledger, op: Op): Ledger
    requires Enabled(l, op)
  {
    match op
    case EditAmount(t) => EditTotal(l, t)
    case AddTo(i) => AddAmount(l, i)
    case ReduceFrom(i) => ReduceAmount(l, i)
    case Delete(i) => DeleteComponent(l, i)
    case Save(isNewGoal, d) => SaveComponent(l, isNewGoal, d)
  }

  predicate Runnable(l: Ledger, ops: seq<Op>)
    decreases |ops|
  {
    ops == [] || (Enabled(l, ops[0]) && Runnable(Apply(l, ops[0]), ops[1..]))
  }

  function Run(l: Ledger, ops: seq<Op>): Ledger
    requires Runnable(l, ops)
    decreases |ops|
  {
    if ops == [] then l else Run(Apply(l, ops[0]), ops[1..])
  }

  /** A single action keeps a consistent ledger consistent exactly when it
      moves money, or deletes or saves without changing what is allocated. */
  predicate Neutral(l: Ledger, op: Op)
    requires Enabled(l, op)
  {
    match op
    case Delete(i) => !(0 <= i < |l.entries|) || l.entries[i].allocatedAmount == 0
    case Save(isNewGoal, d) =>
      if isNewGoal then d.allocatedAmount == 0
      else d.index.None? || d.allocatedAmount == l.entries[d.index.value].allocatedAmount
    case _ => true
  }

  lemma ApplyConsistentIff(l: Ledger, op: Op)
    requires Consistent(l) && Enabled(l, op)
    ensures Consistent(Apply(l, op)) <==> Neutral(l, op)
  {
    match op
    case EditAmount(t) =>
    case AddTo(i) => AddAmountKeepsConsistent(l, i);
    case ReduceFrom(i) => ReduceAmountKeepsConsistent(l, i);
    case Delete(i) =>
      if 0 <= i < |l.entries| {
        DeleteConsistentIff(l, i);
      }
    case Save(isNewGoal, d) =>
      if isNewGoal {
        SaveNewConsistentIff(l, d);
      } else if d.index.Some? {
        SaveEditConsistentIff(l, d);
      }
  }

  predicate AllNeutral(l: Ledger, ops: seq<Op>)
    requires Runnable(l, ops)
    decreases |ops|
  {
    ops == [] || (Neutral(l, ops[0]) && AllNeutral(Apply(l, ops[0]), ops[1..]))
  }

  /** Any run whose every step is neutral keeps a consistent ledger consistent. */
  lemma {:induction false} RunKeepsConsistent(l: Ledger, ops: seq<Op>)
    requires Consistent(l) && Runnable(l, ops) && AllNeutral(l, ops)
    ensures Consistent(Run(l, ops))
    decreases |ops|
  {
    if ops != [] {
      ApplyConsistentIff(l, ops[0]);
      RunKeepsConsistent(Apply(l, ops[0]), ops[1..]);
    }
  }

  /** Any run of edit-total, add and reduce presses on existing entries can be
      performed, keeps the number of entries, keeps a consistent ledger
      consistent, and keeps allocations that are non-negative multiples of the
      step non-negative multiples of the step. */
  lemma {:induction false} MoneyRun(l: Ledger, ops: seq<Op>)
    requires forall k :: 0 <= k < |ops| ==> MovesMoney(ops[k]) && Enabled(l, ops[k])
    ensures Runnable(l, ops)
    ensures |Run(l, ops).entries| == |l.entries|
    ensures Consistent(l) ==> Consistent(Run(l, ops))
    ensures Stepped(l) ==> Stepped(Run(l, ops))
    decreases |ops|
  {
    if ops != [] {
      var op := ops[0];
      assert MovesMoney(op);
      match op {
        case EditAmount(t) =>
        case AddTo(i) =>
          AddAmountKeepsConsistent(l, i);
          if Stepped(l) { AddAmountKeepsStepped(l, i); }
        case ReduceFrom(i) =>
          ReduceAmountKeepsConsistent(l, i);
          if Stepped(l) { ReduceAmountKeepsStepped(l, i); }
      }
      var next := Apply(l, op);
      assert |next.entries| == |l.entries|;
      forall k | 0 <= k < |ops[1..]|
        ensures MovesMoney(ops[1..][k]) && Enabled(next, ops[1..][k])
      {
        assert ops[1..][k] == ops[k + 1];
      }
      MoneyRun(next, ops[1..]);
    }
  }
}
