/**
  The budget header's own pair of amounts and its two buttons. The header
  keeps a total and a remaining amount in its own state, and after each press
  also writes the new pair into the module-level budget object it was loaded
  from. Both buttons move total and remaining together by one step, so the
  amount committed to entries (total minus remaining) never changes here.
 */
module Header {

  /** Amount moved by one press of the header's add or remove button. The
      header writes its own literal 100, independent of the screen's entry
      step (Budget.Step), so the constant is kept separate on purpose. */
  const Step: int := 100

  datatype Amounts = Amounts(totalAmount: int, remainingAmount: int)

  /** `shown` is the header's component state; `stored` is the module-level
      budget object the header mirrors its state into. */
  datatype HeaderState = HeaderState(shown: Amounts, stored: Amounts)

  /** What is committed to entries: the total minus what remains. */
  function Committed(a: Amounts): int {
    a.totalAmount - a.remainingAmount
  }

  predicate Mirrored(h: HeaderState) {
    h.shown == h.stored
  }

  /** The header after its mount effect has copied the stored pair into its
      state. */
  function Mount(stored: Amounts): (h: HeaderState)
    ensures Mirrored(h) && h.stored == stored
  {
    HeaderState(stored, stored)
  }

  /** handleAdd: both amounts grow by one step, computed from the component
      state; the module-level copy is then overwritten with the new pair. */
  function HandleAdd(h: HeaderState): (r: HeaderState)
    ensures r.shown.totalAmount == h.shown.totalAmount + Step
    ensures r.shown.remainingAmount == h.shown.remainingAmount + Step
    ensures Committed(r.shown) == Committed(h.shown)
    ensures Mirrored(r)
  {
    var updated := Amounts(h.shown.totalAmount + Step, h.shown.remainingAmount + Step);
    HeaderState(updated, updated)
  }

  /** handleRemove: both amounts shrink by one step, with no lower bound; the
      module-level copy is then overwritten with the new pair. */
  function HandleRemove(h: HeaderState): (r: HeaderState)
    ensures r.shown.totalAmount == h.shown.totalAmount - Step
    ensures r.shown.remainingAmount == h.shown.remainingAmount - Step
    ensures Committed(r.shown) == Committed(h.shown)
    ensures Mirrored(r)
  {
    var updated := Amounts(h.shown.totalAmount - Step, h.shown.remainingAmount - Step);
    HeaderState(updated, updated)
  }

  /** Remove undoes add and add undoes remove, whatever the module-level copy
      held before. */
  lemma AddRemoveInverse(h: HeaderState)
    ensures HandleRemove(HandleAdd(h)).shown == h.shown
    ensures HandleAdd(HandleRemove(h)).shown == h.shown
    ensures Mirrored(h) ==> HandleRemove(HandleAdd(h)) == h && HandleAdd(HandleRemove(h)) == h
  {
  }

  /** Remove has no guard: from a freshly mounted zero pair it drives both
      amounts negative. */
  lemma RemoveUnguarded()
    ensures var r := HandleRemove(Mount(Amounts(0, 0)));
      r.shown.totalAmount < 0 && r.shown.remainingAmount < 0
  {
  }

  datatype Press = AddPress | RemovePress

  function Presses(h: HeaderState, ps: seq<Press>): HeaderState
    decreases |ps|
  {
    if ps == [] then h
    else Presses(if ps[0].AddPress? then HandleAdd(h) else HandleRemove(h), ps[1..])
  }

  function CountAdds(ps: seq<Press>): nat
    decreases |ps|
  {
    if ps == [] then 0 else (if ps[0].AddPress? then 1 else 0) + CountAdds(ps[1..])
  }

  /** After any sequence of presses the total has moved by one step per add
      minus one step per remove, the remaining amount has moved by the same
      amount, and the module-level copy matches the header's state once any
      button has been pressed. */
  lemma {:induction false} PressesNet(h: HeaderState, ps: seq<Press>)
    ensures var r := Presses(h, ps);
      var net := CountAdds(ps) - (|ps| - CountAdds(ps));
      && r.shown.totalAmount == h.shown.totalAmount + Step * net
      && r.shown.remainingAmount == h.shown.remainingAmount + Step * net
      && Committed(r.shown) == Committed(h.shown)
      && (ps != [] || Mirrored(h) ==> Mirrored(r))
    decreases |ps|
  {
    if ps != [] {
      var next := if ps[0].AddPress? then HandleAdd(h) else HandleRemove(h);
      PressesNet(next, ps[1..]);
    }
  }
}
