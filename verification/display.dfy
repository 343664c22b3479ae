/**
  The order in which the budget list shows its entries. The screen turns every
  entry into a card whose buttons call the ledger handlers with the entry's
  position in the ledger, and the list sorts the cards with a comparator that
  ranks Goal before Want before EmergencyFund. `Array.prototype.sort` is
  stable (section 23.1.3.30 of ECMA-262, since the 2019 edition), so cards of
  the same category keep the ledger's order.

  `Sort` is an insertion sort driven by the source's comparator. It is proved
  equal to a reference definition (the Goal cards, then the Want cards, then
  the EmergencyFund cards, each in ledger order), and every sorted rearrangement
  that keeps each category's order is proved to be that same list, so the model
  stands for whichever stable algorithm the JavaScript engine runs.
 */
module Display {
  import opened Budget

  /** A displayed entry: its fields, and the ledger position that its add,
      reduce, delete and edit buttons pass to the handlers. */
  datatype Card = Card(entry: Entry, source: int)

  /** The cards the screen builds, one per entry, in ledger order. */
  function Cards(entries: seq<Entry>): (cs: seq<Card>)
    ensures |cs| == |entries|
    ensures forall i :: 0 <= i < |cs| ==> cs[i].entry == entries[i] && cs[i].source == i
  {
    seq(|entries|, i requires 0 <= i < |entries| => Card(entries[i], i))
  }

  /** The comparator's category table. */
  function Order(c: Category): int {
    match c
    case Goal => 1
    case Want => 2
    case EmergencyFund => 3
  }

  /** The source's comparator: negative, zero or positive as `a` ranks before,
      with, or after `b`. */
  function Compare(a: Card, b: Card): int {
    Order(a.entry.kind) - Order(b.entry.kind)
  }

  predicate Sorted(s: seq<Card>) {
    forall i, j :: 0 <= i < j < |s| ==> Compare(s[i], s[j]) <= 0
  }

  /** Inserts `x`, which came before every card of `s`, into the sorted `s`:
      it goes in front of the first card it does not rank after. */
  function Insert(x: Card, s: seq<Card>): (r: seq<Card>)
    ensures multiset(r) == multiset(s) + multiset{x}
    ensures |r| == |s| + 1
    decreases |s|
  {
    if s == [] || Compare(x, s[0]) <= 0 then [x] + s
    else
      assert s == [s[0]] + s[1..];
      [s[0]] + Insert(x, s[1..])
  }

  /** The display order: the list sorted by category, stably. */
  function Sort(s: seq<Card>): (r: seq<Card>)
    ensures multiset(r) == multiset(s)
    ensures |r| == |s|
    decreases |s|
  {
    if s == [] then []
    else
      assert s == [s[0]] + s[1..];
      Insert(s[0], Sort(s[1..]))
  }

  // ---------------------------------------------------------------------------
  // The reference definition: group by category
  // ---------------------------------------------------------------------------

  /** The cards of category `c`, in their order in `s`. */
  function OfKind(s: seq<Card>, c: Category): seq<Card>
    decreases |s|
  {
    if s == [] then []
    else (if s[0].entry.kind == c then [s[0]] else []) + OfKind(s[1..], c)
  }

  function Grouped(s: seq<Card>): seq<Card> {
    OfKind(s, Goal) + OfKind(s, Want) + OfKind(s, EmergencyFund)
  }

  predicate AllOfKind(s: seq<Card>, c: Category) {
    forall i :: 0 <= i < |s| ==> s[i].entry.kind == c
  }

  lemma {:induction false} OfKindIsOfKind(s: seq<Card>, c: Category)
    ensures AllOfKind(OfKind(s, c), c)
    ensures |OfKind(s, c)| <= |s|
    decreases |s|
  {
    if s != [] {
      OfKindIsOfKind(s[1..], c);
    }
  }

  lemma {:induction false} OfKindConcat(a: seq<Card>, b: seq<Card>, c: Category)
    ensures OfKind(a + b, c) == OfKind(a, c) + OfKind(b, c)
    decreases |a|
  {
    if a == [] {
      assert a + b == b;
    } else {
      assert (a + b)[1..] == a[1..] + b;
      OfKindConcat(a[1..], b, c);
    }
  }

  /** A list of one category is its own selection of that category and has
      nothing of any other. */
  lemma {:induction false} OfKindUniform(s: seq<Card>, c: Category, d: Category)
    requires AllOfKind(s, c)
    ensures OfKind(s, d) == if c == d then s else []
    decreases |s|
  {
    if s != [] {
      assert s == [s[0]] + s[1..];
      OfKindUniform(s[1..], c, d);
    }
  }

  lemma Regroup(a: seq<Card>, b: seq<Card>, c: seq<Card>, d: seq<Card>)
    ensures a + b + (c + d) == a + (b + c) + d
    ensures a + b + c + d == a + (b + c + d)
    ensures a + b + c + d == a + b + (c + d)
  {
  }

  /** Inserting past a prefix that ranks strictly before `x` and in front of
      a suffix that does not. */
  lemma {:induction false} InsertAt(x: Card, p: seq<Card>, q: seq<Card>)
    requires forall i :: 0 <= i < |p| ==> Compare(x, p[i]) > 0
    requires q == [] || Compare(x, q[0]) <= 0
    ensures Insert(x, p + q) == p + [x] + q
    decreases |p|
  {
    if p == [] {
      assert p + q == q;
      assert p + [x] + q == [x] + q;
    } else {
      var s := p + q;
      assert s[0] == p[0];
      assert s[1..] == p[1..] + q;
      assert Insert(x, s) == [p[0]] + Insert(x, p[1..] + q);
      InsertAt(x, p[1..], q);
      assert p == [p[0]] + p[1..];
      Regroup([p[0]], p[1..], [x], q);
    }
  }

  lemma OfKindCons(x: Card, t: seq<Card>, c: Category)
    ensures x.entry.kind == c ==> OfKind([x] + t, c) == [x] + OfKind(t, c)
    ensures x.entry.kind != c ==> OfKind([x] + t, c) == OfKind(t, c)
  {
  }

  /** Inserting into three single-category blocks puts `x` at the end of the
      block of its own category. */
  lemma InsertBlocks(x: Card, g: seq<Card>, w: seq<Card>, e: seq<Card>)
    requires AllOfKind(g, Goal) && AllOfKind(w, Want) && AllOfKind(e, EmergencyFund)
    ensures x.entry.kind == Goal ==> Insert(x, g + w + e) == ([x] + g) + w + e
    ensures x.entry.kind == Want ==> Insert(x, g + w + e) == g + ([x] + w) + e
    ensures x.entry.kind == EmergencyFund ==> Insert(x, g + w + e) == g + w + ([x] + e)
  {
    match x.entry.kind {
      case Goal => InsertGoal(x, g, w, e);
      case Want => InsertWant(x, g, w, e);
      case EmergencyFund => InsertEmergencyFund(x, g, w, e);
    }
  }

  lemma InsertGoal(x: Card, g: seq<Card>, w: seq<Card>, e: seq<Card>)
    requires x.entry.kind == Goal
    ensures Insert(x, g + w + e) == ([x] + g) + w + e
  {
  }

  lemma InsertWant(x: Card, g: seq<Card>, w: seq<Card>, e: seq<Card>)
    requires x.entry.kind == Want
    requires AllOfKind(g, Goal) && AllOfKind(w, Want) && AllOfKind(e, EmergencyFund)
    ensures Insert(x, g + w + e) == g + ([x] + w) + e
  {
    var q := w + e;
    forall i | 0 <= i < |g|
      ensures Compare(x, g[i]) > 0
    {
      assert g[i].entry.kind == Goal;
    }
    assert q == [] || Compare(x, q[0]) <= 0 by {
      if w != [] {
        assert q[0] == w[0];
      } else if e != [] {
        assert q[0] == e[0];
      }
    }
    InsertAt(x, g, q);
    assert g + q == g + w + e;
    Regroup(g, [x], w, e);
  }

  lemma InsertEmergencyFund(x: Card, g: seq<Card>, w: seq<Card>, e: seq<Card>)
    requires x.entry.kind == EmergencyFund
    requires AllOfKind(g, Goal) && AllOfKind(w, Want) && AllOfKind(e, EmergencyFund)
    ensures Insert(x, g + w + e) == g + w + ([x] + e)
  {
    var p := g + w;
    forall i | 0 <= i < |p|
      ensures Compare(x, p[i]) > 0
    {
      if i < |g| {
        assert p[i] == g[i];
      } else {
        assert p[i] == w[i - |g|];
      }
    }
    InsertAt(x, p, e);
    Regroup(g, w, [x], e);
  }

  /** Inserting into a grouped list puts `x` at the end of its own group. */
  lemma InsertGrouped(x: Card, t: seq<Card>)
    ensures Insert(x, Grouped(t)) == Grouped([x] + t)
  {
    var g, w, e := OfKind(t, Goal), OfKind(t, Want), OfKind(t, EmergencyFund);
    OfKindIsOfKind(t, Goal);
    OfKindIsOfKind(t, Want);
    OfKindIsOfKind(t, EmergencyFund);
    OfKindCons(x, t, Goal);
    OfKindCons(x, t, Want);
    OfKindCons(x, t, EmergencyFund);
    InsertBlocks(x, g, w, e);
    assert Grouped(t) == g + w + e;
    match x.entry.kind {
      case Goal =>
        assert Grouped([x] + t) == ([x] + g) + w + e;
      case Want =>
        assert Grouped([x] + t) == g + ([x] + w) + e;
      case EmergencyFund =>
        assert Grouped([x] + t) == g + w + ([x] + e);
    }
  }

  /** The sort equals the reference definition. */
  lemma {:induction false} SortIsGrouped(s: seq<Card>)
    ensures Sort(s) == Grouped(s)
    decreases |s|
  {
    if s != [] {
      SortIsGrouped(s[1..]);
      assert s == [s[0]] + s[1..];
      InsertGrouped(s[0], s[1..]);
    }
  }

  // ---------------------------------------------------------------------------
  // Properties of the display order
  // ---------------------------------------------------------------------------

  /** Where each card of three concatenated single-category blocks sits. */
  lemma BlockAt(g: seq<Card>, w: seq<Card>, e: seq<Card>, k: int)
    requires AllOfKind(g, Goal) && AllOfKind(w, Want) && AllOfKind(e, EmergencyFund)
    requires 0 <= k < |g + w + e|
    ensures k < |g| ==> (g + w + e)[k] == g[k]
    ensures |g| <= k < |g| + |w| ==> (g + w + e)[k] == w[k - |g|]
    ensures |g| + |w| <= k ==> (g + w + e)[k] == e[k - |g| - |w|]
    ensures (g + w + e)[k].entry.kind == Goal <==> k < |g|
    ensures (g + w + e)[k].entry.kind == Want <==> |g| <= k < |g| + |w|
    ensures (g + w + e)[k].entry.kind == EmergencyFund <==> |g| + |w| <= k
  {
  }

  /** Categories never decrease along the sorted list. */
  lemma SortSorted(s: seq<Card>)
    ensures Sorted(Sort(s))
  {
    SortIsGrouped(s);
    var g, w, e := OfKind(s, Goal), OfKind(s, Want), OfKind(s, EmergencyFund);
    OfKindIsOfKind(s, Goal);
    OfKindIsOfKind(s, Want);
    OfKindIsOfKind(s, EmergencyFund);
    var r := g + w + e;
    forall i, j | 0 <= i < j < |r|
      ensures Compare(r[i], r[j]) <= 0
    {
      BlockAt(g, w, e, i);
      BlockAt(g, w, e, j);
    }
  }

  /** The sorted list is a permutation of the input. */
  lemma SortPermutes(s: seq<Card>)
    ensures multiset(Sort(s)) == multiset(s)
    ensures |Sort(s)| == |s|
  {
  }

  /** Stability: each category's cards appear in the sorted list exactly as
      they appear in the input. */
  lemma SortStable(s: seq<Card>, c: Category)
    ensures OfKind(Sort(s), c) == OfKind(s, c)
  {
    SortIsGrouped(s);
    var g, w, e := OfKind(s, Goal), OfKind(s, Want), OfKind(s, EmergencyFund);
    OfKindIsOfKind(s, Goal);
    OfKindIsOfKind(s, Want);
    OfKindIsOfKind(s, EmergencyFund);
    OfKindConcat(g + w, e, c);
    OfKindConcat(g, w, c);
    var og, ow, oe := OfKind(g, c), OfKind(w, c), OfKind(e, c);
    assert OfKind(Sort(s), c) == og + ow + oe;
    OfKindUniform(g, Goal, c);
    OfKindUniform(w, Want, c);
    OfKindUniform(e, EmergencyFund, c);
    match c {
      case Goal =>
        assert og + ow + oe == g + [] + [];
        assert g + [] + [] == g;
      case Want =>
        assert og + ow + oe == [] + w + [];
        assert [] + w + [] == w;
      case EmergencyFund =>
        assert og + ow + oe == [] + [] + e;
        assert [] + [] + e == e;
    }
  }

  /** A list that is already in display order is left as it is. */
  lemma {:induction false} SortOfSorted(s: seq<Card>)
    requires Sorted(s)
    ensures Sort(s) == s
    decreases |s|
  {
    if s != [] {
      var t := s[1..];
      forall i, j | 0 <= i < j < |t|
        ensures Compare(t[i], t[j]) <= 0
      {
        assert t[i] == s[i + 1] && t[j] == s[j + 1];
      }
      SortOfSorted(t);
      if t != [] {
        assert t[0] == s[1];
      }
      InsertAt(s[0], [], t);
      assert [] + t == t;
      assert [] + [s[0]] + t == s;
    }
  }

  /** Sorting twice is sorting once. */
  lemma SortIdempotent(s: seq<Card>)
    ensures Sort(Sort(s)) == Sort(s)
  {
    SortSorted(s);
    SortOfSorted(Sort(s));
  }

  /** Any rearrangement that is in display order and keeps each category's
      order is the sort: whichever stable algorithm runs, the list shown is
      `Sort(s)`. */
  lemma StableSortUnique(s: seq<Card>, o: seq<Card>)
    requires Sorted(o)
    requires forall c: Category :: OfKind(o, c) == OfKind(s, c)
    ensures o == Sort(s)
  {
    SortOfSorted(o);
    SortIsGrouped(o);
    SortIsGrouped(s);
    assert OfKind(o, Goal) == OfKind(s, Goal);
    assert OfKind(o, Want) == OfKind(s, Want);
    assert OfKind(o, EmergencyFund) == OfKind(s, EmergencyFund);
  }

  // ---------------------------------------------------------------------------
  // The buttons still reach their own entries
  // ---------------------------------------------------------------------------

  /** Sorting changes no card: every card shown carries a valid ledger position
      and exactly the fields of the entry at that position, and every ledger
      position is shown exactly once. */
  lemma SortedCardsTargetSource(entries: seq<Entry>)
    ensures var out := Sort(Cards(entries));
      && |out| == |entries|
      && (forall k :: 0 <= k < |out| ==>
            0 <= out[k].source < |entries| && out[k].entry == entries[out[k].source])
      && (forall p :: 0 <= p < |entries| ==> multiset(out)[Card(entries[p], p)] == 1)
  {
    var cs := Cards(entries);
    var out := Sort(cs);
    forall k | 0 <= k < |out|
      ensures 0 <= out[k].source < |entries| && out[k].entry == entries[out[k].source]
    {
      assert out[k] in multiset(out);
      assert out[k] in cs;
    }
    forall p | 0 <= p < |entries|
      ensures multiset(out)[Card(entries[p], p)] == 1
    {
      CardsOnce(entries, p);
    }
  }

  lemma CardsOnce(entries: seq<Entry>, p: int)
    requires 0 <= p < |entries|
    ensures multiset(Cards(entries))[Card(entries[p], p)] == 1
  {
    var cs := Cards(entries);
    assert cs == cs[..p] + [cs[p]] + cs[p+1..];
    assert Card(entries[p], p) !in cs[..p];
    assert Card(entries[p], p) !in cs[p+1..];
  }

  /** Stability in terms of the buttons: two cards of the same category are
      shown in the order of their ledger positions. */
  lemma SortKeepsLedgerOrder(entries: seq<Entry>)
    ensures var out := Sort(Cards(entries));
      forall i, j :: 0 <= i < j < |out| && out[i].entry.kind == out[j].entry.kind ==>
        out[i].source < out[j].source
  {
    var cs := Cards(entries);
    SortIsGrouped(cs);
    var g, w, e := OfKind(cs, Goal), OfKind(cs, Want), OfKind(cs, EmergencyFund);
    OfKindIsOfKind(cs, Goal);
    OfKindIsOfKind(cs, Want);
    OfKindIsOfKind(cs, EmergencyFund);
    OfKindIncreasing(cs, Goal);
    OfKindIncreasing(cs, Want);
    OfKindIncreasing(cs, EmergencyFund);
    var out := g + w + e;
    forall i, j | 0 <= i < j < |out| && out[i].entry.kind == out[j].entry.kind
      ensures out[i].source < out[j].source
    {
      BlockAt(g, w, e, i);
      BlockAt(g, w, e, j);
    }
  }

  predicate Increasing(s: seq<Card>) {
    forall i, j :: 0 <= i < j < |s| ==> s[i].source < s[j].source
  }

  lemma {:induction false} OfKindIncreasing(s: seq<Card>, c: Category)
    requires Increasing(s)
    ensures Increasing(OfKind(s, c))
    decreases |s|
  {
    if s != [] {
      OfKindIncreasing(s[1..], c);
      OfKindWithin(s[1..], c);
      var rest := OfKind(s[1..], c);
      forall j | 0 <= j < |rest|
        ensures s[0].source < rest[j].source
      {
        assert rest[j] in s[1..];
      }
    }
  }

  lemma {:induction false} OfKindWithin(s: seq<Card>, c: Category)
    ensures forall x :: x in OfKind(s, c) ==> x in s
    decreases |s|
  {
    if s != [] {
      OfKindWithin(s[1..], c);
    }
  }
}
