/** The business board: six status columns over one local list of cards.
    A drop either leaves the list alone or splices the list (remove at the
    source index, insert the re-statused card at the destination index) and
    notifies the owner with the moved card and its new status.

    The drag library reports `source.index` and `destination.index`
    relative to the column, while the splice applies them to the whole
    list. `OnDragEnd` models that as written; `OnDragEndByCard` is the
    evidently intended move of the dragged card itself. */
module KanbanBoard {
  import opened Wrappers
  import opened Seqs
  import Types

  /** This board's own six stages (not the lead pipeline's). */
  datatype BusinessStatus = NewLead | ContatoRealizado | PropostaEnviada | EmNegociacao | Fechado | Perdido

  /** The columns, in display order; each column's droppable id is its status. */
  const StatusColumns: seq<BusinessStatus> :=
    [NewLead, ContatoRealizado, PropostaEnviada, EmNegociacao, Fechado, Perdido]

  /** A business on the board with its current status. Cards are identified
      by the business name, which is also the draggable id. */
  datatype Card = Card(business: Types.Business, status: BusinessStatus) {
    function Name(): string {
      business.name
    }
  }

  datatype Position = Position(droppableId: BusinessStatus, index: nat)

  /** What the drag library hands to `onDragEnd`; the destination is absent
      when the card was released outside every column. */
  datatype DropResult = DropResult(draggableId: string, source: Position, destination: Option<Position>)

  /** The new local list, and the `onStatusChange` call made, if any. */
  datatype DragOutcome = DragOutcome(cards: seq<Card>, notified: Option<(Card, BusinessStatus)>)

  /** `getBusinessesByStatus`: the cards of one column, in list order
      (the order is `ColumnAppend`). */
  function Column(cards: seq<Card>, status: BusinessStatus): (col: seq<Card>)
    ensures |col| <= |cards|
    ensures forall c :: c in col <==> c in cards && c.status == status
    ensures forall i :: 0 <= i < |col| ==> col[i].status == status
  {
    Filter(cards, (c: Card) => c.status == status)
  }

  /** Sum of the column sizes over the six columns. */
  function ColumnTotal(cards: seq<Card>): nat {
    |Column(cards, NewLead)| + |Column(cards, ContatoRealizado)| + |Column(cards, PropostaEnviada)|
    + |Column(cards, EmNegociacao)| + |Column(cards, Fechado)| + |Column(cards, Perdido)|
  }

  /** Every card shows in exactly one column (`Column`'s own contract says
      which), so the six columns together hold as many cards as the list. */
  lemma {:induction false} ColumnsPartition(cards: seq<Card>)
    ensures ColumnTotal(cards) == |cards|
    decreases |cards|
  {
    if |cards| > 0 {
      ColumnsPartition(cards[1..]);
    }
  }

  /** `list.find(b => b.name === id)`, as a position (-1 when absent). */
  function FindByName(cards: seq<Card>, name: string): (i: int)
    ensures -1 <= i < |cards|
    ensures i >= 0 ==> cards[i].Name() == name && forall j :: 0 <= j < i ==> cards[j].Name() != name
    ensures i == -1 <==> forall j :: 0 <= j < |cards| ==> cards[j].Name() != name
  {
    FindIndex(cards, (c: Card) => c.Name() == name)
  }

  /** `list.splice(i, 1)`: removes the element at `i`, or nothing when `i`
      is past the end. */
  function SpliceRemove<T>(s: seq<T>, i: nat): (r: seq<T>)
    ensures i < |s| ==> |r| == |s| - 1
    ensures i >= |s| ==> r == s
    ensures forall j :: 0 <= j < |r| ==> r[j] == (if j < i then s[j] else s[j + 1])
    ensures i < |s| ==> multiset(r) == multiset(s) - multiset{s[i]}
  {
    if i < |s| then
      assert s == s[..i] + [s[i]] + s[i + 1..];
      s[..i] + s[i + 1..]
    else s
  }

  /** `list.splice(i, 0, x)`: inserts `x` before position `i`, or at the end
      when `i` is past the end. */
  function SpliceInsert<T>(s: seq<T>, i: nat, x: T): (r: seq<T>)
    ensures |r| == |s| + 1
    ensures i <= |s| ==> r[i] == x
    ensures i > |s| ==> r[|s|] == x
    ensures forall j :: 0 <= j < |s| ==> s[j] == (if j < i then r[j] else r[j + 1])
    ensures multiset(r) == multiset(s) + multiset{x}
  {
    var k := if i <= |s| then i else |s|;
    assert s == s[..k] + s[k..];
    s[..k] + [x] + s[k..]
  }

  /** Where `splice(i, 0, x)` puts `x`: at `i`, or at the end when `i` is
      past it. */
  function InsertedAt<T>(s: seq<T>, i: nat): (k: nat)
    ensures k <= |s|
  {
    if i <= |s| then i else |s|
  }

  /** Removing the element just inserted gives the list back: the two
      splices are inverse. */
  lemma SpliceInsertRemove<T>(s: seq<T>, i: nat, x: T)
    ensures SpliceInsert(s, i, x)[InsertedAt(s, i)] == x
    ensures SpliceRemove(SpliceInsert(s, i, x), InsertedAt(s, i)) == s
  {
    var k := InsertedAt(s, i);
    var r := s[..k] + [x] + s[k..];
    assert r == SpliceInsert(s, i, x);
    assert r[..k] == s[..k];
    assert r[k + 1..] == s[k..];
    assert s[..k] + s[k..] == s;
  }

  /** The drop changes something: it landed in a column, not back where it
      started, and the dragged name belongs to a card. */
  predicate IsEffectiveDrop(cards: seq<Card>, r: DropResult) {
    && r.destination.Some?
    && !(r.destination.value.droppableId == r.source.droppableId && r.destination.value.index == r.source.index)
    && FindByName(cards, r.draggableId) >= 0
  }

  /** `onDragEnd` as written. A drop with no destination, back onto its own
      position, or naming no card leaves the list alone and notifies nobody.
      Otherwise the first card with the dragged name, with only its status
      replaced by the destination column, is spliced in at the destination
      index after the element at the source index is removed, and exactly
      that card and status are reported once. */
  function OnDragEnd(cards: seq<Card>, r: DropResult): (o: DragOutcome)
    ensures r.destination.None? ==> o == DragOutcome(cards, None)
    ensures r.destination.Some? && r.destination.value == r.source ==> o == DragOutcome(cards, None)
    ensures (forall j :: 0 <= j < |cards| ==> cards[j].Name() != r.draggableId) ==> o == DragOutcome(cards, None)
    ensures !IsEffectiveDrop(cards, r) <==> o.notified.None?
    ensures IsEffectiveDrop(cards, r) ==>
      var found := cards[FindByName(cards, r.draggableId)];
      var status := r.destination.value.droppableId;
      && found.Name() == r.draggableId
      && o.notified == Some((found.(status := status), status))
      && (r.source.index < |cards| ==> |o.cards| == |cards|)
      && (r.source.index >= |cards| ==> |o.cards| == |cards| + 1)
      && (r.destination.value.index <= |SpliceRemove(cards, r.source.index)| ==>
            o.cards[r.destination.value.index] == found.(status := status))
      && (r.source.index < |cards| ==>
            multiset(o.cards) == multiset(cards) - multiset{cards[r.source.index]} + multiset{found.(status := status)})
      && var removed := SpliceRemove(cards, r.source.index);
         var at := InsertedAt(removed, r.destination.value.index);
         && o.cards[at] == found.(status := status)
         && SpliceRemove(o.cards, at) == removed
  {
    if r.destination.None? then DragOutcome(cards, None)
    else
      var dest := r.destination.value;
      if dest.droppableId == r.source.droppableId && dest.index == r.source.index then
        DragOutcome(cards, None)
      else
        var i := FindByName(cards, r.draggableId);
        if i < 0 then DragOutcome(cards, None)
        else
          var updated := cards[i].(status := dest.droppableId);
          var next := SpliceInsert(SpliceRemove(cards, r.source.index), dest.index, updated);
          SpliceInsertRemove(SpliceRemove(cards, r.source.index), dest.index, updated);
          DragOutcome(next, Some((updated, dest.droppableId)))
  }

  // ---------------------------------------------------------------------
  // The column-relative index applied to the whole list
  // ---------------------------------------------------------------------

  /** A board with one card in the "Lead" column and one in "Fechado". */
  function TwoColumnBoard(a: Types.Business, b: Types.Business): seq<Card> {
    [Card(a, NewLead), Card(b, Fechado)]
  }

  /** Dragging the only "Fechado" card (column index 0) to the top of the
      "Lead" column removes list element 0, which is the other card: that
      card disappears from the board and the dragged business shows twice. */
  lemma {:induction false} DragEndLosesOtherCard(a: Types.Business, b: Types.Business)
    requires a.name != b.name
    ensures
      var cards := TwoColumnBoard(a, b);
      var o := OnDragEnd(cards, DropResult(b.name, Position(Fechado, 0), Some(Position(NewLead, 0))));
      && cards[0] !in o.cards
      && o.cards == [Card(b, NewLead), Card(b, Fechado)]
  {
    TwoColumnDrop(a, b);
    assert Card(a, NewLead).Name() != b.name;
  }

  /** A two-element list is the display of its two elements. Stated apart
      so that this extensionality step is proved without the drop's
      context, in which the solver does not find it. */
  lemma TwoElements<T>(s: seq<T>)
    requires |s| == 2
    ensures s == [s[0], s[1]]
  {
  }

  /** The drop above splices out list element 0 and puts the dragged card,
      now in "Lead", at the front of what is left. */
  lemma TwoColumnDrop(a: Types.Business, b: Types.Business)
    requires a.name != b.name
    ensures
      var cards := TwoColumnBoard(a, b);
      OnDragEnd(cards, DropResult(b.name, Position(Fechado, 0), Some(Position(NewLead, 0)))).cards
        == [Card(b, NewLead), Card(b, Fechado)]
  {
    var cards := TwoColumnBoard(a, b);
    var r := DropResult(b.name, Position(Fechado, 0), Some(Position(NewLead, 0)));
    assert cards[0].Name() != b.name && cards[1].Name() == b.name;
    assert FindByName(cards, b.name) == 1;
    assert IsEffectiveDrop(cards, r);
    var o := OnDragEnd(cards, r);
    assert SpliceRemove(cards, 0) == [cards[1]];
    assert InsertedAt([cards[1]], 0) == 0;
    assert |o.cards| == 2 && o.cards[0] == Card(b, NewLead);
    assert o.cards[1] == SpliceRemove(o.cards, 0)[0] == cards[1];
    TwoElements(o.cards);
  }

  // ---------------------------------------------------------------------
  // The intended move: take the dragged card out, put it in its column
  // ---------------------------------------------------------------------

  /** A column of two lists put together is the first list's column
      followed by the second's. */
  lemma ColumnAppend(a: seq<Card>, b: seq<Card>, status: BusinessStatus)
    ensures Column(a + b, status) == Column(a, status) + Column(b, status)
  {
    FilterAppend(a, b, (c: Card) => c.status == status);
  }

  /** Where in the whole list a card must go to be at position `k` of
      column `status`: before that column's `k`-th card, or at the end
      when the column is shorter. */
  function InsertionPoint(s: seq<Card>, status: BusinessStatus, k: nat): (p: nat)
    ensures p <= |s|
    ensures p < |s| ==> s[p].status == status
    decreases |s|
  {
    if |s| == 0 then 0
    else if s[0].status == status && k == 0 then 0
    else 1 + InsertionPoint(s[1..], status, if s[0].status == status then k - 1 else k)
  }

  /** The column-relative position a drop lands on, clamped to the column. */
  function ClampedIndex(cards: seq<Card>, status: BusinessStatus, k: nat): nat {
    if k <= |Column(cards, status)| then k else |Column(cards, status)|
  }

  /** The number of cards in column `status`, counted card by card. */
  function ColumnCount(s: seq<Card>, status: BusinessStatus): nat
    decreases |s|
  {
    if |s| == 0 then 0 else (if s[0].status == status then 1 else 0) + ColumnCount(s[1..], status)
  }

  /** Counting card by card gives the column's size. */
  lemma {:induction false} ColumnCountSize(s: seq<Card>, status: BusinessStatus)
    ensures ColumnCount(s, status) == |Column(s, status)|
    decreases |s|
  {
    if |s| > 0 {
      ColumnCountSize(s[1..], status);
      assert s == [s[0]] + s[1..];
      ColumnAppend([s[0]], s[1..], status);
    }
  }

  /** Before the insertion point lie exactly the requested number of column
      cards, or all of them when the column is shorter. */
  lemma {:induction false} InsertionPointCount(s: seq<Card>, status: BusinessStatus, k: nat)
    ensures k <= ColumnCount(s, status) ==> ColumnCount(s[..InsertionPoint(s, status, k)], status) == k
    ensures k > ColumnCount(s, status) ==> ColumnCount(s[..InsertionPoint(s, status, k)], status) == ColumnCount(s, status)
    decreases |s|
  {
    if |s| == 0 || (s[0].status == status && k == 0) {
      assert s[..InsertionPoint(s, status, k)] == [];
    } else {
      var h := if s[0].status == status then 1 else 0;
      var k' := k - h;
      var p := InsertionPoint(s, status, k);
      assert p == 1 + InsertionPoint(s[1..], status, k');
      assert ColumnCount(s, status) == h + ColumnCount(s[1..], status);
      InsertionPointCount(s[1..], status, k');
      PrefixCountStep(s, status, p);
    }
  }

  /** A non-empty prefix counts its first card and then the rest of it. */
  lemma PrefixCountStep(s: seq<Card>, status: BusinessStatus, p: nat)
    requires 1 <= p <= |s|
    ensures ColumnCount(s[..p], status) == (if s[0].status == status then 1 else 0) + ColumnCount(s[1..][..p - 1], status)
  {
    assert s[..p][1..] == s[1..][..p - 1];
  }

  /** Exactly the requested number of column cards (or all of them, when
      the column is shorter) come before the insertion point. */
  lemma InsertionPointColumn(s: seq<Card>, status: BusinessStatus, k: nat)
    ensures |Column(s[..InsertionPoint(s, status, k)], status)| == ClampedIndex(s, status, k)
  {
    InsertionPointCount(s, status, k);
    ColumnCountSize(s, status);
    ColumnCountSize(s[..InsertionPoint(s, status, k)], status);
  }

  /** Taking out the card at `i` and inserting `updated` anywhere replaces
      exactly one occurrence of the card by `updated`. */
  lemma MoveMultiset(cards: seq<Card>, i: nat, p: nat, updated: Card)
    requires i < |cards|
    requires p <= |cards| - 1
    ensures
      var rest := cards[..i] + cards[i + 1..];
      multiset(rest[..p] + [updated] + rest[p..]) == multiset(cards) - multiset{cards[i]} + multiset{updated}
  {
    var rest := cards[..i] + cards[i + 1..];
    assert cards == cards[..i] + [cards[i]] + cards[i + 1..];
    assert rest == rest[..p] + rest[p..];
    assert multiset(cards) - multiset{cards[i]} == multiset(rest);
  }

  /** Takes the card at `i` out of the list and puts it, with status
      `status`, at position `k` of that column (clamped to the column):
      no card is lost or duplicated, and every other column only loses the
      moved card. */
  function MoveCard(cards: seq<Card>, i: nat, status: BusinessStatus, k: nat): (next: seq<Card>)
    requires i < |cards|
    ensures
      var updated := cards[i].(status := status);
      var rest := cards[..i] + cards[i + 1..];
      && |next| == |cards|
      && multiset(next) == multiset(cards) - multiset{cards[i]} + multiset{updated}
      && ClampedIndex(rest, status, k) < |Column(next, status)|
      && Column(next, status)[ClampedIndex(rest, status, k)] == updated
      && (var c := ClampedIndex(rest, status, k);
          Column(next, status) == Column(rest, status)[..c] + [updated] + Column(rest, status)[c..])
      && forall other :: other != status ==> Column(next, other) == Column(rest, other)
  {
    var updated := cards[i].(status := status);
    var rest := cards[..i] + cards[i + 1..];
    var p := InsertionPoint(rest, status, k);
    var next := rest[..p] + [updated] + rest[p..];
    MovedCardColumns(rest, p, updated);
    InsertionPointColumn(rest, status, k);
    ColumnSplitAt(rest, p, status);
    MoveMultiset(cards, i, p, updated);
    next
  }

  /** `onDragEnd` as evidently intended: the same no-op cases and the same
      notification, but the dragged card itself is removed and the updated
      card is inserted at the destination index of its new column. */
  function OnDragEndByCard(cards: seq<Card>, r: DropResult): (o: DragOutcome)
    ensures !IsEffectiveDrop(cards, r) ==> o == DragOutcome(cards, None)
    ensures IsEffectiveDrop(cards, r) ==>
      var i := FindByName(cards, r.draggableId);
      var status := r.destination.value.droppableId;
      var updated := cards[i].(status := status);
      var rest := cards[..i] + cards[i + 1..];
      && o.notified == Some((updated, status))
      && |o.cards| == |cards|
      && multiset(o.cards) == multiset(cards) - multiset{cards[i]} + multiset{updated}
      && ClampedIndex(rest, status, r.destination.value.index) < |Column(o.cards, status)|
      && Column(o.cards, status)[ClampedIndex(rest, status, r.destination.value.index)] == updated
      && (var c := ClampedIndex(rest, status, r.destination.value.index);
          Column(o.cards, status) == Column(rest, status)[..c] + [updated] + Column(rest, status)[c..])
      && forall other :: other != status ==> Column(o.cards, other) == Column(rest, other)
  {
    if !IsEffectiveDrop(cards, r) then DragOutcome(cards, None)
    else
      var dest := r.destination.value;
      var i := FindByName(cards, r.draggableId);
      DragOutcome(MoveCard(cards, i, dest.droppableId, dest.index), Some((cards[i].(status := dest.droppableId), dest.droppableId)))
  }

  /** Splitting the list at `p` splits each column after its cards before `p`. */
  lemma ColumnSplitAt(s: seq<Card>, p: nat, st: BusinessStatus)
    requires p <= |s|
    ensures var n := |Column(s[..p], st)|;
      && n <= |Column(s, st)|
      && Column(s, st)[..n] == Column(s[..p], st)
      && Column(s, st)[n..] == Column(s[p..], st)
  {
    assert s == s[..p] + s[p..];
    ColumnAppend(s[..p], s[p..], st);
  }

  /** A one-card list's column holds the card exactly when it has that
      column's status. */
  lemma ColumnSingleton(x: Card, st: BusinessStatus)
    ensures Column([x], st) == if x.status == st then [x] else []
  {
    assert [x][1..] == [];
  }

  /** Inserting a card into one column's share of the list, and every
      column's share of the list without it. */
  lemma SplicedColumn(rest: seq<Card>, p: nat, updated: Card, st: BusinessStatus)
    requires p <= |rest|
    ensures Column(rest[..p] + [updated] + rest[p..], st) == Column(rest[..p], st) + Column([updated], st) + Column(rest[p..], st)
    ensures Column(rest, st) == Column(rest[..p], st) + Column(rest[p..], st)
  {
    assert rest == rest[..p] + rest[p..];
    ColumnAppend(rest[..p] + [updated], rest[p..], st);
    ColumnAppend(rest[..p], [updated], st);
    ColumnAppend(rest[..p], rest[p..], st);
  }

  /** Inserting a card at `p` adds it to its own column right after the
      column cards before `p`, and leaves the other columns as they were. */
  lemma MovedCardColumns(rest: seq<Card>, p: nat, updated: Card)
    requires p <= |rest|
    ensures
      var next := rest[..p] + [updated] + rest[p..];
      && Column(next, updated.status) == Column(rest[..p], updated.status) + [updated] + Column(rest[p..], updated.status)
      && forall other :: other != updated.status ==> Column(next, other) == Column(rest, other)
  {
    SplicedColumn(rest, p, updated, updated.status);
    ColumnSingleton(updated, updated.status);
    forall other | other != updated.status
      ensures Column(rest[..p] + [updated] + rest[p..], other) == Column(rest, other)
    {
      SplicedColumn(rest, p, updated, other);
      ColumnSingleton(updated, other);
    }
  }
}
