/**
 * Moving one card by drag and drop: from position `sourceIndex` of the list
 * `sourceId` to position `destIndex` of the list `destId`, and the two guards
 * that turn a drop into no change at all.
 */
module Moves {
  import opened Wrappers
  import opened Splice
  import opened Kanban

  /** Where a drag starts or ends: a list id and a position in that list. */
  datatype DraggableLocation = DraggableLocation(droppableId: string, index: nat)

  /** A finished drag: where it started and, unless it was dropped outside every list, where it ended. */
  datatype DropResult = DropResult(source: DraggableLocation, destination: Option<DraggableLocation>)

  /** What a move needs: when both lists exist, the source position holds a card. */
  predicate SourceInRange(b: Board, sourceId: string, sourceIndex: nat, destId: string) {
    match (IndexOf(b, sourceId), IndexOf(b, destId))
    case (Some(s), Some(_)) => sourceIndex < |b[s].cards|
    case _ => true
  }

  /**
   * The move: the first list with id `sourceId` loses its card at `sourceIndex`, and
   * that card is inserted at `destIndex` of the first list with id `destId`, read
   * after the removal (one sequence when the two are the same list). An unknown
   * list id leaves the board as it was.
   */
  function MoveCard(b: Board, sourceId: string, sourceIndex: nat, destId: string, destIndex: nat): (r: Board)
    requires SourceInRange(b, sourceId, sourceIndex, destId)
    ensures |r| == |b|
    ensures forall k :: 0 <= k < |b| ==> r[k].id == b[k].id && r[k].title == b[k].title
    ensures sourceId !in ListIds(b) || destId !in ListIds(b) ==> r == b
  {
    match (IndexOf(b, sourceId), IndexOf(b, destId))
    case (Some(s), Some(t)) =>
      var moved := b[s].cards[sourceIndex];
      var rest := SpliceRemove(b[s].cards, sourceIndex);
      if s == t then
        b[s := b[s].(cards := SpliceInsert(rest, destIndex, moved))]
      else
        b[s := b[s].(cards := rest)][t := b[t].(cards := SpliceInsert(b[t].cards, destIndex, moved))]
    case _ => b
  }

  /** What a drop needs: a move that is not cancelled or dropped in place has its source in range. */
  predicate DropInRange(b: Board, result: DropResult) {
    match result.destination
    case None => true
    case Some(d) => d == result.source || SourceInRange(b, result.source.droppableId, result.source.index, d.droppableId)
  }

  /** onDragEnd: a cancelled drag and a drop onto the start position change nothing; any other drop moves the card. */
  function DragEnd(b: Board, result: DropResult): (r: Board)
    requires DropInRange(b, result)
    ensures result.destination.None? ==> r == b
    ensures result.destination == Some(result.source) ==> r == b
    ensures result.destination.Some? && result.destination.value != result.source ==>
              r == MoveCard(b, result.source.droppableId, result.source.index,
                            result.destination.value.droppableId, result.destination.value.index)
  {
    match result.destination
    case None => b
    case Some(d) =>
      if d.droppableId == result.source.droppableId && d.index == result.source.index then b
      else MoveCard(b, result.source.droppableId, result.source.index, d.droppableId, d.index)
  }
}

/** What a move keeps and how moves compose. */
module MoveProperties {
  import opened Wrappers
  import opened Splice
  import opened Kanban
  import opened Moves

  /** A move within one list is a remove-then-insert on that list's cards; every other list stays. */
  lemma MoveWithinList(b: Board, listId: string, i: nat, j: nat)
    requires listId in ListIds(b)
    requires i < |b[IndexOf(b, listId).value].cards|
    ensures var s := IndexOf(b, listId).value;
            var c := b[s].cards;
            var r := MoveCard(b, listId, i, listId, j);
            && r[s].cards == SpliceInsert(SpliceRemove(c, i), j, c[i])
            && r[s].cards[SpliceStart(j, |c| - 1)] == c[i]
            && forall k :: 0 <= k < |b| && k != s ==> r[k] == b[k]
  {
    var s := IndexOf(b, listId).value;
    var c := b[s].cards;
    var rest := SpliceRemove(c, i);
    var r := MoveCard(b, listId, i, listId, j);
    assert r == b[s := b[s].(cards := SpliceInsert(rest, j, c[i]))];
    assert |rest| == |c| - 1;
  }

  /**
   * A move across lists: the source list loses exactly its card at `i`, the destination
   * list gets it at `j` (or at its end when `j` is past it), every other list stays.
   */
  lemma MoveAcrossLists(b: Board, sourceId: string, i: nat, destId: string, j: nat)
    requires sourceId in ListIds(b) && destId in ListIds(b) && sourceId != destId
    requires i < |b[IndexOf(b, sourceId).value].cards|
    ensures var s := IndexOf(b, sourceId).value;
            var t := IndexOf(b, destId).value;
            var r := MoveCard(b, sourceId, i, destId, j);
            && s != t
            && r[s].cards == SpliceRemove(b[s].cards, i)
            && r[t].cards == SpliceInsert(b[t].cards, j, b[s].cards[i])
            && r[t].cards[SpliceStart(j, |b[t].cards|)] == b[s].cards[i]
            && forall k :: 0 <= k < |b| && k != s && k != t ==> r[k] == b[k]
  {
  }

  /** A move neither creates nor destroys a card: the board holds the same cards. */
  lemma MoveConservesCards(b: Board, sourceId: string, i: nat, destId: string, j: nat)
    requires SourceInRange(b, sourceId, i, destId)
    ensures multiset(AllCards(MoveCard(b, sourceId, i, destId, j))) == multiset(AllCards(b))
  {
    var r := MoveCard(b, sourceId, i, destId, j);
    if sourceId in ListIds(b) && destId in ListIds(b) {
      var s := IndexOf(b, sourceId).value;
      var t := IndexOf(b, destId).value;
      var moved := b[s].cards[i];
      var rest := SpliceRemove(b[s].cards, i);
      SpliceRemoveElements(b[s].cards, i);
      if s == t {
        SpliceInsertElements(rest, j, moved);
        var l := b[s].(cards := SpliceInsert(rest, j, moved));
        assert r == b[s := l];
        AllCardsUpdate(b, s, l);
        BagCancel(multiset(AllCards(r)), multiset(AllCards(b)), multiset(b[s].cards));
      } else {
        SpliceInsertElements(b[t].cards, j, moved);
        var b1 := b[s := b[s].(cards := rest)];
        var l := b[t].(cards := SpliceInsert(b[t].cards, j, moved));
        assert r == b1[t := l];
        AllCardsUpdate(b, s, b[s].(cards := rest));
        AllCardsUpdate(b1, t, l);
        assert b1[t] == b[t];
        BagCancel(multiset(AllCards(b1)) + multiset{moved}, multiset(AllCards(b)), multiset(rest));
        BagCancel(multiset(AllCards(r)), multiset(AllCards(b1)) + multiset{moved}, multiset(b[t].cards));
      }
    }
  }

  /** A move keeps the identity invariants: list ids stay in place and card ids are the same bag. */
  lemma MoveKeepsWellFormed(b: Board, sourceId: string, i: nat, destId: string, j: nat)
    requires WellFormed(b) && SourceInRange(b, sourceId, i, destId)
    ensures WellFormed(MoveCard(b, sourceId, i, destId, j))
  {
    var r := MoveCard(b, sourceId, i, destId, j);
    MoveConservesCards(b, sourceId, i, destId, j);
    UniqueCardIdsSubBag(b, r);
  }

  /** Boards with the same list ids at the same positions find the same list for every id. */
  lemma {:induction false} IndexOfSameIds(b: Board, b': Board, id: string)
    requires |b| == |b'| && forall k :: 0 <= k < |b| ==> b[k].id == b'[k].id
    ensures IndexOf(b, id) == IndexOf(b', id)
    decreases |b|
  {
    if b != [] && b[0].id != id {
      IndexOfSameIds(b[1..], b'[1..], id);
    }
  }

  /** Dropping a card where it was picked up, without the guard, would leave the board unchanged too. */
  lemma MoveInPlaceIsIdentity(b: Board, listId: string, i: nat)
    requires SourceInRange(b, listId, i, listId)
    ensures MoveCard(b, listId, i, listId, i) == b
  {
    if listId in ListIds(b) {
      var s := IndexOf(b, listId).value;
      RemoveThenInsertBack(b[s].cards, i);
      assert b[s := b[s]] == b;
    }
  }

  /** Within one list, moving a card from `i` to `j` and then from `j` back to `i` restores the board. */
  lemma MoveWithinListRoundTrip(b: Board, listId: string, i: nat, j: nat)
    requires listId in ListIds(b)
    requires i < |b[IndexOf(b, listId).value].cards| && j < |b[IndexOf(b, listId).value].cards|
    ensures SourceInRange(MoveCard(b, listId, i, listId, j), listId, j, listId)
    ensures MoveCard(MoveCard(b, listId, i, listId, j), listId, j, listId, i) == b
  {
    var s := IndexOf(b, listId).value;
    var r := MoveCard(b, listId, i, listId, j);
    IndexOfSameIds(b, r, listId);
    ReorderRoundTrip(b[s].cards, i, j);
    var back := MoveCard(r, listId, j, listId, i);
    assert back == r[s := r[s].(cards := b[s].cards)];
    assert back == b;
  }

  /**
   * Across two lists, moving a card from `i` of one list to `j` of the other and then
   * from `j` of the other back to `i` of the first restores the board.
   */
  lemma MoveAcrossListsRoundTrip(b: Board, sourceId: string, i: nat, destId: string, j: nat)
    requires sourceId in ListIds(b) && destId in ListIds(b) && sourceId != destId
    requires i < |b[IndexOf(b, sourceId).value].cards|
    requires j <= |b[IndexOf(b, destId).value].cards|
    ensures SourceInRange(MoveCard(b, sourceId, i, destId, j), destId, j, sourceId)
    ensures MoveCard(MoveCard(b, sourceId, i, destId, j), destId, j, sourceId, i) == b
  {
    var s := IndexOf(b, sourceId).value;
    var t := IndexOf(b, destId).value;
    var moved := b[s].cards[i];
    var r := MoveCard(b, sourceId, i, destId, j);
    assert r == b[s := b[s].(cards := SpliceRemove(b[s].cards, i))][t := b[t].(cards := SpliceInsert(b[t].cards, j, moved))];
    IndexOfSameIds(b, r, sourceId);
    IndexOfSameIds(b, r, destId);
    assert SpliceStart(j, |b[t].cards|) == j;
    assert r[t].cards[j] == moved;
    InsertThenRemove(b[t].cards, j, moved);
    RemoveThenInsertBack(b[s].cards, i);
    var back := MoveCard(r, destId, j, sourceId, i);
    assert back == r[t := r[t].(cards := b[t].cards)][s := r[s].(cards := b[s].cards)];
    assert back == b;
  }

  /** A drag, whatever its outcome, keeps the cards and the identity invariants. */
  lemma DragEndKeepsWellFormed(b: Board, result: DropResult)
    requires DropInRange(b, result)
    ensures multiset(AllCards(DragEnd(b, result))) == multiset(AllCards(b))
    ensures WellFormed(b) ==> WellFormed(DragEnd(b, result))
  {
    if result.destination.Some? && result.destination.value != result.source {
      var d := result.destination.value;
      MoveConservesCards(b, result.source.droppableId, result.source.index, d.droppableId, d.index);
      if WellFormed(b) {
        MoveKeepsWellFormed(b, result.source.droppableId, result.source.index, d.droppableId, d.index);
      }
    }
  }

  /** Any list `[A, B, C]` with index 0 moved to index 2 is `[B, C, A]`. */
  lemma ReorderExample(listId: string, title: string, a: Card, b: Card, c: Card)
    ensures MoveCard([List(listId, title, [a, b, c])], listId, 0, listId, 2) == [List(listId, title, [b, c, a])]
  {
    var board := [List(listId, title, [a, b, c])];
    assert IndexOf(board, listId) == Some(0);
    assert SpliceRemove([a, b, c], 0) == [b, c];
    assert SpliceInsert([b, c], 2, a) == [b, c, a];
  }

  /** Any list `[B, C, A]` with index 2 moved back to index 0 is `[A, B, C]` again. */
  lemma ReorderBackExample(listId: string, title: string, a: Card, b: Card, c: Card)
    ensures MoveCard([List(listId, title, [b, c, a])], listId, 2, listId, 0) == [List(listId, title, [a, b, c])]
  {
    var board := [List(listId, title, [b, c, a])];
    assert IndexOf(board, listId) == Some(0);
    assert SpliceRemove([b, c, a], 2) == [b, c];
    assert SpliceInsert([b, c], 0, a) == [a, b, c];
  }

  /**
   * Any two lists `L1 = [A, B]` and `L2 = [C]`: moving index 0 of L1 to index 1 of L2
   * gives `L1 = [B]` and `L2 = [C, A]`, with the three cards still on the board.
   */
  lemma TransferExample(id1: string, title1: string, id2: string, title2: string, a: Card, b: Card, c: Card)
    requires id1 != id2
    ensures var r := MoveCard([List(id1, title1, [a, b]), List(id2, title2, [c])], id1, 0, id2, 1);
            && r == [List(id1, title1, [b]), List(id2, title2, [c, a])]
            && multiset(AllCards(r)) == multiset{a, b, c}
  {
    var board := [List(id1, title1, [a, b]), List(id2, title2, [c])];
    assert IndexOf(board, id1) == Some(0);
    assert IndexOf(board[1..], id2) == Some(0);
    assert IndexOf(board, id2) == Some(1);
    assert SpliceRemove([a, b], 0) == [b];
    assert SpliceInsert([c], 1, a) == [c, a];
    var r := MoveCard(board, id1, 0, id2, 1);
    assert r == [List(id1, title1, [b]), List(id2, title2, [c, a])];
    assert AllCards(r[1..]) == [c, a];
    assert AllCards(r) == [b, c, a];
  }
}
