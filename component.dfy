/**
 * The `TrelloClone` component's state handling: the `lists` state and one method
 * per callback. `onDragEnd` works by steps (find the two lists, splice the card
 * out, splice it in); the other callbacks replace the state with a value built
 * by a pure transition.
 */
module Component {
  import opened Wrappers
  import opened Splice
  import opened Kanban
  import Edits
  import opened Moves

  /** `lists.find(list => list.id === id)`, as a position: a left-to-right scan for the first match. */
  method FindList(lists: Board, id: string) returns (found: Option<nat>)
    ensures found.Some? ==> found.value < |lists| && lists[found.value].id == id
    ensures found.Some? ==> forall k :: 0 <= k < found.value ==> lists[k].id != id
    ensures found.None? <==> id !in ListIds(lists)
    ensures found == IndexOf(lists, id)
  {
    var k := 0;
    while k < |lists|
      invariant 0 <= k <= |lists|
      invariant forall m :: 0 <= m < k ==> lists[m].id != id
    {
      if lists[k].id == id {
        assert ListIds(lists)[k] == id;
        return Some(k);
      }
      k := k + 1;
    }
    assert forall m :: 0 <= m < |lists| ==> ListIds(lists)[m] == lists[m].id;
    return None;
  }

  /**
   * The state update of onDragEnd once the guards have passed: find the source and
   * destination lists, and give up with the previous state if either is missing;
   * otherwise splice the card out of the source list, then splice it into the
   * destination list as it is after the removal.
   */
  method ApplyDrag(prevLists: Board, source: DraggableLocation, destination: DraggableLocation)
    returns (newLists: Board)
    requires SourceInRange(prevLists, source.droppableId, source.index, destination.droppableId)
    ensures newLists == MoveCard(prevLists, source.droppableId, source.index, destination.droppableId, destination.index)
  {
    newLists := prevLists;
    var sourceList := FindList(newLists, source.droppableId);
    var destList := FindList(newLists, destination.droppableId);
    if sourceList.None? || destList.None? {
      return prevLists;
    }
    var s, t := sourceList.value, destList.value;
    var movedCard := newLists[s].cards[source.index];
    newLists := newLists[s := newLists[s].(cards := SpliceRemove(newLists[s].cards, source.index))];
    newLists := newLists[t := newLists[t].(cards := SpliceInsert(newLists[t].cards, destination.index, movedCard))];
  }

  /** The component: its `lists` state and the callbacks that replace it. */
  class TrelloClone {
    var lists: Board

    /** The component starts with the three lists "To Do", "In Progress" and "Done". */
    constructor ()
      ensures lists == InitialBoard()
    {
      lists := InitialBoard();
    }

    /** onDragEnd: no destination or the start position changes nothing; otherwise the card moves. */
    method OnDragEnd(result: DropResult)
      requires DropInRange(lists, result)
      modifies this
      ensures lists == DragEnd(old(lists), result)
      ensures result.destination.None? ==> lists == old(lists)
    {
      if result.destination.None? {
        return;
      }
      var destination := result.destination.value;
      if destination.droppableId == result.source.droppableId && destination.index == result.source.index {
        return;
      }
      lists := ApplyDrag(lists, result.source, destination);
    }

    /** addCard, with the fresh id as a parameter. */
    method AddCard(listId: string, newId: string)
      modifies this
      ensures lists == Edits.AddCard(old(lists), listId, newId)
    {
      lists := Edits.AddCard(lists, listId, newId);
    }

    /** saveEdit, with the edited content as a parameter. */
    method SaveEdit(listId: string, cardId: string, editContent: string)
      modifies this
      ensures lists == Edits.SaveEdit(old(lists), listId, cardId, editContent)
    {
      lists := Edits.SaveEdit(lists, listId, cardId, editContent);
    }

    /** saveListEdit, with the edited title as a parameter. */
    method SaveListEdit(listId: string, editListTitle: string)
      modifies this
      ensures lists == Edits.SaveListEdit(old(lists), listId, editListTitle)
    {
      lists := Edits.SaveListEdit(lists, listId, editListTitle);
    }

    /** deleteCard. */
    method DeleteCard(listId: string, cardId: string)
      modifies this
      ensures lists == Edits.DeleteCard(old(lists), listId, cardId)
    {
      lists := Edits.DeleteCard(lists, listId, cardId);
    }

    /** addList, with the fresh id as a parameter. */
    method AddList(newId: string)
      modifies this
      ensures lists == Edits.AddList(old(lists), newId)
    {
      lists := Edits.AddList(lists, newId);
    }

    /** deleteList. */
    method DeleteList(listId: string)
      modifies this
      ensures lists == Edits.DeleteList(old(lists), listId)
    {
      lists := Edits.DeleteList(lists, listId);
    }
  }
}
