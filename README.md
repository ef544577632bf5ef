# Kanban board state engine

A Dafny model of the board state of the Trello-style component in `app/test.tsx`.
The board is an ordered sequence of lists (columns); each list has an id, a title and
an ordered sequence of cards; each card has an id and a text content. The component
changes the board through seven callbacks: a card is moved by drag and drop
(`onDragEnd`); cards and lists are added and deleted, and list titles edited, through buttons.
The seventh, `saveEdit`, replaces a card's content; the rendered component never calls
it, and the model covers it as written.

The model is split by concern:

- `Splice` (`splice.dfy`): the two `Array.prototype.splice` calls that move a card, with
  JavaScript's rule that a start index past the end means the end.
- `Kanban` (`kanban.dfy`): `Card`, `List`, `Board`, the initial state, `find` by list id as
  `IndexOf`, the cards of a board in order (`AllCards`), and the identity invariants
  (`UniqueListIds`, `UniqueCardIds`, together `WellFormed`).
- `Edits` and `EditProperties` (`edits.dfy`): the six pure callbacks as functions from the
  previous board to the next, and what they keep.
- `Moves` and `MoveProperties` (`moves.dfy`): the drop result, the move itself (`MoveCard`), the
  whole of `onDragEnd` with its guards (`DragEnd`), and what moves keep and how they compose.
- `Component` (`component.dfy`): the imperative side. `FindList` is the left-to-right scan of
  `find`. `ApplyDrag` is the state updater inside `onDragEnd`: it finds both lists, splices
  the card out, then splices it into the destination list as that list is after the removal.
  The class `TrelloClone` holds the `lists` state and has one method per callback.

Fresh ids (the source builds them from the clock) and edited text (the source keeps it in
separate UI state) are parameters. Lemmas that need unique ids take freshness as a precondition.

The drop result the drag-and-drop library passes to `onDragEnd` (app/test.tsx:111-112) is
the pair of datatypes `Moves.DraggableLocation` and `Moves.DropResult`.

As in the source, the `map`-based callbacks change every list whose id matches, while `find`
in `onDragEnd` takes the first match. The lemmas that need exactly one match assume
`UniqueListIds`.

## Model

| member | source | states |
|---|---|---|
| `Splice.SpliceStart` | app/test.tsx:139 | the insertion point is the given index, or the end of the list when the index is past it |
| `Splice.SpliceRemove` | app/test.tsx:138 | removing one element at an index in range shortens the sequence by exactly one |
| `Splice.SpliceRemoveElements` | app/test.tsx:138 | removing at an index keeps the elements before it, shifts the ones after it down by one, and the removed element plus the result is the original bag |
| `Splice.SpliceInsert` | app/test.tsx:139 | inserting lengthens the sequence by exactly one and puts the element at the insertion point |
| `Splice.SpliceInsertElements` | app/test.tsx:139 | inserting keeps the elements before the insertion point, shifts the rest up by one, and adds exactly that element to the bag |
| `Splice.RemoveThenInsertBack` | app/test.tsx:138-139 | putting a removed element back at its index restores the sequence |
| `Splice.InsertThenRemove` | app/test.tsx:138-139 | removing an element where it was inserted restores the sequence |
| `Splice.ReorderRoundTrip` | app/test.tsx:138-139 | a remove-then-insert from i to j within one sequence is undone by the one from j to i |
| `Kanban.InitialBoard` | app/test.tsx:85-104 | the board starts as "To Do" (`card-1`, `card-2`), "In Progress" (`card-3`) and an empty "Done", with ids `list-1` to `list-3` in that order |
| `Kanban.IndexOf` | app/test.tsx:127-132 | the result is the first list with the id, or none exactly when no list has it |
| `Kanban.InitialBoardWellFormed` | app/test.tsx:85-104 | the initial three lists have distinct list ids and distinct card ids |
| `Kanban.AllCardsUpdate` | app/test.tsx:138-139 | replacing one list takes the old list's cards off the board and puts the new list's cards on it |
| `Edits.NewCard` | app/test.tsx:146-149 | the card "Add Card" makes has the fresh id and the content "New Task" |
| `Edits.NewList` | app/test.tsx:210-214 | the list "Add List" makes has the fresh id, the title "New List" and no cards |
| `Edits.AddCard` | app/test.tsx:145-156 | each list with the id gets exactly one more card, a "New Task" with the new id at its end; every other list, and all ids and titles, stay; an unknown list id leaves the board unchanged |
| `Edits.EditCards` | app/test.tsx:170-172 | the card with the id gets the new content; card ids and every other card stay |
| `Edits.SaveEdit` | app/test.tsx:163-180 | only the matching card of the matching list changes, and only its content; card ids, card order, list ids and titles stay; an unknown list id leaves the board unchanged |
| `Edits.SaveListEdit` | app/test.tsx:187-197 | only the title of the matching list changes; ids and cards stay; an unknown list id leaves the board unchanged |
| `Edits.WithoutCard` | app/test.tsx:203 | every card with another id is kept exactly as often as it occurs, every card with the id is dropped, and the input comes back unchanged when no card has the id |
| `Edits.DeleteCard` | app/test.tsx:199-207 | each list with the id gets exactly `WithoutCard` of its cards, so no card with the id is left in it; every other list, and all ids and titles, stay; an unknown list id leaves the board unchanged |
| `Edits.AddList` | app/test.tsx:209-217 | the board gains one empty "New List" with the new id after its last list; the lists before it stay |
| `Edits.DeleteList` | app/test.tsx:219-221 | a list is in the result exactly when it was on the board with another id, no list with the id is left, and an unknown id leaves the board unchanged |
| `EditProperties.AddCardIsUpdate` | app/test.tsx:151-155 | with unique list ids, adding a card replaces exactly the one list with the id |
| `EditProperties.AddCardAddsOneCard` | app/test.tsx:145-156 | with unique list ids and a known list id, the board gains exactly the one new card |
| `EditProperties.AddCardAddsOneId` | app/test.tsx:145-156 | with unique list ids and a known list id, the board's card ids gain exactly the new id |
| `EditProperties.AddCardKeepsWellFormed` | app/test.tsx:145-156 | adding a card whose id is not yet on the board keeps list and card ids unique |
| `EditProperties.SaveEditKeepsWellFormed` | app/test.tsx:163-180 | saving a card's content keeps every card id in place, so the invariants hold on |
| `EditProperties.SaveListEditKeepsCards` | app/test.tsx:187-197 | saving a title leaves the board's cards exactly as they were, so the invariants hold on |
| `EditProperties.WithoutCardIdempotent` | app/test.tsx:203 | filtering a card id out twice equals filtering it out once |
| `EditProperties.WithoutCardConcat` | app/test.tsx:203 | the filter works card by card and keeps the cards in their order: filtering two sequences side by side is filtering each, and one card is kept exactly when its id differs |
| `EditProperties.DeleteCardIdempotent` | app/test.tsx:199-207 | deleting the same card twice equals deleting it once |
| `EditProperties.DeleteCardKeepsWellFormed` | app/test.tsx:199-207 | deleting a card only takes cards away, so the invariants hold on |
| `EditProperties.AddListKeepsCards` | app/test.tsx:209-217 | adding a list adds no card |
| `EditProperties.AddListKeepsWellFormed` | app/test.tsx:209-217 | adding a list whose id is not yet on the board keeps list and card ids unique |
| `EditProperties.DeleteListIdempotent` | app/test.tsx:219-221 | deleting the same list twice equals deleting it once |
| `EditProperties.DeleteListConcat` | app/test.tsx:220 | the filter works list by list and keeps the surviving lists in their column order: deleting from two boards side by side is deleting from each, and one list is kept exactly when its id differs |
| `EditProperties.DeleteListCounts` | app/test.tsx:220 | every list with another id is kept exactly as often as it occurs, and every list with the id is dropped |
| `EditProperties.DeleteListSubBag` | app/test.tsx:219-221 | deleting lists only takes cards away |
| `EditProperties.DeleteListKeepsUniqueListIds` | app/test.tsx:219-221 | the lists that remain keep distinct ids |
| `EditProperties.DeleteListKeepsWellFormed` | app/test.tsx:219-221 | deleting a list keeps list and card ids unique |
| `EditProperties.DeleteListCascade` | app/test.tsx:219-221 | with unique card ids, no card id of a deleted list is found anywhere on the board afterwards |
| `Moves.MoveCard` | app/test.tsx:125-142 | a move keeps the number of lists, their ids, titles and order; an unknown source or destination list leaves the board unchanged, never half-moved |
| `Moves.DragEnd` | app/test.tsx:111-143 | no destination leaves the board unchanged; a drop on the start list at the start index leaves it unchanged; any other drop is the move |
| `MoveProperties.MoveWithinList` | app/test.tsx:138-139 | within one list the move is remove-then-insert on that list, with the card landing at the destination index read after the removal; every other list stays |
| `MoveProperties.MoveAcrossLists` | app/test.tsx:126-139 | across lists the source loses exactly the card at the source index, the destination gets it at the destination index (or its end), every other list stays |
| `MoveProperties.MoveConservesCards` | app/test.tsx:138-139 | the board holds the same bag of cards after a move |
| `MoveProperties.MoveKeepsWellFormed` | app/test.tsx:126-139 | a move keeps list ids and card ids unique |
| `MoveProperties.IndexOfSameIds` | app/test.tsx:127-132 | boards with the same list ids in the same places find the same list for every id |
| `MoveProperties.MoveInPlaceIsIdentity` | app/test.tsx:118-139 | a drop on the start position would leave the board unchanged even without the guard |
| `MoveProperties.MoveWithinListRoundTrip` | app/test.tsx:138-139 | moving a card from i to j and back from j to i in one list restores the board |
| `MoveProperties.MoveAcrossListsRoundTrip` | app/test.tsx:126-139 | moving a card from i of one list to j of another and back restores the board |
| `MoveProperties.DragEndKeepsWellFormed` | app/test.tsx:111-143 | every drag keeps the bag of cards and the identity invariants |
| `MoveProperties.ReorderExample` | app/test.tsx:138-139 | `[A, B, C]` with index 0 moved to 2 is `[B, C, A]` |
| `MoveProperties.ReorderBackExample` | app/test.tsx:138-139 | `[B, C, A]` with index 2 moved to 0 is `[A, B, C]` |
| `MoveProperties.TransferExample` | app/test.tsx:126-139 | `L1 = [A, B]`, `L2 = [C]` with index 0 of L1 moved to index 1 of L2 gives `L1 = [B]`, `L2 = [C, A]`, three cards in all |
| `Component.FindList` | app/test.tsx:127-132 | the scan returns the first position holding the id, or none exactly when no list has it |
| `Component.ApplyDrag` | app/test.tsx:125-142 | the step-by-step update (find, splice out, splice in after the removal, or the previous state when a list is missing) yields exactly the move |
| `Component.TrelloClone.constructor` | app/test.tsx:85-104 | the state starts as the three initial lists |
| `Component.TrelloClone.OnDragEnd` | app/test.tsx:111-143 | the new state is the drag's outcome on the old state; no destination leaves the state unchanged |
| `Component.TrelloClone.AddCard` | app/test.tsx:145-156 | the new state is the old one with the card added |
| `Component.TrelloClone.SaveEdit` | app/test.tsx:163-180 | the new state is the old one with the card's content replaced |
| `Component.TrelloClone.SaveListEdit` | app/test.tsx:187-197 | the new state is the old one with the list's title replaced |
| `Component.TrelloClone.DeleteCard` | app/test.tsx:199-207 | the new state is the old one with the card filtered out |
| `Component.TrelloClone.AddList` | app/test.tsx:209-217 | the new state is the old one with the new list appended |
| `Component.TrelloClone.DeleteList` | app/test.tsx:219-221 | the new state is the old one with the list filtered out |

## Left out

- `app/root.tsx`: the page shell, the contact loader and action, routing and the sidebar. They are I/O against a record store that is not part of this model.
- The JSX rendering, the `TrelloCard` component and the UI components it uses.
- The UI-only edit state (`editingCard`, `editContent`, `editingList`, `editListTitle`, `startEditing`, `startEditingList`): the edited text is a parameter of `SaveEdit` and `SaveListEdit`.
- Id generation from `Date.now()`: the new id is a parameter, and freshness is a precondition of the lemmas that prove uniqueness. Two ids made in the same millisecond would collide; the model does not capture the clock.
- `Moves.MoveCard`: requires a source index that names a card when both lists exist. With an out-of-range source index, `splice` removes nothing and the source inserts `undefined` into the destination list; the model has no `undefined` card.
- Negative indices: the drag-and-drop library never reports them, so indices are `nat` and `splice`'s counting from the end is not modelled.
- The `draggableId` field of the drop result: the source reads it but never uses it.
- The drag-and-drop library's `DropResult` and render props: abstracted to `DropResult(source, destination)`.
- Sharing of list objects between the previous and next state: the updater copies the outer array only, so `splice` also changes the lists of the previous state in place. The model treats every state as a value, so it does not capture this aliasing or what React does if it runs the updater twice.
- `Edits.SaveEdit`: the callback cannot be reached from the rendered component. The card's edit button only calls `startEditing`, and `editingCard` is never read, so no card editor is shown and nothing calls `saveEdit` (app/test.tsx:59, 106, 163-180, 280). The model covers the callback as written, not whether it is reachable.
- React's batching and scheduling of state updates: each callback is one atomic step.
- A reordering of lists by drag and drop: the code has none, because only cards are draggable.
