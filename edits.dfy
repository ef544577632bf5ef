/**
 * The pure state transitions of the board: "Add Card", "Save" on a card,
 * "Save" on a list title, "Delete" on a card, "Add List" and "Delete" on a list.
 * Each builds a new board from the previous one, as `map`, `filter` and spread do.
 * Fresh ids and edited text are parameters.
 */
module Edits {
  import opened Kanban

  /** The card "Add Card" creates. */
  function NewCard(newId: string): (r: Card)
    ensures r.id == newId && r.content == NEW_TASK_CONTENT
  {
    Card(newId, NEW_TASK_CONTENT)
  }

  /** The list "Add List" creates. */
  function NewList(newId: string): (r: List)
    ensures r.id == newId && r.title == NEW_LIST_TITLE && r.cards == []
  {
    List(newId, NEW_LIST_TITLE, [])
  }

  /** addCard: every list whose id is `listId` gets one more card at its end, a "New Task" with id `newId`. */
  function AddCard(b: Board, listId: string, newId: string): (r: Board)
    ensures |r| == |b|
    ensures forall k :: 0 <= k < |b| ==> r[k].id == b[k].id && r[k].title == b[k].title
    ensures forall k :: 0 <= k < |b| && b[k].id != listId ==> r[k] == b[k]
    ensures forall k :: 0 <= k < |b| && b[k].id == listId ==>
              |r[k].cards| == |b[k].cards| + 1 &&
              r[k].cards[..|b[k].cards|] == b[k].cards &&
              r[k].cards[|b[k].cards|] == Card(newId, NEW_TASK_CONTENT)
    ensures listId !in ListIds(b) ==> r == b
  {
    assert forall k :: 0 <= k < |b| ==> ListIds(b)[k] == b[k].id;
    seq(|b|, k requires 0 <= k < |b| =>
      if b[k].id == listId then b[k].(cards := b[k].cards + [NewCard(newId)]) else b[k])
  }

  /** The cards of one list after "Save": the card with id `cardId` gets `content`. */
  function EditCards(cs: seq<Card>, cardId: string, content: string): (r: seq<Card>)
    ensures Ids(r) == Ids(cs)
    ensures forall k :: 0 <= k < |cs| && cs[k].id == cardId ==> r[k] == Card(cardId, content)
    ensures forall k :: 0 <= k < |cs| && cs[k].id != cardId ==> r[k] == cs[k]
  {
    seq(|cs|, k requires 0 <= k < |cs| =>
      if cs[k].id == cardId then cs[k].(content := content) else cs[k])
  }

  /** saveEdit: in every list whose id is `listId`, the card with id `cardId` gets `content`. */
  function SaveEdit(b: Board, listId: string, cardId: string, content: string): (r: Board)
    ensures |r| == |b|
    ensures forall k :: 0 <= k < |b| ==> r[k].id == b[k].id && r[k].title == b[k].title
    ensures forall k :: 0 <= k < |b| ==> Ids(r[k].cards) == Ids(b[k].cards)
    ensures forall k :: 0 <= k < |b| ==> |r[k].cards| == |b[k].cards|
    ensures forall k :: 0 <= k < |b| && b[k].id != listId ==> r[k] == b[k]
    ensures forall k, m :: 0 <= k < |b| && b[k].id == listId && 0 <= m < |b[k].cards| ==>
              r[k].cards[m] == if b[k].cards[m].id == cardId then Card(cardId, content) else b[k].cards[m]
    ensures listId !in ListIds(b) ==> r == b
  {
    assert forall k :: 0 <= k < |b| ==> ListIds(b)[k] == b[k].id;
    seq(|b|, k requires 0 <= k < |b| =>
      if b[k].id == listId then b[k].(cards := EditCards(b[k].cards, cardId, content)) else b[k])
  }

  /** saveListEdit: every list whose id is `listId` gets `title`; cards and ids stay. */
  function SaveListEdit(b: Board, listId: string, title: string): (r: Board)
    ensures |r| == |b|
    ensures forall k :: 0 <= k < |b| ==> r[k].id == b[k].id && r[k].cards == b[k].cards
    ensures forall k :: 0 <= k < |b| ==> r[k].title == if b[k].id == listId then title else b[k].title
    ensures listId !in ListIds(b) ==> r == b
  {
    assert forall k :: 0 <= k < |b| ==> ListIds(b)[k] == b[k].id;
    seq(|b|, k requires 0 <= k < |b| =>
      if b[k].id == listId then b[k].(title := title) else b[k])
  }

  /** `cards.filter(card => card.id !== cardId)`. */
  function WithoutCard(cs: seq<Card>, cardId: string): (r: seq<Card>)
    ensures forall c :: c in r <==> c in cs && c.id != cardId
    ensures forall c :: multiset(r)[c] == if c.id == cardId then 0 else multiset(cs)[c]
    ensures multiset(r) <= multiset(cs)
    ensures cardId !in Ids(cs) ==> r == cs
  {
    if cs == [] then []
    else
      assert Ids(cs) == [cs[0].id] + Ids(cs[1..]);
      assert cs == [cs[0]] + cs[1..];
      if cs[0].id == cardId then WithoutCard(cs[1..], cardId)
      else [cs[0]] + WithoutCard(cs[1..], cardId)
  }

  /** deleteCard: every list whose id is `listId` loses its cards with id `cardId`. */
  function DeleteCard(b: Board, listId: string, cardId: string): (r: Board)
    ensures |r| == |b|
    ensures forall k :: 0 <= k < |b| ==> r[k].id == b[k].id && r[k].title == b[k].title
    ensures forall k :: 0 <= k < |b| && b[k].id != listId ==> r[k] == b[k]
    ensures forall k, c :: 0 <= k < |b| && b[k].id == listId ==>
              (c in r[k].cards <==> c in b[k].cards && c.id != cardId)
    ensures forall k :: 0 <= k < |b| && b[k].id == listId ==> r[k].cards == WithoutCard(b[k].cards, cardId)
    ensures forall k :: 0 <= k < |b| ==> multiset(r[k].cards) <= multiset(b[k].cards)
    ensures listId !in ListIds(b) ==> r == b
  {
    assert forall k :: 0 <= k < |b| ==> ListIds(b)[k] == b[k].id;
    seq(|b|, k requires 0 <= k < |b| =>
      if b[k].id == listId then b[k].(cards := WithoutCard(b[k].cards, cardId)) else b[k])
  }

  /** addList: one empty "New List" with id `newId` after the last list. */
  function AddList(b: Board, newId: string): (r: Board)
    ensures |r| == |b| + 1
    ensures r[..|b|] == b
    ensures r[|b|] == List(newId, NEW_LIST_TITLE, [])
  {
    b + [NewList(newId)]
  }

  /** deleteList: `lists.filter(list => list.id !== listId)`, the lists go with their cards. */
  function DeleteList(b: Board, listId: string): (r: Board)
    ensures forall l :: l in r <==> l in b && l.id != listId
    ensures listId !in ListIds(r)
    ensures |r| <= |b|
    ensures listId !in ListIds(b) ==> r == b
  {
    if b == [] then []
    else
      var rest := DeleteList(b[1..], listId);
      assert b == [b[0]] + b[1..];
      ListIdsCons(b[0], b[1..]);
      ListIdsCons(b[0], rest);
      if b[0].id == listId then rest else [b[0]] + rest
  }
}

/** What the pure transitions keep: cards, identities and the identity invariants. */
module EditProperties {
  import opened Kanban
  import opened Edits

  /** With unique list ids, adding a card changes exactly the one list that `find` would pick. */
  lemma AddCardIsUpdate(b: Board, listId: string, newId: string, k: nat)
    requires UniqueListIds(b) && k < |b| && b[k].id == listId
    ensures AddCard(b, listId, newId) == b[k := b[k].(cards := b[k].cards + [NewCard(newId)])]
  {
    var r := AddCard(b, listId, newId);
    assert r[k] == b[k].(cards := b[k].cards + [NewCard(newId)]);
    assert forall i :: 0 <= i < |b| && i != k ==> r[i] == b[i];
  }

  /** With unique list ids, adding a card to an existing list adds exactly that one card to the board. */
  lemma AddCardAddsOneCard(b: Board, listId: string, newId: string)
    requires UniqueListIds(b) && listId in ListIds(b)
    ensures multiset(AllCards(AddCard(b, listId, newId))) == multiset(AllCards(b)) + multiset{NewCard(newId)}
  {
    var k := IndexOf(b, listId).value;
    AddCardIsUpdate(b, listId, newId, k);
    var r := AddCard(b, listId, newId);
    AllCardsUpdate(b, k, b[k].(cards := b[k].cards + [NewCard(newId)]));
    assert multiset(b[k].cards + [NewCard(newId)]) == multiset(b[k].cards) + multiset{NewCard(newId)};
    BagCancel(multiset(AllCards(r)), multiset(AllCards(b)) + multiset{NewCard(newId)}, multiset(b[k].cards));
  }

  /** With unique list ids, adding a card to an existing list adds exactly its id to the board's card ids. */
  lemma AddCardAddsOneId(b: Board, listId: string, newId: string)
    requires UniqueListIds(b) && listId in ListIds(b)
    ensures multiset(CardIds(AddCard(b, listId, newId))) == multiset(CardIds(b)) + multiset{newId}
  {
    var r := AddCard(b, listId, newId);
    var before := AllCards(b);
    var after := AllCards(r);
    AddCardAddsOneCard(b, listId, newId);
    assert multiset(after) == multiset(before + [NewCard(newId)]);
    IdsPermutation(after, before + [NewCard(newId)]);
    IdsConcat(before, [NewCard(newId)]);
    assert Ids([NewCard(newId)]) == [newId];
    assert multiset(Ids(after)) == multiset(Ids(before) + [newId]);
  }

  /** Adding a card with an id not yet on the board keeps the identity invariants. */
  lemma AddCardKeepsWellFormed(b: Board, listId: string, newId: string)
    requires WellFormed(b) && newId !in CardIds(b)
    ensures WellFormed(AddCard(b, listId, newId))
  {
    var r := AddCard(b, listId, newId);
    assert UniqueListIds(r);
    if listId in ListIds(b) {
      AddCardAddsOneId(b, listId, newId);
      forall id
        ensures multiset(CardIds(r))[id] <= 1
      {
        assert multiset(CardIds(r))[id] == multiset(CardIds(b))[id] + multiset{newId}[id];
      }
    }
  }

  /** Saving a card's content keeps every card id where it was, so the invariants hold on. */
  lemma SaveEditKeepsWellFormed(b: Board, listId: string, cardId: string, content: string)
    requires WellFormed(b)
    ensures CardIds(SaveEdit(b, listId, cardId, content)) == CardIds(b)
    ensures WellFormed(SaveEdit(b, listId, cardId, content))
  {
    CardIdsSameIds(b, SaveEdit(b, listId, cardId, content));
  }

  /** Saving a list title leaves every card of the board in place, so the invariants hold on. */
  lemma SaveListEditKeepsCards(b: Board, listId: string, title: string)
    ensures AllCards(SaveListEdit(b, listId, title)) == AllCards(b)
    ensures WellFormed(b) ==> WellFormed(SaveListEdit(b, listId, title))
  {
    AllCardsSameCards(b, SaveListEdit(b, listId, title));
    assert CardIds(SaveListEdit(b, listId, title)) == CardIds(b);
  }

  /** Filtering a card id out twice is filtering it out once. */
  lemma WithoutCardIdempotent(cs: seq<Card>, cardId: string)
    ensures WithoutCard(WithoutCard(cs, cardId), cardId) == WithoutCard(cs, cardId)
  {
  }

  /** Concatenation is associative; stated apart so that proofs use it without unfolding anything else. */
  lemma ConcatAssoc<T>(x: seq<T>, y: seq<T>, z: seq<T>)
    ensures x + (y + z) == (x + y) + z
  {
  }

  /**
   * Filtering a card id out of two sequences side by side filters each in turn, and one card
   * is kept exactly when its id differs: the kept cards stay in their order.
   */
  lemma {:induction false} WithoutCardConcat(a: seq<Card>, c: seq<Card>, cardId: string)
    ensures WithoutCard(a + c, cardId) == WithoutCard(a, cardId) + WithoutCard(c, cardId)
    ensures forall x :: WithoutCard([x], cardId) == if x.id == cardId then [] else [x]
    decreases |a|
  {
    if a == [] {
      assert a + c == c;
      assert WithoutCard(a, cardId) == [];
    } else {
      assert (a + c)[0] == a[0];
      assert (a + c)[1..] == a[1..] + c;
      WithoutCardConcat(a[1..], c, cardId);
      if a[0].id != cardId {
        ConcatAssoc([a[0]], WithoutCard(a[1..], cardId), WithoutCard(c, cardId));
      }
    }
  }

  /** Deleting the same card twice is deleting it once. */
  lemma DeleteCardIdempotent(b: Board, listId: string, cardId: string)
    ensures DeleteCard(DeleteCard(b, listId, cardId), listId, cardId) == DeleteCard(b, listId, cardId)
  {
    var r := DeleteCard(b, listId, cardId);
    forall k | 0 <= k < |b| && b[k].id == listId {
      WithoutCardIdempotent(b[k].cards, cardId);
    }
    assert DeleteCard(r, listId, cardId) == r;
  }

  /** Deleting a card only ever takes cards away, so the invariants hold on. */
  lemma DeleteCardKeepsWellFormed(b: Board, listId: string, cardId: string)
    requires WellFormed(b)
    ensures multiset(AllCards(DeleteCard(b, listId, cardId))) <= multiset(AllCards(b))
    ensures WellFormed(DeleteCard(b, listId, cardId))
  {
    AllCardsSubBag(b, DeleteCard(b, listId, cardId));
    UniqueCardIdsSubBag(b, DeleteCard(b, listId, cardId));
  }

  /** Adding a list adds no card. */
  lemma AddListKeepsCards(b: Board, newId: string)
    ensures AllCards(AddList(b, newId)) == AllCards(b)
  {
    AllCardsConcat(b, [NewList(newId)]);
    assert AllCards([NewList(newId)]) == [];
  }

  /** Adding a list with an id not yet on the board keeps the identity invariants. */
  lemma AddListKeepsWellFormed(b: Board, newId: string)
    requires WellFormed(b) && newId !in ListIds(b)
    ensures WellFormed(AddList(b, newId))
  {
    AddListKeepsCards(b, newId);
    var r := AddList(b, newId);
    assert CardIds(r) == CardIds(b);
    forall i, j | 0 <= i < j < |r|
      ensures r[i].id != r[j].id
    {
      if j == |b| {
        assert ListIds(b)[i] == b[i].id;
      }
    }
  }

  /** Deleting a list twice is deleting it once. */
  lemma DeleteListIdempotent(b: Board, listId: string)
    ensures DeleteList(DeleteList(b, listId), listId) == DeleteList(b, listId)
  {
  }

  /**
   * Deleting a list from two boards side by side deletes it from each in turn, and one list
   * is kept exactly when its id differs: the surviving lists stay in their order.
   */
  lemma {:induction false} DeleteListConcat(a: Board, c: Board, listId: string)
    ensures DeleteList(a + c, listId) == DeleteList(a, listId) + DeleteList(c, listId)
    ensures forall l :: DeleteList([l], listId) == if l.id == listId then [] else [l]
    decreases |a|
  {
    if a == [] {
      assert a + c == c;
      assert DeleteList(a, listId) == [];
    } else {
      assert (a + c)[0] == a[0];
      assert (a + c)[1..] == a[1..] + c;
      DeleteListConcat(a[1..], c, listId);
      if a[0].id != listId {
        ConcatAssoc([a[0]], DeleteList(a[1..], listId), DeleteList(c, listId));
      }
    }
  }

  /** Deleting a list drops every list with the id and keeps every other list as often as it was there. */
  lemma {:induction false} DeleteListCounts(b: Board, listId: string)
    ensures forall l :: multiset(DeleteList(b, listId))[l] == if l.id == listId then 0 else multiset(b)[l]
    decreases |b|
  {
    if b != [] {
      DeleteListCounts(b[1..], listId);
      var rest := DeleteList(b[1..], listId);
      assert b == [b[0]] + b[1..];
      assert multiset(b) == multiset{b[0]} + multiset(b[1..]);
      if b[0].id != listId {
        assert multiset([b[0]] + rest) == multiset{b[0]} + multiset(rest);
      }
    }
  }

  /** Deleting lists only ever takes cards away. */
  lemma {:induction false} DeleteListSubBag(b: Board, listId: string)
    ensures multiset(AllCards(DeleteList(b, listId))) <= multiset(AllCards(b))
    decreases |b|
  {
    if b != [] {
      DeleteListSubBag(b[1..], listId);
      if b[0].id != listId {
        assert DeleteList(b, listId) == [b[0]] + DeleteList(b[1..], listId);
        assert ([b[0]] + DeleteList(b[1..], listId))[1..] == DeleteList(b[1..], listId);
      }
    }
  }

  /** With unique list ids, no later list shares the first list's id. */
  lemma HeadIdNotInTail(b: Board)
    requires UniqueListIds(b) && b != []
    ensures forall l :: l in b[1..] ==> l.id != b[0].id
  {
    forall l | l in b[1..]
      ensures l.id != b[0].id
    {
      var m :| 0 <= m < |b[1..]| && b[1..][m] == l;
      assert b[m + 1] == l;
    }
  }

  /** Putting a list in front of lists whose ids differ from its own keeps the list ids unique. */
  lemma ConsUniqueListIds(h: List, rest: Board)
    requires UniqueListIds(rest) && forall l :: l in rest ==> l.id != h.id
    ensures UniqueListIds([h] + rest)
  {
    var r := [h] + rest;
    forall i, j | 0 <= i < j < |r|
      ensures r[i].id != r[j].id
    {
      assert r[j] == rest[j - 1];
      if i > 0 {
        assert r[i] == rest[i - 1];
      }
    }
  }

  /** The lists that survive a delete keep distinct ids. */
  lemma {:induction false} DeleteListKeepsUniqueListIds(b: Board, listId: string)
    requires UniqueListIds(b)
    ensures UniqueListIds(DeleteList(b, listId))
    decreases |b|
  {
    if b != [] {
      assert UniqueListIds(b[1..]) by {
        forall i, j | 0 <= i < j < |b[1..]|
          ensures b[1..][i].id != b[1..][j].id
        {
          assert b[1..][i] == b[i + 1] && b[1..][j] == b[j + 1];
        }
      }
      DeleteListKeepsUniqueListIds(b[1..], listId);
      var rest := DeleteList(b[1..], listId);
      if b[0].id != listId {
        HeadIdNotInTail(b);
        ConsUniqueListIds(b[0], rest);
      }
    }
  }

  /** Deleting a list keeps the identity invariants. */
  lemma DeleteListKeepsWellFormed(b: Board, listId: string)
    requires WellFormed(b)
    ensures WellFormed(DeleteList(b, listId))
  {
    DeleteListKeepsUniqueListIds(b, listId);
    DeleteListSubBag(b, listId);
    UniqueCardIdsSubBag(b, DeleteList(b, listId));
  }

  /** The card ids of a board are those of its first list, then those of the rest. */
  lemma CardIdsCons(b: Board)
    requires b != []
    ensures CardIds(b) == Ids(b[0].cards) + CardIds(b[1..])
  {
    IdsConcat(b[0].cards, AllCards(b[1..]));
  }

  /** With unique card ids, an id of the first list is nowhere in the other lists, which keep unique ids. */
  lemma UniqueCardIdsSplit(b: Board, id: string)
    requires UniqueCardIds(b) && b != []
    ensures UniqueCardIds(b[1..])
    ensures id in Ids(b[0].cards) ==> id !in CardIds(b[1..])
  {
    CardIdsCons(b);
    assert multiset(CardIds(b))[id] == multiset(Ids(b[0].cards))[id] + multiset(CardIds(b[1..]))[id];
    assert multiset(AllCards(b[1..])) <= multiset(AllCards(b));
    UniqueCardIdsSubBag(b, b[1..]);
  }

  /** Deleting lists only ever takes card ids away. */
  lemma DeleteListIdsSubBag(b: Board, listId: string)
    ensures multiset(CardIds(DeleteList(b, listId))) <= multiset(CardIds(b))
  {
    DeleteListSubBag(b, listId);
    IdsSubBag(AllCards(DeleteList(b, listId)), AllCards(b));
  }

  /**
   * Deleting a list takes its cards off the board for good: with unique card ids,
   * no card id of a deleted list is found on the board afterwards.
   */
  lemma {:induction false} DeleteListCascade(b: Board, listId: string, k: nat, c: Card)
    requires UniqueCardIds(b)
    requires k < |b| && b[k].id == listId && c in b[k].cards
    ensures c.id !in CardIds(DeleteList(b, listId))
    decreases |b|
  {
    var rest := DeleteList(b[1..], listId);
    UniqueCardIdsSplit(b, c.id);
    if k == 0 {
      IdOfMember(b[0].cards, c);
      DeleteListIdsSubBag(b[1..], listId);
      assert multiset(CardIds(rest))[c.id] == 0;
    } else {
      DeleteListCascade(b[1..], listId, k - 1, c);
      if b[0].id != listId {
        var r := [b[0]] + rest;
        assert DeleteList(b, listId) == r;
        assert r[1..] == rest;
        CardIdsCons(r);
        CardOnBoard(b[1..], k - 1, c);
        IdOfMember(AllCards(b[1..]), c);
      }
    }
  }
}
