/**
 * The board state of the Trello-style component: an ordered sequence of lists
 * (columns), each holding an ordered sequence of cards. Queries over a board,
 * the identity invariants, and general facts about the cards a board holds.
 */
module Kanban {
  import opened Wrappers

  /** `CardType`: an identified piece of text. */
  datatype Card = Card(id: string, content: string)

  /** `ListType`: an identified, titled column of cards. */
  datatype List = List(id: string, title: string, cards: seq<Card>)

  /** The component's `lists` state: left-to-right column order. */
  type Board = seq<List>

  /** The content of a card made by "Add Card". */
  const NEW_TASK_CONTENT: string := "New Task"

  /** The title of a list made by "Add List". */
  const NEW_LIST_TITLE: string := "New List"

  /** The state the component starts with: "To Do" with two cards, "In Progress" with one, an empty "Done". */
  function InitialBoard(): (r: Board)
    ensures |r| == 3 && ListIds(r) == ["list-1", "list-2", "list-3"]
    ensures r[0].title == "To Do" && r[1].title == "In Progress" && r[2].title == "Done"
    ensures Ids(r[0].cards) == ["card-1", "card-2"] && Ids(r[1].cards) == ["card-3"] && r[2].cards == []
  {
    [ List("list-1", "To Do", [Card("card-1", "Task 1"), Card("card-2", "Task 2")]),
      List("list-2", "In Progress", [Card("card-3", "Task 3")]),
      List("list-3", "Done", []) ]
  }

  /** The ids of the lists, in board order. */
  function ListIds(b: Board): seq<string> {
    seq(|b|, k requires 0 <= k < |b| => b[k].id)
  }

  /** Putting a list in front puts its id in front of the list ids. */
  lemma ListIdsCons(l: List, b: Board)
    ensures ListIds([l] + b) == [l.id] + ListIds(b)
    ensures forall m :: m in [l] + b <==> m == l || m in b
  {
  }

  /** The ids of a sequence of cards, in order. */
  function Ids(cs: seq<Card>): seq<string> {
    seq(|cs|, k requires 0 <= k < |cs| => cs[k].id)
  }

  /** Every card on the board, list by list, each list in display order. */
  function AllCards(b: Board): seq<Card> {
    if b == [] then [] else b[0].cards + AllCards(b[1..])
  }

  /** The ids of every card on the board. */
  function CardIds(b: Board): seq<string> {
    Ids(AllCards(b))
  }

  /** `Array.prototype.find` on the lists by id, as a position: the first list whose id is `id`. */
  function IndexOf(b: Board, id: string): (r: Option<nat>)
    ensures r.Some? ==> r.value < |b| && b[r.value].id == id
    ensures r.Some? ==> forall k :: 0 <= k < r.value ==> b[k].id != id
    ensures r.None? <==> id !in ListIds(b)
  {
    if b == [] then None
    else if b[0].id == id then
      assert ListIds(b)[0] == id;
      Some(0)
    else
      assert ListIds(b) == [b[0].id] + ListIds(b[1..]);
      match IndexOf(b[1..], id)
      case None => None
      case Some(k) => Some(k + 1)
  }

  /** No two lists share an id. */
  ghost predicate UniqueListIds(b: Board) {
    forall i, j :: 0 <= i < j < |b| ==> b[i].id != b[j].id
  }

  /** No card id occurs twice anywhere on the board, within one list or across lists. */
  ghost predicate UniqueCardIds(b: Board) {
    forall id :: multiset(CardIds(b))[id] <= 1
  }

  /** The identity invariants of a board. */
  ghost predicate WellFormed(b: Board) {
    UniqueListIds(b) && UniqueCardIds(b)
  }

  /** The state the component starts with satisfies the identity invariants. */
  lemma InitialBoardWellFormed()
    ensures WellFormed(InitialBoard())
  {
    var b := InitialBoard();
    assert AllCards(b[2..]) == [];
    assert AllCards(b) == [Card("card-1", "Task 1"), Card("card-2", "Task 2"), Card("card-3", "Task 3")];
    assert CardIds(b) == ["card-1", "card-2", "card-3"];
    assert multiset(CardIds(b)) == multiset{"card-1", "card-2", "card-3"};
  }

  /** Adding the same bag to both sides can be cancelled. */
  lemma BagCancel<T>(x: multiset<T>, y: multiset<T>, c: multiset<T>)
    requires x + c == y + c
    ensures x == y
  {
    forall e
      ensures x[e] == y[e]
    {
      assert (x + c)[e] == x[e] + c[e];
      assert (y + c)[e] == y[e] + c[e];
    }
  }

  /** The ids of a concatenation are the concatenation of the ids. */
  lemma IdsConcat(a: seq<Card>, c: seq<Card>)
    ensures Ids(a + c) == Ids(a) + Ids(c)
  {
  }

  /** The cards of two boards side by side are the cards of each, in order. */
  lemma {:induction false} AllCardsConcat(a: Board, c: Board)
    ensures AllCards(a + c) == AllCards(a) + AllCards(c)
    decreases |a|
  {
    if a == [] {
      assert a + c == c;
    } else {
      assert (a + c)[0] == a[0];
      assert (a + c)[1..] == a[1..] + c;
      AllCardsConcat(a[1..], c);
      calc {
        AllCards(a + c);
        (a + c)[0].cards + AllCards((a + c)[1..]);
        a[0].cards + AllCards(a[1..] + c);
        a[0].cards + (AllCards(a[1..]) + AllCards(c));
        (a[0].cards + AllCards(a[1..])) + AllCards(c);
      }
    }
  }

  /** A card of any list is among the board's cards. */
  lemma {:induction false} CardOnBoard(b: Board, k: nat, c: Card)
    requires k < |b| && c in b[k].cards
    ensures c in AllCards(b)
    decreases |b|
  {
    if k > 0 {
      CardOnBoard(b[1..], k - 1, c);
    }
  }

  /** Boards whose lists hold the same cards, position by position, hold the same cards overall. */
  lemma {:induction false} AllCardsSameCards(b: Board, b': Board)
    requires |b| == |b'|
    requires forall k :: 0 <= k < |b| ==> b[k].cards == b'[k].cards
    ensures AllCards(b) == AllCards(b')
    decreases |b|
  {
    if b != [] {
      AllCardsSameCards(b[1..], b'[1..]);
    }
  }

  /** Boards whose lists hold cards with the same ids, position by position, have the same card ids. */
  lemma {:induction false} CardIdsSameIds(b: Board, b': Board)
    requires |b| == |b'|
    requires forall k :: 0 <= k < |b| ==> Ids(b[k].cards) == Ids(b'[k].cards)
    ensures CardIds(b) == CardIds(b')
    decreases |b|
  {
    if b != [] {
      CardIdsSameIds(b[1..], b'[1..]);
      IdsConcat(b[0].cards, AllCards(b[1..]));
      IdsConcat(b'[0].cards, AllCards(b'[1..]));
    }
  }

  /** Boards whose lists each hold a sub-bag of the other's cards hold a sub-bag overall. */
  lemma {:induction false} AllCardsSubBag(b: Board, b': Board)
    requires |b| == |b'|
    requires forall k :: 0 <= k < |b| ==> multiset(b'[k].cards) <= multiset(b[k].cards)
    ensures multiset(AllCards(b')) <= multiset(AllCards(b))
    decreases |b|
  {
    if b != [] {
      AllCardsSubBag(b[1..], b'[1..]);
    }
  }

  /**
   * Replacing one list changes the board's cards by exactly that list's cards:
   * the old list's cards go, the new list's cards come.
   */
  lemma {:induction false} AllCardsUpdate(b: Board, k: nat, l: List)
    requires k < |b|
    ensures multiset(AllCards(b[k := l])) + multiset(b[k].cards) == multiset(AllCards(b)) + multiset(l.cards)
    decreases |b|
  {
    if k == 0 {
      assert b[k := l][1..] == b[1..];
    } else {
      assert b[k := l][0] == b[0];
      assert b[k := l][1..] == b[1..][k - 1 := l];
      AllCardsUpdate(b[1..], k - 1, l);
      calc {
        multiset(AllCards(b[k := l])) + multiset(b[k].cards);
        multiset(b[0].cards + AllCards(b[1..][k - 1 := l])) + multiset(b[k].cards);
        multiset(b[0].cards) + (multiset(AllCards(b[1..][k - 1 := l])) + multiset(b[1..][k - 1].cards));
        multiset(b[0].cards) + (multiset(AllCards(b[1..])) + multiset(l.cards));
        multiset(b[0].cards + AllCards(b[1..])) + multiset(l.cards);
        multiset(AllCards(b)) + multiset(l.cards);
      }
    }
  }

  /** Taking the card at `j` out of a sequence takes exactly it out of the bag of cards and its id out of the bag of ids. */
  lemma RemoveOneCard(ds: seq<Card>, j: nat)
    requires j < |ds|
    ensures multiset(ds) == multiset(ds[..j] + ds[j + 1..]) + multiset{ds[j]}
    ensures multiset(Ids(ds)) == multiset(Ids(ds[..j] + ds[j + 1..])) + multiset{ds[j].id}
  {
    var front, back := ds[..j], ds[j + 1..];
    assert ds == front + [ds[j]] + back;
    IdsConcat(front + [ds[j]], back);
    IdsConcat(front, [ds[j]]);
    IdsConcat(front, back);
    assert Ids([ds[j]]) == [ds[j].id];
    assert Ids(ds) == Ids(front) + [ds[j].id] + Ids(back);
  }

  /** A sub-bag of cards has a sub-bag of ids. */
  lemma {:induction false} IdsSubBag(cs: seq<Card>, ds: seq<Card>)
    requires multiset(cs) <= multiset(ds)
    ensures multiset(Ids(cs)) <= multiset(Ids(ds))
    decreases |cs|
  {
    if cs != [] {
      var x := cs[0];
      assert x in multiset(cs);
      assert x in ds;
      var j :| 0 <= j < |ds| && ds[j] == x;
      var rest := ds[..j] + ds[j + 1..];
      RemoveOneCard(ds, j);
      assert cs == [x] + cs[1..];
      assert multiset(cs) == multiset{x} + multiset(cs[1..]);
      forall y
        ensures multiset(cs[1..])[y] <= multiset(rest)[y]
      {
        assert multiset(cs)[y] <= multiset(ds)[y];
      }
      IdsSubBag(cs[1..], rest);
      IdsConcat([x], cs[1..]);
      assert Ids([x]) == [x.id];
      assert Ids(cs) == [x.id] + Ids(cs[1..]);
      var small, large := multiset(Ids(cs[1..])), multiset(Ids(rest));
      assert multiset(Ids(cs)) == small + multiset{x.id};
      assert multiset(Ids(ds)) == large + multiset{x.id};
      forall y
        ensures (small + multiset{x.id})[y] <= (large + multiset{x.id})[y]
      {
        assert small[y] <= large[y];
      }
    }
  }

  /** The same cards, in any order, have the same ids, in some order. */
  lemma IdsPermutation(cs: seq<Card>, ds: seq<Card>)
    requires multiset(cs) == multiset(ds)
    ensures multiset(Ids(cs)) == multiset(Ids(ds))
  {
    IdsSubBag(cs, ds);
    IdsSubBag(ds, cs);
  }

  /** The id of a card among `cs` is among the ids of `cs`. */
  lemma IdOfMember(cs: seq<Card>, c: Card)
    requires c in cs
    ensures c.id in Ids(cs)
  {
    var m :| 0 <= m < |cs| && cs[m] == c;
    assert Ids(cs)[m] == c.id;
  }

  /** A board holding a sub-bag of another's cards keeps the other's card-id uniqueness. */
  lemma UniqueCardIdsSubBag(b: Board, b': Board)
    requires UniqueCardIds(b)
    requires multiset(AllCards(b')) <= multiset(AllCards(b))
    ensures UniqueCardIds(b')
  {
    IdsSubBag(AllCards(b'), AllCards(b));
    forall id
      ensures multiset(CardIds(b'))[id] <= 1
    {
      assert multiset(CardIds(b'))[id] <= multiset(CardIds(b))[id];
    }
  }
}
