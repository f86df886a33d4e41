/** The Trello integration: which cards become work items and how. */
module Trello {
  import opened Wrappers
  import opened Text
  import opened WorkItems

  /** A card as decoded; a label is represented by its name. */
  datatype Card = Card(
    id: string,
    name: string,
    desc: Option<string>,
    shortUrl: Option<string>,
    idList: Option<string>,
    idBoard: Option<string>,
    labels: Option<seq<string>>)

  /** `TrelloProvider::name` */
  const Name := "Trello"

  /** `EXCLUDED_LISTS`: cards in these lists (compared lower-cased) are finished work. */
  const ExcludedLists := ["done", "in review"]

  /** The number of characters of a card id an item keeps. */
  const IdLength: nat := 8

  /** The name of the card's list, if the card has a list id and that list was fetched. */
  function ListName(card: Card, lists: map<string, string>): (r: Option<string>)
    ensures r.Some? <==> card.idList.Some? && card.idList.value in lists
    ensures r.Some? ==> r.value == lists[card.idList.value]
  {
    if card.idList.Some? && card.idList.value in lists then Some(lists[card.idList.value]) else None
  }

  /** The name of the card's board, if the card has a board id and that board was fetched. */
  function BoardName(card: Card, boards: map<string, string>): (r: Option<string>)
    ensures r.Some? <==> card.idBoard.Some? && card.idBoard.value in boards
    ensures r.Some? ==> r.value == boards[card.idBoard.value]
  {
    if card.idBoard.Some? && card.idBoard.value in boards then Some(boards[card.idBoard.value]) else None
  }

  /** The filter of `fetch_items`: a card survives unless its list is known and named "done" or
      "in review" in any case. */
  predicate Kept(card: Card, lists: map<string, string>) {
    match ListName(card, lists)
    case None => true
    case Some(list) => LowerAscii(list) !in ExcludedLists
  }

  /** The named labels, in order: labels with an empty name are dropped. */
  function NamedLabels(labels: seq<string>): (r: seq<string>)
    ensures |r| <= |labels|
    ensures forall l :: l in r <==> l in labels && l != ""
  {
    if labels == [] then []
    else (if labels[0] == "" then [] else [labels[0]]) + NamedLabels(labels[1..])
  }

  /** Dropping empty names keeps the order of what remains. */
  lemma {:induction false} NamedLabelsConcat(a: seq<string>, b: seq<string>)
    ensures NamedLabels(a + b) == NamedLabels(a) + NamedLabels(b)
  {
    if a != [] {
      assert (a + b)[1..] == a[1..] + b;
      NamedLabelsConcat(a[1..], b);
    } else {
      assert a + b == b;
    }
  }

  /** The mapping closure of `fetch_items`: the id is the first eight characters of the card id, a blank
      description counts as missing, empty labels are dropped, the status is the list name and the team
      the board name, and the item is marked as coming from Trello. */
  function CardToItem(card: Card, lists: map<string, string>, boards: map<string, string>): (w: WorkItem)
    ensures w.id <= card.id && |w.id| == if |card.id| < IdLength then |card.id| else IdLength
    ensures w.title == card.name && w.url == card.shortUrl && w.priority.None?
    ensures w.source == Name && w.sourceId.None?
    ensures w.status == ListName(card, lists) && w.team == BoardName(card, boards)
    ensures w.description == NonBlankExcerpt(card.desc)
    ensures w.description.None? <==> card.desc.None? || IsBlank(card.desc.value)
    ensures w.description.Some? ==> (w.description.value <= card.desc.value &&
                                     |w.description.value| <= DescriptionLimit)
    ensures w.labels == NamedLabels(card.labels.GetOr([]))
    ensures forall l :: l in w.labels <==> card.labels.Some? && l in card.labels.value && l != ""
  {
    WorkItem(
      id := Take(card.id, IdLength),
      sourceId := None,
      title := card.name,
      description := NonBlankExcerpt(card.desc),
      status := ListName(card, lists),
      priority := None,
      labels := NamedLabels(card.labels.GetOr([])),
      source := Name,
      team := BoardName(card, boards),
      url := card.shortUrl)
  }

  /** The items of the fetched cards: the kept cards, mapped, in card order. */
  function TrelloItems(cards: seq<Card>, lists: map<string, string>, boards: map<string, string>)
    : (items: seq<WorkItem>)
    ensures |items| <= |cards|
    ensures forall c :: c in cards && Kept(c, lists) ==> CardToItem(c, lists, boards) in items
    ensures forall w :: w in items ==> exists c :: c in cards && Kept(c, lists) && w == CardToItem(c, lists, boards)
  {
    if cards == [] then []
    else
      var rest := TrelloItems(cards[1..], lists, boards);
      assert forall c :: c in cards[1..] ==> c in cards;
      (if Kept(cards[0], lists) then [CardToItem(cards[0], lists, boards)] else []) + rest
  }

  /** One card becomes one item when kept and none when not. */
  lemma OneCard(card: Card, lists: map<string, string>, boards: map<string, string>)
    ensures TrelloItems([card], lists, boards) == if Kept(card, lists) then [CardToItem(card, lists, boards)] else []
  {
    assert [card][1..] == [];
  }

  /** Filtering two batches of cards one after the other gives their items one after the other, so the
      surviving items keep the card order. */
  lemma {:induction false} TrelloItemsConcat(a: seq<Card>, b: seq<Card>, lists: map<string, string>,
                                             boards: map<string, string>)
    ensures TrelloItems(a + b, lists, boards) == TrelloItems(a, lists, boards) + TrelloItems(b, lists, boards)
  {
    if a != [] {
      assert (a + b)[1..] == a[1..] + b;
      assert (a + b)[0] == a[0];
      TrelloItemsConcat(a[1..], b, lists, boards);
    } else {
      assert a + b == b;
    }
  }

  /** A card is dropped exactly when its list was fetched and is called "done" or "in review" in any
      case; cards without a list, or whose list is unknown, are always kept. */
  lemma DroppedIffFinishedList(card: Card, lists: map<string, string>)
    ensures !Kept(card, lists) <==>
              card.idList.Some? && card.idList.value in lists &&
              (LowerAscii(lists[card.idList.value]) == "done" || LowerAscii(lists[card.idList.value]) == "in review")
    ensures card.idList.None? ==> Kept(card, lists)
  {
  }

  /** Lists called "Done" and "In Review" drop their cards; "Doing" keeps them. */
  lemma FinishedListExamples(card: Card)
    requires card.idList == Some("l")
    ensures !Kept(card, map["l" := "Done"])
    ensures !Kept(card, map["l" := "In Review"])
    ensures Kept(card, map["l" := "Doing"])
    ensures Kept(card, map[])
  {
    assert LowerAscii("Done") == "done";
    assert LowerAscii("In Review") == "in review";
    assert LowerAscii("Doing") == "doing";
  }
}
