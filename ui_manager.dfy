/**
 * The UI elements the bot sends: suggestion chips (label plus postback data), the default menu,
 * the shop carousel built from the inventory and the cart cards built from a cart. Rendering
 * details that carry no logic (media height, card width, force-refresh) are not modelled.
 */
module UI {
  import opened Wrappers
  import opened Text
  import opened BotConstants
  import opened Inventory
  import opened Carts

  /** A suggested reply: the chip's label and the text posted back when it is tapped. */
  datatype Suggestion = Suggestion(text: string, postbackData: string)

  /** A rich card's content; the description is optional (Java null), the media is a file URL. */
  datatype CardContent = CardContent(title: string, description: Option<string>, mediaUrl: string,
                                     suggestions: seq<Suggestion>)

  /** The postback data of a list of chips, in order. */
  function Postbacks(menu: seq<Suggestion>): seq<string> {
    seq(|menu|, i requires 0 <= i < |menu| => menu[i].postbackData)
  }

  /** The help chip, whose postback is its own label. */
  function HelpMenuItem(): Suggestion {
    Suggestion(HELP_TEXT, HELP_TEXT)
  }

  /** The default menu: cart-dependent leading chips, then hours, then help. */
  function DefaultMenu(userCart: Cart): seq<Suggestion> {
    (if userCart.items != []
     then [Suggestion(VIEW_CART_TEXT, VIEW_CART_COMMAND), Suggestion(CONTINUE_SHOPPING_TEXT, SHOP_COMMAND)]
     else [Suggestion(SHOP_TEXT, SHOP_COMMAND)])
    + [Suggestion(HOURS_TEXT, HOURS_COMMAND), HelpMenuItem()]
  }

  function InventorySuggestions(itemId: string): seq<Suggestion> {
    [Suggestion(ADD_ITEM_TEXT, ADD_ITEM_COMMAND + itemId)]
  }

  function CartSuggestions(itemId: string): seq<Suggestion> {
    [Suggestion(INCREMENT_COUNT_TEXT, ADD_ITEM_COMMAND + itemId),
     Suggestion(DECREMENT_COUNT_TEXT, DELETE_ITEM_COMMAND + itemId)]
  }

  /**
   * The menu always offers the shop, hours and help and ends with hours then help; it offers
   * the cart view exactly when the cart has items, and then has four chips instead of three.
   */
  lemma DefaultMenuContents(userCart: Cart)
    ensures var menu := DefaultMenu(userCart);
            |menu| == (if userCart.items == [] then 3 else 4) &&
            menu[|menu| - 2] == Suggestion(HOURS_TEXT, HOURS_COMMAND) &&
            menu[|menu| - 1] == Suggestion(HELP_TEXT, HELP_TEXT) &&
            SHOP_COMMAND in Postbacks(menu) &&
            (VIEW_CART_COMMAND in Postbacks(menu) <==> userCart.items != [])
    ensures userCart.items != [] ==>
              (DefaultMenu(userCart)[..2] ==
               [Suggestion(VIEW_CART_TEXT, VIEW_CART_COMMAND), Suggestion(CONTINUE_SHOPPING_TEXT, SHOP_COMMAND)])
    ensures userCart.items == [] ==> DefaultMenu(userCart)[0] == Suggestion(SHOP_TEXT, SHOP_COMMAND)
  {
    var menu := DefaultMenu(userCart);
    var p := Postbacks(menu);
    if userCart.items == [] {
      assert p == [SHOP_COMMAND, HOURS_COMMAND, HELP_TEXT];
      assert VIEW_CART_COMMAND != SHOP_COMMAND && VIEW_CART_COMMAND != HOURS_COMMAND && VIEW_CART_COMMAND != HELP_TEXT by {
        assert VIEW_CART_COMMAND[0] == 'c';
      }
    } else {
      assert p == [VIEW_CART_COMMAND, SHOP_COMMAND, HOURS_COMMAND, HELP_TEXT];
    }
  }

  /** A shop card: title, no description, the item's image and an add-to-cart chip. */
  function ShopCard(item: InventoryItem): CardContent {
    CardContent(item.title, None, item.mediaUrl, InventorySuggestions(item.id))
  }

  function ShopCards(items: seq<InventoryItem>): seq<CardContent> {
    seq(|items|, i requires 0 <= i < |items| => ShopCard(items[i]))
  }

  /** The shop carousel's builder loop: one card per inventory item, in inventory order. */
  method GetShopCarousel(storeInventory: MockInventory) returns (cardContents: seq<CardContent>)
    ensures |cardContents| == |storeInventory.GetInventory()|
    ensures forall i :: 0 <= i < |cardContents| ==>
              var item := storeInventory.GetInventory()[i];
              cardContents[i].title == item.title && cardContents[i].description.None? &&
              cardContents[i].mediaUrl == item.mediaUrl &&
              cardContents[i].suggestions == [Suggestion(ADD_ITEM_TEXT, ADD_ITEM_COMMAND + item.id)]
    ensures cardContents == ShopCards(storeInventory.GetInventory())
  {
    cardContents := [];
    var items := storeInventory.GetInventory();
    var i := 0;
    while i < |items|
      invariant 0 <= i <= |items|
      invariant cardContents == ShopCards(items[..i])
    {
      cardContents := cardContents + [ShopCard(items[i])];
      i := i + 1;
    }
    assert items[..i] == items;
  }

  /** The card of a cart line: the line's title and quantity, the store item's image, +/- chips. */
  function CartItemCard(currentItem: CartItem, itemInStore: InventoryItem): CardContent {
    CardContent(currentItem.title, Some("Quantity: " + IntToString(currentItem.count)),
                itemInStore.mediaUrl, CartSuggestions(currentItem.id))
  }

  /** The card a cart line yields, or none when its id is not in the inventory (the line is skipped). */
  function LineCard(storeInventory: MockInventory, currentItem: CartItem): seq<CardContent> {
    match storeInventory.GetItem(currentItem.id)
    case Some(itemInStore) => [CartItemCard(currentItem, itemInStore)]
    case None => []
  }

  /** The cart carousel's cards: one per line whose item is in the inventory, in cart order. */
  function CartCards(storeInventory: MockInventory, items: seq<CartItem>): (r: seq<CardContent>)
    ensures |r| <= |items|
  {
    if items == [] then []
    else CartCards(storeInventory, items[..|items| - 1]) + LineCard(storeInventory, items[|items| - 1])
  }

  /** The cards of a concatenation are the concatenation of the cards. */
  lemma {:induction false} CartCardsAppend(storeInventory: MockInventory, a: seq<CartItem>, b: seq<CartItem>)
    ensures CartCards(storeInventory, a + b) == CartCards(storeInventory, a) + CartCards(storeInventory, b)
  {
    if b == [] {
      assert a + b == a;
    } else {
      var b' := b[..|b| - 1];
      assert (a + b)[..|a + b| - 1] == a + b';
      assert (a + b)[|a + b| - 1] == b[|b| - 1];
      CartCardsAppend(storeInventory, a, b');
    }
  }

  /** When every line's item is in the inventory, the carousel has one card per line, in order. */
  lemma {:induction false} CartCardsAllFound(storeInventory: MockInventory, items: seq<CartItem>)
    requires forall j :: 0 <= j < |items| ==> storeInventory.GetItem(items[j].id).Some?
    ensures |CartCards(storeInventory, items)| == |items|
    ensures forall j :: 0 <= j < |items| ==>
              CartCards(storeInventory, items)[j] ==
              CartItemCard(items[j], storeInventory.GetItem(items[j].id).value)
  {
    if items != [] {
      var prefix := items[..|items| - 1];
      var last := items[|items| - 1];
      assert forall j :: 0 <= j < |prefix| ==> prefix[j] == items[j];
      CartCardsAllFound(storeInventory, prefix);
      var before := CartCards(storeInventory, prefix);
      var card := CartItemCard(last, storeInventory.GetItem(last.id).value);
      FoundLineCard(storeInventory, items);
      var all := CartCards(storeInventory, items);
      forall j | 0 <= j < |items|
        ensures all[j] == CartItemCard(items[j], storeInventory.GetItem(items[j].id).value)
      {
        if j < |prefix| {
          assert all[j] == before[j];
        }
      }
    }
  }

  /** A last line whose item is in the inventory adds its card at the end. */
  lemma FoundLineCard(storeInventory: MockInventory, items: seq<CartItem>)
    requires items != [] && storeInventory.GetItem(items[|items| - 1].id).Some?
    ensures var last := items[|items| - 1];
            CartCards(storeInventory, items) ==
              CartCards(storeInventory, items[..|items| - 1]) + [CartItemCard(last, storeInventory.GetItem(last.id).value)]
  {
  }

  /** When no line's item is in the inventory, the carousel is empty; and only then. */
  lemma {:induction false} CartCardsNoneFound(storeInventory: MockInventory, items: seq<CartItem>)
    ensures CartCards(storeInventory, items) == [] <==>
              forall j :: 0 <= j < |items| ==> storeInventory.GetItem(items[j].id).None?
  {
    if items != [] {
      var prefix := items[..|items| - 1];
      CartCardsNoneFound(storeInventory, prefix);
      assert forall j :: 0 <= j < |prefix| ==> prefix[j] == items[j];
    }
  }

  /** The cart carousel's builder loop. */
  method GetCartCarousel(storeInventory: MockInventory, userCart: Cart) returns (cardContents: seq<CardContent>)
    ensures cardContents == CartCards(storeInventory, userCart.items)
  {
    cardContents := [];
    var items := userCart.items;
    for i := 0 to |items|
      invariant cardContents == CartCards(storeInventory, items[..i])
    {
      var currentItem := items[i];
      assert items[..i + 1][..i] == items[..i];
      var found := storeInventory.GetItem(currentItem.id);
      if found.Some? {
        cardContents := cardContents + [CartItemCard(currentItem, found.value)];
      }
    }
    assert items[..|items|] == items;
  }

  /**
   * The single cart card: overwritten on every line whose item is in the inventory, so it is the
   * card of the LAST such line, and absent (Java null) when there is none.
   */
  function LastCartCard(storeInventory: MockInventory, items: seq<CartItem>): (r: Option<CardContent>)
    ensures r.None? <==> CartCards(storeInventory, items) == []
    ensures r.Some? ==> r.value == CartCards(storeInventory, items)[|CartCards(storeInventory, items)| - 1]
  {
    if items == [] then None
    else
      match storeInventory.GetItem(items[|items| - 1].id)
      case Some(itemInStore) => Some(CartItemCard(items[|items| - 1], itemInStore))
      case None => LastCartCard(storeInventory, items[..|items| - 1])
  }

  /** The single-card builder loop. */
  method GetCartCard(storeInventory: MockInventory, userCart: Cart) returns (card: Option<CardContent>)
    ensures card == LastCartCard(storeInventory, userCart.items)
    ensures card.None? <==> forall j :: 0 <= j < |userCart.items| ==> storeInventory.GetItem(userCart.items[j].id).None?
  {
    card := None;
    var items := userCart.items;
    for i := 0 to |items|
      invariant card == LastCartCard(storeInventory, items[..i])
    {
      var currentItem := items[i];
      assert items[..i + 1][..i] == items[..i];
      var found := storeInventory.GetItem(currentItem.id);
      if found.Some? {
        card := Some(CartItemCard(currentItem, found.value));
      }
    }
    assert items[..|items|] == items;
    CartCardsNoneFound(storeInventory, items);
  }

  /** A one-line cart whose item is in stock gets that line's card. */
  lemma SingleLineCard(storeInventory: MockInventory, line: CartItem)
    requires storeInventory.GetItem(line.id).Some?
    ensures LastCartCard(storeInventory, [line]) == Some(CartItemCard(line, storeInventory.GetItem(line.id).value))
    ensures LastCartCard(storeInventory, [line]).value.description == Some("Quantity: " + IntToString(line.count))
  {
  }
}
