/**
 * The bot: a first-match router over the normalized inbound text, the handlers for each
 * command, and the replies they produce (text, a single rich card, or a carousel, each with a
 * plain-text fallback and the default menu). A reply the source would post to the messaging
 * API is returned as a value; a handler that sends nothing returns None.
 */
module Bot {
  import opened Wrappers
  import opened Text
  import opened BotConstants
  import opened Inventory
  import opened Carts
  import opened DataStore
  import opened CartManager
  import opened UI

  /** What the router decides to do with an inbound text. */
  datatype Action =
    | ShowHelp
    | ShowHours
    | ShowShop
    | ViewCart
    | AddItem(itemId: string)
    | DeleteItem(itemId: string)
    | Default

  /**
   * routeMessage's decision: the first rule that the normalized text satisfies wins. The item
   * commands take everything after their nine-character prefix as the item id.
   */
  function Route(message: string): Action {
    Classify(Normalize(message))
  }

  /** The rule chain itself, on an already normalized text. */
  function Classify(normalizedMessage: string): Action {
    if MatchesHelp(normalizedMessage) then ShowHelp
    else if normalizedMessage == HOURS_COMMAND then ShowHours
    else if normalizedMessage == SHOP_COMMAND then ShowShop
    else if normalizedMessage == VIEW_CART_COMMAND then ViewCart
    else if StartsWith(normalizedMessage, ADD_ITEM_COMMAND) then AddItem(normalizedMessage[|ADD_ITEM_COMMAND|..])
    else if StartsWith(normalizedMessage, DELETE_ITEM_COMMAND) then DeleteItem(normalizedMessage[|DELETE_ITEM_COMMAND|..])
    else Default
  }

  /**
   * Each action is chosen exactly when its own rule holds of the normalized text: the rules
   * do not shadow one another, so the first-match order only matters for the fallback.
   */
  lemma RouteClassification(message: string)
    ensures var t := Normalize(message);
            (Route(message) == ShowHelp <==> MatchesHelp(t)) &&
            (Route(message) == ShowHours <==> t == HOURS_COMMAND) &&
            (Route(message) == ShowShop <==> t == SHOP_COMMAND) &&
            (Route(message) == ViewCart <==> t == VIEW_CART_COMMAND) &&
            (Route(message).AddItem? <==> StartsWith(t, ADD_ITEM_COMMAND)) &&
            (Route(message).DeleteItem? <==> StartsWith(t, DELETE_ITEM_COMMAND)) &&
            (Route(message).AddItem? ==> t == ADD_ITEM_COMMAND + Route(message).itemId) &&
            (Route(message).DeleteItem? ==> t == DELETE_ITEM_COMMAND + Route(message).itemId)
  {
    var t := Normalize(message);
    ItemPrefixes();
    CommandsMissHelp("");
    if StartsWith(t, ADD_ITEM_COMMAND) {
      assert t == ADD_ITEM_COMMAND + t[|ADD_ITEM_COMMAND|..];
      CommandsMissHelp(t[|ADD_ITEM_COMMAND|..]);
    }
    if StartsWith(t, DELETE_ITEM_COMMAND) {
      assert t == DELETE_ITEM_COMMAND + t[|DELETE_ITEM_COMMAND|..];
      CommandsMissHelp(t[|DELETE_ITEM_COMMAND|..]);
    }
    assert !StartsWith(HOURS_COMMAND, ADD_ITEM_COMMAND) && !StartsWith(HOURS_COMMAND, DELETE_ITEM_COMMAND);
    assert !StartsWith(SHOP_COMMAND, ADD_ITEM_COMMAND) && !StartsWith(SHOP_COMMAND, DELETE_ITEM_COMMAND);
    assert !StartsWith(VIEW_CART_COMMAND, ADD_ITEM_COMMAND) && !StartsWith(VIEW_CART_COMMAND, DELETE_ITEM_COMMAND);
  }

  /** Routing ignores letter case and surrounding whitespace, and normalizing first changes nothing. */
  lemma RouteIgnoresCaseAndBlanks(pre: string, message: string, post: string)
    requires AllTrimmable(pre) && AllTrimmable(post)
    ensures Route(pre + ToLower(message) + post) == Route(message)
    ensures Route(Normalize(message)) == Route(message)
  {
    NormalizeIgnoresCaseAndBlanks(pre, message, post);
    NormalizeIdempotent(message);
  }

  /** A message the bot posts: plain text (whose fallback is the text itself), a card or a carousel. */
  datatype Reply =
    | TextReply(text: string, suggestions: seq<Suggestion>)
    | CardReply(card: CardContent, fallback: string, suggestions: seq<Suggestion>)
    | CarouselReply(cards: seq<CardContent>, fallback: string, suggestions: seq<Suggestion>)

  /** The line that closes each card's entry in a carousel's fallback text (45 dashes). */
  const SEPARATOR: string := "---------------------------------------------"

  /** A description as Java's string concatenation renders it: a null one reads "null". */
  function DescriptionText(description: Option<string>): string {
    match description
    case Some(d) => d
    case None => "null"
  }

  /** The fallback text of a single card: title, description and image URL, blank-line separated. */
  function CardFallback(card: CardContent): string {
    card.title + "\n\n" + DescriptionText(card.description) + "\n\n" + card.mediaUrl
  }

  /** One card's entry in a carousel's fallback text. */
  function CarouselEntry(card: CardContent): string {
    (card.title + "\n\n") + (DescriptionText(card.description) + "\n\n") + (card.mediaUrl + "\n") + (SEPARATOR + "\n\n")
  }

  /** Each card's entry, in card order. */
  function CarouselEntries(cards: seq<CardContent>): seq<string> {
    seq(|cards|, i requires 0 <= i < |cards| => CarouselEntry(cards[i]))
  }

  /** A carousel's fallback text: the cards' entries, in card order. */
  function CarouselFallback(cards: seq<CardContent>): string {
    Concat(CarouselEntries(cards))
  }

  /** Adding a card adds its entry at the end of the fallback. */
  lemma CarouselFallbackSnoc(cards: seq<CardContent>, card: CardContent)
    ensures CarouselFallback(cards + [card]) == CarouselFallback(cards) + CarouselEntry(card)
  {
    var es, e := CarouselEntries(cards), CarouselEntry(card);
    assert CarouselEntries(cards + [card]) == es + [e];
    ConcatAppend(es, [e]);
    ConcatSingle(e);
  }

  /** The fallback builder loop of the carousel senders. */
  method BuildCarouselFallback(cards: seq<CardContent>) returns (fallbackText: string)
    ensures fallbackText == CarouselFallback(cards)
  {
    fallbackText := "";
    for i := 0 to |cards|
      invariant fallbackText == CarouselFallback(cards[..i])
    {
      var cardContent := cards[i];
      var before := fallbackText;
      fallbackText := fallbackText + (cardContent.title + "\n\n");
      fallbackText := fallbackText + (DescriptionText(cardContent.description) + "\n\n");
      fallbackText := fallbackText + (cardContent.mediaUrl + "\n");
      fallbackText := fallbackText + (SEPARATOR + "\n\n");
      assert fallbackText == before + CarouselEntry(cardContent);
      assert cards[..i + 1] == cards[..i] + [cardContent];
      CarouselFallbackSnoc(cards[..i], cardContent);
    }
    assert cards[..|cards|] == cards;
  }

  /** A card's carousel entry is its single-card fallback followed by the separator line. */
  lemma EntryExtendsCardFallback(card: CardContent)
    ensures CarouselEntry(card) == CardFallback(card) + "\n" + SEPARATOR + "\n\n"
    ensures CarouselFallback([card]) == CarouselEntry(card)
  {
    assert CarouselEntries([card]) == [CarouselEntry(card)];
    ConcatSingle(CarouselEntry(card));
  }

  /** The fallback of a concatenation of cards is the concatenation of their fallbacks. */
  lemma CarouselFallbackAppend(a: seq<CardContent>, b: seq<CardContent>)
    ensures CarouselFallback(a + b) == CarouselFallback(a) + CarouselFallback(b)
  {
    assert CarouselEntries(a + b) == CarouselEntries(a) + CarouselEntries(b);
    ConcatAppend(CarouselEntries(a), CarouselEntries(b));
  }

  /** A shop card has no description, so its fallback entry reads "null" where one would be. */
  lemma ShopEntryReadsNull(item: InventoryItem)
    ensures CarouselEntry(ShopCard(item)) ==
            item.title + "\n\n" + "null" + "\n\n" + item.mediaUrl + "\n" + SEPARATOR + "\n\n"
  {
  }

  function AddedText(title: string): string {
    title + " have been added to your cart."
  }

  function DeletedText(title: string): string {
    title + " have been deleted from your cart."
  }

  /** What an action does to the record table of cart `cartId`: only known items are touched. */
  function StoreEffect(storeInventory: MockInventory, rs: seq<ItemRecord>, cartId: string, action: Action): seq<ItemRecord> {
    match action
    case AddItem(itemId) =>
      (match storeInventory.GetItem(itemId)
       case Some(itemToAdd) => WithItemAdded(rs, cartId, itemToAdd.id, itemToAdd.title)
       case None => rs)
    case DeleteItem(itemId) =>
      (match storeInventory.GetItem(itemId)
       case Some(itemToDelete) => WithItemDeleted(rs, cartId, itemToDelete.id)
       case None => rs)
    case _ => rs
  }

  /** The store effect of an item command naming a known item is the keyed add or delete. */
  lemma KnownItemEffect(storeInventory: MockInventory, rs: seq<ItemRecord>, cartId: string, itemId: string)
    requires storeInventory.GetItem(itemId).Some?
    ensures StoreEffect(storeInventory, rs, cartId, AddItem(itemId)) ==
              WithItemAdded(rs, cartId, itemId, storeInventory.GetItem(itemId).value.title)
    ensures StoreEffect(storeInventory, rs, cartId, DeleteItem(itemId)) == WithItemDeleted(rs, cartId, itemId)
  {
  }

  /**
   * The reply to an action, given the user's cart as it stands when the reply is built (after
   * the store effect). None is "nothing is sent": an unknown item id, or a cart view of at most
   * one line that finds no card (the null card content of the source).
   */
  function ReplyFor(storeInventory: MockInventory, userCart: Cart, action: Action): Option<Reply> {
    match action
    case ShowHelp => Some(TextReply(RSP_HELP_TEXT, DefaultMenu(userCart)))
    case ShowHours => Some(TextReply(RSP_HOURS_TEXT, DefaultMenu(userCart)))
    case ShowShop =>
      var cards := ShopCards(storeInventory.GetInventory());
      Some(CarouselReply(cards, CarouselFallback(cards), DefaultMenu(userCart)))
    case ViewCart =>
      if |userCart.items| > 1 then
        var cards := CartCards(storeInventory, userCart.items);
        Some(CarouselReply(cards, CarouselFallback(cards), DefaultMenu(userCart)))
      else
        (match LastCartCard(storeInventory, userCart.items)
         case Some(card) => Some(CardReply(card, CardFallback(card), DefaultMenu(userCart)))
         case None => None)
    case AddItem(itemId) =>
      (match storeInventory.GetItem(itemId)
       case Some(itemToAdd) => Some(TextReply(AddedText(itemToAdd.title), DefaultMenu(userCart)))
       case None => None)
    case DeleteItem(itemId) =>
      (match storeInventory.GetItem(itemId)
       case Some(itemToDelete) => Some(TextReply(DeletedText(itemToDelete.title), DefaultMenu(userCart)))
       case None => None)
    case Default => Some(TextReply(RSP_DEFAULT, DefaultMenu(userCart)))
  }

  /** One bot instance: the catalog it was built with, the shared store, and the user's cart. */
  class CartBot {
    const storeInventory: MockInventory
    const dm: DataManager
    /** None until routeMessage loads the cart (Java null). */
    var userCart: Option<Cart>

    constructor(nameUuid: NameUuid, dataManager: DataManager)
      ensures storeInventory == Catalog(nameUuid, INVENTORY_IMAGES)
      ensures dm == dataManager && userCart.None?
    {
      var inventory := NewMockInventory(nameUuid, INVENTORY_IMAGES);
      storeInventory := inventory;
      dm := dataManager;
      userCart := None;
    }

    /**
     * Loads (or creates) the conversation's cart, then dispatches on the normalized text. The
     * store changes only as the routed action's store effect says, the bot's cart is the store's
     * re-read cart, and the reply is the one the action calls for on that cart.
     */
    method RouteMessage(message: string, conversationId: string, freshCartId: string) returns (reply: Option<Reply>)
      modifies this, dm
      ensures var cartId := ResolvedCartId(old(dm.bindings), conversationId, freshCartId);
              dm.records == StoreEffect(storeInventory, old(dm.records), cartId, Route(message)) &&
              userCart == Some(Cart(cartId, CartItemsOf(dm.records, cartId))) &&
              reply == ReplyFor(storeInventory, userCart.value, Route(message))
      ensures old(dm.GetCart(conversationId)).None? ==>
                dm.bindings == old(dm.bindings) + [CartBinding(conversationId, freshCartId)]
      ensures old(dm.GetCart(conversationId)).Some? ==> dm.bindings == old(dm.bindings)
      ensures dm.GetCart(conversationId) == Some(userCart.value.cartId)
    {
      var cart := GetOrCreateCart(dm, conversationId, freshCartId);
      userCart := Some(cart);
      var normalizedMessage := Normalize(message);
      reply := Respond(normalizedMessage);
    }

    /**
     * The rule chain of routeMessage, run once the cart is loaded: the store changes by the
     * classified action's effect, the bot's cart still mirrors the store, and the reply is the
     * action's reply on that cart.
     */
    method Respond(normalizedMessage: string) returns (reply: Option<Reply>)
      requires userCart.Some? && userCart.value.items == CartItemsOf(dm.records, userCart.value.cartId)
      modifies this, dm
      ensures var cartId := old(userCart).value.cartId;
              var action := Classify(normalizedMessage);
              dm.records == StoreEffect(storeInventory, old(dm.records), cartId, action) &&
              userCart == Some(Cart(cartId, CartItemsOf(dm.records, cartId))) &&
              reply == ReplyFor(storeInventory, userCart.value, action)
      ensures dm.bindings == old(dm.bindings)
    {
      if MatchesHelp(normalizedMessage) {
        reply := Some(TextResponse(RSP_HELP_TEXT));
      } else if normalizedMessage == HOURS_COMMAND {
        reply := Some(TextResponse(RSP_HOURS_TEXT));
      } else if normalizedMessage == SHOP_COMMAND {
        var r := SendInventoryCarousel();
        reply := Some(r);
      } else if normalizedMessage == VIEW_CART_COMMAND {
        if |userCart.value.items| > 1 {
          var r := SendCartCarousel();
          reply := Some(r);
        } else {
          reply := SendSingleCartItem();
        }
      } else if StartsWith(normalizedMessage, ADD_ITEM_COMMAND) {
        reply := AddItemToCart(normalizedMessage);
      } else if StartsWith(normalizedMessage, DELETE_ITEM_COMMAND) {
        reply := DeleteItemFromCart(normalizedMessage);
      } else {
        reply := Some(TextResponse(RSP_DEFAULT));
      }
    }

    /** sendResponse(String): a text message, with the default menu for the current cart. */
    function TextResponse(text: string): Reply
      reads this
      requires userCart.Some?
    {
      TextReply(text, DefaultMenu(userCart.value))
    }

    /** addItemToCart: a known item is added and acknowledged; an unknown id changes and sends nothing. */
    method AddItemToCart(message: string) returns (reply: Option<Reply>)
      requires userCart.Some? && |message| >= |ADD_ITEM_COMMAND|
      modifies this, dm
      ensures var found := storeInventory.GetItem(message[|ADD_ITEM_COMMAND|..]);
              found.None? ==> dm.records == old(dm.records) && userCart == old(userCart) && reply.None?
      ensures var found := storeInventory.GetItem(message[|ADD_ITEM_COMMAND|..]);
              var cartId := old(userCart).value.cartId;
              found.Some? ==>
                dm.records == WithItemAdded(old(dm.records), cartId, found.value.id, found.value.title) &&
                userCart == Some(Cart(cartId, CartItemsOf(dm.records, cartId))) &&
                reply == Some(TextReply(AddedText(found.value.title), DefaultMenu(userCart.value)))
      ensures var action := AddItem(message[|ADD_ITEM_COMMAND|..]);
              dm.records == StoreEffect(storeInventory, old(dm.records), old(userCart).value.cartId, action) &&
              reply == ReplyFor(storeInventory, userCart.value, action)
      ensures dm.bindings == old(dm.bindings)
    {
      var itemId := message[|ADD_ITEM_COMMAND|..];
      var found := storeInventory.GetItem(itemId);
      if found.Some? {
        var itemToAdd := found.value;
        var cart := CartManager.AddItem(dm, userCart.value.cartId, itemToAdd.id, itemToAdd.title);
        userCart := Some(cart);
        reply := Some(TextResponse(AddedText(itemToAdd.title)));
      } else {
        reply := None;
      }
    }

    /** deleteItemFromCart: a known item is deleted (or left absent) and acknowledged; an unknown id changes and sends nothing. */
    method DeleteItemFromCart(message: string) returns (reply: Option<Reply>)
      requires userCart.Some? && |message| >= |DELETE_ITEM_COMMAND|
      modifies this, dm
      ensures var found := storeInventory.GetItem(message[|DELETE_ITEM_COMMAND|..]);
              found.None? ==> dm.records == old(dm.records) && userCart == old(userCart) && reply.None?
      ensures var found := storeInventory.GetItem(message[|DELETE_ITEM_COMMAND|..]);
              var cartId := old(userCart).value.cartId;
              found.Some? ==>
                dm.records == WithItemDeleted(old(dm.records), cartId, found.value.id) &&
                userCart == Some(Cart(cartId, CartItemsOf(dm.records, cartId))) &&
                reply == Some(TextReply(DeletedText(found.value.title), DefaultMenu(userCart.value)))
      ensures var action := DeleteItem(message[|DELETE_ITEM_COMMAND|..]);
              dm.records == StoreEffect(storeInventory, old(dm.records), old(userCart).value.cartId, action) &&
              reply == ReplyFor(storeInventory, userCart.value, action)
      ensures dm.bindings == old(dm.bindings)
    {
      var itemId := message[|DELETE_ITEM_COMMAND|..];
      var found := storeInventory.GetItem(itemId);
      if found.Some? {
        var itemToDelete := found.value;
        var cart := CartManager.DeleteItem(dm, userCart.value.cartId, itemToDelete.id);
        userCart := Some(cart);
        reply := Some(TextResponse(DeletedText(itemToDelete.title)));
      } else {
        reply := None;
      }
    }

    /** sendSingleCartItem: the card of the last in-stock line, or nothing when there is none. */
    method SendSingleCartItem() returns (reply: Option<Reply>)
      requires userCart.Some?
      ensures reply.None? <==> LastCartCard(storeInventory, userCart.value.items).None?
      ensures reply.Some? ==>
                var card := LastCartCard(storeInventory, userCart.value.items).value;
                reply.value == CardReply(card, CardFallback(card), DefaultMenu(userCart.value))
      ensures |userCart.value.items| <= 1 ==> reply == ReplyFor(storeInventory, userCart.value, ViewCart)
    {
      var suggestions := DefaultMenu(userCart.value);
      var standaloneCard := GetCartCard(storeInventory, userCart.value);
      if standaloneCard.Some? {
        var card := standaloneCard.value;
        var fallbackText := card.title + "\n\n" + DescriptionText(card.description) + "\n\n" + card.mediaUrl;
        reply := Some(CardReply(card, fallbackText, suggestions));
      } else {
        reply := None;
      }
    }

    /** sendInventoryCarousel: every catalog item as a card, with the entries' fallback. */
    method SendInventoryCarousel() returns (reply: Reply)
      requires userCart.Some?
      ensures reply == CarouselReply(ShopCards(storeInventory.GetInventory()),
                                     CarouselFallback(ShopCards(storeInventory.GetInventory())),
                                     DefaultMenu(userCart.value))
      ensures Some(reply) == ReplyFor(storeInventory, userCart.value, ShowShop)
    {
      var suggestions := DefaultMenu(userCart.value);
      var carouselCard := GetShopCarousel(storeInventory);
      var fallbackText := BuildCarouselFallback(carouselCard);
      reply := CarouselReply(carouselCard, fallbackText, suggestions);
    }

    /** sendCartCarousel: a card per in-stock cart line, with the entries' fallback. */
    method SendCartCarousel() returns (reply: Reply)
      requires userCart.Some?
      ensures reply == CarouselReply(CartCards(storeInventory, userCart.value.items),
                                     CarouselFallback(CartCards(storeInventory, userCart.value.items)),
                                     DefaultMenu(userCart.value))
      ensures |userCart.value.items| > 1 ==> Some(reply) == ReplyFor(storeInventory, userCart.value, ViewCart)
    {
      var suggestions := DefaultMenu(userCart.value);
      var carouselCard := GetCartCarousel(storeInventory, userCart.value);
      var fallbackText := BuildCarouselFallback(carouselCard);
      reply := CarouselReply(carouselCard, fallbackText, suggestions);
    }
  }

  /** Viewing an empty cart sends nothing: the single-card path finds no card. */
  lemma ViewEmptyCartSendsNothing(storeInventory: MockInventory, cartId: string)
    ensures ReplyFor(storeInventory, Cart(cartId, []), ViewCart) == None
  {
  }

  /** Viewing a one-line cart whose item is in stock sends that line's card with the menu. */
  lemma ViewSingleLineCart(storeInventory: MockInventory, userCart: Cart)
    requires |userCart.items| == 1 && storeInventory.GetItem(userCart.items[0].id).Some?
    ensures var card := CartItemCard(userCart.items[0], storeInventory.GetItem(userCart.items[0].id).value);
            ReplyFor(storeInventory, userCart, ViewCart) == Some(CardReply(card, CardFallback(card), DefaultMenu(userCart)))
  {
    assert userCart.items == [userCart.items[0]];
    SingleLineCard(storeInventory, userCart.items[0]);
  }

  /** Store effects touch only the routed item of the bot's cart, and only for a known item. */
  lemma StoreEffectFrame(storeInventory: MockInventory, rs: seq<ItemRecord>, cartId: string, action: Action)
    ensures !action.AddItem? && !action.DeleteItem? ==> StoreEffect(storeInventory, rs, cartId, action) == rs
    ensures (action.AddItem? || action.DeleteItem?) && storeInventory.GetItem(action.itemId).None? ==>
              StoreEffect(storeInventory, rs, cartId, action) == rs &&
              ReplyFor(storeInventory, Cart(cartId, CartItemsOf(rs, cartId)), action) == None
    ensures (action.AddItem? || action.DeleteItem?) ==>
              OtherRecords(StoreEffect(storeInventory, rs, cartId, action), cartId, action.itemId) ==
              OtherRecords(rs, cartId, action.itemId)
  {
  }

  /**
   * Adding a known item leaves it stored, so the acknowledgement's menu offers the cart view;
   * on a valid store its count goes up by exactly one.
   */
  lemma AddedItemIsInCart(storeInventory: MockInventory, rs: seq<ItemRecord>, cartId: string, itemId: string)
    requires storeInventory.GetItem(itemId).Some?
    ensures var after := StoreEffect(storeInventory, rs, cartId, AddItem(itemId));
            var userCart := Cart(cartId, CartItemsOf(after, cartId));
            userCart.items != [] &&
            CountOf(after, cartId, itemId) == CountOf(rs, cartId, itemId) + 1 &&
            ReplyFor(storeInventory, userCart, AddItem(itemId)) ==
              Some(TextReply(AddedText(storeInventory.GetItem(itemId).value.title), DefaultMenu(userCart))) &&
            VIEW_CART_COMMAND in Postbacks(DefaultMenu(userCart))
  {
    var item := storeInventory.GetItem(itemId).value;
    KnownItemEffect(storeInventory, rs, cartId, itemId);
    var after := WithItemAdded(rs, cartId, item.id, item.title);
    var k := FirstRecord(after, cartId, itemId);
    assert after[k] in CartRecords(after, cartId);
    assert CartQuery(after, cartId) != [];
    DefaultMenuContents(Cart(cartId, CartItemsOf(after, cartId)));
  }

  /**
   * Deleting a known item that the cart does not hold changes nothing in the store, yet the
   * bot still acknowledges the deletion.
   */
  lemma DeleteAbsentStillAcknowledged(storeInventory: MockInventory, rs: seq<ItemRecord>, cartId: string, itemId: string)
    requires storeInventory.GetItem(itemId).Some?
    requires forall j :: 0 <= j < |rs| ==> !HasKey(rs[j], cartId, itemId)
    ensures StoreEffect(storeInventory, rs, cartId, DeleteItem(itemId)) == rs
    ensures ReplyFor(storeInventory, Cart(cartId, CartItemsOf(rs, cartId)), DeleteItem(itemId)) ==
              Some(TextReply(DeletedText(storeInventory.GetItem(itemId).value.title),
                             DefaultMenu(Cart(cartId, CartItemsOf(rs, cartId)))))
  {
    NoRecord(rs, cartId, itemId);
  }

  /** On a valid store, a known item's add chip followed by its delete chip restores the store. */
  lemma AddThenDeleteChips(storeInventory: MockInventory, rs: seq<ItemRecord>, cartId: string, itemId: string)
    requires ValidRecords(rs) && storeInventory.GetItem(itemId).Some?
    ensures StoreEffect(storeInventory, StoreEffect(storeInventory, rs, cartId, AddItem(itemId)), cartId, DeleteItem(itemId)) == rs
  {
    var item := storeInventory.GetItem(itemId).value;
    AddThenDeleteRestores(rs, cartId, item.id, item.title);
  }
}
