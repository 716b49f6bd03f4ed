/**
 * Round trips through the user's phone: every chip the bot offers posts back a text that the
 * router sends to the action the chip's label promises, and the item chips of the catalog name
 * items that the inventory lookup finds again.
 */
module Postbacks {
  import opened Wrappers
  import opened Text
  import opened BotConstants
  import opened Inventory
  import opened Carts
  import opened DataStore
  import opened UI
  import opened Bot

  /** The action a menu chip's label promises. */
  function MenuAction(chipText: string): Action {
    if chipText == VIEW_CART_TEXT then ViewCart
    else if chipText == CONTINUE_SHOPPING_TEXT || chipText == SHOP_TEXT then ShowShop
    else if chipText == HOURS_TEXT then ShowHours
    else if chipText == HELP_TEXT then ShowHelp
    else Default
  }

  /** Each whole-text command routes to its own action. */
  lemma CommandsRoute()
    ensures Route(VIEW_CART_COMMAND) == ViewCart
    ensures Route(SHOP_COMMAND) == ShowShop
    ensures Route(HOURS_COMMAND) == ShowHours
    ensures Route(HELP_TEXT) == ShowHelp
  {
    CommandsAreNormal();
    CommandsMissHelp("");
    HelpPostbackMatches();
  }

  /** Tapping any chip of the default menu does what its label says. */
  lemma MenuChipsDoWhatTheySay(userCart: Cart)
    ensures forall i :: 0 <= i < |DefaultMenu(userCart)| ==>
              Route(DefaultMenu(userCart)[i].postbackData) == MenuAction(DefaultMenu(userCart)[i].text)
  {
    var tail := [Suggestion(HOURS_TEXT, HOURS_COMMAND), Suggestion(HELP_TEXT, HELP_TEXT)];
    var head := if userCart.items != [] then [Suggestion(VIEW_CART_TEXT, VIEW_CART_COMMAND), Suggestion(CONTINUE_SHOPPING_TEXT, SHOP_COMMAND)]
                else [Suggestion(SHOP_TEXT, SHOP_COMMAND)];
    assert DefaultMenu(userCart) == head + tail;
    ChipsAct(head + tail);
  }

  /** The chips the default menu is made of, each acting as its label says. */
  predicate IsMenuChip(chip: Suggestion) {
    chip == Suggestion(VIEW_CART_TEXT, VIEW_CART_COMMAND) || chip == Suggestion(CONTINUE_SHOPPING_TEXT, SHOP_COMMAND) ||
    chip == Suggestion(SHOP_TEXT, SHOP_COMMAND) || chip == Suggestion(HOURS_TEXT, HOURS_COMMAND) ||
    chip == Suggestion(HELP_TEXT, HELP_TEXT)
  }

  lemma ChipsAct(chips: seq<Suggestion>)
    requires forall i :: 0 <= i < |chips| ==> IsMenuChip(chips[i])
    ensures forall i :: 0 <= i < |chips| ==> Route(chips[i].postbackData) == MenuAction(chips[i].text)
  {
    MenuLabelsAct();
    CommandsRoute();
  }

  lemma MenuLabelsAct()
    ensures MenuAction(VIEW_CART_TEXT) == ViewCart
    ensures MenuAction(CONTINUE_SHOPPING_TEXT) == ShowShop
    ensures MenuAction(SHOP_TEXT) == ShowShop
    ensures MenuAction(HOURS_TEXT) == ShowHours
    ensures MenuAction(HELP_TEXT) == ShowHelp
  {
    assert MenuAction(VIEW_CART_TEXT) == ViewCart;
    assert MenuAction(CONTINUE_SHOPPING_TEXT) == ShowShop by {
      assert CONTINUE_SHOPPING_TEXT[0] != VIEW_CART_TEXT[0];
    }
    assert MenuAction(SHOP_TEXT) == ShowShop by {
      assert SHOP_TEXT[0] != VIEW_CART_TEXT[0] && SHOP_TEXT[0] != CONTINUE_SHOPPING_TEXT[0];
    }
    assert MenuAction(HOURS_TEXT) == ShowHours by {
      assert HOURS_TEXT[0] != VIEW_CART_TEXT[0] && HOURS_TEXT[0] != CONTINUE_SHOPPING_TEXT[0];
      assert HOURS_TEXT[0] != SHOP_TEXT[0];
    }
    assert MenuAction(HELP_TEXT) == ShowHelp by {
      assert HELP_TEXT[0] != VIEW_CART_TEXT[0] && HELP_TEXT[0] != CONTINUE_SHOPPING_TEXT[0];
      assert HELP_TEXT[0] != SHOP_TEXT[0] && HELP_TEXT[0] != HOURS_TEXT[0];
    }
  }

  /** An item id that survives the router's normalization inside a chip: no upper-case letter, no trailing blank. */
  predicate ChipSafe(itemId: string) {
    (forall i :: 0 <= i < |itemId| ==> !IsUpper(itemId[i])) &&
    (itemId == [] || !IsTrimmable(itemId[|itemId| - 1]))
  }

  lemma PrefixedIdNormal(prefix: string, itemId: string)
    requires |prefix| == 9 && (forall i :: 0 <= i < 9 ==> !IsUpper(prefix[i])) && !IsTrimmable(prefix[0])
    requires !IsTrimmable(prefix[8])
    ensures IsNormal(prefix + itemId) <==> ChipSafe(itemId)
  {
    var s := prefix + itemId;
    assert forall i :: 0 <= i < |itemId| ==> s[9 + i] == itemId[i];
    if itemId == [] {
      assert s == prefix;
    }
  }

  /**
   * An add-item postback reaches the item it names exactly when the id is chip-safe: otherwise
   * normalization lower-cases or trims the id on its way back.
   */
  lemma AddChipRoundTrip(itemId: string)
    ensures Route(ADD_ITEM_COMMAND + itemId) == AddItem(itemId) <==> ChipSafe(itemId)
  {
    var s := ADD_ITEM_COMMAND + itemId;
    PrefixedIdNormal(ADD_ITEM_COMMAND, itemId);
    RouteClassification(s);
    NormalizeIsNormal(s);
    if ChipSafe(itemId) {
      NormalIsFixed(s);
      assert StartsWith(s, ADD_ITEM_COMMAND);
      assert s[|ADD_ITEM_COMMAND|..] == itemId;
    }
    if Route(s) == AddItem(itemId) {
      assert Normalize(s) == s;
    }
  }

  /** The delete-item postback: the same round trip. */
  lemma DeleteChipRoundTrip(itemId: string)
    ensures Route(DELETE_ITEM_COMMAND + itemId) == DeleteItem(itemId) <==> ChipSafe(itemId)
  {
    var s := DELETE_ITEM_COMMAND + itemId;
    PrefixedIdNormal(DELETE_ITEM_COMMAND, itemId);
    RouteClassification(s);
    NormalizeIsNormal(s);
    if ChipSafe(itemId) {
      NormalIsFixed(s);
      assert StartsWith(s, DELETE_ITEM_COMMAND);
      assert s[|DELETE_ITEM_COMMAND|..] == itemId;
    }
    if Route(s) == DeleteItem(itemId) {
      assert Normalize(s) == s;
    }
  }

  /** The textual form of a UUID is chip-safe. */
  lemma UuidIsChipSafe(s: string)
    requires IsUuidText(s)
    ensures ChipSafe(s)
  {
  }

  /** The shop-card and cart-card chips of a chip-safe id route to adding and deleting that id. */
  lemma ItemChipsRoute(itemId: string)
    requires ChipSafe(itemId)
    ensures Route(InventorySuggestions(itemId)[0].postbackData) == AddItem(itemId)
    ensures Route(CartSuggestions(itemId)[0].postbackData) == AddItem(itemId)
    ensures Route(CartSuggestions(itemId)[1].postbackData) == DeleteItem(itemId)
  {
    AddChipRoundTrip(itemId);
    DeleteChipRoundTrip(itemId);
  }

  /**
   * End to end on the catalog: when the hash renders UUID text and gives the catalog titles
   * distinct ids, tapping the add chip of shop card i adds exactly catalog item i to the cart.
   */
  lemma ShopChipAddsItem(nameUuid: NameUuid, rs: seq<ItemRecord>, cartId: string, i: nat)
    requires forall t :: IsUuidText(nameUuid(t))
    requires forall j, k :: 0 <= j < k < |INVENTORY_IMAGES| ==>
               nameUuid(INVENTORY_IMAGES[j].0) != nameUuid(INVENTORY_IMAGES[k].0)
    requires i < |INVENTORY_IMAGES|
    ensures var storeInventory := Catalog(nameUuid, INVENTORY_IMAGES);
            var item := storeInventory.items[i];
            var chip := ShopCards(storeInventory.GetInventory())[i].suggestions[0];
            chip.text == ADD_ITEM_TEXT &&
            Route(chip.postbackData) == AddItem(item.id) &&
            storeInventory.GetItem(item.id) == Some(item) &&
            StoreEffect(storeInventory, rs, cartId, Route(chip.postbackData)) ==
              WithItemAdded(rs, cartId, item.id, item.title)
  {
    var storeInventory := Catalog(nameUuid, INVENTORY_IMAGES);
    var item := storeInventory.items[i];
    CatalogIdsAreUuids(nameUuid, INVENTORY_IMAGES);
    UuidIsChipSafe(item.id);
    ItemChipsRoute(item.id);
    GetListedItem(storeInventory, i);
    var chip := ShopCards(storeInventory.GetInventory())[i].suggestions[0];
    assert chip == InventorySuggestions(item.id)[0];
    KnownItemEffect(storeInventory, rs, cartId, item.id);
  }

  /**
   * The chips of a cart card act on that line's item: "+" adds one unit of the stored item and
   * "-" deletes one, when the line's id is chip-safe and in the inventory.
   */
  lemma CartChipsActOnLine(storeInventory: MockInventory, rs: seq<ItemRecord>, cartId: string, line: CartItem)
    requires ChipSafe(line.id) && storeInventory.GetItem(line.id).Some?
    ensures var card := CartItemCard(line, storeInventory.GetItem(line.id).value);
            var item := storeInventory.GetItem(line.id).value;
            StoreEffect(storeInventory, rs, cartId, Route(card.suggestions[0].postbackData)) ==
              WithItemAdded(rs, cartId, line.id, item.title) &&
            StoreEffect(storeInventory, rs, cartId, Route(card.suggestions[1].postbackData)) ==
              WithItemDeleted(rs, cartId, line.id)
  {
    ItemChipsRoute(line.id);
    KnownItemEffect(storeInventory, rs, cartId, line.id);
  }
}
