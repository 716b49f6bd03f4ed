# Shopping-cart bot: a Dafny model

This project models the core of a Business Messages shopping-cart bot written in Java. A
webhook servlet receives user messages and suggestion taps. It drops redeliveries with a
per-id cache and hands each new text to a fresh `CartBot`.

The bot works in three steps:

- it loads or creates the conversation's cart in a datastore;
- it lower-cases and trims the text and routes it through a first-match chain of commands
  (`help…`, `hours`, `shop`, `cart`, `add-cart-<id>`, `del-cart-<id>`, and a fallback);
- it replies with one of three kinds of message: a text; a single rich card; or a carousel
  of cards. Every reply carries a plain-text fallback and a default menu of suggestion chips.

Item ids are name-based UUIDs of the item titles. The catalog is a fixed mock inventory. The
datastore keeps conversation-to-cart bindings and per-cart item records with a count.

The model keeps the source's own shapes:

- pure helpers are Dafny functions over datatypes (`Text`, `BotConstants`, `Inventory`,
  `Carts`, `UI`);
- the stateful parts are classes: `DataStore.DataManager` holds two tables as `seq` fields,
  `Bot.CartBot` holds the user's cart, and `Servlet.AgentCallback` holds the id cache and the
  sent replies;
- the builder loops of the source are methods with loop invariants, each proved equal to a
  specification function.

The store operations are functions on the record table: `DataStore.WithItemAdded` and
`DataStore.WithItemDeleted`. For these the model proves:

- the count law and the store invariant (unique keys, positive counts);
- that nothing outside the key changes;
- the net-count law over any sequence of operations;
- that an add followed by a delete restores the table.

Routing is `Bot.Route = Classify ∘ Normalize`. The model proves that each action is chosen
exactly when its own rule holds. It also proves that every chip the bot offers routes back to
the action its label names. For an item chip this holds exactly when the id is "chip-safe",
which every UUID text is.

Some behaviours of the code are easy to miss, and the model keeps them:

- Viewing an empty cart sends nothing at all. The single-card path gets a null card content,
  reading it throws, and the exception is swallowed (`CartBot.java:144-170`,
  `UIManager.java:147-170`). `Bot.ViewEmptyCartSendsNothing` states this.
- For a cart of at most one line, the single card is the card of the last line whose item is
  in the inventory (`UI.LastCartCard`). The router sends carts of two or more lines to the
  carousel.
- Deleting a catalog item that the cart does not hold leaves the store unchanged but still
  replies "… have been deleted from your cart." (`Bot.DeleteAbsentStillAcknowledged`).
- The net-count law holds for the running tally, in which a delete at count 0 does nothing
  (`CartManager.Tally`). It does not hold for the bare difference #adds − #deletes.
- A shop card has no description. Java's string concatenation writes `null` into the
  carousel's fallback text (`Bot.ShopEntryReadsNull`).
- A text that is neither a command nor help gets the fixed "Sorry, I didn't quite get that…"
  reply, not an echo.

Source paths below are relative to the repository root. `CartBot.java`, `UIManager.java`,
`DataManager.java`, `CartManager.java`, `MockInventory.java`, `InventoryItem.java`,
`BotConstants.java`, `Cart.java` and `CartItem.java` are under
`src/main/java/com/google/businessmessages/cart/`; `AgentCallback.java` is in its
`servlets/` sub-directory.

## Model

| member | source | states |
|---|---|---|
| Text.LowerChar | src/main/java/com/google/businessmessages/cart/CartBot.java:81 | lower-casing one char yields no upper-case letter; an upper-case ASCII letter moves up by 32 and any other char is kept |
| Text.ToLower | src/main/java/com/google/businessmessages/cart/CartBot.java:81 | `toLowerCase` keeps the length, leaves no upper-case letter, turns each upper-case letter into its lower-case counterpart and keeps every other char |
| Text.LowerOfLower | src/main/java/com/google/businessmessages/cart/CartBot.java:81 | a text with no upper-case letter is unchanged by `toLowerCase` |
| Text.ToLowerIdempotent | src/main/java/com/google/businessmessages/cart/CartBot.java:81 | lower-casing twice gives the same text as lower-casing once |
| Text.ToLowerAppend | src/main/java/com/google/businessmessages/cart/CartBot.java:81 | lower-casing a concatenation is concatenating the lower-cased parts |
| Text.SkipLeading | src/main/java/com/google/businessmessages/cart/CartBot.java:81 | the forward scan of `trim` stops inside the text, at a char that is not ≤ U+0020 or at the end |
| Text.LeadingAreBlank | src/main/java/com/google/businessmessages/cart/CartBot.java:81 | every char the forward scan passes over is ≤ U+0020 |
| Text.SkipTrailing | src/main/java/com/google/businessmessages/cart/CartBot.java:81 | the backward scan of `trim` never passes the forward index, and stops after a char that is not trimmable unless it reached that index |
| Text.TrailingAreBlank | src/main/java/com/google/businessmessages/cart/CartBot.java:81 | every char the backward scan drops is trimmable |
| Text.LeadingUnique | src/main/java/com/google/businessmessages/cart/CartBot.java:81 | the forward scan stops at the one index with only trimmable chars before it and a non-trimmable char (or the end) at it |
| Text.TrailingUnique | src/main/java/com/google/businessmessages/cart/CartBot.java:81 | the backward scan stops at the one index with only trimmable chars from it on and a non-trimmable char (or the start index) just before it |
| Text.Trim | src/main/java/com/google/businessmessages/cart/CartBot.java:81 | definition: `trim` is the text between the index where the forward scan stops and the index where the backward scan from the end stops |
| Text.Normalize | src/main/java/com/google/businessmessages/cart/CartBot.java:81 | definition: the router's normal form `message.toLowerCase().trim()`, lower-casing first and trimming second |
| Text.TrimOfUntrimmed | src/main/java/com/google/businessmessages/cart/CartBot.java:81 | trimming a text with nothing to trim at either end returns it unchanged |
| Text.TrimKeepsChars | src/main/java/com/google/businessmessages/cart/CartBot.java:81 | `trim` returns only chars of its input |
| Text.TrimLeavesNoBlankEnds | src/main/java/com/google/businessmessages/cart/CartBot.java:81 | neither end of a trimmed text is a char ≤ U+0020 |
| Text.NormalizeIsNormal | src/main/java/com/google/businessmessages/cart/CartBot.java:81 | a normalized message is lower case and trimmed |
| Text.NormalIsFixed | src/main/java/com/google/businessmessages/cart/CartBot.java:81 | normalization leaves a lower-case, trimmed text unchanged |
| Text.NormalizeIdempotent | src/main/java/com/google/businessmessages/cart/CartBot.java:81 | normalizing twice gives the same text as normalizing once |
| Text.TrimIgnoresPadding | src/main/java/com/google/businessmessages/cart/CartBot.java:81 | `trim` removes any whitespace padding on both sides |
| Text.NormalizeIgnoresCaseAndBlanks | src/main/java/com/google/businessmessages/cart/CartBot.java:81 | padding a message with blanks or changing its letter case leaves its normalization unchanged |
| Text.ConcatSingle | src/main/java/com/google/businessmessages/cart/CartBot.java:184-190 | joining one string gives that string |
| Text.ConcatAppend | src/main/java/com/google/businessmessages/cart/CartBot.java:184-190 | joining two lists of strings one after the other gives the two joins one after the other |
| Text.DigitChar | src/main/java/com/google/businessmessages/cart/UIManager.java:156 | a digit value becomes the decimal digit char of that value |
| Text.NatToString | src/main/java/com/google/businessmessages/cart/UIManager.java:156 | the rendering of a count is a non-empty string of digits with no leading zero except for "0" |
| Text.IntToString | src/main/java/com/google/businessmessages/cart/UIManager.java:216 | `"Quantity: " + count` renders a non-negative count as digits and a negative one as '-' followed by digits |
| Text.NatToStringRoundTrip | src/main/java/com/google/businessmessages/cart/UIManager.java:156 | reading the decimal rendering back gives the number |
| BotConstants.MatchesHelp | src/main/java/com/google/businessmessages/cart/BotConstants.java:45 | definition: the help pattern as a whole-text `matches`; the text starts with "help", or is "commands" followed by a regex space char and anything, or is exactly "see the help menu" |
| BotConstants.ItemPrefixes | src/main/java/com/google/businessmessages/cart/BotConstants.java:40-41 | both item-command prefixes have nine chars, and no text starts with both |
| BotConstants.CommandsAreNormal | src/main/java/com/google/businessmessages/cart/BotConstants.java:42-44 | the `cart`, `hours` and `shop` commands survive normalization unchanged |
| BotConstants.HelpPostbackMatches | src/main/java/com/google/businessmessages/cart/UIManager.java:134-140 | the help chip's postback, "Help", normalizes to a text the help pattern accepts |
| BotConstants.CommandsMissHelp | src/main/java/com/google/businessmessages/cart/BotConstants.java:40-45 | the help pattern accepts no other command and no item command with any id, so it shadows none of the later rules |
| BotConstants.CatalogTitlesDistinct | src/main/java/com/google/businessmessages/cart/BotConstants.java:62-81 | the catalog titles are pairwise distinct, as the keys of a map must be |
| Inventory.NewItem | src/main/java/com/google/businessmessages/cart/InventoryItem.java:28-32 | definition: the two-argument constructor; the id is the title's name UUID, the title and image are the arguments, and the price is Java's default 0 |
| Inventory.NewPricedItem | src/main/java/com/google/businessmessages/cart/InventoryItem.java:34-37 | definition: the three-argument constructor; the two-argument item with the given price on top |
| Inventory.ItemFields | src/main/java/com/google/businessmessages/cart/InventoryItem.java:28-73 | the getters return what the constructors were given; the id depends only on the title; the three-argument constructor sets only the price on top |
| Inventory.FirstWithId | src/main/java/com/google/businessmessages/cart/MockInventory.java:42-44 | the scan stops at or after its start and within the list, and where it stops before the end the item has the id |
| Inventory.PassedOverHaveOtherIds | src/main/java/com/google/businessmessages/cart/MockInventory.java:42-44 | every item the scan passes over has a different id |
| Inventory.MockInventory.GetInventory | src/main/java/com/google/businessmessages/cart/MockInventory.java:36-39 | definition: `getInventory` hands back the item list as it was built, in build order |
| Inventory.MockInventory.GetItem | src/main/java/com/google/businessmessages/cart/MockInventory.java:42-44 | the result is empty exactly when no item has the id; a found item has the id |
| Inventory.GetItemIsFirstMatch | src/main/java/com/google/businessmessages/cart/MockInventory.java:42-44 | a found item is a listed item with no item of that id before it, so the lookup returns the first match in inventory order |
| Inventory.Catalog | src/main/java/com/google/businessmessages/cart/MockInventory.java:28-34 | definition: the inventory built from the title-to-image table, one `NewItem` per entry, in entry order |
| Inventory.NewMockInventory | src/main/java/com/google/businessmessages/cart/MockInventory.java:28-34 | the builder loop makes one item per table entry, in table order, each with the entry's title and image and its title's UUID |
| Inventory.CatalogFromEntries | src/main/java/com/google/businessmessages/cart/MockInventory.java:28-34 | the catalog has one item per entry; each item's title and image form an entry, and its id is the title's UUID |
| Inventory.GetListedItem | src/main/java/com/google/businessmessages/cart/MockInventory.java:42-44 | looking up a listed item's id finds an item with that id; when ids are distinct it finds that very item |
| Inventory.CatalogIdsAreUuids | src/main/java/com/google/businessmessages/cart/InventoryItem.java:29 | when the hash renders UUID text, every catalog id is UUID text |
| DataStore.FirstBinding | src/main/java/com/google/businessmessages/cart/DataManager.java:85-95 | the index of the first binding for the conversation, with none before it; the length when there is none |
| DataStore.CartOfConversation | src/main/java/com/google/businessmessages/cart/DataManager.java:83-98 | `getCart` finds nothing exactly when no binding names the conversation; otherwise it finds the cart of the first binding that does |
| DataStore.CartOfConversationStable | src/main/java/com/google/businessmessages/cart/DataManager.java:63-98 | appending bindings never changes a conversation's cart once one is found |
| DataStore.SavedCartIsFound | src/main/java/com/google/businessmessages/cart/DataManager.java:63-98 | after saving a binding for a conversation that had none, `getCart` finds the saved cart id |
| DataStore.FirstBindingAt | src/main/java/com/google/businessmessages/cart/DataManager.java:92-94 | a binding for the conversation with none before it is the one the limit-1 query returns |
| DataStore.FirstRecord | src/main/java/com/google/businessmessages/cart/DataManager.java:185-207 | the index of the first record with the (cart, item) key, with none before it; the length when there is none |
| DataStore.OtherRecordsAppend | src/main/java/com/google/businessmessages/cart/DataManager.java:108-176 | the records outside a key split over a concatenation, so a keyed update can be framed piece by piece |
| DataStore.CartRecords | src/main/java/com/google/businessmessages/cart/DataManager.java:215-225 | a cart's records are exactly the store's records with that cart id |
| DataStore.CartRecordsAppend | src/main/java/com/google/businessmessages/cart/DataManager.java:215-225 | a cart's records split over a concatenation of tables |
| DataStore.CartQuery | src/main/java/com/google/businessmessages/cart/DataManager.java:215-225 | `getCartFromData` returns a prefix of the cart's records of at most MAX_CART_LIMIT (50) rows: all of them when the cart has at most 50, and exactly 50 otherwise |
| DataStore.FirstRecordAt | src/main/java/com/google/businessmessages/cart/DataManager.java:199-204 | a record with the key and none before it is the one `getExistingItem` returns |
| DataStore.KeyedRecordIsFirst | src/main/java/com/google/businessmessages/cart/DataManager.java:185-207 | when keys are unique, any record with the key is the one `getExistingItem` returns |
| DataStore.NoRecord | src/main/java/com/google/businessmessages/cart/DataManager.java:202-206 | with no record for the key, the lookup reports none |
| DataStore.ReplaceKeepsOthers | src/main/java/com/google/businessmessages/cart/DataManager.java:122-125 | overwriting the keyed record in place leaves every other record as it was |
| DataStore.OtherRecordsOfKeyed | src/main/java/com/google/businessmessages/cart/DataManager.java:108-176 | a lone keyed record contributes nothing to the records outside its key |
| DataStore.RemoveKeepsOthers | src/main/java/com/google/businessmessages/cart/DataManager.java:156-158 | removing the keyed record leaves every other record as it was, in order |
| DataStore.WithItemAdded | src/main/java/com/google/businessmessages/cart/DataManager.java:108-138 | with no record for the key, one record with the title and count 1 is appended; otherwise the record keeps its place and title; either way its count goes up by exactly one, nothing else changes, and a valid store stays valid |
| DataStore.WithItemDeleted | src/main/java/com/google/businessmessages/cart/DataManager.java:147-176 | no record for the key leaves the table as it is; a count of 1 removes the record; any other count goes down by one, with the record kept at its place and keeping its title; the records outside the key are unchanged; a valid store stays valid, with a count of max(count − 1, 0) |
| DataStore.AddThenDeleteRestores | src/main/java/com/google/businessmessages/cart/DataManager.java:108-176 | on a valid store, deleting an item right after adding it gives back exactly the original table |
| DataStore.NoRecordIfUnique | src/main/java/com/google/businessmessages/cart/DataManager.java:156-158 | after the only keyed record is removed, no record has the key, and a valid store stays valid |
| DataStore.DataManager.constructor | src/main/java/com/google/businessmessages/cart/DataManager.java:44-46 | a new store has no bindings and no records |
| DataStore.DataManager.SaveCart | src/main/java/com/google/businessmessages/cart/DataManager.java:63-76 | `saveCart` appends one binding and leaves the item records alone |
| DataStore.DataManager.GetCart | src/main/java/com/google/businessmessages/cart/DataManager.java:83-98 | definition: `getCart` is the cart id of the first binding for the conversation, or none; its meaning is stated by `DataStore.CartOfConversation` |
| DataStore.DataManager.GetExistingItem | src/main/java/com/google/businessmessages/cart/DataManager.java:185-207 | the result is null exactly when no record has the key; otherwise it is a stored record with the key |
| DataStore.DataManager.AddItemToCart | src/main/java/com/google/businessmessages/cart/DataManager.java:108-138 | the look-up-then-write updates the table exactly as `WithItemAdded` says; bindings are untouched |
| DataStore.DataManager.DeleteItemFromCart | src/main/java/com/google/businessmessages/cart/DataManager.java:147-176 | the look-up-then-write updates the table exactly as `WithItemDeleted` says; bindings are untouched |
| DataStore.DataManager.GetCartFromData | src/main/java/com/google/businessmessages/cart/DataManager.java:215-225 | definition: `getCartFromData` is the limit-50 query of the cart's records; its meaning is stated by `DataStore.CartQuery` |
| CartManager.ToCartItems | src/main/java/com/google/businessmessages/cart/CartManager.java:54-67 | definition: each queried record becomes the cart line (item id, title, count), in query order |
| CartManager.CartItemsOf | src/main/java/com/google/businessmessages/cart/CartManager.java:54-67 | definition: the lines a re-read of the cart yields: the cart's queried records as cart lines |
| CartManager.ResolvedCartId | src/main/java/com/google/businessmessages/cart/CartManager.java:34-45 | definition: the cart id `getOrCreateCart` settles on; the stored one if the conversation has a binding, otherwise the fresh id |
| CartManager.GetCartItems | src/main/java/com/google/businessmessages/cart/CartManager.java:54-67 | the builder loop makes one cart line per queried record, in query order, with that record's item id, title and count |
| CartManager.GetOrCreateCart | src/main/java/com/google/businessmessages/cart/CartManager.java:34-45 | uses the stored cart id if there is one, otherwise saves a binding for the fresh id; afterwards the conversation is bound to the returned id, no record has changed, and the items are the re-read cart |
| CartManager.AddItem | src/main/java/com/google/businessmessages/cart/CartManager.java:78-82 | the store gets the item added, and the returned cart is its fresh re-read |
| CartManager.DeleteItem | src/main/java/com/google/businessmessages/cart/CartManager.java:92-96 | the store gets the item deleted, and the returned cart is its fresh re-read |
| CartManager.ResolveTwice | src/main/java/com/google/businessmessages/cart/CartManager.java:34-45 | resolving the same conversation a second time finds a binding and yields the same cart id, whatever fresh id is offered |
| CartManager.NetCountLaw | src/main/java/com/google/businessmessages/cart/DataManager.java:108-176 | from a valid store without the item, any sequence of adds and deletes keeps the store valid, leaves the item's count equal to the running tally and every other record untouched, and leaves it stored exactly when the tally is positive |
| CartManager.ListedInCart | src/main/java/com/google/businessmessages/cart/CartManager.java:54-67 | in a valid cart of at most 50 records, a positive stored count is listed with that count, and every listed line has the stored, positive count |
| CartManager.PositiveIsListed | src/main/java/com/google/businessmessages/cart/CartManager.java:54-67 | in a cart of at most 50 records, an item with a positive stored count is listed with its stored title and count |
| CartManager.ListedCountIsStored | src/main/java/com/google/businessmessages/cart/CartManager.java:54-67 | in a valid cart of at most 50 records, every listed line of an item has that item's stored count, and that count is positive |
| CartManager.TallyDecidesListing | src/main/java/com/google/businessmessages/cart/CartManager.java:78-96 | after any sequence of adds and deletes, the re-read cart lists the item exactly when the tally is positive, with the tally as its count |
| CartManager.DeleteLastUnit | src/main/java/com/google/businessmessages/cart/DataManager.java:155-158 | deleting the only unit of a cart's only item leaves that cart with no lines |
| CartManager.LastRecordDeleted | src/main/java/com/google/businessmessages/cart/DataManager.java:155-158 | deleting the only unit of a cart's only record leaves the cart with no records |
| CartManager.NoRecordsNoItems | src/main/java/com/google/businessmessages/cart/CartManager.java:54-67 | a cart with no records is read back with no lines |
| CartManager.OnlyRecordIsFirst | src/main/java/com/google/businessmessages/cart/DataManager.java:185-207 | when a cart holds a single record, it is the one the keyed lookup returns |
| CartManager.CartRecordsAroundOne | src/main/java/com/google/businessmessages/cart/DataManager.java:215-225 | when a cart's only record is removed, the cart has no records left |
| UI.HelpMenuItem | src/main/java/com/google/businessmessages/cart/UIManager.java:134-140 | definition: the help chip, labelled "Help", whose postback is its own label |
| UI.DefaultMenu | src/main/java/com/google/businessmessages/cart/UIManager.java:45-82 | definition: for a non-empty cart "View Cart" (`cart`) and "Continue Shopping" (`shop`), for an empty one "Shop Our Collection" (`shop`); then "Inquire About Hours" (`hours`) and the help chip |
| UI.InventorySuggestions | src/main/java/com/google/businessmessages/cart/UIManager.java:90-101 | definition: one chip, the add-to-cart label with postback `add-cart-` followed by the id |
| UI.CartSuggestions | src/main/java/com/google/businessmessages/cart/UIManager.java:109-127 | definition: two chips, "+" posting `add-cart-` and the id, then "−" posting `del-cart-` and the id |
| UI.DefaultMenuContents | src/main/java/com/google/businessmessages/cart/UIManager.java:45-82 | the menu has 4 chips for a non-empty cart and 3 for an empty one, ending with hours then help; it always offers the shop; it offers the cart view exactly when the cart has items, as "View Cart, Continue Shopping" first, while an empty cart gets "Shop Our Collection" first |
| UI.ShopCard | src/main/java/com/google/businessmessages/cart/UIManager.java:183-193 | definition: a shop card has the item's title, no description, the item's image and its add-to-cart chip |
| UI.ShopCards | src/main/java/com/google/businessmessages/cart/UIManager.java:177-199 | definition: one shop card per inventory item, in inventory order |
| UI.GetShopCarousel | src/main/java/com/google/businessmessages/cart/UIManager.java:177-199 | one card per inventory item, in inventory order, each with the item's title and image, no description, and a single add-to-cart chip for its id |
| UI.CartItemCard | src/main/java/com/google/businessmessages/cart/UIManager.java:213-224 | definition: a cart card has the line's title, "Quantity: " and the count as description, the stock item's image and the line's +/− chips |
| UI.LineCard | src/main/java/com/google/businessmessages/cart/UIManager.java:211-227 | definition: the card a cart line yields; none when the line's id is not in the inventory, so the line is skipped |
| UI.CartCards | src/main/java/com/google/businessmessages/cart/UIManager.java:206-233 | the cart carousel never has more cards than the cart has lines |
| UI.CartCardsAppend | src/main/java/com/google/businessmessages/cart/UIManager.java:210-228 | the cards of concatenated cart lines are the concatenation of their cards |
| UI.CartCardsAllFound | src/main/java/com/google/businessmessages/cart/UIManager.java:206-233 | when every line's item is in stock, the carousel has one card per line, in order, each with the line's title, "Quantity: n", the stock image and the +/− chips |
| UI.FoundLineCard | src/main/java/com/google/businessmessages/cart/UIManager.java:210-228 | a last line whose item is in the inventory adds that line's card after the cards of the lines before it |
| UI.CartCardsNoneFound | src/main/java/com/google/businessmessages/cart/UIManager.java:210-228 | the cart carousel is empty exactly when no line's item is in the inventory |
| UI.GetCartCarousel | src/main/java/com/google/businessmessages/cart/UIManager.java:206-233 | the builder loop produces exactly the cart cards: skipped lines leave no gap and the order is kept |
| UI.LastCartCard | src/main/java/com/google/businessmessages/cart/UIManager.java:147-170 | the single card is absent exactly when the cart has no in-stock line; otherwise it is the card of the last in-stock line |
| UI.GetCartCard | src/main/java/com/google/businessmessages/cart/UIManager.java:147-170 | the loop that overwrites `card` yields the last in-stock line's card, and null exactly when no line is in stock |
| UI.SingleLineCard | src/main/java/com/google/businessmessages/cart/UIManager.java:147-170 | a one-line in-stock cart gets that line's card, whose description is "Quantity: " and the count |
| Bot.Route | src/main/java/com/google/businessmessages/cart/CartBot.java:76-102 | definition: the action for an inbound text; the rule chain applied to the normalized text |
| Bot.Classify | src/main/java/com/google/businessmessages/cart/CartBot.java:83-101 | definition: the first-match chain; help pattern, `hours`, `shop`, `cart`, then the `add-cart-` and `del-cart-` prefixes with the rest as item id, then the default reply |
| Bot.StoreEffect | src/main/java/com/google/businessmessages/cart/CartBot.java:110-137 | definition: an add or delete naming an inventory item performs the keyed add or delete on the store with that item's id (and title); every other action, and an unknown id, leaves the store alone |
| Bot.ReplyFor | src/main/java/com/google/businessmessages/cart/CartBot.java:83-261 | definition: the message each action sends on the cart as it stands afterwards; help, hours and default texts; the shop carousel; the cart carousel for two or more lines, else the single card or nothing; acknowledgements for known item ids, nothing for unknown ones; every message carries the default menu |
| Bot.RouteClassification | src/main/java/com/google/businessmessages/cart/CartBot.java:76-102 | each action is chosen exactly when its own rule holds of the normalized text; an item action's id is the normalized text with the nine-char prefix removed |
| Bot.RouteIgnoresCaseAndBlanks | src/main/java/com/google/businessmessages/cart/CartBot.java:81-101 | changing letter case or adding surrounding whitespace does not change the route, and routing an already normalized text gives the same action |
| Bot.DescriptionText | src/main/java/com/google/businessmessages/cart/CartBot.java:154 | definition: a description as string concatenation renders it; a missing one reads "null" |
| Bot.CardFallback | src/main/java/com/google/businessmessages/cart/CartBot.java:151-156 | definition: a single card's fallback is its title, a blank line, its description, a blank line and its image URL |
| Bot.CarouselEntry | src/main/java/com/google/businessmessages/cart/CartBot.java:185-190 | definition: a card's entry in a carousel fallback; title, description and image URL, then the 45-dash separator line |
| Bot.CarouselFallback | src/main/java/com/google/businessmessages/cart/CartBot.java:184-190 | definition: a carousel's fallback is its cards' entries joined in card order |
| Bot.BuildCarouselFallback | src/main/java/com/google/businessmessages/cart/CartBot.java:184-190 | the fallback builder loop produces, card by card, title, description and image URL, each followed by the separator line |
| Bot.CarouselFallbackSnoc | src/main/java/com/google/businessmessages/cart/CartBot.java:184-190 | adding a card at the end adds exactly its entry at the end of the fallback |
| Bot.EntryExtendsCardFallback | src/main/java/com/google/businessmessages/cart/CartBot.java:151-189 | a card's carousel entry is its single-card fallback followed by the 45-dash separator |
| Bot.CarouselFallbackAppend | src/main/java/com/google/businessmessages/cart/CartBot.java:219-225 | the fallback of concatenated cards is the concatenation of their fallbacks |
| Bot.ShopEntryReadsNull | src/main/java/com/google/businessmessages/cart/CartBot.java:187 | a shop card's fallback entry reads "null" where a description would be |
| Bot.KnownItemEffect | src/main/java/com/google/businessmessages/cart/CartBot.java:110-137 | for an id the inventory knows, the add command adds that id with the stored title and the delete command deletes that id |
| Bot.CartBot.constructor | src/main/java/com/google/businessmessages/cart/CartBot.java:63-67 | a new bot holds the catalog built from the title-to-image table and no cart yet |
| Bot.CartBot.RouteMessage | src/main/java/com/google/businessmessages/cart/CartBot.java:76-102 | loads or creates the cart; the records then change only by the routed action's store effect; the bot's cart is the re-read cart, the conversation stays bound to it, and the reply is the one the action calls for on that cart |
| Bot.CartBot.Respond | src/main/java/com/google/businessmessages/cart/CartBot.java:83-101 | the if-chain performs the classified action: the records change by that action's store effect, the bot's cart is the re-read cart of the store afterwards, the reply is the action's reply on that cart, and bindings are untouched |
| Bot.CartBot.AddItemToCart | src/main/java/com/google/businessmessages/cart/CartBot.java:110-120 | a known id adds that item, re-reads the cart and acknowledges with "<title> have been added to your cart."; an unknown id changes nothing and sends nothing; both cases are the add action's store effect and reply |
| Bot.CartBot.DeleteItemFromCart | src/main/java/com/google/businessmessages/cart/CartBot.java:128-137 | a known id deletes one unit (or nothing, if absent), re-reads the cart and acknowledges the deletion; an unknown id changes nothing and sends nothing; both cases are the delete action's store effect and reply |
| Bot.CartBot.SendSingleCartItem | src/main/java/com/google/businessmessages/cart/CartBot.java:144-170 | sends nothing exactly when there is no card; otherwise sends that card with its fallback and the default menu; for a cart of at most one line this is the cart-view reply |
| Bot.CartBot.SendInventoryCarousel | src/main/java/com/google/businessmessages/cart/CartBot.java:177-204 | the shop carousel over the whole inventory, with its entries' fallback and the default menu: the shop action's reply |
| Bot.CartBot.SendCartCarousel | src/main/java/com/google/businessmessages/cart/CartBot.java:211-239 | the cart carousel over the in-stock lines, with its entries' fallback and the default menu: for a cart of two or more lines, the cart-view reply |
| Bot.ViewEmptyCartSendsNothing | src/main/java/com/google/businessmessages/cart/CartBot.java:89-170 | viewing an empty cart sends no reply |
| Bot.ViewSingleLineCart | src/main/java/com/google/businessmessages/cart/CartBot.java:89-170 | viewing a one-line cart whose item is in stock sends that line's card, with the card's fallback and the menu |
| Bot.StoreEffectFrame | src/main/java/com/google/businessmessages/cart/CartBot.java:83-137 | only item commands naming a catalog item write to the store; an unknown id writes nothing and sends nothing; no command touches any record outside the routed item |
| Bot.AddedItemIsInCart | src/main/java/com/google/businessmessages/cart/CartBot.java:110-120 | after a known item is added its count is one higher, the cart is non-empty, the acknowledgement names the item, and its menu offers the cart view |
| Bot.DeleteAbsentStillAcknowledged | src/main/java/com/google/businessmessages/cart/CartBot.java:128-137 | deleting a catalog item that the cart lacks leaves the store unchanged, yet the deletion is still acknowledged |
| Bot.AddThenDeleteChips | src/main/java/com/google/businessmessages/cart/CartBot.java:110-137 | on a valid store, a known item's add followed by its delete restores the store exactly |
| Servlet.EventId | src/main/java/com/google/businessmessages/cart/servlets/AgentCallback.java:69-92 | definition: the id a payload is de-duplicated by; the message id, else the request id, else none |
| Servlet.NonMessageText | src/main/java/com/google/businessmessages/cart/servlets/AgentCallback.java:109-131 | definition: of the non-message events only a suggestion response yields a text for the bot, its postback data |
| Servlet.Decide | src/main/java/com/google/businessmessages/cart/servlets/AgentCallback.java:69-92 | a payload with an id adds it to the cache and is handed on only if the id was new: the message text for a message, the postback otherwise; a payload without an id is always handed on and leaves the cache as it is |
| Servlet.RedeliveryDropped | src/main/java/com/google/businessmessages/cart/servlets/AgentCallback.java:69-92 | a payload with an id delivered twice in a row is handed on at most once, and the second delivery leaves the cache unchanged |
| Servlet.SeenGrows | src/main/java/com/google/businessmessages/cart/servlets/AgentCallback.java:69-92 | the id cache only grows along a run of payloads |
| Servlet.DuplicateNeverRouted | src/main/java/com/google/businessmessages/cart/servlets/AgentCallback.java:69-92 | in any run, a payload carrying the id of an earlier payload is never handed to the bot |
| Servlet.SameConversationSameCart | src/main/java/com/google/businessmessages/cart/CartManager.java:34-45 | after a routed text, a later text of the same conversation resolves to the same cart id whatever fresh id it is offered, and leaves the bindings as they are |
| Servlet.AgentCallback.constructor | src/main/java/com/google/businessmessages/cart/servlets/AgentCallback.java:44-46 | a new servlet has an empty id cache and has sent nothing |
| Servlet.AgentCallback.DoPost | src/main/java/com/google/businessmessages/cart/servlets/AgentCallback.java:49-93 | the cache becomes what `Decide` says; a dropped payload changes neither the store, the bindings nor the sent replies; a text handed on changes the store by its action's effect, sends that action's reply on the re-read cart, and binds an unbound conversation to the fresh cart id while leaving a bound one as it was |
| Servlet.AgentCallback.HandleNonMessageResponse | src/main/java/com/google/businessmessages/cart/servlets/AgentCallback.java:109-131 | only a suggestion response reaches the bot, and then like a routed text, bindings included; typing and receipt events change nothing |
| Servlet.AgentCallback.RouteTextResponse | src/main/java/com/google/businessmessages/cart/servlets/AgentCallback.java:133-135 | a fresh bot over the shared store routes the text; the store changes by the action's effect, its reply, if any, is appended to what was sent, and the conversation ends up bound to the cart the text was routed on (a new binding only when it had none) |
| Postbacks.CommandsRoute | src/main/java/com/google/businessmessages/cart/BotConstants.java:40-45 | the cart, shop, hours and help postbacks route to their own actions |
| Postbacks.MenuChipsDoWhatTheySay | src/main/java/com/google/businessmessages/cart/UIManager.java:45-82 | tapping any chip of the default menu, for any cart, routes to the action its label names |
| Postbacks.ChipsAct | src/main/java/com/google/businessmessages/cart/UIManager.java:45-82 | each menu chip's postback routes to the action its label names |
| Postbacks.MenuLabelsAct | src/main/java/com/google/businessmessages/cart/BotConstants.java:30-34 | the five menu labels name distinct actions: cart view, shop (twice), hours and help |
| Postbacks.PrefixedIdNormal | src/main/java/com/google/businessmessages/cart/CartBot.java:81 | an item-command prefix followed by an id survives normalization exactly when the id is chip-safe |
| Postbacks.AddChipRoundTrip | src/main/java/com/google/businessmessages/cart/UIManager.java:98 | an add chip routes back to adding the very id it was built with exactly when that id is chip-safe |
| Postbacks.DeleteChipRoundTrip | src/main/java/com/google/businessmessages/cart/UIManager.java:124 | a delete chip routes back to deleting the very id it was built with exactly when that id is chip-safe |
| Postbacks.UuidIsChipSafe | src/main/java/com/google/businessmessages/cart/InventoryItem.java:29 | UUID text has no upper-case letter and no trailing blank, so it is chip-safe |
| Postbacks.ItemChipsRoute | src/main/java/com/google/businessmessages/cart/UIManager.java:90-127 | for a chip-safe id, the shop card's chip and the cart card's "+" chip route to adding it, and the "−" chip routes to deleting it |
| Postbacks.ShopChipAddsItem | src/main/java/com/google/businessmessages/cart/CartBot.java:110-120 | when the hash renders UUID text with distinct ids for the catalog titles, the add chip of shop card i adds exactly catalog item i |
| Postbacks.CartChipsActOnLine | src/main/java/com/google/businessmessages/cart/UIManager.java:147-233 | the "+" and "−" chips of a cart card add and delete one unit of that line's item |

## Left out

- Sending through the messaging API is left out: typing indicators, HTTP, credentials and the
  random message ids. A reply is returned as a value, and "nothing sent" is `None`.
- Webhook JSON parsing, the servlet's response headers and logging are left out. A payload
  is a datatype with its JSON members as options.
- The memcache entry lifetime and its eviction are left out. The id cache is a set that only
  grows.
- Datastore transactions, their rollback, the caught datastore exceptions and concurrent
  requests are left out. Each keyed read-modify-write is one atomic step on the table. The
  source's `getExistingItem` runs outside the transaction, so two concurrent requests could
  interleave; that race is not modelled.
- Datastore query order is modelled as insertion order, which the datastore does not
  guarantee.
- The MD5 name-based UUID is not modelled. It is a deterministic function parameter, and its
  UUID text shape is a precondition where it matters.
- The random cart id is a parameter (`freshCartId`).
- Map iteration order: the title-to-image `HashMap` is taken as a sequence in declaration
  order. Its keys are distinct (`BotConstants.CatalogTitlesDistinct`).
- `toLowerCase` is modelled on ASCII letters only. Its locale and Unicode case mapping are not
  modelled.
- In the help pattern, `.*` is taken to accept any suffix. The regex `.` refusing line
  terminators is not modelled.
- Rendering fields that carry no logic are not modelled: media height, force-refresh, card
  width and the representative.
- `getAgentDisplayName`, `initCredentials` and `initBmApi` are not modelled. They only
  configure the API client.
- The item price is kept as a `real` and never computed with. Floating point is not modelled.
- DataStore.WithItemAdded: does not model the 32-bit wrap of `count + 1`, because a count
  would need 2^31 taps to wrap.
- CartManager.GetCartItems: does not model the `Long.intValue` truncation of a stored count,
  because every stored count comes from those same increments.
- The `itemList != null` guard of `getCartItems` is not modelled: the query always
  returns a list.
- `Inventory.java`, `Cart.java` and `CartItem.java` are plain interfaces and value classes.
  They appear only as the `MockInventory`, `Cart` and `CartItem` datatypes.
