/**
 * The layer between the bot and the store: resolves a conversation's cart, applies item
 * additions and deletions, and hands back a freshly re-read Cart after every call.
 */
module CartManager {
  import opened Wrappers
  import opened Carts
  import opened DataStore

  /** Stored records as cart lines: (item id, title, count), in query order. */
  function ToCartItems(rs: seq<ItemRecord>): seq<CartItem> {
    seq(|rs|, i requires 0 <= i < |rs| => CartItem(rs[i].itemId, rs[i].title, rs[i].count))
  }

  /** The items a re-read of cart `cartId` yields. */
  function CartItemsOf(rs: seq<ItemRecord>, cartId: string): seq<CartItem> {
    ToCartItems(CartQuery(rs, cartId))
  }

  /** The cart id getOrCreateCart settles on: the stored one, else the freshly generated one. */
  function ResolvedCartId(bs: seq<CartBinding>, conversationId: string, freshCartId: string): string {
    match CartOfConversation(bs, conversationId)
    case Some(cartId) => cartId
    case None => freshCartId
  }

  /** The builder loop of getCartItems: one cart line per queried record, in query order. */
  method GetCartItems(dm: DataManager, cartId: string) returns (items: seq<CartItem>)
    ensures |items| == |dm.GetCartFromData(cartId)|
    ensures forall i :: 0 <= i < |items| ==>
              items[i].id == dm.GetCartFromData(cartId)[i].itemId &&
              items[i].title == dm.GetCartFromData(cartId)[i].title &&
              items[i].count == dm.GetCartFromData(cartId)[i].count
    ensures items == CartItemsOf(dm.records, cartId)
  {
    var builder: seq<CartItem> := [];
    var itemList := dm.GetCartFromData(cartId);
    for i := 0 to |itemList|
      invariant |builder| == i
      invariant forall j :: 0 <= j < i ==>
                  builder[j] == CartItem(itemList[j].itemId, itemList[j].title, itemList[j].count)
    {
      var ent := itemList[i];
      builder := builder + [CartItem(ent.itemId, ent.title, ent.count)];
    }
    items := builder;
  }

  /**
   * With no binding for the conversation, saves one for the fresh id (the random UUID of the
   * source, passed in); otherwise uses the stored id and writes nothing. Either way the
   * conversation is bound to the returned cart's id afterwards.
   */
  method GetOrCreateCart(dm: DataManager, conversationId: string, freshCartId: string) returns (cart: Cart)
    modifies dm
    ensures cart.cartId == ResolvedCartId(old(dm.bindings), conversationId, freshCartId)
    ensures old(dm.GetCart(conversationId)).None? ==>
              dm.bindings == old(dm.bindings) + [CartBinding(conversationId, freshCartId)]
    ensures old(dm.GetCart(conversationId)).Some? ==> dm.bindings == old(dm.bindings)
    ensures dm.records == old(dm.records)
    ensures dm.GetCart(conversationId) == Some(cart.cartId)
    ensures cart.items == CartItemsOf(dm.records, cart.cartId)
  {
    var cartEntity := dm.GetCart(conversationId);
    var cartId: string;
    if cartEntity.None? {
      cartId := freshCartId;
      SavedCartIsFound(dm.bindings, conversationId, cartId);
      dm.SaveCart(conversationId, cartId);
    } else {
      cartId := cartEntity.value;
    }
    var items := GetCartItems(dm, cartId);
    cart := Cart(cartId, items);
  }

  method AddItem(dm: DataManager, cartId: string, itemId: string, itemTitle: string) returns (cart: Cart)
    modifies dm
    ensures dm.records == WithItemAdded(old(dm.records), cartId, itemId, itemTitle)
    ensures dm.bindings == old(dm.bindings)
    ensures cart == Cart(cartId, CartItemsOf(dm.records, cartId))
  {
    dm.AddItemToCart(cartId, itemId, itemTitle);
    var items := GetCartItems(dm, cartId);
    cart := Cart(cartId, items);
  }

  method DeleteItem(dm: DataManager, cartId: string, itemId: string) returns (cart: Cart)
    modifies dm
    ensures dm.records == WithItemDeleted(old(dm.records), cartId, itemId)
    ensures dm.bindings == old(dm.bindings)
    ensures cart == Cart(cartId, CartItemsOf(dm.records, cartId))
  {
    dm.DeleteItemFromCart(cartId, itemId);
    var items := GetCartItems(dm, cartId);
    cart := Cart(cartId, items);
  }

  /** Resolving the same conversation again yields the same cart id and writes nothing. */
  lemma ResolveTwice(bs: seq<CartBinding>, conversationId: string, fresh1: string, fresh2: string)
    ensures var bs' := if CartOfConversation(bs, conversationId).None?
                       then bs + [CartBinding(conversationId, fresh1)] else bs;
            CartOfConversation(bs', conversationId).Some? &&
            ResolvedCartId(bs', conversationId, fresh2) == ResolvedCartId(bs, conversationId, fresh1)
  {
    if CartOfConversation(bs, conversationId).None? {
      SavedCartIsFound(bs, conversationId, fresh1);
    }
  }

  /** One cart operation on a single item. */
  datatype CartOp = AddOp | DeleteOp

  /** The running tally: +1 per add, -1 per delete, a delete at 0 changing nothing. */
  function Tally(ops: seq<CartOp>): nat {
    if ops == [] then 0
    else
      var t := Tally(ops[..|ops| - 1]);
      match ops[|ops| - 1]
      case AddOp => t + 1
      case DeleteOp => if t == 0 then 0 else t - 1
  }

  /** The record table after applying `ops` to one (cart, item) key, in order. */
  function ApplyOps(rs: seq<ItemRecord>, cartId: string, itemId: string, itemTitle: string, ops: seq<CartOp>): seq<ItemRecord> {
    if ops == [] then rs
    else
      var before := ApplyOps(rs, cartId, itemId, itemTitle, ops[..|ops| - 1]);
      match ops[|ops| - 1]
      case AddOp => WithItemAdded(before, cartId, itemId, itemTitle)
      case DeleteOp => WithItemDeleted(before, cartId, itemId)
  }

  /**
   * The net-count law: from a valid store where the item is absent, any sequence of adds and
   * deletes leaves its count equal to the running tally, keeps the store valid, leaves every
   * other record as it was, and leaves the item stored exactly when the tally is positive.
   */
  lemma {:induction false} NetCountLaw(rs: seq<ItemRecord>, cartId: string, itemId: string, itemTitle: string, ops: seq<CartOp>)
    requires ValidRecords(rs) && CountOf(rs, cartId, itemId) == 0
    ensures ValidRecords(ApplyOps(rs, cartId, itemId, itemTitle, ops))
    ensures CountOf(ApplyOps(rs, cartId, itemId, itemTitle, ops), cartId, itemId) == Tally(ops)
    ensures OtherRecords(ApplyOps(rs, cartId, itemId, itemTitle, ops), cartId, itemId) == OtherRecords(rs, cartId, itemId)
    ensures var after := ApplyOps(rs, cartId, itemId, itemTitle, ops);
            FirstRecord(after, cartId, itemId) < |after| <==> Tally(ops) > 0
  {
    if ops != [] {
      NetCountLaw(rs, cartId, itemId, itemTitle, ops[..|ops| - 1]);
    }
    var after := ApplyOps(rs, cartId, itemId, itemTitle, ops);
    var k := FirstRecord(after, cartId, itemId);
    if k < |after| {
      assert after[k].count >= 1;
    }
  }

  /** A cart (of at most MAX_CART_LIMIT records) lists an item exactly when its stored count is positive, with that count. */
  lemma ListedInCart(rs: seq<ItemRecord>, cartId: string, itemId: string)
    requires ValidRecords(rs) && |CartRecords(rs, cartId)| <= MAX_CART_LIMIT
    ensures CountOf(rs, cartId, itemId) > 0 ==>
              CartItem(itemId, rs[FirstRecord(rs, cartId, itemId)].title, CountOf(rs, cartId, itemId)) in CartItemsOf(rs, cartId)
    ensures forall item :: item in CartItemsOf(rs, cartId) && item.id == itemId ==>
              item.count == CountOf(rs, cartId, itemId) && item.count > 0
  {
    PositiveIsListed(rs, cartId, itemId);
    ListedCountIsStored(rs, cartId, itemId);
  }

  lemma PositiveIsListed(rs: seq<ItemRecord>, cartId: string, itemId: string)
    requires |CartRecords(rs, cartId)| <= MAX_CART_LIMIT
    ensures CountOf(rs, cartId, itemId) > 0 ==>
              CartItem(itemId, rs[FirstRecord(rs, cartId, itemId)].title, CountOf(rs, cartId, itemId)) in CartItemsOf(rs, cartId)
  {
    var recs := CartRecords(rs, cartId);
    var items := CartItemsOf(rs, cartId);
    assert CartQuery(rs, cartId) == recs;
    var k := FirstRecord(rs, cartId, itemId);
    if k < |rs| {
      assert rs[k] in recs;
      var j :| 0 <= j < |recs| && recs[j] == rs[k];
      assert items[j] == CartItem(itemId, rs[k].title, rs[k].count);
    }
  }

  lemma ListedCountIsStored(rs: seq<ItemRecord>, cartId: string, itemId: string)
    requires ValidRecords(rs) && |CartRecords(rs, cartId)| <= MAX_CART_LIMIT
    ensures forall item :: item in CartItemsOf(rs, cartId) && item.id == itemId ==>
              item.count == CountOf(rs, cartId, itemId) && item.count > 0
  {
    var recs := CartRecords(rs, cartId);
    var items := CartItemsOf(rs, cartId);
    assert CartQuery(rs, cartId) == recs;
    forall item | item in items && item.id == itemId
      ensures item.count == CountOf(rs, cartId, itemId) && item.count > 0
    {
      var j :| 0 <= j < |items| && items[j] == item;
      assert recs[j] in rs;
      var m :| 0 <= m < |rs| && rs[m] == recs[j];
      KeyedRecordIsFirst(rs, cartId, itemId, m);
    }
  }

  /**
   * The net-count law as the user sees it: after the operations, a re-read cart (of at most
   * MAX_CART_LIMIT records) lists the item exactly when the tally is positive, with the tally
   * as its count.
   */
  lemma TallyDecidesListing(rs: seq<ItemRecord>, cartId: string, itemId: string, itemTitle: string, ops: seq<CartOp>)
    requires ValidRecords(rs) && CountOf(rs, cartId, itemId) == 0
    requires |CartRecords(ApplyOps(rs, cartId, itemId, itemTitle, ops), cartId)| <= MAX_CART_LIMIT
    ensures var items := CartItemsOf(ApplyOps(rs, cartId, itemId, itemTitle, ops), cartId);
            ((exists item :: item in items && item.id == itemId) <==> Tally(ops) > 0) &&
            (forall item :: item in items && item.id == itemId ==> item.count == Tally(ops))
  {
    var after := ApplyOps(rs, cartId, itemId, itemTitle, ops);
    NetCountLaw(rs, cartId, itemId, itemTitle, ops);
    ListedInCart(after, cartId, itemId);
    if Tally(ops) > 0 {
      var k := FirstRecord(after, cartId, itemId);
      var listed := CartItem(itemId, after[k].title, CountOf(after, cartId, itemId));
      assert listed in CartItemsOf(after, cartId) && listed.id == itemId;
    }
  }

  /** Deleting the only unit of the only item of a cart leaves that cart with no items. */
  lemma DeleteLastUnit(rs: seq<ItemRecord>, cartId: string, itemId: string)
    requires |CartRecords(rs, cartId)| == 1
    requires CartRecords(rs, cartId)[0].itemId == itemId && CartRecords(rs, cartId)[0].count == 1
    ensures CartItemsOf(WithItemDeleted(rs, cartId, itemId), cartId) == []
  {
    LastRecordDeleted(rs, cartId, itemId);
    NoRecordsNoItems(WithItemDeleted(rs, cartId, itemId), cartId);
  }

  lemma LastRecordDeleted(rs: seq<ItemRecord>, cartId: string, itemId: string)
    requires |CartRecords(rs, cartId)| == 1
    requires CartRecords(rs, cartId)[0].itemId == itemId && CartRecords(rs, cartId)[0].count == 1
    ensures CartRecords(WithItemDeleted(rs, cartId, itemId), cartId) == []
  {
    OnlyRecordIsFirst(rs, cartId, itemId);
    var k := FirstRecord(rs, cartId, itemId);
    assert rs[k].count == 1;
    assert WithItemDeleted(rs, cartId, itemId) == rs[..k] + rs[k + 1..];
    CartRecordsAroundOne(rs, k, cartId);
  }

  lemma NoRecordsNoItems(rs: seq<ItemRecord>, cartId: string)
    requires CartRecords(rs, cartId) == []
    ensures CartItemsOf(rs, cartId) == []
  {
    assert CartQuery(rs, cartId) == [];
  }

  /** When a cart holds one record, that record is the first with its key. */
  lemma OnlyRecordIsFirst(rs: seq<ItemRecord>, cartId: string, itemId: string)
    requires |CartRecords(rs, cartId)| == 1 && CartRecords(rs, cartId)[0].itemId == itemId
    ensures FirstRecord(rs, cartId, itemId) < |rs|
    ensures rs[FirstRecord(rs, cartId, itemId)] == CartRecords(rs, cartId)[0]
  {
    var only := CartRecords(rs, cartId)[0];
    assert only in rs;
    var k := FirstRecord(rs, cartId, itemId);
    assert rs[k] in CartRecords(rs, cartId);
  }

  /** A cart whose only record is the one at `k` has no records once that one is cut out. */
  lemma CartRecordsAroundOne(rs: seq<ItemRecord>, k: nat, cartId: string)
    requires k < |rs| && rs[k].cartId == cartId && |CartRecords(rs, cartId)| == 1
    ensures CartRecords(rs[..k] + rs[k + 1..], cartId) == []
  {
    var pre, x, post := rs[..k], rs[k], rs[k + 1..];
    assert rs == pre + [x] + post;
    CartRecordsAppend(pre + [x], post, cartId);
    CartRecordsAppend(pre, [x], cartId);
    CartRecordsAppend(pre, post, cartId);
    assert x in CartRecords([x], cartId);
  }
}
