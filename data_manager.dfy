/**
 * The cart store. The datastore is abstracted to two in-memory tables: conversation-to-cart
 * bindings, and item records `(cartId, itemId, title, count)`. A query returns matching rows
 * in table order; a new row is appended; a `put` of a read row overwrites it in place.
 */
module DataStore {
  import opened Wrappers

  const MAX_CART_LIMIT: nat := 50

  /** A stored Cart entity: which cart a conversation uses. */
  datatype CartBinding = CartBinding(conversationId: string, cartId: string)

  /** A stored CartItem entity. */
  datatype ItemRecord = ItemRecord(cartId: string, itemId: string, title: string, count: int)

  predicate HasKey(r: ItemRecord, cartId: string, itemId: string) {
    r.cartId == cartId && r.itemId == itemId
  }

  /** No two records share a (cartId, itemId) key. */
  predicate UniqueKeys(rs: seq<ItemRecord>) {
    forall i, j :: 0 <= i < j < |rs| ==> !HasKey(rs[j], rs[i].cartId, rs[i].itemId)
  }

  predicate PositiveCounts(rs: seq<ItemRecord>) {
    forall i :: 0 <= i < |rs| ==> rs[i].count >= 1
  }

  /** The store invariant: keys are unique and every stored count is at least one. */
  predicate ValidRecords(rs: seq<ItemRecord>) {
    UniqueKeys(rs) && PositiveCounts(rs)
  }

  function FirstBinding(bs: seq<CartBinding>, conversationId: string): (k: nat)
    ensures k <= |bs|
    ensures k < |bs| ==> bs[k].conversationId == conversationId
    ensures forall j :: 0 <= j < k ==> bs[j].conversationId != conversationId
  {
    if bs == [] then 0
    else if bs[0].conversationId == conversationId then 0
    else 1 + FirstBinding(bs[1..], conversationId)
  }

  /** The cart id of the first binding for a conversation (the query with limit 1), if any. */
  function CartOfConversation(bs: seq<CartBinding>, conversationId: string): (r: Option<string>)
    ensures r.None? <==> forall j :: 0 <= j < |bs| ==> bs[j].conversationId != conversationId
    ensures r.Some? ==> exists k :: 0 <= k < |bs| && bs[k] == CartBinding(conversationId, r.value) &&
                                    forall j :: 0 <= j < k ==> bs[j].conversationId != conversationId
  {
    var k := FirstBinding(bs, conversationId);
    if k < |bs| then Some(bs[k].cartId) else None
  }

  /** Bindings are only ever appended, so a conversation's cart, once found, stays the same. */
  lemma {:induction false} CartOfConversationStable(bs: seq<CartBinding>, more: seq<CartBinding>, conversationId: string)
    requires CartOfConversation(bs, conversationId).Some?
    ensures CartOfConversation(bs + more, conversationId) == CartOfConversation(bs, conversationId)
  {
    var k := FirstBinding(bs, conversationId);
    assert forall j :: 0 <= j <= k ==> (bs + more)[j] == bs[j];
    FirstBindingAt(bs + more, conversationId, k);
  }

  /** Saving a binding for a conversation that has none makes that binding the one found. */
  lemma SavedCartIsFound(bs: seq<CartBinding>, conversationId: string, cartId: string)
    requires CartOfConversation(bs, conversationId).None?
    ensures CartOfConversation(bs + [CartBinding(conversationId, cartId)], conversationId) == Some(cartId)
  {
    var s := bs + [CartBinding(conversationId, cartId)];
    assert forall j :: 0 <= j < |bs| ==> s[j] == bs[j];
    FirstBindingAt(s, conversationId, |bs|);
  }

  lemma FirstBindingAt(bs: seq<CartBinding>, conversationId: string, i: nat)
    requires i < |bs| && bs[i].conversationId == conversationId
    requires forall j :: 0 <= j < i ==> bs[j].conversationId != conversationId
    ensures FirstBinding(bs, conversationId) == i
  {
  }

  /** Index of the first record with the key, or the length when there is none. */
  function FirstRecord(rs: seq<ItemRecord>, cartId: string, itemId: string): (k: nat)
    ensures k <= |rs|
    ensures k < |rs| ==> HasKey(rs[k], cartId, itemId)
    ensures forall j :: 0 <= j < k ==> !HasKey(rs[j], cartId, itemId)
  {
    if rs == [] then 0
    else if HasKey(rs[0], cartId, itemId) then 0
    else 1 + FirstRecord(rs[1..], cartId, itemId)
  }

  /** The stored count for a key, 0 when no record has it. */
  function CountOf(rs: seq<ItemRecord>, cartId: string, itemId: string): int {
    var k := FirstRecord(rs, cartId, itemId);
    if k < |rs| then rs[k].count else 0
  }

  /** Every record not carrying the key, in table order: the part of the store a keyed update must not touch. */
  function OtherRecords(rs: seq<ItemRecord>, cartId: string, itemId: string): seq<ItemRecord> {
    if rs == [] then []
    else (if HasKey(rs[0], cartId, itemId) then [] else [rs[0]]) + OtherRecords(rs[1..], cartId, itemId)
  }

  lemma {:induction false} OtherRecordsAppend(a: seq<ItemRecord>, b: seq<ItemRecord>, cartId: string, itemId: string)
    ensures OtherRecords(a + b, cartId, itemId) == OtherRecords(a, cartId, itemId) + OtherRecords(b, cartId, itemId)
  {
    if a == [] {
      assert a + b == b;
    } else {
      assert (a + b)[1..] == a[1..] + b;
      OtherRecordsAppend(a[1..], b, cartId, itemId);
    }
  }

  /** The records of one cart, in table order. */
  function CartRecords(rs: seq<ItemRecord>, cartId: string): (r: seq<ItemRecord>)
    ensures |r| <= |rs|
    ensures forall x :: x in r <==> x in rs && x.cartId == cartId
  {
    if rs == [] then []
    else (if rs[0].cartId == cartId then [rs[0]] else []) + CartRecords(rs[1..], cartId)
  }

  lemma {:induction false} CartRecordsAppend(a: seq<ItemRecord>, b: seq<ItemRecord>, cartId: string)
    ensures CartRecords(a + b, cartId) == CartRecords(a, cartId) + CartRecords(b, cartId)
  {
    if a == [] {
      assert a + b == b;
    } else {
      assert (a + b)[1..] == a[1..] + b;
      CartRecordsAppend(a[1..], b, cartId);
    }
  }

  /** The query behind getCartFromData: the cart's records, at most MAX_CART_LIMIT of them. */
  function CartQuery(rs: seq<ItemRecord>, cartId: string): (r: seq<ItemRecord>)
    ensures |r| <= MAX_CART_LIMIT && |r| <= |CartRecords(rs, cartId)|
    ensures r == CartRecords(rs, cartId)[..|r|]
    ensures |CartRecords(rs, cartId)| <= MAX_CART_LIMIT ==> r == CartRecords(rs, cartId)
    ensures |CartRecords(rs, cartId)| > MAX_CART_LIMIT ==> |r| == MAX_CART_LIMIT
    ensures forall x :: x in r ==> x in rs && x.cartId == cartId
  {
    var all := CartRecords(rs, cartId);
    if |all| <= MAX_CART_LIMIT then all else all[..MAX_CART_LIMIT]
  }

  /** A record with the key and none before it is the first one. */
  lemma FirstRecordAt(rs: seq<ItemRecord>, cartId: string, itemId: string, i: nat)
    requires i < |rs| && HasKey(rs[i], cartId, itemId)
    requires forall j :: 0 <= j < i ==> !HasKey(rs[j], cartId, itemId)
    ensures FirstRecord(rs, cartId, itemId) == i
  {
  }

  /** With unique keys, any record with the key is the first (and only) one. */
  lemma KeyedRecordIsFirst(rs: seq<ItemRecord>, cartId: string, itemId: string, m: nat)
    requires UniqueKeys(rs) && m < |rs| && HasKey(rs[m], cartId, itemId)
    ensures FirstRecord(rs, cartId, itemId) == m
  {
    forall j | 0 <= j < m
      ensures !HasKey(rs[j], cartId, itemId)
    {
      assert !HasKey(rs[m], rs[j].cartId, rs[j].itemId);
    }
    FirstRecordAt(rs, cartId, itemId, m);
  }

  lemma NoRecord(rs: seq<ItemRecord>, cartId: string, itemId: string)
    requires forall j :: 0 <= j < |rs| ==> !HasKey(rs[j], cartId, itemId)
    ensures FirstRecord(rs, cartId, itemId) == |rs|
  {
  }

  /** A keyed overwrite in place: the rest of the store is untouched. */
  lemma {:induction false} ReplaceKeepsOthers(rs: seq<ItemRecord>, k: nat, x: ItemRecord)
    requires k < |rs| && HasKey(x, rs[k].cartId, rs[k].itemId)
    ensures OtherRecords(rs[k := x], x.cartId, x.itemId) == OtherRecords(rs, x.cartId, x.itemId)
  {
    var c, i := x.cartId, x.itemId;
    var pre, post := rs[..k], rs[k + 1..];
    assert rs == (pre + [rs[k]]) + post;
    assert rs[k := x] == (pre + [x]) + post;
    OtherRecordsAppend(pre + [rs[k]], post, c, i);
    OtherRecordsAppend(pre, [rs[k]], c, i);
    OtherRecordsAppend(pre + [x], post, c, i);
    OtherRecordsAppend(pre, [x], c, i);
    OtherRecordsOfKeyed(rs[k]);
    OtherRecordsOfKeyed(x);
  }

  lemma OtherRecordsOfKeyed(x: ItemRecord)
    ensures OtherRecords([x], x.cartId, x.itemId) == []
  {
    assert [x][1..] == [];
  }

  /** Removing the keyed record: the rest of the store is untouched. */
  lemma {:induction false} RemoveKeepsOthers(rs: seq<ItemRecord>, k: nat)
    requires k < |rs|
    ensures OtherRecords(rs[..k] + rs[k + 1..], rs[k].cartId, rs[k].itemId) == OtherRecords(rs, rs[k].cartId, rs[k].itemId)
  {
    var c, i := rs[k].cartId, rs[k].itemId;
    var pre, post := rs[..k], rs[k + 1..];
    assert rs == (pre + [rs[k]]) + post;
    OtherRecordsAppend(pre + [rs[k]], post, c, i);
    OtherRecordsAppend(pre, [rs[k]], c, i);
    OtherRecordsOfKeyed(rs[k]);
    OtherRecordsAppend(pre, post, c, i);
  }

  /**
   * addItemToCart on the record table: with no record for the key, one record with the given
   * title and count 1 is appended; otherwise that record's count goes up by one and its title
   * stays. The count law, the frame and the store invariant are its contract.
   */
  function WithItemAdded(rs: seq<ItemRecord>, cartId: string, itemId: string, itemTitle: string): (r: seq<ItemRecord>)
    ensures FirstRecord(rs, cartId, itemId) == |rs| ==> r == rs + [ItemRecord(cartId, itemId, itemTitle, 1)]
    ensures FirstRecord(rs, cartId, itemId) < |rs| ==>
              |r| == |rs| && r[FirstRecord(rs, cartId, itemId)].title == rs[FirstRecord(rs, cartId, itemId)].title
    ensures FirstRecord(r, cartId, itemId) == FirstRecord(rs, cartId, itemId) < |r|
    ensures CountOf(r, cartId, itemId) == CountOf(rs, cartId, itemId) + 1
    ensures OtherRecords(r, cartId, itemId) == OtherRecords(rs, cartId, itemId)
    ensures ValidRecords(rs) ==> ValidRecords(r)
  {
    var k := FirstRecord(rs, cartId, itemId);
    if k == |rs| then
      var inserted := ItemRecord(cartId, itemId, itemTitle, 1);
      NoRecord(rs, cartId, itemId);
      FirstRecordAt(rs + [inserted], cartId, itemId, |rs|);
      OtherRecordsAppend(rs, [inserted], cartId, itemId);
      rs + [inserted]
    else
      var bumped := rs[k].(count := rs[k].count + 1);
      FirstRecordAt(rs[k := bumped], cartId, itemId, k);
      ReplaceKeepsOthers(rs, k, bumped);
      rs[k := bumped]
  }

  /**
   * deleteItemFromCart on the record table: no record for the key leaves the table as it is;
   * a record with count 1 is removed; any other count goes down by one.
   */
  function WithItemDeleted(rs: seq<ItemRecord>, cartId: string, itemId: string): (r: seq<ItemRecord>)
    ensures FirstRecord(rs, cartId, itemId) == |rs| ==> r == rs
    ensures FirstRecord(rs, cartId, itemId) < |rs| && rs[FirstRecord(rs, cartId, itemId)].count == 1 ==>
              r == rs[..FirstRecord(rs, cartId, itemId)] + rs[FirstRecord(rs, cartId, itemId) + 1..]
    ensures FirstRecord(rs, cartId, itemId) < |rs| && rs[FirstRecord(rs, cartId, itemId)].count != 1 ==>
              |r| == |rs| && FirstRecord(r, cartId, itemId) == FirstRecord(rs, cartId, itemId) &&
              r[FirstRecord(rs, cartId, itemId)].title == rs[FirstRecord(rs, cartId, itemId)].title &&
              CountOf(r, cartId, itemId) == CountOf(rs, cartId, itemId) - 1
    ensures OtherRecords(r, cartId, itemId) == OtherRecords(rs, cartId, itemId)
    ensures ValidRecords(rs) ==> ValidRecords(r)
    ensures ValidRecords(rs) ==>
              CountOf(r, cartId, itemId) == if CountOf(rs, cartId, itemId) == 0 then 0 else CountOf(rs, cartId, itemId) - 1
  {
    var k := FirstRecord(rs, cartId, itemId);
    if k == |rs| then
      rs
    else if rs[k].count == 1 then
      var removed := rs[..k] + rs[k + 1..];
      RemoveKeepsOthers(rs, k);
      NoRecordIfUnique(rs, removed, k, cartId, itemId);
      removed
    else
      var dropped := rs[k].(count := rs[k].count - 1);
      FirstRecordAt(rs[k := dropped], cartId, itemId, k);
      ReplaceKeepsOthers(rs, k, dropped);
      rs[k := dropped]
  }

  /** On a valid store, deleting an item right after adding it restores the table exactly. */
  lemma AddThenDeleteRestores(rs: seq<ItemRecord>, cartId: string, itemId: string, itemTitle: string)
    requires ValidRecords(rs)
    ensures WithItemDeleted(WithItemAdded(rs, cartId, itemId, itemTitle), cartId, itemId) == rs
  {
    var k := FirstRecord(rs, cartId, itemId);
    var added := WithItemAdded(rs, cartId, itemId, itemTitle);
    if k == |rs| {
      assert added[..k] + added[k + 1..] == rs;
    } else {
      assert rs[k].count >= 1;
      assert added == rs[k := rs[k].(count := rs[k].count + 1)];
      assert added[k := added[k].(count := added[k].count - 1)] == rs;
    }
  }

  /** After removing the only record with a key, no record has it; uniqueness and positivity survive. */
  lemma NoRecordIfUnique(rs: seq<ItemRecord>, removed: seq<ItemRecord>, k: nat, cartId: string, itemId: string)
    requires k < |rs| && HasKey(rs[k], cartId, itemId) && removed == rs[..k] + rs[k + 1..]
    ensures UniqueKeys(rs) ==> FirstRecord(removed, cartId, itemId) == |removed|
    ensures ValidRecords(rs) ==> ValidRecords(removed)
  {
    assert forall j :: 0 <= j < |removed| ==> removed[j] == if j < k then rs[j] else rs[j + 1];
    if UniqueKeys(rs) {
      assert forall j :: 0 <= j < |removed| ==> !HasKey(removed[j], cartId, itemId);
      NoRecord(removed, cartId, itemId);
      forall i, j | 0 <= i < j < |removed|
        ensures !HasKey(removed[j], removed[i].cartId, removed[i].itemId)
      {
        var i' := if i < k then i else i + 1;
        var j' := if j < k then j else j + 1;
        assert i' < j' && removed[i] == rs[i'] && removed[j] == rs[j'];
      }
    }
  }

  /** The datastore, as the bot sees it. */
  class DataManager {
    var bindings: seq<CartBinding>
    var records: seq<ItemRecord>

    constructor ()
      ensures bindings == [] && records == []
    {
      bindings := [];
      records := [];
    }

    /** Puts a new binding entity; an existing binding for the conversation is not replaced. */
    method SaveCart(conversationId: string, cartId: string)
      modifies this
      ensures bindings == old(bindings) + [CartBinding(conversationId, cartId)]
      ensures records == old(records)
    {
      bindings := bindings + [CartBinding(conversationId, cartId)];
    }

    function GetCart(conversationId: string): Option<string>
      reads this
    {
      CartOfConversation(bindings, conversationId)
    }

    /** The first record with the key, if any. */
    function GetExistingItem(cartId: string, itemId: string): (r: Option<ItemRecord>)
      reads this
      ensures r.None? <==> forall j :: 0 <= j < |records| ==> !HasKey(records[j], cartId, itemId)
      ensures r.Some? ==> r.value in records && HasKey(r.value, cartId, itemId)
    {
      var k := FirstRecord(records, cartId, itemId);
      if k < |records| then Some(records[k]) else None
    }

    /** Read-modify-write of the keyed record, as one atomic step. */
    method AddItemToCart(cartId: string, itemId: string, itemTitle: string)
      modifies this
      ensures records == WithItemAdded(old(records), cartId, itemId, itemTitle)
      ensures bindings == old(bindings)
    {
      var currentItem := GetExistingItem(cartId, itemId);
      var key := FirstRecord(records, cartId, itemId);
      if currentItem.None? {
        records := records + [ItemRecord(cartId, itemId, itemTitle, 1)];
      } else {
        var count := currentItem.value.count;
        records := records[key := currentItem.value.(count := count + 1)];
      }
    }

    /** Read-modify-write of the keyed record, as one atomic step. */
    method DeleteItemFromCart(cartId: string, itemId: string)
      modifies this
      ensures records == WithItemDeleted(old(records), cartId, itemId)
      ensures bindings == old(bindings)
    {
      var currentItem := GetExistingItem(cartId, itemId);
      var key := FirstRecord(records, cartId, itemId);
      if currentItem.Some? {
        var count := currentItem.value.count;
        if count == 1 {
          records := records[..key] + records[key + 1..];
        } else {
          records := records[key := currentItem.value.(count := count - 1)];
        }
      }
    }

    function GetCartFromData(cartId: string): seq<ItemRecord>
      reads this
    {
      CartQuery(records, cartId)
    }
  }
}
