/**
 * The product catalog: immutable items whose id is derived from the title, and the mock
 * inventory built once from a title-to-image table, with lookup by id.
 */
module Inventory {
  import opened Wrappers
  import opened Text

  /**
   * The name-based UUID of a title's bytes (version 3, section 4.3 of RFC 4122), rendered as
   * text. The hash itself is not modelled: it is a deterministic function handed in.
   */
  type NameUuid = string -> string

  /** One catalog product. Java's `double` price is kept as a `real`; nothing computes with it. */
  datatype InventoryItem = InventoryItem(id: string, title: string, mediaUrl: string, price: real)

  /** The two-argument constructor: the id is the title's name UUID, the price Java's default 0. */
  function NewItem(nameUuid: NameUuid, itemTitle: string, itemMediaUrl: string): InventoryItem {
    InventoryItem(nameUuid(itemTitle), itemTitle, itemMediaUrl, 0.0)
  }

  /** The three-argument constructor: the two-argument one, then the price. */
  function NewPricedItem(nameUuid: NameUuid, itemTitle: string, itemMediaUrl: string, itemPrice: real): InventoryItem {
    NewItem(nameUuid, itemTitle, itemMediaUrl).(price := itemPrice)
  }

  /** The getters return what the constructors were given, and the id depends on the title alone. */
  lemma ItemFields(nameUuid: NameUuid, title: string, url: string, otherUrl: string, price: real)
    ensures NewItem(nameUuid, title, url).title == title
    ensures NewItem(nameUuid, title, url).mediaUrl == url
    ensures NewItem(nameUuid, title, url).id == NewItem(nameUuid, title, otherUrl).id
    ensures NewPricedItem(nameUuid, title, url, price).id == NewItem(nameUuid, title, url).id
    ensures NewPricedItem(nameUuid, title, url, price).title == title
    ensures NewPricedItem(nameUuid, title, url, price).mediaUrl == url
    ensures NewPricedItem(nameUuid, title, url, price).price == price
  {
  }

  /** The textual form `UUID.toString` produces: 36 chars of lower-case hex digits and dashes. */
  predicate IsUuidText(s: string) {
    |s| == 36 && forall i :: 0 <= i < |s| ==> ('0' <= s[i] <= '9' || 'a' <= s[i] <= 'f' || s[i] == '-')
  }

  /** getItem's scan from index `i`: the first later index whose item has the id, or the length when there is none. */
  function FirstWithId(items: seq<InventoryItem>, id: string, i: nat): (k: nat)
    requires i <= |items|
    ensures i <= k <= |items|
    ensures k < |items| ==> items[k].id == id
    decreases |items| - i
  {
    if i == |items| then i
    else if items[i].id == id then i
    else FirstWithId(items, id, i + 1)
  }

  /** Every item the scan passes over has another id. */
  lemma {:induction false} PassedOverHaveOtherIds(items: seq<InventoryItem>, id: string, i: nat)
    requires i <= |items|
    ensures forall j :: i <= j < FirstWithId(items, id, i) ==> items[j].id != id
    decreases |items| - i
  {
    if i < |items| && items[i].id != id {
      PassedOverHaveOtherIds(items, id, i + 1);
    }
  }

  /** The mock inventory: an item list fixed when it is built. */
  datatype MockInventory = MockInventory(items: seq<InventoryItem>) {

    function GetInventory(): seq<InventoryItem> {
      items
    }

    /** The first item, in inventory order, whose id equals `itemId`; None when there is none. */
    function GetItem(itemId: string): (r: Option<InventoryItem>)
      ensures r.None? <==> forall j :: 0 <= j < |items| ==> items[j].id != itemId
      ensures r.Some? ==> r.value.id == itemId
    {
      PassedOverHaveOtherIds(items, itemId, 0);
      var k := FirstWithId(items, itemId, 0);
      if k < |items| then Some(items[k]) else None
    }
  }

  /** getItem returns the first item, in inventory order, with the id. */
  lemma GetItemIsFirstMatch(inv: MockInventory, itemId: string)
    ensures inv.GetItem(itemId).Some? ==>
              exists k :: 0 <= k < |inv.items| && inv.items[k] == inv.GetItem(itemId).value &&
                          forall j :: 0 <= j < k ==> inv.items[j].id != itemId
  {
    var k := FirstWithId(inv.items, itemId, 0);
    PassedOverHaveOtherIds(inv.items, itemId, 0);
    if k < |inv.items| {
      assert inv.items[k] == inv.GetItem(itemId).value;
    }
  }

  /** The inventory the constructor builds from a title-to-image table, one item per entry. */
  function Catalog(nameUuid: NameUuid, nameToMedia: seq<(string, string)>): MockInventory {
    MockInventory(seq(|nameToMedia|, i requires 0 <= i < |nameToMedia| =>
                        NewItem(nameUuid, nameToMedia[i].0, nameToMedia[i].1)))
  }

  /** The constructor's builder loop: one item per table entry, in table order. */
  method NewMockInventory(nameUuid: NameUuid, nameToMedia: seq<(string, string)>) returns (inv: MockInventory)
    ensures |inv.items| == |nameToMedia|
    ensures forall i :: 0 <= i < |nameToMedia| ==>
              inv.items[i] == NewItem(nameUuid, nameToMedia[i].0, nameToMedia[i].1)
    ensures inv == Catalog(nameUuid, nameToMedia)
  {
    var builder: seq<InventoryItem> := [];
    for i := 0 to |nameToMedia|
      invariant |builder| == i
      invariant forall j :: 0 <= j < i ==> builder[j] == NewItem(nameUuid, nameToMedia[j].0, nameToMedia[j].1)
    {
      builder := builder + [NewItem(nameUuid, nameToMedia[i].0, nameToMedia[i].1)];
    }
    inv := MockInventory(builder);
  }

  /** One item per entry; each item's (title, image) pair is an entry and its id the title's UUID. */
  lemma CatalogFromEntries(nameUuid: NameUuid, nameToMedia: seq<(string, string)>)
    ensures |Catalog(nameUuid, nameToMedia).items| == |nameToMedia|
    ensures forall it :: it in Catalog(nameUuid, nameToMedia).items ==>
              (it.title, it.mediaUrl) in nameToMedia && it.id == nameUuid(it.title)
  {
    var items := Catalog(nameUuid, nameToMedia).items;
    forall it | it in items
      ensures (it.title, it.mediaUrl) in nameToMedia && it.id == nameUuid(it.title)
    {
      var i :| 0 <= i < |items| && items[i] == it;
      assert nameToMedia[i] == (it.title, it.mediaUrl);
    }
  }

  /**
   * Looking up a listed item's id finds an item with that id; when the ids are distinct it
   * finds that very item.
   */
  lemma GetListedItem(inv: MockInventory, i: nat)
    requires i < |inv.items|
    ensures inv.GetItem(inv.items[i].id).Some?
    ensures inv.GetItem(inv.items[i].id).value.id == inv.items[i].id
    ensures (forall j, k :: 0 <= j < k < |inv.items| ==> inv.items[j].id != inv.items[k].id) ==>
              inv.GetItem(inv.items[i].id) == Some(inv.items[i])
  {
    var k := FirstWithId(inv.items, inv.items[i].id, 0);
    PassedOverHaveOtherIds(inv.items, inv.items[i].id, 0);
    assert k <= i;
  }

  /** When the hash renders UUID text, every catalog id is UUID text. */
  lemma CatalogIdsAreUuids(nameUuid: NameUuid, nameToMedia: seq<(string, string)>)
    requires forall t :: IsUuidText(nameUuid(t))
    ensures forall i :: 0 <= i < |Catalog(nameUuid, nameToMedia).items| ==>
              IsUuidText(Catalog(nameUuid, nameToMedia).items[i].id)
  {
  }
}
