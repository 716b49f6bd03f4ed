/**
 * The callback servlet: one parsed webhook payload per call. A user message or a request with
 * an id is handled at most once per id, the ids seen so far kept in a cache; a payload with
 * neither (a survey response) is handled every time. Only a suggestion's postback data among
 * the non-message events reaches the bot; typing and receipt events are only logged.
 */
module Servlet {
  import opened Wrappers
  import opened Inventory
  import opened Carts
  import opened DataStore
  import opened CartManager
  import opened BotConstants
  import opened Bot

  datatype UserMessage = UserMessage(messageId: string, text: string)
  datatype Receipt = Receipt(receiptType: string, messageId: string)

  /** The fields of a webhook payload the servlet looks at; an absent JSON member is None. */
  datatype Payload = Payload(
    conversationId: string,
    message: Option<UserMessage>,
    requestId: Option<string>,
    suggestionPostback: Option<string>,
    userStatusIsTyping: Option<bool>,
    receipts: Option<seq<Receipt>>)

  /** The id a payload is de-duplicated by: the message id, else the request id, else none. */
  function EventId(p: Payload): Option<string> {
    if p.message.Some? then Some(p.message.value.messageId)
    else p.requestId
  }

  /** handleNonMessageResponse: only a suggestion response yields a text for the bot. */
  function NonMessageText(p: Payload): Option<string> {
    p.suggestionPostback
  }

  /** The outcome of one payload: the text handed to the bot, if any, and the new id cache. */
  datatype Dispatch = Dispatch(routed: Option<string>, seen: set<string>)

  /** doPost's branch structure over the id cache `seen`. */
  function Decide(p: Payload, seen: set<string>): (d: Dispatch)
    ensures EventId(p).Some? ==> d.seen == seen + {EventId(p).value}
    ensures EventId(p).None? ==> d.seen == seen && d.routed == NonMessageText(p)
    ensures EventId(p).Some? && EventId(p).value in seen ==> d.routed.None?
    ensures EventId(p).Some? && EventId(p).value !in seen ==>
              d.routed == (if p.message.Some? then Some(p.message.value.text) else NonMessageText(p))
  {
    if p.message.Some? then
      var messageId := p.message.value.messageId;
      if messageId !in seen then Dispatch(Some(p.message.value.text), seen + {messageId})
      else Dispatch(None, seen)
    else if p.requestId.Some? then
      var requestId := p.requestId.value;
      if requestId !in seen then Dispatch(NonMessageText(p), seen + {requestId})
      else Dispatch(None, seen)
    else
      Dispatch(NonMessageText(p), seen)
  }

  /** A payload delivered twice in a row is handled only the first time. */
  lemma RedeliveryDropped(p: Payload, seen: set<string>)
    requires EventId(p).Some?
    ensures Decide(p, Decide(p, seen).seen).routed.None?
    ensures Decide(p, Decide(p, seen).seen).seen == Decide(p, seen).seen
  {
  }

  /** The cache after a run of payloads, starting from `seen`. */
  function SeenAfter(ps: seq<Payload>, seen: set<string>): set<string> {
    if ps == [] then seen
    else Decide(ps[|ps| - 1], SeenAfter(ps[..|ps| - 1], seen)).seen
  }

  /** The text the j-th payload of a run hands to the bot. */
  function RoutedAt(ps: seq<Payload>, seen: set<string>, j: nat): Option<string>
    requires j < |ps|
  {
    Decide(ps[j], SeenAfter(ps[..j], seen)).routed
  }

  /** The cache only grows along a run. */
  lemma {:induction false} SeenGrows(ps: seq<Payload>, seen: set<string>, a: nat, b: nat)
    requires a <= b <= |ps|
    ensures SeenAfter(ps[..a], seen) <= SeenAfter(ps[..b], seen)
  {
    if a < b {
      SeenGrows(ps, seen, a, b - 1);
      assert ps[..b][..b - 1] == ps[..b - 1];
    }
  }

  /** In any run, a later payload with the id of an earlier one is never handed to the bot. */
  lemma DuplicateNeverRouted(ps: seq<Payload>, seen: set<string>, i: nat, j: nat)
    requires i < j < |ps| && EventId(ps[i]).Some? && EventId(ps[j]) == EventId(ps[i])
    ensures RoutedAt(ps, seen, j).None?
  {
    assert ps[..i + 1][..i] == ps[..i];
    SeenGrows(ps, seen, i + 1, j);
  }

  /** The servlet: its id cache, the replies sent so far, the shared store and the hash for item ids. */
  class AgentCallback {
    var syncCache: set<string>
    var outbox: seq<Reply>
    const dm: DataManager
    const nameUuid: NameUuid

    constructor(nameUuid: NameUuid, dataManager: DataManager)
      ensures syncCache == {} && outbox == []
      ensures this.nameUuid == nameUuid && dm == dataManager
    {
      syncCache := {};
      outbox := [];
      this.nameUuid := nameUuid;
      dm := dataManager;
    }

    /**
     * Handles one payload: the cache is updated as Decide says, and a text handed to the bot is
     * routed by a fresh bot on the shared store, whose reply (if any) is sent.
     */
    method DoPost(p: Payload, freshCartId: string)
      modifies this, dm
      ensures syncCache == Decide(p, old(syncCache)).seen
      ensures Decide(p, old(syncCache)).routed.None? ==>
                outbox == old(outbox) && dm.records == old(dm.records) && dm.bindings == old(dm.bindings)
      ensures Decide(p, old(syncCache)).routed.Some? ==>
                var action := Route(Decide(p, old(syncCache)).routed.value);
                var cartId := ResolvedCartId(old(dm.bindings), p.conversationId, freshCartId);
                var storeInventory := Catalog(nameUuid, INVENTORY_IMAGES);
                dm.records == StoreEffect(storeInventory, old(dm.records), cartId, action) &&
                outbox == old(outbox) + Sent(ReplyFor(storeInventory, Cart(cartId, CartItemsOf(dm.records, cartId)), action))
      ensures Decide(p, old(syncCache)).routed.Some? ==>
                BindingsAfterRouting(old(dm.bindings), dm.bindings, p.conversationId, freshCartId)
    {
      if p.message.Some? {
        var message := p.message.value.text;
        var messageId := p.message.value.messageId;
        if messageId !in syncCache {
          syncCache := syncCache + {messageId};
          RouteTextResponse(p.conversationId, message, freshCartId);
        }
      } else if p.requestId.Some? {
        var requestId := p.requestId.value;
        if requestId !in syncCache {
          syncCache := syncCache + {requestId};
          HandleNonMessageResponse(p, freshCartId);
        }
      } else {
        HandleNonMessageResponse(p, freshCartId);
      }
    }

    /** Routes a suggestion's postback data; typing and receipt events change nothing. */
    method HandleNonMessageResponse(p: Payload, freshCartId: string)
      modifies this, dm
      ensures syncCache == old(syncCache)
      ensures NonMessageText(p).None? ==>
                outbox == old(outbox) && dm.records == old(dm.records) && dm.bindings == old(dm.bindings)
      ensures NonMessageText(p).Some? ==>
                var action := Route(NonMessageText(p).value);
                var cartId := ResolvedCartId(old(dm.bindings), p.conversationId, freshCartId);
                var storeInventory := Catalog(nameUuid, INVENTORY_IMAGES);
                dm.records == StoreEffect(storeInventory, old(dm.records), cartId, action) &&
                outbox == old(outbox) + Sent(ReplyFor(storeInventory, Cart(cartId, CartItemsOf(dm.records, cartId)), action))
      ensures NonMessageText(p).Some? ==>
                BindingsAfterRouting(old(dm.bindings), dm.bindings, p.conversationId, freshCartId)
    {
      if p.suggestionPostback.Some? {
        RouteTextResponse(p.conversationId, p.suggestionPostback.value, freshCartId);
      }
    }

    /** A new bot per text, on the shared store; its reply, if any, goes out. */
    method RouteTextResponse(conversationId: string, message: string, freshCartId: string)
      modifies this, dm
      ensures syncCache == old(syncCache)
      ensures var action := Route(message);
              var cartId := ResolvedCartId(old(dm.bindings), conversationId, freshCartId);
              var storeInventory := Catalog(nameUuid, INVENTORY_IMAGES);
              dm.records == StoreEffect(storeInventory, old(dm.records), cartId, action) &&
              outbox == old(outbox) + Sent(ReplyFor(storeInventory, Cart(cartId, CartItemsOf(dm.records, cartId)), action))
      ensures BindingsAfterRouting(old(dm.bindings), dm.bindings, conversationId, freshCartId)
    {
      var bot := new CartBot(nameUuid, dm);
      var reply := bot.RouteMessage(message, conversationId, freshCartId);
      if reply.Some? {
        outbox := outbox + [reply.value];
      }
    }
  }

  /**
   * The binding table after a routed text: a conversation without a cart gets one binding for
   * the fresh id appended, a bound one keeps the table as it was, and either way the
   * conversation is then bound to the cart id the text was routed on.
   */
  predicate BindingsAfterRouting(before: seq<CartBinding>, after: seq<CartBinding>, conversationId: string, freshCartId: string) {
    (CartOfConversation(before, conversationId).None? ==> after == before + [CartBinding(conversationId, freshCartId)]) &&
    (CartOfConversation(before, conversationId).Some? ==> after == before) &&
    CartOfConversation(after, conversationId) == Some(ResolvedCartId(before, conversationId, freshCartId))
  }

  /** A later text of the same conversation is routed on the same cart, whatever fresh id it is offered. */
  lemma SameConversationSameCart(before: seq<CartBinding>, after: seq<CartBinding>, conversationId: string,
                                 freshCartId: string, laterFreshCartId: string)
    requires BindingsAfterRouting(before, after, conversationId, freshCartId)
    ensures ResolvedCartId(after, conversationId, laterFreshCartId) == ResolvedCartId(before, conversationId, freshCartId)
    ensures BindingsAfterRouting(after, after, conversationId, laterFreshCartId)
  {
  }

  /** The messages a handler result puts on the wire: none or one. */
  function Sent(reply: Option<Reply>): seq<Reply> {
    match reply
    case Some(m) => [m]
    case None => []
  }
}
