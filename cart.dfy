/** The immutable cart snapshots handed to the bot after every read of the store. */
module Carts {

  /** One line of a cart: the item's id, the title stored with it, and how many are held. */
  datatype CartItem = CartItem(id: string, title: string, count: int)

  /** A cart: its id and its items in query order. */
  datatype Cart = Cart(cartId: string, items: seq<CartItem>)
}
