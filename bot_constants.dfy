/**
 * The constants the bot is driven by: suggestion labels, the command tokens the router
 * accepts, the help pattern, the canned replies and the catalog's title-to-image entries.
 */
module BotConstants {
  import opened Text

  // Suggestion chip labels
  const VIEW_CART_TEXT: string := "View Cart"
  const CONTINUE_SHOPPING_TEXT: string := "Continue Shopping"
  const SHOP_TEXT: string := "Shop Our Collection"
  const HOURS_TEXT: string := "Inquire About Hours"
  const HELP_TEXT: string := "Help"
  const ADD_ITEM_TEXT: string := "\U{1F6D2} Add to Cart"
  const INCREMENT_COUNT_TEXT: string := "\U{2795}"
  const DECREMENT_COUNT_TEXT: string := "\U{2796}"

  // Command tokens
  const DELETE_ITEM_COMMAND: string := "del-cart-"
  const ADD_ITEM_COMMAND: string := "add-cart-"
  const VIEW_CART_COMMAND: string := "cart"
  const HOURS_COMMAND: string := "hours"
  const SHOP_COMMAND: string := "shop"

  // Canned replies
  const RSP_DEFAULT: string :=
    "Sorry, I didn't quite get that. Perhaps you were looking for one of these options?"
  const RSP_HOURS_TEXT: string := "We are open Monday - Friday from 9 A.M. to 5 P.M."
  const RSP_HELP_TEXT: string :=
    "Welcome to the help menu! This program will echo any text that you enter that is not part"
    + " of a supported command. The supported commands are: \n\n"
    + "Help - Shows the list of supported commands and functions\n\n"
    + "Inquire About Hours - Will respond with the times that our store is open.\n\n"
    + "Shop Our Collection/Continue Shopping - Will respond with a collection of mock"
    + " inventory items.\n\n"
    + "View Cart - Will respond with all of the items in your cart.\n\n"

  /** The catalog's title-to-image entries, in declaration order. */
  const INVENTORY_IMAGES: seq<(string, string)> := [
    ("Blue Running Shoes",
     "https://firebasestorage.googleapis.com/v0/b/bm-shopping-cart-ycsl.appspot.com/o/blue_running_shoes.jpg?alt=media"),
    ("Neon Running Shoes",
     "https://firebasestorage.googleapis.com/v0/b/bm-shopping-cart-ycsl.appspot.com/o/neon_running_shoes.jpg?alt=media"),
    ("Pink Running Shoes",
     "https://firebasestorage.googleapis.com/v0/b/bm-shopping-cart-ycsl.appspot.com/o/pink_running_shoes.jpg?alt=media"),
    ("Teal Running Shoes",
     "https://firebasestorage.googleapis.com/v0/b/bm-shopping-cart-ycsl.appspot.com/o/teal_running_shoes.jpg?alt=media"),
    ("White Running Shoes",
     "https://firebasestorage.googleapis.com/v0/b/bm-shopping-cart-ycsl.appspot.com/o/white_running_shoe.jpg?alt=media")
  ]

  /** `\s` in a Java regular expression: space, tab, newline, vertical tab, form feed, return. */
  predicate IsRegexSpace(c: char) {
    c == ' ' || c == '\t' || c == '\n' || c == '\U{B}' || c == '\U{C}' || c == '\r'
  }

  /**
   * Whole-string match of the help pattern `^help.*|^commands\s.*|see the help menu`, as
   * `String.matches` performs it; `.*` is taken to accept any suffix.
   */
  predicate MatchesHelp(t: string) {
    StartsWith(t, "help")
    || (StartsWith(t, "commands") && |t| > 8 && IsRegexSpace(t[8]))
    || t == "see the help menu"
  }

  /** Both item prefixes are nine characters long, and neither is a prefix of the other. */
  lemma ItemPrefixes()
    ensures |ADD_ITEM_COMMAND| == 9 && |DELETE_ITEM_COMMAND| == 9
    ensures forall s :: !(StartsWith(s, ADD_ITEM_COMMAND) && StartsWith(s, DELETE_ITEM_COMMAND))
  {
    forall s | StartsWith(s, ADD_ITEM_COMMAND)
      ensures !StartsWith(s, DELETE_ITEM_COMMAND)
    {
      assert s[0] == ADD_ITEM_COMMAND[0] == 'a';
    }
  }

  /** The whole-text commands survive normalization unchanged. */
  lemma CommandsAreNormal()
    ensures Normalize(VIEW_CART_COMMAND) == VIEW_CART_COMMAND
    ensures Normalize(HOURS_COMMAND) == HOURS_COMMAND
    ensures Normalize(SHOP_COMMAND) == SHOP_COMMAND
  {
    NormalIsFixed(VIEW_CART_COMMAND);
    NormalIsFixed(HOURS_COMMAND);
    NormalIsFixed(SHOP_COMMAND);
  }

  /** The help chip's postback normalizes to a text the help pattern accepts. */
  lemma HelpPostbackMatches()
    ensures Normalize(HELP_TEXT) == "help"
    ensures MatchesHelp(Normalize(HELP_TEXT))
  {
    assert ToLower(HELP_TEXT) == "help";
    NormalIsFixed("help");
  }

  /** The help pattern does not shadow the later rules: no other command token matches it. */
  lemma CommandsMissHelp(id: string)
    ensures !MatchesHelp(VIEW_CART_COMMAND)
    ensures !MatchesHelp(HOURS_COMMAND)
    ensures !MatchesHelp(SHOP_COMMAND)
    ensures !MatchesHelp(ADD_ITEM_COMMAND + id)
    ensures !MatchesHelp(DELETE_ITEM_COMMAND + id)
  {
    var a := ADD_ITEM_COMMAND + id;
    var d := DELETE_ITEM_COMMAND + id;
    assert a[0] == 'a' && d[0] == 'd';
    assert HOURS_COMMAND[..4][1] != "help"[1];
    assert a[..4][0] != "help"[0] && a[..8][0] != "commands"[0];
    assert d[..4][0] != "help"[0] && d[..8][0] != "commands"[0];
    assert a != "see the help menu" by { assert "see the help menu"[0] == 's'; }
    assert d != "see the help menu" by { assert "see the help menu"[0] == 's'; }
  }

  /** The catalog titles are pairwise distinct, as the keys of a map are. */
  lemma CatalogTitlesDistinct()
    ensures forall i, j :: 0 <= i < j < |INVENTORY_IMAGES| ==> INVENTORY_IMAGES[i].0 != INVENTORY_IMAGES[j].0
  {
    forall i, j | 0 <= i < j < |INVENTORY_IMAGES|
      ensures INVENTORY_IMAGES[i].0 != INVENTORY_IMAGES[j].0
    {
      assert INVENTORY_IMAGES[i].0[0] != INVENTORY_IMAGES[j].0[0];
    }
  }
}
