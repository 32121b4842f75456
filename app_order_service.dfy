/** The second checkout (app/services/order_service.py): the same empty-cart
    and stock checks, summary, footer and link as the backend one, under a
    header built in place that names the user by username and email instead
    of a date. */
module AppOrderService {
  import opened Text
  import opened Models
  import opened Errors
  import opened Store
  import opened WhatsAppService
  import opened OrderService
  import CartService

  /** The header: banner, greeting, username line, email line, cart heading. */
  function AppHeader(username: string, email: string): string
  {
    Banner + Greeting + ("👤 *Cliente:* " + username + "\n") + ("📧 *Email:* " + email + "\n\n") + DetailHeading
  }

  /** The header opens with the banner, names the user by username and by
      email, and closes with the cart heading. */
  lemma AppHeaderParts(username: string, email: string)
    ensures var h := AppHeader(username, email);
      Banner <= h && IsSubstring(username, h) && IsSubstring(email, h)
      && h[|h| - |DetailHeading|..] == DetailHeading
  {
    var userLine := "👤 *Cliente:* " + username + "\n";
    var emailLine := "📧 *Email:* " + email + "\n\n";
    FivePieces(Banner, Greeting, userLine, emailLine, DetailHeading);
    IsSubstringOfConcat("👤 *Cliente:* ", username, "\n");
    IsSubstringTrans(username, userLine, AppHeader(username, email));
    IsSubstringOfConcat("📧 *Email:* ", email, "\n\n");
    IsSubstringTrans(email, emailLine, AppHeader(username, email));
  }

  /** `prepare_checkout` of the app package: the checkout outcome under the
      username-and-email header. */
  method PrepareCheckout(db: Database, user: User, phone: string, now: Timestamp) returns (r: Result<Checkout>)
    requires db.Valid()
    modifies db
    ensures db.Valid() && CartEnsured(db, user.id, now) && db.items == old(db.items)
    ensures r == Compose(db.products, db.LinesOf(db.CartOf(user.id).id), AppHeader(user.username, user.email), phone)
  {
    var cart := CartService.GetOrCreateCart(db, user.id, now);
    var lines := db.LinesOf(cart.id);
    if lines == [] {
      return Err(EmptyCart);
    }
    var checked := CheckStock(db.products, lines);
    if checked.Err? {
      return Err(checked.error);
    }
    var header := Banner;
    header := header + Greeting;
    header := header + ("👤 *Cliente:* " + user.username + "\n");
    header := header + ("📧 *Email:* " + user.email + "\n\n");
    header := header + DetailHeading;
    var body := FormatOrderSummary(checked.value);
    var footer := Footer;
    var fullMessage := header + body + footer;
    var whatsappLink := GenerateWhatsappLink(phone, fullMessage);
    r := Ok(Checkout("Checkout prepared", fullMessage, whatsappLink));
  }

  /** The two checkouts of one cart differ only in their headers: they
      succeed and fail together, fail with the same error, and on success
      carry the same summary and footer after their own header. */
  lemma ChecksAgree(products: map<Id, Product>, lines: seq<CartItem>, h1: string, h2: string, phone: string)
    requires Linked(products, lines)
    ensures Compose(products, lines, h1, phone).Ok? <==> Compose(products, lines, h2, phone).Ok?
    ensures Compose(products, lines, h1, phone).Err? ==>
              Compose(products, lines, h1, phone) == Compose(products, lines, h2, phone)
    ensures Compose(products, lines, h1, phone).Ok? ==>
              var t1 := Compose(products, lines, h1, phone).value.whatsappText;
              var t2 := Compose(products, lines, h2, phone).value.whatsappText;
              |h1| <= |t1| && |h2| <= |t2| && t1[|h1|..] == t2[|h2|..]
  {
    if Compose(products, lines, h1, phone).Ok? {
      var summary := OrderSummary(Pairs(products, lines));
      AfterFirst(h1, summary, Footer);
      AfterFirst(h2, summary, Footer);
    }
  }
}
