/** Checkout (backend/app/services/order_service.py): a non-empty cart whose
    every line is covered by its product's stock becomes a WhatsApp message
    (header, order summary, footer) and a `wa.me` link carrying it. Nothing
    is reserved or written: the only state change is the cart created on
    the way when the user had none. */
module OrderService {
  import opened Text
  import opened Models
  import opened Errors
  import opened Store
  import opened WhatsAppService
  import CartService

  const Footer: string := "\n\nQuedo atento a tus indicaciones de pago. ¡Gracias! ✨"

  /** The checkout of an empty cart: a base error, status 400. */
  const EmptyCart: Error := BaseError("Cart is empty")

  datatype Checkout = Checkout(message: string, whatsappText: string, whatsappLink: string)

  predicate Linked(products: map<Id, Product>, lines: seq<CartItem>)
  {
    forall x :: x in lines ==> x.productId in products
  }

  /** The line's product holds at least the quantity the line asks for. */
  predicate Covered(products: map<Id, Product>, item: CartItem)
    requires item.productId in products
  {
    products[item.productId].stockQuantity >= item.quantity
  }

  /** The position of the first line its product's stock does not cover. */
  function FirstShort(products: map<Id, Product>, lines: seq<CartItem>): (r: Option<nat>)
    requires Linked(products, lines)
    ensures r.Some? ==> r.value < |lines| && !Covered(products, lines[r.value])
                        && forall k :: 0 <= k < r.value ==> Covered(products, lines[k])
    ensures r.None? <==> forall k :: 0 <= k < |lines| ==> Covered(products, lines[k])
  {
    if lines == [] then None
    else if !Covered(products, lines[0]) then Some(0)
    else
      assert forall x :: x in lines[1..] ==> x in lines;
      match FirstShort(products, lines[1..])
      case None => None
      case Some(k) => Some(k + 1)
  }

  /** Each line with its product, in cart order. */
  function Pairs(products: map<Id, Product>, lines: seq<CartItem>): (pairs: seq<(Product, CartItem)>)
    requires Linked(products, lines)
    ensures Items(pairs) == lines
    ensures forall k :: 0 <= k < |pairs| ==>
              pairs[k].1.productId in products && pairs[k].0 == products[pairs[k].1.productId]
  {
    seq(|lines|, k requires 0 <= k < |lines| => assert lines[k] in lines; (products[lines[k].productId], lines[k]))
  }

  /** The stock check's outcome: the lines with their products, or the
      out-of-stock error of the first line not covered. */
  function StockVerdict(products: map<Id, Product>, lines: seq<CartItem>): Result<seq<(Product, CartItem)>>
    requires Linked(products, lines)
  {
    match FirstShort(products, lines)
    case None => Ok(Pairs(products, lines))
    case Some(k) =>
      var p := products[lines[k].productId];
      Err(OutOfStock(p.name, lines[k].quantity, p.stockQuantity))
  }

  /** The stock loop of a checkout: walks the lines in order, stops at the
      first one its product does not cover, and otherwise collects each
      line with its product. */
  method CheckStock(products: map<Id, Product>, lines: seq<CartItem>) returns (r: Result<seq<(Product, CartItem)>>)
    requires Linked(products, lines)
    ensures r == StockVerdict(products, lines)
  {
    var itemsWithProducts: seq<(Product, CartItem)> := [];
    for i := 0 to |lines|
      invariant itemsWithProducts == Pairs(products, lines[..i])
      invariant forall k :: 0 <= k < i ==> Covered(products, lines[k])
    {
      assert lines[i] in lines;
      var product := products[lines[i].productId];
      if product.stockQuantity < lines[i].quantity {
        assert !Covered(products, lines[i]);
        assert FirstShort(products, lines) == Some(i);
        return Err(OutOfStock(product.name, lines[i].quantity, product.stockQuantity));
      }
      itemsWithProducts := itemsWithProducts + [(product, lines[i])];
    }
    assert lines[..|lines|] == lines;
    r := Ok(itemsWithProducts);
  }

  /** The outcome of checking out `lines` under `header`, the phone number
      being the shop's configured one. */
  function Compose(products: map<Id, Product>, lines: seq<CartItem>, header: string, phone: string): Result<Checkout>
    requires Linked(products, lines)
  {
    if lines == [] then Err(EmptyCart)
    else
      match StockVerdict(products, lines)
      case Err(e) => Err(e)
      case Ok(pairs) =>
        var fullMessage := header + OrderSummary(pairs) + Footer;
        Ok(Checkout("Checkout prepared", fullMessage, GenerateWhatsappLink(phone, fullMessage)))
  }

  /** `prepare_checkout`: gets (or creates) the user's cart, refuses an empty
      one, checks every line's stock, and builds the message and its link. */
  method PrepareCheckout(db: Database, user: User, phone: string, now: Timestamp) returns (r: Result<Checkout>)
    requires db.Valid()
    modifies db
    ensures db.Valid() && CartEnsured(db, user.id, now) && db.items == old(db.items)
    ensures var cart := db.CartOf(user.id);
      r == Compose(db.products, db.LinesOf(cart.id), CheckoutHeader(user.username, cart.updatedAt), phone)
  {
    var cart := CartService.GetOrCreateCart(db, user.id, now);
    var lines := db.LinesOf(cart.id);
    if lines == [] {
      return Err(EmptyCart);
    }
    var checked := CheckStock(db.products, lines);
    if checked.Err? {
      return Err(checked.error);
    }
    var header := GenerateCheckoutMessage(cart, lines, user.username);
    var body := FormatOrderSummary(checked.value);
    var footer := Footer;
    var fullMessage := header + body + footer;
    var whatsappLink := GenerateWhatsappLink(phone, fullMessage);
    r := Ok(Checkout("Checkout prepared", fullMessage, whatsappLink));
  }

  /** A checkout succeeds exactly when the cart has lines and each line's
      product covers its quantity; an empty cart answers 400 "Cart is empty". */
  lemma CheckoutSucceedsIff(products: map<Id, Product>, lines: seq<CartItem>, header: string, phone: string)
    requires Linked(products, lines)
    ensures Compose(products, lines, header, phone).Ok? <==>
              lines != [] && forall k :: 0 <= k < |lines| ==> Covered(products, lines[k])
    ensures lines == [] ==> Compose(products, lines, header, phone) == Err(EmptyCart)
                            && EmptyCart.StatusCode() == 400 && EmptyCart.Message() == "Cart is empty"
  {
  }

  /** A refused checkout names the first line not covered: its product, the
      quantity asked for and the stock there is. */
  lemma CheckoutNamesFirstShortLine(products: map<Id, Product>, lines: seq<CartItem>, header: string,
                                    phone: string, i: nat)
    requires Linked(products, lines)
    requires i < |lines| && !Covered(products, lines[i])
    requires forall k :: 0 <= k < i ==> Covered(products, lines[k])
    ensures var p := products[lines[i].productId];
      Compose(products, lines, header, phone) == Err(OutOfStock(p.name, lines[i].quantity, p.stockQuantity))
  {
    assert FirstShort(products, lines) == Some(i);
  }

  /** A prepared message opens with the header, lists every line of the
      cart, totals exactly the cart's total, and closes with the footer; its
      link hands the same message to the shop's number. */
  lemma CheckoutMessageParts(products: map<Id, Product>, lines: seq<CartItem>, header: string, phone: string)
    requires Linked(products, lines)
    requires Compose(products, lines, header, phone).Ok?
    ensures var c := Compose(products, lines, header, phone).value;
      var pairs := Pairs(products, lines);
      && c.message == "Checkout prepared"
      && header <= c.whatsappText
      && (forall k :: 0 <= k < |lines| ==>
            IsSubstring(SummaryLine(products[lines[k].productId], lines[k]), c.whatsappText))
      && PairsTotal(pairs) == CartService.CalculateTotal(lines).0
      && c.whatsappText[|c.whatsappText| - |Footer|..] == Footer
      && ('?' !in phone ==> ParseLink(c.whatsappLink) == Some((CleanPhone(phone), c.whatsappText)))
  {
    var pairs := Pairs(products, lines);
    var c := Compose(products, lines, header, phone).value;
    var summary := OrderSummary(pairs);
    assert c.whatsappText == header + summary + Footer;
    assert header <= c.whatsappText;
    forall k | 0 <= k < |lines|
      ensures IsSubstring(SummaryLine(products[lines[k].productId], lines[k]), c.whatsappText)
    {
      SummaryMentionsEveryPair(pairs, k);
      IsSubstringOfConcat(header, summary, Footer);
      IsSubstringTrans(SummaryLine(pairs[k].0, pairs[k].1), summary, c.whatsappText);
    }
    assert Items(pairs) == lines;
    PairsTotalIsCartTotal(pairs);
    if '?' !in phone {
      WhatsappLinkRoundTrip(phone, c.whatsappText);
    }
  }

  /** The prepared text, piece by piece: the header, one summary line per
      cart line in cart order, the total line carrying the cart's total, and
      the footer. */
  lemma CheckoutTextLayout(products: map<Id, Product>, lines: seq<CartItem>, header: string, phone: string)
    requires Linked(products, lines)
    requires Compose(products, lines, header, phone).Ok?
    ensures Compose(products, lines, header, phone).value.whatsappText
              == header + Concat(Lines(Pairs(products, lines)))
                 + TotalLine(CartService.CalculateTotal(lines).0) + Footer
  {
    var pairs := Pairs(products, lines);
    assert StockVerdict(products, lines) == Ok(pairs);
    var text := Compose(products, lines, header, phone).value.whatsappText;
    var summary, body := OrderSummary(pairs), Concat(Lines(pairs));
    assert text == header + summary + Footer;
    PairsTotalIsCartTotal(pairs);
    var total := TotalLine(CartService.CalculateTotal(lines).0);
    assert summary == body + total;
    RegroupFour(header, body, total, Footer);
  }

  lemma RegroupFour(a: string, b: string, c: string, d: string)
    ensures a + (b + c) + d == a + b + c + d
  {
  }
}
