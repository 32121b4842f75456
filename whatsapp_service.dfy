/** The WhatsApp message builder (backend/app/services/whatsapp_service.py):
    the greeting header of a checkout message, the per-line order summary
    with its total, and the `wa.me` deep link that carries a message. */
module WhatsAppService {
  import opened Text
  import opened Models
  import opened Percent
  import CartService

  // ---------------------------------------------------------------- header

  const Banner: string := "🌸 *Nuevo Pedido - Essenciarabe*\n\n"
  const Greeting: string := "Hola Hector, me gustaría realizar un pedido:\n\n"
  const DetailHeading: string := "🛒 *Detalle del Carrito:*\n"

  /** The header of a checkout message for a customer on a date: five lines. */
  function CheckoutHeader(customer: string, date: string): string
  {
    Banner + Greeting + ("👤 *Cliente:* " + customer + "\n") + ("📅 *Fecha:* " + date + "\n\n") + DetailHeading
  }

  /** The header opens with the banner, names the customer and the date, and
      closes with the heading under which the cart's lines follow. */
  lemma CheckoutHeaderParts(customer: string, date: string)
    ensures var h := CheckoutHeader(customer, date);
      Banner <= h && IsSubstring(customer, h) && IsSubstring(date, h)
      && h[|h| - |DetailHeading|..] == DetailHeading
  {
    var clientLine := "👤 *Cliente:* " + customer + "\n";
    var dateLine := "📅 *Fecha:* " + date + "\n\n";
    FivePieces(Banner, Greeting, clientLine, dateLine, DetailHeading);
    IsSubstringOfConcat("👤 *Cliente:* ", customer, "\n");
    IsSubstringTrans(customer, clientLine, CheckoutHeader(customer, date));
    IsSubstringOfConcat("📅 *Fecha:* ", date, "\n\n");
    IsSubstringTrans(date, dateLine, CheckoutHeader(customer, date));
  }

  /** `generate_checkout_message`: the header for the cart's last update.
      The lines' total is summed and then discarded, so the result does not
      depend on the lines at all. */
  method GenerateCheckoutMessage(cart: Cart, lines: seq<CartItem>, customer: string) returns (message: string)
    ensures message == CheckoutHeader(customer, cart.updatedAt)
  {
    message := Banner;
    message := message + Greeting;
    message := message + ("👤 *Cliente:* " + customer + "\n");
    message := message + ("📅 *Fecha:* " + cart.updatedAt + "\n\n");
    message := message + DetailHeading;
    // The source sums the lines here and then never uses the sum.
    var totalAmount := 0;
    for i := 0 to |lines| {
      var subtotal := lines[i].quantity * lines[i].priceAtAddition;
      totalAmount := totalAmount + subtotal;
    }
  }

  // ------------------------------------------------------------------ link

  const LinkPrefix: string := "https://wa.me/"

  /** The phone number with every '+' and then every space removed. */
  function CleanPhone(phone: string): string
  {
    RemoveChar(RemoveChar(phone, '+'), ' ')
  }

  /** Cleaning works character by character and keeps the order: the cleaned
      text of a concatenation is the concatenation of the cleaned parts, and
      a single character is dropped exactly when it is a '+' or a space. */
  lemma CleanPhoneKeepsOrder(a: string, b: string, x: char)
    ensures CleanPhone(a + b) == CleanPhone(a) + CleanPhone(b)
    ensures CleanPhone([x]) == if x == '+' || x == ' ' then "" else [x]
  {
    RemoveCharAppend(a, b, '+');
    RemoveCharAppend(RemoveChar(a, '+'), RemoveChar(b, '+'), ' ');
    assert RemoveChar([x], '+') == (if x == '+' then "" else [x]) by {
      assert [x][1..] == [];
    }
    if x != '+' {
      assert [x][1..] == [];
    }
  }

  /** Cleaning drops exactly the '+' signs and the spaces: every other
      character keeps its number of occurrences. */
  lemma CleanPhoneKeepsOthers(phone: string, d: char)
    ensures '+' !in CleanPhone(phone) && ' ' !in CleanPhone(phone)
    ensures d != '+' && d != ' ' ==> multiset(CleanPhone(phone))[d] == multiset(phone)[d]
  {
    var once := RemoveChar(phone, '+');
    assert multiset(once)['+'] == 0;
    RemoveCharCounts(once, ' ', '+');
    if d != '+' && d != ' ' {
      RemoveCharCounts(phone, '+', d);
      RemoveCharCounts(once, ' ', d);
    }
  }

  /** `generate_whatsapp_link`: the cleaned number and the percent-encoded text. */
  function GenerateWhatsappLink(phone: string, text: string): string
  {
    LinkPrefix + CleanPhone(phone) + "?text=" + Quote(text)
  }

  /** `s` split around the first occurrence of `c`. */
  function SplitFirst(s: string, c: char): (r: Option<(string, string)>)
    ensures r.Some? ==> c !in r.value.0 && s == r.value.0 + [c] + r.value.1
    ensures r.None? ==> c !in s
  {
    if s == [] then None
    else if s[0] == c then Some(([], s[1..]))
    else
      match SplitFirst(s[1..], c)
      case None => None
      case Some((a, b)) => Some(([s[0]] + a, b))
  }

  lemma {:induction false} SplitFirstOf(a: string, c: char, b: string)
    requires c !in a
    ensures SplitFirst(a + [c] + b, c) == Some((a, b))
  {
    if a != [] {
      assert a[0] in a;
      assert (a + [c] + b)[0] == a[0];
      assert (a + [c] + b)[1..] == a[1..] + [c] + b;
      SplitFirstOf(a[1..], c, b);
      assert [a[0]] + a[1..] == a;
    } else {
      assert a + [c] + b == [c] + b;
    }
  }

  /** How a receiver reads a link back: the phone number before the '?', and
      the text of the `text` parameter decoded from percent-encoded UTF-8. */
  function ParseLink(link: string): Option<(string, string)>
  {
    if !(LinkPrefix <= link) then None
    else
      match SplitFirst(link[|LinkPrefix|..], '?')
      case None => None
      case Some((phone, query)) =>
        if !("text=" <= query) then None
        else
          match UnquoteBytes(query[5..])
          case None => None
          case Some(bytes) =>
            match Utf8Decode(bytes)
            case None => None
            case Some(text) => Some((phone, text))
  }

  /** Past the fixed prefix, a link is the cleaned number, a '?', and the
      `text` parameter. */
  lemma LinkShape(phone: string, text: string)
    ensures var link := GenerateWhatsappLink(phone, text);
      LinkPrefix <= link
      && link[|LinkPrefix|..] == CleanPhone(phone) + ['?'] + ("text=" + Quote(text))
  {
    var clean, q := CleanPhone(phone), Quote(text);
    assert "?text=" == ['?'] + "text=";
    SplitAfterPrefix(LinkPrefix, clean, ['?'], "text=", q);
  }

  lemma SplitAfterPrefix(a: string, b: string, x: string, y: string, d: string)
    ensures a <= a + b + (x + y) + d
    ensures (a + b + (x + y) + d)[|a|..] == b + x + (y + d)
  {
    assert a + b + (x + y) + d == a + (b + x + (y + d));
  }

  /** The link delivers the cleaned number and exactly the given text (for a
      number without a '?', which would end the path early), and contains
      no space. */
  lemma WhatsappLinkRoundTrip(phone: string, text: string)
    requires '?' !in phone
    ensures ParseLink(GenerateWhatsappLink(phone, text)) == Some((CleanPhone(phone), text))
    ensures ' ' !in GenerateWhatsappLink(phone, text)
  {
    var clean, q := CleanPhone(phone), Quote(text);
    CleanPhoneKeepsOthers(phone, '?');
    assert multiset(phone)['?'] == 0;
    assert '?' !in clean;
    LinkShape(phone, text);
    SplitFirstOf(clean, '?', "text=" + q);
    assert "text=" <= "text=" + q && ("text=" + q)[5..] == q;
    QuoteRoundTrip(text);
    WellEncodedHasNoDelimiters(q);
    assert ' ' !in LinkPrefix && ' ' !in "?text=";
  }

  // --------------------------------------------------------------- summary

  /** "Sellado" for a product whose type is "sealed"; every other type, the
      untyped "none" included, reads as a 5 ml decant. */
  function TypeLabel(t: ProductType): (shown: string)
    ensures shown == "Sellado" <==> TypeText(t) == "sealed"
    ensures shown != "Sellado" ==> shown == "Decant 5ml"
    ensures t == Sealed ==> shown == "Sellado"
    ensures t == Decant || t == NoType ==> shown == "Decant 5ml"
    ensures t.Unlisted? && t.text != "sealed" ==> shown == "Decant 5ml"
  {
    if TypeText(t) == "sealed" then "Sellado" else "Decant 5ml"
  }

  function Subtotal(item: CartItem): int
  {
    item.quantity * item.priceAtAddition
  }

  /** One summary line: brand, name, label, quantity and the line's subtotal. */
  function SummaryLine(p: Product, item: CartItem): string
  {
    "- " + p.brand + " " + p.name + " (" + TypeLabel(p.kind) + ") x" + IntToString(item.quantity)
      + ": $" + FormatAmount(Subtotal(item)) + "\n"
  }

  function LineOf(pair: (Product, CartItem)): string
  {
    SummaryLine(pair.0, pair.1)
  }

  /** The summary line of each pair, in order. */
  function Lines(pairs: seq<(Product, CartItem)>): seq<string>
  {
    MapSeq(LineOf, pairs)
  }

  /** The summary text of two runs of pairs is the first run's text followed
      by the second's: each pair contributes its own line, independently. */
  lemma SummaryLinesAppend(a: seq<(Product, CartItem)>, b: seq<(Product, CartItem)>)
    ensures Concat(Lines(a + b)) == Concat(Lines(a)) + Concat(Lines(b))
  {
    MapSeqAppend(LineOf, a, b);
    ConcatAppend(Lines(a), Lines(b));
  }

  /** The sum of the pairs' subtotals. */
  function PairsTotal(pairs: seq<(Product, CartItem)>): int
  {
    if pairs == [] then 0 else PairsTotal(pairs[..|pairs| - 1]) + Subtotal(pairs[|pairs| - 1].1)
  }

  function TotalLine(total: int): string
  {
    "\n💰 *Total a pagar: $" + FormatAmount(total) + "*"
  }

  function OrderSummary(pairs: seq<(Product, CartItem)>): string
  {
    Concat(Lines(pairs)) + TotalLine(PairsTotal(pairs))
  }

  /** `format_order_summary`: one line per pair, then the grand total. */
  method FormatOrderSummary(pairs: seq<(Product, CartItem)>) returns (summary: string)
    ensures summary == OrderSummary(pairs)
  {
    summary := "";
    var total := 0;
    for i := 0 to |pairs|
      invariant summary == Concat(Lines(pairs[..i]))
      invariant total == PairsTotal(pairs[..i])
    {
      var product, item := pairs[i].0, pairs[i].1;
      SummaryStep(pairs, i);
      total := total + Subtotal(item);
      summary := summary + SummaryLine(product, item);
    }
    assert pairs[..|pairs|] == pairs;
    summary := summary + TotalLine(total);
  }

  /** Taking one more pair appends its line and adds its subtotal. */
  lemma SummaryStep(pairs: seq<(Product, CartItem)>, i: nat)
    requires i < |pairs|
    ensures Concat(Lines(pairs[..i + 1])) == Concat(Lines(pairs[..i])) + SummaryLine(pairs[i].0, pairs[i].1)
    ensures PairsTotal(pairs[..i + 1]) == PairsTotal(pairs[..i]) + Subtotal(pairs[i].1)
  {
    assert pairs[..i + 1] == pairs[..i] + [pairs[i]];
    MapSeqAppend(LineOf, pairs[..i], [pairs[i]]);
    var done := Lines(pairs[..i + 1]);
    assert done[..i] == Lines(pairs[..i]) && done[i] == LineOf(pairs[i]);
    assert pairs[..i + 1][..i] == pairs[..i];
  }

  /** Every pair's line appears in the summary. */
  lemma SummaryMentionsEveryPair(pairs: seq<(Product, CartItem)>, k: nat)
    requires k < |pairs|
    ensures IsSubstring(SummaryLine(pairs[k].0, pairs[k].1), OrderSummary(pairs))
  {
    var lines := Lines(pairs);
    assert k < |lines| && lines[k] == LineOf(pairs[k]);
    ConcatSplit(lines, k);
    IsSubstringOfConcat(Concat(lines[..k]), lines[k], Concat(lines[k + 1..]));
    IsSubstringOfPrefix(lines[k], Concat(lines), TotalLine(PairsTotal(pairs)));
  }

  /** The cart lines of the pairs, in order. */
  function Items(pairs: seq<(Product, CartItem)>): seq<CartItem>
  {
    seq(|pairs|, k requires 0 <= k < |pairs| => pairs[k].1)
  }

  /** The summary's grand total is the cart total of its lines. */
  lemma {:induction false} PairsTotalIsCartTotal(pairs: seq<(Product, CartItem)>)
    ensures PairsTotal(pairs) == CartService.CalculateTotal(Items(pairs)).0
  {
    if pairs != [] {
      var init := pairs[..|pairs| - 1];
      PairsTotalIsCartTotal(init);
      assert Items(pairs) == Items(init) + [pairs[|pairs| - 1].1];
      CartService.CalculateTotalAppend(Items(init), [pairs[|pairs| - 1].1]);
      assert [pairs[|pairs| - 1].1][1..] == [];
    }
  }

  /** The amount printed in the total line reads back as the total. */
  lemma TotalLineAmount(pairs: seq<(Product, CartItem)>)
    ensures var t := PairsTotal(pairs);
      ParseInt(RemoveChar(FormatAmount(t), ',')) == Some(CartService.CalculateTotal(Items(pairs)).0)
  {
    PairsTotalIsCartTotal(pairs);
    FormatAmountRoundTrip(PairsTotal(pairs));
  }
}
