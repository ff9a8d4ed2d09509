/** The checkout session request sent to the payment provider, as data: one
    priced line per ordered item, a fixed delivery line, and redirect URLs
    that carry the order id back to the verification step. */
module Checkout {
  import opened Basics
  import opened Seqs
  import opened Ids
  import opened OrderItemModel

  /** Every line is priced in Indian rupees, in paise. */
  const Currency := "inr"
  const DeliveryName := "Delivery Charges"
  /** 100 rupees, in paise. */
  const DeliveryFee := 10000.0
  const FrontendUrl := "http://localhost:3000"

  datatype LineItem = LineItem(currency: string, name: string, unitAmount: real, quantity: real)

  /** The synthetic delivery line appended to every checkout. */
  const DeliveryLine := LineItem(Currency, DeliveryName, DeliveryFee, 1.0)

  /** An item carrying the fields a line needs. */
  predicate Priced(d: ItemDraft)
  {
    d.name.Some? && d.price.Some? && d.quantity.Some?
  }

  /** One checkout line: the item's price converted to paise. */
  function ItemLine(d: ItemDraft): LineItem
    requires Priced(d)
  {
    LineItem(Currency, d.name.value, d.price.value * 100.0, d.quantity.value)
  }

  /** The line items: one per ordered item, in order, then the delivery line. */
  function CheckoutLines(items: seq<ItemDraft>): (lines: seq<LineItem>)
    requires forall i :: 0 <= i < |items| ==> Priced(items[i])
    ensures |lines| == |items| + 1
    ensures forall i :: 0 <= i < |items| ==>
      && Priced(items[i])
      && lines[i].name == items[i].name.value
      && lines[i].unitAmount == 100.0 * items[i].price.value
      && lines[i].quantity == items[i].quantity.value
      && lines[i].currency == Currency
    ensures lines[|items|] == DeliveryLine
  {
    if |items| == 0 then [DeliveryLine]
    else [ItemLine(items[0])] + CheckoutLines(items[1..])
  }

  /** What a line charges: unit amount times quantity. */
  function LineCharge(l: LineItem): real { l.unitAmount * l.quantity }

  /** What an item costs in rupees: price times quantity. */
  function ItemCost(d: ItemDraft): real
    requires Priced(d)
  {
    d.price.value * d.quantity.value
  }

  /** Sum of item costs, in rupees. */
  function Subtotal(items: seq<ItemDraft>): real
    requires forall i :: 0 <= i < |items| ==> Priced(items[i])
  {
    if |items| == 0 then 0.0 else ItemCost(items[0]) + Subtotal(items[1..])
  }

  /** The session charges the items' subtotal in paise plus the delivery fee. */
  lemma {:induction false} CheckoutTotal(items: seq<ItemDraft>)
    requires forall i :: 0 <= i < |items| ==> Priced(items[i])
    ensures SumOf(CheckoutLines(items), LineCharge) == 100.0 * Subtotal(items) + DeliveryFee
  {
    if |items| != 0 {
      CheckoutTotal(items[1..]);
      assert LineCharge(ItemLine(items[0])) == 100.0 * ItemCost(items[0]);
    }
  }

  /** Prefix shared by both redirect URLs. */
  const VerifyPrefix := FrontendUrl + "/verify?success="
  const OrderIdKey := "&orderId="

  /** The frontend's verification page with the flag and the order id's text
      as its two query parameters, the flag first. */
  function RedirectUrl(flag: string, id: Id): string
  {
    VerifyPrefix + flag + OrderIdKey + IdText(id)
  }

  /** Where the provider sends the customer after paying. */
  function SuccessUrl(id: Id): string { RedirectUrl("true", id) }

  /** Where the provider sends the customer after abandoning payment. */
  function CancelUrl(id: Id): string { RedirectUrl("false", id) }

  /** The two query parameters the verification page forwards. */
  datatype Redirect = Redirect(success: string, orderId: string)

  /** Reads the `success` and `orderId` parameters back from a redirect URL. */
  function ParseRedirect(url: string): (r: Option<Redirect>)
    ensures r.Some? ==> '&' !in r.value.success
  {
    if |url| < |VerifyPrefix| || url[..|VerifyPrefix|] != VerifyPrefix then None
    else
      var rest := url[|VerifyPrefix|..];
      match IndexWhere(rest, IsAmp)
      case None => None
      case Some(k) =>
        var tail := rest[k..];
        if |tail| < |OrderIdKey| || tail[..|OrderIdKey|] != OrderIdKey then None
        else
          assert forall j :: 0 <= j < k ==> rest[..k][j] == rest[j];
          Some(Redirect(rest[..k], tail[|OrderIdKey|..]))
  }

  predicate IsAmp(c: char) { c == '&' }

  /** The first `&` after a flag without one is the one that follows it. */
  lemma {:induction false} FirstAmp(flag: string, tail: string)
    requires '&' !in flag && |tail| > 0 && tail[0] == '&'
    ensures IndexWhere(flag + tail, IsAmp) == Some(|flag|)
  {
    if |flag| == 0 {
      assert flag + tail == tail;
    } else {
      assert (flag + tail)[1..] == flag[1..] + tail;
      assert flag[0] in flag;
      FirstAmp(flag[1..], tail);
    }
  }

  /** Splitting a concatenation where it was joined gives back its halves. */
  lemma SplitAt(a: string, b: string)
    ensures (a + b)[..|a|] == a && (a + b)[|a|..] == b
  {
  }

  /** A redirect URL carries its flag and the order id back unchanged. */
  lemma RedirectRoundTrip(flag: string, id: Id)
    requires '&' !in flag
    ensures ParseRedirect(RedirectUrl(flag, id)) == Some(Redirect(flag, IdText(id)))
    ensures ParseId(ParseRedirect(RedirectUrl(flag, id)).value.orderId) == Some(id)
  {
    var tail := OrderIdKey + IdText(id);
    var rest := flag + tail;
    assert RedirectUrl(flag, id) == VerifyPrefix + rest;
    SplitAt(VerifyPrefix, rest);
    FirstAmp(flag, tail);
    SplitAt(flag, tail);
    SplitAt(OrderIdKey, IdText(id));
    ParseIdText(id);
  }

  /** The success and cancel URLs of an order name that order and differ only
      in the flag. */
  lemma SuccessAndCancelUrls(id: Id)
    ensures ParseRedirect(SuccessUrl(id)) == Some(Redirect("true", IdText(id)))
    ensures ParseRedirect(CancelUrl(id)) == Some(Redirect("false", IdText(id)))
    ensures SuccessUrl(id) != CancelUrl(id)
  {
    RedirectRoundTrip("true", id);
    RedirectRoundTrip("false", id);
  }

  /** The checkout session request. */
  datatype CheckoutRequest = CheckoutRequest(
    customer: string,
    lines: seq<LineItem>,
    mode: string,
    billingAddressCollection: string,
    successUrl: string,
    cancelUrl: string)
}
