/**
  Where the cart page meets the order endpoint: the JSON body the cart's
  `placeOrder` sends, as the validator of `POST /api/orders` receives it, and
  which of those bodies the validator lets through.
 */
module Checkout {
  import opened Js
  import opened OrderValidation
  import opened Cart

  /** One payload line as a JSON object `{ productId, quantity }`. */
  function LineToJs(line: OrderLine): JsValue {
    JObject(map["productId" := JString(line.productId), "quantity" := IntNumber(line.quantity)])
  }

  /** The whole payload as a JSON object: `items`, plus `customerEmail` when the payload has one. */
  function RequestToJs(req: OrderRequest): (v: JsValue)
    ensures v.JObject? && Property(v, "items").JArray?
    ensures Property(v, "items").elems == seq(|req.items|, i requires 0 <= i < |req.items| => LineToJs(req.items[i]))
  {
    var items := JArray(seq(|req.items|, i requires 0 <= i < |req.items| => LineToJs(req.items[i])));
    match req.customerEmail
    case None => JObject(map["items" := items])
    case Some(email) => JObject(map["items" := items, "customerEmail" := JString(email)])
  }

  /** The validator's verdict on one payload line: a blank product id is its only possible fault besides a quantity below one. */
  lemma LineCheck(line: OrderLine)
    ensures CheckItem(LineToJs(line)) ==
              if AllWhitespace(line.productId) then Some(BadProductId)
              else if line.quantity < 1 then Some(BadQuantity)
              else None
  {
    var v := LineToJs(line);
    assert Property(v, "productId") == JString(line.productId);
    assert Property(v, "quantity") == IntNumber(line.quantity);
  }

  /** The lines of a cart payload in JSON form, each passing or failing the validator as its product id is blank or not. */
  lemma PayloadItemChecks(items: seq<CartItem>, email: string)
    ensures
      var elems := Property(RequestToJs(BuildOrderRequest(items, email)), "items").elems;
      && |elems| == |items|
      && forall i :: 0 <= i < |items| ==>
           CheckItem(elems[i]) == if AllWhitespace(items[i].productId) then Some(BadProductId) else None
  {
    var req := BuildOrderRequest(items, email);
    forall i | 0 <= i < |items|
      ensures CheckItem(LineToJs(req.items[i])) ==
                if AllWhitespace(items[i].productId) then Some(BadProductId) else None
    {
      LineCheck(req.items[i]);
    }
  }

  /** The validator accepts what a non-empty cart sends exactly when no line's product id is blank:
      quantities are never refused, because the payload raises each one to at least 1. */
  lemma CartPayloadAccepted(items: seq<CartItem>, email: string)
    ensures Validate(RequestToJs(BuildOrderRequest(items, email))) == Accept <==>
              items != [] && forall i :: 0 <= i < |items| ==> !AllWhitespace(items[i].productId)
  {
    var body := RequestToJs(BuildOrderRequest(items, email));
    PayloadItemChecks(items, email);
    var elems := Property(body, "items").elems;
    if items != [] {
      match FirstFault(elems, 0)
      case Some((i, f)) =>
        assert CheckItem(elems[i]) != None;
      case None =>
        assert forall i :: 0 <= i < |items| ==> CheckItem(elems[i]) == None;
    }
  }

  /** Otherwise the refusal names the first line with a blank product id. */
  lemma CartPayloadFirstBlankReported(items: seq<CartItem>, email: string, i: nat)
    requires i < |items| && AllWhitespace(items[i].productId)
    requires forall j :: 0 <= j < i ==> !AllWhitespace(items[j].productId)
    ensures Validate(RequestToJs(BuildOrderRequest(items, email))) == Reject(BadItem(i, BadProductId))
  {
    PayloadItemChecks(items, email);
    FirstFailingItemReported(RequestToJs(BuildOrderRequest(items, email)), i, BadProductId);
  }
}
