/**
  The middleware that gates `POST /api/orders`: it inspects the parsed request
  body and either answers 400 with the first problem it finds or hands the
  request on to the next handler.
 */
module OrderValidation {
  import opened Js

  /** A JavaScript value as JSON parsing (or a missing body) can produce it. */
  datatype JsValue =
    | Undefined
    | Null
    | JBool(b: bool)
    | JNumber(n: Num)
    | JString(s: string)
    | JArray(elems: seq<JsValue>)
    | JObject(props: map<string, JsValue>)

  /** JavaScript truthiness: `!v` is false. */
  predicate Truthy(v: JsValue) {
    match v
    case Undefined => false
    case Null => false
    case JBool(b) => b
    case JNumber(n) => !n.NaN? && n != Finite(0.0)
    case JString(s) => s != []
    case JArray(_) => true
    case JObject(_) => true
  }

  /** The `typeof` operator. */
  function TypeOf(v: JsValue): string {
    match v
    case Undefined => "undefined"
    case Null => "object"
    case JBool(_) => "boolean"
    case JNumber(_) => "number"
    case JString(_) => "string"
    case JArray(_) => "object"
    case JObject(_) => "object"
  }

  /** The guard `!v || typeof v !== 'object'` fails exactly for plain objects and for arrays. */
  predicate PassesObjectGuard(v: JsValue): (r: bool)
    ensures r <==> v.JObject? || v.JArray?
  {
    Truthy(v) && TypeOf(v) == "object"
  }

  /** Destructuring `const { key } = v` on a value that passed the object guard: an
      own property of an object, otherwise `undefined` (parsed arrays carry none
      of the property names read here). */
  function Property(v: JsValue, key: string): JsValue {
    if v.JObject? && key in v.props then v.props[key] else Undefined
  }

  /** The `productId` check: a string that is not all whitespace. */
  predicate ValidProductId(v: JsValue) {
    v.JString? && !AllWhitespace(v.s)
  }

  /** A `productId` passes exactly when it is a string that `trim()` leaves non-empty,
      that is, a string with at least one non-whitespace character. */
  lemma ValidProductIdMeaning(v: JsValue)
    ensures ValidProductId(v) <==> v.JString? && |Trim(v.s)| != 0
    ensures ValidProductId(v) <==> v.JString? && exists k :: 0 <= k < |v.s| && !IsWhitespace(v.s[k])
  {
  }

  /** The JavaScript number with integer value `n`. */
  function IntNumber(n: int): JsValue {
    JNumber(Finite(n as real))
  }

  /** The `quantity` check: `Number.isInteger(q) && q > 0`. */
  predicate ValidQuantity(v: JsValue) {
    v.JNumber? && IsInteger(v.n) && v.n.value > 0.0
  }

  /** A `quantity` passes exactly when it is a number equal to some integer of at least 1. */
  lemma ValidQuantityMeaning(v: JsValue)
    ensures ValidQuantity(v) <==> exists n: int :: n >= 1 && v == IntNumber(n)
  {
    if ValidQuantity(v) {
      assert v == IntNumber(v.n.value.Floor);
    }
  }

  datatype ItemFault = NotAnObject | BadProductId | BadQuantity

  datatype Rejection =
    | BodyNotObject
    | ItemsNotArray
    | ItemsEmpty
    | BadItem(index: nat, fault: ItemFault)

  datatype Verdict = Accept | Reject(reason: Rejection)

  /** What the middleware does: call `next()` once and write nothing, or answer with a status and an `{ error }` body. */
  datatype Outcome = CalledNext | Responded(status: int, error: string)

  /** The first check one item fails, in the order object, `productId`, `quantity`. */
  function CheckItem(item: JsValue): (r: Option<ItemFault>)
    ensures r == None <==>
              && (item.JObject? || item.JArray?)
              && ValidProductId(Property(item, "productId"))
              && ValidQuantity(Property(item, "quantity"))
    ensures r == Some(NotAnObject) <==> !(item.JObject? || item.JArray?)
    ensures r == Some(BadProductId) <==>
              (item.JObject? || item.JArray?) && !ValidProductId(Property(item, "productId"))
    ensures r == Some(BadQuantity) <==>
              && (item.JObject? || item.JArray?)
              && ValidProductId(Property(item, "productId"))
              && !ValidQuantity(Property(item, "quantity"))
  {
    if !PassesObjectGuard(item) then Some(NotAnObject)
    else if !ValidProductId(Property(item, "productId")) then Some(BadProductId)
    else if !ValidQuantity(Property(item, "quantity")) then Some(BadQuantity)
    else None
  }

  /** The lowest index at or after `from` whose item fails a check, with that item's first failure. */
  function FirstFault(items: seq<JsValue>, from: nat): (r: Option<(nat, ItemFault)>)
    requires from <= |items|
    ensures r.Some? ==>
              && from <= r.value.0 < |items|
              && CheckItem(items[r.value.0]) == Some(r.value.1)
              && forall j :: from <= j < r.value.0 ==> CheckItem(items[j]) == None
    ensures r.None? ==> forall j :: from <= j < |items| ==> CheckItem(items[j]) == None
    decreases |items| - from
  {
    if from == |items| then None
    else match CheckItem(items[from])
      case Some(f) => Some((from, f))
      case None => FirstFault(items, from + 1)
  }

  /** The verdict on a request body, as the checks decide it in their order. */
  function Validate(body: JsValue): (v: Verdict)
    ensures v == Accept ==> PassesObjectGuard(body) && Property(body, "items").JArray? && Property(body, "items").elems != []
    ensures v.Reject? && v.reason.BadItem? ==>
              Property(body, "items").JArray? && v.reason.index < |Property(body, "items").elems|
  {
    if !PassesObjectGuard(body) then Reject(BodyNotObject)
    else
      var items := Property(body, "items");
      if !items.JArray? then Reject(ItemsNotArray)
      else if |items.elems| == 0 then Reject(ItemsEmpty)
      else match FirstFault(items.elems, 0)
        case Some((i, f)) => Reject(BadItem(i, f))
        case None => Accept
  }

  const BodyNotObjectMessage := "Request body must be a JSON object"
  const ItemsNotArrayMessage := "items must be an array"
  const ItemsEmptyMessage := "items must not be empty"

  /** The text after the index in an item message; each starts with `]`. */
  function FaultSuffix(f: ItemFault): string {
    match f
    case NotAnObject => "] must be an object"
    case BadProductId => "].productId must be a non-empty string"
    case BadQuantity => "].quantity must be a positive integer"
  }

  /** The user-facing text of a rejection. */
  function Message(r: Rejection): (m: string)
    ensures r.BadItem? <==> |m| >= 6 && m[..6] == "items["
  {
    match r
    case BodyNotObject => assert BodyNotObjectMessage[..6][5] == 's'; BodyNotObjectMessage
    case ItemsNotArray => assert ItemsNotArrayMessage[..6][5] == ' '; ItemsNotArrayMessage
    case ItemsEmpty => assert ItemsEmptyMessage[..6][5] == ' '; ItemsEmptyMessage
    case BadItem(i, f) => ItemMessage(i, f)
  }

  /** The message for item `i` failing with `f`: the template `items[${i}]...`. */
  function ItemMessage(i: nat, f: ItemFault): (m: string)
    ensures |m| > 7 && m[..6] == "items[" && IsDigit(m[6])
  {
    var digits := NatToString(i);
    var m := "items[" + (digits + FaultSuffix(f));
    assert m[6] == digits[0];
    m
  }

  /** The text between `items[` and the fault suffix is the canonical decimal form of the index `i`. */
  lemma ItemMessageCitesIndex(i: nat, f: ItemFault)
    ensures exists d: string ::
              && ItemMessage(i, f) == "items[" + (d + FaultSuffix(f))
              && |d| > 0 && (forall k :: 0 <= k < |d| ==> IsDigit(d[k]))
              && (|d| == 1 || d[0] != '0')
              && DigitsValue(d) == i
  {
    var d := NatToString(i);
    assert ItemMessage(i, f) == "items[" + (d + FaultSuffix(f));
  }

  function ToOutcome(v: Verdict): Outcome {
    match v
    case Accept => CalledNext
    case Reject(r) => Responded(400, Message(r))
  }

  /** The body of the loop over `items`: the three guards on one item, in their order. */
  method CheckOne(item: JsValue) returns (fault: Option<ItemFault>)
    ensures fault == CheckItem(item)
  {
    if !(Truthy(item) && TypeOf(item) == "object") {
      return Some(NotAnObject);
    }

    var productId, quantity := Property(item, "productId"), Property(item, "quantity");

    if !productId.JString? || |Trim(productId.s)| == 0 {
      return Some(BadProductId);
    }

    if !(quantity.JNumber? && IsInteger(quantity.n)) || quantity.n.value <= 0.0 {
      return Some(BadQuantity);
    }

    return None;
  }

  /** The loop over `items`: each item checked in turn, returning at the first one that fails. */
  method CheckItems(items: seq<JsValue>) returns (fault: Option<(nat, ItemFault)>)
    ensures fault == FirstFault(items, 0)
  {
    var i := 0;
    while i < |items|
      invariant 0 <= i <= |items|
      invariant FirstFault(items, i) == FirstFault(items, 0)
    {
      var check := CheckOne(items[i]);
      if check.Some? {
        return Some((i, check.value));
      }
      i := i + 1;
    }

    return None;
  }

  /** The middleware itself: the checks one after another, returning at the first failure. */
  method ValidateOrderBody(body: JsValue) returns (outcome: Outcome)
    ensures outcome == ToOutcome(Validate(body))
  {
    if !(Truthy(body) && TypeOf(body) == "object") {
      return Responded(400, BodyNotObjectMessage);
    }

    var items := Property(body, "items");

    if !items.JArray? {
      return Responded(400, ItemsNotArrayMessage);
    }

    if |items.elems| == 0 {
      return Responded(400, ItemsEmptyMessage);
    }

    var fault := CheckItems(items.elems);
    assert Validate(body) == match fault
      case Some((i, f)) => Reject(BadItem(i, f))
      case None => Accept;
    match fault {
      case Some((i, f)) =>
        assert Message(BadItem(i, f)) == ItemMessage(i, f);
        return Responded(400, ItemMessage(i, f));
      case None =>
        return CalledNext;
    }
  }

  /** A body that is not a plain object or an array is refused first. Arrays get past this check. */
  lemma NonObjectBodyRejected(body: JsValue)
    ensures Validate(body) == Reject(BodyNotObject) <==> !(body.JObject? || body.JArray?)
  {
  }

  /** `items` missing or not an array is the second refusal; an array body always ends here. */
  lemma ItemsNotArrayRejected(body: JsValue)
    ensures Validate(body) == Reject(ItemsNotArray) <==>
              (body.JObject? || body.JArray?) && !Property(body, "items").JArray?
    ensures body.JArray? ==> Validate(body) == Reject(ItemsNotArray)
  {
  }

  /** An empty `items` array is refused before any item is looked at. */
  lemma EmptyItemsRejected(body: JsValue)
    ensures Validate(body) == Reject(ItemsEmpty) <==>
              (body.JObject? || body.JArray?) && Property(body, "items") == JArray([])
  {
  }

  /** The reported item is the lowest failing index, and the reported fault is that item's first failing check. */
  lemma FirstFailingItemReported(body: JsValue, i: nat, f: ItemFault)
    ensures Validate(body) == Reject(BadItem(i, f)) <==>
              && body.JObject?
              && Property(body, "items").JArray?
              && var items := Property(body, "items").elems;
              && i < |items|
              && CheckItem(items[i]) == Some(f)
              && forall j :: 0 <= j < i ==> CheckItem(items[j]) == None
  {
    var items := Property(body, "items");
    if items.JArray? && i < |items.elems| && CheckItem(items.elems[i]) == Some(f)
       && forall j :: 0 <= j < i ==> CheckItem(items.elems[j]) == None
    {
      FirstFaultIsFirstFailing(items.elems, 0, i, f);
    }
  }

  /** An item that fails while every earlier one (from `from` on) passes is the fault `FirstFault` reports. */
  lemma {:induction false} FirstFaultIsFirstFailing(items: seq<JsValue>, from: nat, i: nat, f: ItemFault)
    requires from <= i < |items| && CheckItem(items[i]) == Some(f)
    requires forall j :: from <= j < i ==> CheckItem(items[j]) == None
    ensures FirstFault(items, from) == Some((i, f))
    decreases i - from
  {
    if from < i {
      assert CheckItem(items[from]) == None;
      FirstFaultIsFirstFailing(items, from + 1, i, f);
    }
  }

  /** A body is accepted exactly when it is an object whose non-empty `items` array holds only items passing every check. */
  lemma AcceptedIff(body: JsValue)
    ensures Validate(body) == Accept <==>
              && body.JObject?
              && Property(body, "items").JArray?
              && var items := Property(body, "items").elems;
              && |items| > 0
              && forall j :: 0 <= j < |items| ==>
                   && (items[j].JObject? || items[j].JArray?)
                   && ValidProductId(Property(items[j], "productId"))
                   && ValidQuantity(Property(items[j], "quantity"))
  {
    var items := Property(body, "items");
    if items.JArray? && |items.elems| > 0 && FirstFault(items.elems, 0).Some? {
      var r := FirstFault(items.elems, 0).value;
      assert CheckItem(items.elems[r.0]) != None;
    }
  }

  /** Every rejection is answered with status 400 and its own message; acceptance writes nothing. */
  lemma OutcomeShape(body: JsValue)
    ensures ToOutcome(Validate(body)).CalledNext? <==> Validate(body) == Accept
    ensures ToOutcome(Validate(body)).Responded? ==>
              ToOutcome(Validate(body)).status == 400
              && ToOutcome(Validate(body)).error == Message(Validate(body).reason)
  {
  }

  /** Different rejections carry different messages, so the message alone tells which check failed and at which index. */
  lemma MessagesDistinct(a: Rejection, b: Rejection)
    requires Message(a) == Message(b)
    ensures a == b
  {
    if a.BadItem? {
      ItemMessagesDistinct(a.index, a.fault, b.index, b.fault);
    } else {
      FixedMessagesDistinct(a, b);
    }
  }

  lemma FixedMessagesDistinct(a: Rejection, b: Rejection)
    requires !a.BadItem? && !b.BadItem?
    requires Message(a) == Message(b)
    ensures a == b
  {
    assert |BodyNotObjectMessage| == 34;
    assert |ItemsNotArrayMessage| == 22;
    assert |ItemsEmptyMessage| == 23;
  }

  lemma ItemMessagesDistinct(i: nat, f: ItemFault, j: nat, g: ItemFault)
    requires ItemMessage(i, f) == ItemMessage(j, g)
    ensures i == j && f == g
  {
    var da, sa := NatToString(i), FaultSuffix(f);
    var db, sb := NatToString(j), FaultSuffix(g);
    DropPrefix("items[", da + sa);
    DropPrefix("items[", db + sb);
    SuffixStartsWithBracket(f);
    SuffixStartsWithBracket(g);
    DigitsThenSuffix(da, sa, db, sb);
    NatToStringInjective(i, j);
    SuffixInjective(f, g);
  }

  lemma SuffixStartsWithBracket(f: ItemFault)
    ensures |FaultSuffix(f)| > 0 && FaultSuffix(f)[0] == ']'
  {
  }

  lemma SuffixInjective(f: ItemFault, g: ItemFault)
    requires FaultSuffix(f) == FaultSuffix(g)
    ensures f == g
  {
    assert |FaultSuffix(NotAnObject)| == 19;
    assert |FaultSuffix(BadProductId)| == 38;
    assert |FaultSuffix(BadQuantity)| == 37;
  }

  /** Two digit strings each followed by text starting with a non-digit split the same way only when they match. */
  lemma DigitsThenSuffix(da: string, sa: string, db: string, sb: string)
    requires forall k :: 0 <= k < |da| ==> IsDigit(da[k])
    requires forall k :: 0 <= k < |db| ==> IsDigit(db[k])
    requires |sa| > 0 && !IsDigit(sa[0]) && |sb| > 0 && !IsDigit(sb[0])
    requires da + sa == db + sb
    ensures da == db && sa == sb
  {
    if |da| < |db| {
      CharOfConcat(da, sa, |da|);
      CharOfConcat(db, sb, |da|);
      assert false;
    } else if |db| < |da| {
      CharOfConcat(da, sa, |db|);
      CharOfConcat(db, sb, |db|);
      assert false;
    } else {
      assert da == (da + sa)[..|da|];
      assert db == (db + sb)[..|db|];
      assert sa == (da + sa)[|da|..];
      assert sb == (db + sb)[|db|..];
    }
  }

  lemma DropPrefix(a: string, b: string)
    ensures (a + b)[|a|..] == b
  {
  }

  lemma CharOfConcat(a: string, b: string, k: int)
    ensures 0 <= k < |a| ==> (a + b)[k] == a[k]
    ensures |a| <= k < |a| + |b| ==> (a + b)[k] == b[k - |a|]
  {
  }

  /** Items agreeing on every check lead to the same first fault. */
  lemma {:induction false} SameChecksSameFault(a: seq<JsValue>, b: seq<JsValue>, from: nat)
    requires |a| == |b| && from <= |a|
    requires forall j :: from <= j < |a| ==> CheckItem(a[j]) == CheckItem(b[j])
    ensures FirstFault(a, from) == FirstFault(b, from)
    decreases |a| - from
  {
    if from < |a| {
      var c := CheckItem(a[from]);
      assert c == CheckItem(b[from]);
      if c.None? {
        SameChecksSameFault(a, b, from + 1);
      }
    }
  }

  /** A body property other than `items` (such as `customerEmail`) does not affect the verdict. */
  lemma OtherBodyFieldIgnored(props: map<string, JsValue>, key: string, v: JsValue)
    requires key != "items"
    ensures Validate(JObject(props[key := v])) == Validate(JObject(props))
  {
    assert Property(JObject(props[key := v]), "items") == Property(JObject(props), "items");
  }

  /** An item property other than `productId` and `quantity` does not affect the verdict. */
  lemma OtherItemFieldIgnored(body: map<string, JsValue>, i: nat, key: string, v: JsValue)
    requires key != "productId" && key != "quantity"
    requires "items" in body && body["items"].JArray? && i < |body["items"].elems|
    requires body["items"].elems[i].JObject?
    ensures
      var items := body["items"].elems;
      var item' := JObject(items[i].props[key := v]);
      Validate(JObject(body["items" := JArray(items[i := item'])])) == Validate(JObject(body))
  {
    var items := body["items"].elems;
    var item' := JObject(items[i].props[key := v]);
    var items' := items[i := item'];
    assert Property(item', "productId") == Property(items[i], "productId");
    assert Property(item', "quantity") == Property(items[i], "quantity");
    SameChecksSameFault(items', items, 0);
  }
}
