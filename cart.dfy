/**
  The cart page: a list of `{ productId, quantity }` lines held in page state,
  joined against the fetched products to derive display rows, a total and a
  display currency, and submitted as an order payload.
 */
module Cart {
  import opened Js
  import opened Types

  datatype CartItem = CartItem(productId: string, quantity: int)

  /** A cart line joined with its product; `product` is `None` when the id does not resolve. */
  datatype Row = Row(item: CartItem, product: Option<Product>, unitPrice: int, currency: string, lineTotal: int)

  datatype OrderLine = OrderLine(productId: string, quantity: int)

  /** The body sent to `POST /api/orders`; `customerEmail` is omitted when `None`. */
  datatype OrderRequest = OrderRequest(items: seq<OrderLine>, customerEmail: Option<string>)

  /** What `api.createOrder` settles to: the created order, or a thrown value (an `Error` with its message, or anything else). */
  datatype CreateOrderResult = Created(order: Order) | Failed(errorMessage: Option<string>)

  const UnknownProductError := "One or more items refer to an unknown product. Remove them to place the order."
  const PlaceOrderFallbackError := "Failed to place order"
  const DefaultCurrency := "USD"
  const MaxQuantity := 99

  /** `k` holds the last product in `products` with its id. */
  predicate LastWithId(products: seq<Product>, k: int, n: int)
    requires 0 <= k < n <= |products|
  {
    forall k' :: k < k' < n ==> products[k'].id != products[k].id
  }

  /** `byId` is the table the first `n` fetched products give: their ids as keys, each mapped to the last of them with that id. */
  ghost predicate IsProductMapOf(products: seq<Product>, n: int, byId: map<string, Product>)
    requires 0 <= n <= |products|
  {
    && (forall id :: id in byId <==> exists k :: 0 <= k < n && products[k].id == id)
    && (forall id :: id in byId ==> byId[id].id == id)
    && (forall k :: 0 <= k < n && LastWithId(products, k, n) ==> byId[products[k].id] == products[k])
  }

  /** Storing product `n` under its id extends the table of the first `n` products to the first `n + 1`. */
  lemma ProductMapStep(products: seq<Product>, n: int, byId: map<string, Product>)
    requires 0 <= n < |products| && IsProductMapOf(products, n, byId)
    ensures IsProductMapOf(products, n + 1, byId[products[n].id := products[n]])
  {
    ProductMapKeysStep(products, n, byId, byId[products[n].id := products[n]]);
    forall k | 0 <= k < n ensures products[k].id in byId {
      var id := products[k].id;
      assert 0 <= k < n && products[k].id == id;
    }
    ProductMapLastStep(products, n, byId);
  }

  lemma ProductMapKeysStep(products: seq<Product>, n: int, byId: map<string, Product>, next: map<string, Product>)
    requires 0 <= n < |products| && next == byId[products[n].id := products[n]]
    requires forall id :: id in byId <==> exists k :: 0 <= k < n && products[k].id == id
    ensures forall id :: id in next <==> exists k :: 0 <= k < n + 1 && products[k].id == id
  {
    forall id | id in next ensures exists k :: 0 <= k < n + 1 && products[k].id == id {
      if id == products[n].id {
        assert products[n].id == id;
      } else {
        assert id in byId;
        var k :| 0 <= k < n && products[k].id == id;
        assert 0 <= k < n + 1 && products[k].id == id;
      }
    }
    forall id | exists k :: 0 <= k < n + 1 && products[k].id == id ensures id in next {
      var k :| 0 <= k < n + 1 && products[k].id == id;
      if k < n {
        assert id in byId;
      }
    }
  }

  lemma ProductMapLastStep(products: seq<Product>, n: int, byId: map<string, Product>)
    requires 0 <= n < |products|
    requires forall k :: 0 <= k < n ==> products[k].id in byId
    requires forall k :: 0 <= k < n && LastWithId(products, k, n) ==> byId[products[k].id] == products[k]
    ensures forall k :: 0 <= k < n + 1 && LastWithId(products, k, n + 1) ==>
              byId[products[n].id := products[n]][products[k].id] == products[k]
  {
    var next := byId[products[n].id := products[n]];
    forall k | 0 <= k < n + 1 && LastWithId(products, k, n + 1)
      ensures next[products[k].id] == products[k]
    {
      if k < n {
        assert products[n].id != products[k].id;
        assert LastWithId(products, k, n);
      }
    }
  }

  /** The lookup table built from the fetched products: every id present maps to the last product carrying it. */
  method BuildProductMap(products: seq<Product>) returns (byId: map<string, Product>)
    ensures forall id :: id in byId <==> exists k :: 0 <= k < |products| && products[k].id == id
    ensures forall id :: id in byId ==> byId[id].id == id
    ensures forall k :: 0 <= k < |products| && LastWithId(products, k, |products|) ==> byId[products[k].id] == products[k]
  {
    byId := map[];
    for i := 0 to |products|
      invariant IsProductMapOf(products, i, byId)
    {
      ProductMapStep(products, i, byId);
      var p := products[i];
      byId := byId[p.id := p];
    }
  }

  /** One cart line joined with its product, with price 0 and currency USD when it does not resolve. */
  function RowFor(item: CartItem, byId: map<string, Product>): (row: Row)
    ensures row.item == item
    ensures row.product == (if item.productId in byId then Some(byId[item.productId]) else None)
    ensures row.lineTotal == row.unitPrice * item.quantity
    ensures row.product.None? ==> row.unitPrice == 0 && row.currency == DefaultCurrency && row.lineTotal == 0
    ensures row.product.Some? ==> row.unitPrice == row.product.value.price && row.currency == row.product.value.currency
  {
    var product := if item.productId in byId then Some(byId[item.productId]) else None;
    var unitPrice := if product.Some? then product.value.price else 0;
    var currency := if product.Some? then product.value.currency else DefaultCurrency;
    Row(item, product, unitPrice, currency, unitPrice * item.quantity)
  }

  /** The display rows: one per cart line, in cart order. */
  function Rows(items: seq<CartItem>, byId: map<string, Product>): (rows: seq<Row>)
    ensures |rows| == |items|
    ensures forall i :: 0 <= i < |items| ==> rows[i] == RowFor(items[i], byId)
  {
    seq(|items|, i requires 0 <= i < |items| => RowFor(items[i], byId))
  }

  /** `rows.reduce((sum, r) => sum + r.lineTotal, 0)`, summed from the left. */
  function CartTotal(rows: seq<Row>): (total: int)
    ensures (forall k :: 0 <= k < |rows| ==> rows[k].lineTotal >= 0) ==> total >= 0
  {
    if rows == [] then 0 else CartTotal(rows[..|rows| - 1]) + rows[|rows| - 1].lineTotal
  }

  /** `rows.some((r) => !r.product)` */
  function HasUnknownProducts(rows: seq<Row>): (r: bool)
    ensures r <==> exists i :: 0 <= i < |rows| && rows[i].product.None?
  {
    if rows == [] then false else rows[0].product.None? || HasUnknownProducts(rows[1..])
  }

  /** The quantity `updateQuantity` stores: the floor of the input clamped to [1, 99], or 1 for a non-finite input. */
  function ClampQuantity(next: Num): (q: int)
    ensures 1 <= q <= MaxQuantity
    ensures next.Finite? && 1 <= next.value.Floor <= MaxQuantity ==> q == next.value.Floor
    ensures next.Finite? && next.value.Floor > MaxQuantity ==> q == MaxQuantity
    ensures !next.Finite? || next.value.Floor < 1 ==> q == 1
  {
    if next.Finite? then Max(1, Min(MaxQuantity, next.value.Floor)) else 1
  }

  function Max(a: int, b: int): int { if a < b then b else a }

  function Min(a: int, b: int): int { if a < b then a else b }

  /** The lines after `updateQuantity`: each line for `productId` gets `quantity`; every other line, the order and the length stay. */
  function SetQuantity(items: seq<CartItem>, productId: string, quantity: int): (r: seq<CartItem>)
    ensures |r| == |items|
    ensures forall i :: 0 <= i < |items| ==> r[i].productId == items[i].productId
    ensures forall i :: 0 <= i < |items| ==>
              r[i].quantity == if items[i].productId == productId then quantity else items[i].quantity
  {
    seq(|items|, i requires 0 <= i < |items| =>
      if items[i].productId == productId then items[i].(quantity := quantity) else items[i])
  }

  /** The lines after `removeItem`: those for other products, in their order. */
  function RemoveLines(items: seq<CartItem>, productId: string): (r: seq<CartItem>)
    ensures |r| <= |items|
    ensures forall k :: 0 <= k < |r| ==> r[k].productId != productId
  {
    Filter(items, (it: CartItem) => it.productId != productId)
  }

  /** The payload `placeOrder` sends: every line in order with quantity `max(1, floor(q))`, and the email only when it trims to something. */
  function BuildOrderRequest(items: seq<CartItem>, customerEmail: string): (body: OrderRequest)
    ensures |body.items| == |items|
    ensures forall i :: 0 <= i < |items| ==>
              body.items[i].productId == items[i].productId
              && body.items[i].quantity == Max(1, items[i].quantity) >= 1
    ensures body.customerEmail == EmailField(customerEmail)
  {
    var lines := seq(|items|, i requires 0 <= i < |items| =>
      OrderLine(items[i].productId, Max(1, items[i].quantity)));
    OrderRequest(lines, EmailField(customerEmail))
  }

  /** The optional `customerEmail` of the payload: present exactly when the input has a non-whitespace
      character, and then the input trimmed, which trimming again leaves unchanged. */
  function EmailField(customerEmail: string): (field: Option<string>)
    ensures field.Some? <==> !AllWhitespace(customerEmail)
    ensures field.Some? ==> field.value == Trim(customerEmail) && Trim(field.value) == field.value
  {
    var trimmedEmail := Trim(customerEmail);
    TrimIdempotent(customerEmail);
    if |trimmedEmail| > 0 then Some(trimmedEmail) else None
  }

  /** Every stored quantity lies in [1, 99]. */
  predicate QuantitiesInRange(items: seq<CartItem>) {
    forall i :: 0 <= i < |items| ==> 1 <= items[i].quantity <= MaxQuantity
  }

  /** For a cart whose quantities are in [1, 99], the payload's `max(1, floor(q))` sends every quantity as stored. */
  lemma PayloadKeepsQuantities(items: seq<CartItem>, customerEmail: string)
    requires QuantitiesInRange(items)
    ensures |BuildOrderRequest(items, customerEmail).items| == |items|
    ensures forall i :: 0 <= i < |items| ==> BuildOrderRequest(items, customerEmail).items[i].quantity == items[i].quantity
  {
  }

  /** The page state the cart operations read and replace. */
  class CartPage {
    var items: seq<CartItem>
    var productsById: map<string, Product>
    var customerEmail: string
    var placingOrder: bool
    var placeOrderError: Option<string>
    var placedOrder: Option<Order>

    ghost predicate Valid()
      reads this
    {
      QuantitiesInRange(items)
    }

    /** The initial state: the two demo lines and no products loaded yet. */
    constructor ()
      ensures Valid()
      ensures items == [CartItem("prod1", 1), CartItem("prod2", 2)]
      ensures productsById == map[] && customerEmail == ""
      ensures !placingOrder && placeOrderError == None && placedOrder == None
    {
      items := [CartItem("prod1", 1), CartItem("prod2", 2)];
      productsById := map[];
      customerEmail := "";
      placingOrder := false;
      placeOrderError := None;
      placedOrder := None;
    }

    /** Applies a successful product fetch: the lookup table is rebuilt from `products`. */
    method LoadProducts(products: seq<Product>)
      requires Valid()
      modifies this
      ensures Valid()
      ensures forall id :: id in productsById <==> exists k :: 0 <= k < |products| && products[k].id == id
      ensures forall id :: id in productsById ==> productsById[id].id == id
      ensures forall k :: 0 <= k < |products| && LastWithId(products, k, |products|) ==>
                productsById[products[k].id] == products[k]
      ensures items == old(items) && customerEmail == old(customerEmail) && placingOrder == old(placingOrder)
      ensures placeOrderError == old(placeOrderError) && placedOrder == old(placedOrder)
    {
      var byId := BuildProductMap(products);
      productsById := byId;
    }

    method SetCustomerEmail(email: string)
      requires Valid()
      modifies this`customerEmail
      ensures Valid()
      ensures customerEmail == email
    {
      customerEmail := email;
    }

    method UpdateQuantity(productId: string, nextQuantity: Num)
      requires Valid()
      modifies this`items, this`placedOrder, this`placeOrderError
      ensures Valid()
      ensures items == SetQuantity(old(items), productId, ClampQuantity(nextQuantity))
      ensures placedOrder == None && placeOrderError == None
    {
      var quantity := ClampQuantity(nextQuantity);
      items := SetQuantity(items, productId, quantity);
      placedOrder := None;
      placeOrderError := None;
    }

    method RemoveItem(productId: string)
      requires Valid()
      modifies this`items, this`placedOrder, this`placeOrderError
      ensures Valid()
      ensures items == RemoveLines(old(items), productId)
      ensures placedOrder == None && placeOrderError == None
    {
      RemoveLinesCounts(items, productId);
      items := RemoveLines(items, productId);
      placedOrder := None;
      placeOrderError := None;
    }

    /** The currency shown beside the total: that of the first row whose product resolves
        with a non-empty currency, otherwise USD. */
    method DisplayCurrency() returns (currency: string)
      ensures
        var rows := Rows(items, productsById);
        || (exists k :: 0 <= k < |rows| && rows[k].product.Some? && rows[k].product.value.currency == currency != []
              && forall j :: 0 <= j < k ==> rows[j].product.None? || rows[j].product.value.currency == [])
        || (currency == DefaultCurrency
              && forall j :: 0 <= j < |rows| ==> rows[j].product.None? || rows[j].product.value.currency == [])
    {
      var rows := Rows(items, productsById);
      for i := 0 to |rows|
        invariant forall j :: 0 <= j < i ==> rows[j].product.None? || rows[j].product.value.currency == []
      {
        var r := rows[i];
        if r.product.Some? && r.product.value.currency != [] {
          return r.product.value.currency;
        }
      }
      return DefaultCurrency;
    }

    /** Places the order. `result` is what `api.createOrder` settles to; the body sent is returned. */
    method PlaceOrder(result: CreateOrderResult) returns (sent: Option<OrderRequest>)
      requires Valid()
      modifies this`items, this`placingOrder, this`placeOrderError, this`placedOrder
      ensures Valid()
      ensures old(items) == [] ==>
                sent == None && items == old(items) && placingOrder == old(placingOrder)
                && placeOrderError == old(placeOrderError) && placedOrder == old(placedOrder)
      ensures old(items) != [] && HasUnknownProducts(Rows(old(items), productsById)) ==>
                sent == None && items == old(items) && placingOrder == old(placingOrder)
                && placeOrderError == Some(UnknownProductError) && placedOrder == old(placedOrder)
      ensures old(items) != [] && !HasUnknownProducts(Rows(old(items), productsById)) ==>
                sent == Some(BuildOrderRequest(old(items), customerEmail)) && !placingOrder
      ensures sent.Some? ==>
                |sent.value.items| == |old(items)|
                && forall i :: 0 <= i < |old(items)| ==> sent.value.items[i].quantity == old(items)[i].quantity
      ensures old(items) != [] && !HasUnknownProducts(Rows(old(items), productsById)) && result.Created? ==>
                placedOrder == Some(result.order) && items == [] && placeOrderError == None
      ensures old(items) != [] && !HasUnknownProducts(Rows(old(items), productsById)) && result.Failed? ==>
                placedOrder == None && items == old(items)
                && placeOrderError == Some(result.errorMessage.GetOr(PlaceOrderFallbackError))
    {
      if |items| == 0 {
        return None;
      }

      if HasUnknownProducts(Rows(items, productsById)) {
        placeOrderError := Some(UnknownProductError);
        return None;
      }

      placingOrder := true;
      placeOrderError := None;
      placedOrder := None;

      var body := BuildOrderRequest(items, customerEmail);
      PayloadKeepsQuantities(items, customerEmail);
      sent := Some(body);

      match result {
        case Created(order) =>
          placedOrder := Some(order);
          items := [];
        case Failed(message) =>
          placeOrderError := Some(message.GetOr(PlaceOrderFallbackError));
      }

      placingOrder := false;
    }
  }

  /** `removeItem` drops exactly the lines for `productId`: every other line keeps its number of occurrences. */
  lemma RemoveLinesCounts(items: seq<CartItem>, productId: string)
    ensures forall line :: multiset(RemoveLines(items, productId))[line] ==
              if line.productId == productId then 0 else multiset(items)[line]
    ensures forall i :: 0 <= i < |RemoveLines(items, productId)| ==>
              RemoveLines(items, productId)[i] in items && RemoveLines(items, productId)[i].productId != productId
  {
    var keep := (it: CartItem) => it.productId != productId;
    FilterCounts(items, keep);
    var r := RemoveLines(items, productId);
    forall i | 0 <= i < |r| ensures r[i] in items && r[i].productId != productId {
      assert r[i] in multiset(r);
    }
  }

  /** `removeItem` keeps the relative order of the remaining lines: it commutes with splitting the cart. */
  lemma RemoveLinesKeepsOrder(a: seq<CartItem>, b: seq<CartItem>, productId: string)
    ensures RemoveLines(a + b, productId) == RemoveLines(a, productId) + RemoveLines(b, productId)
  {
    FilterAppend(a, b, (it: CartItem) => it.productId != productId);
  }

  /** Removing an id no line carries leaves the cart as it is. */
  lemma RemoveAbsentIsNoOp(items: seq<CartItem>, productId: string)
    requires forall i :: 0 <= i < |items| ==> items[i].productId != productId
    ensures RemoveLines(items, productId) == items
  {
    FilterKeepsAll(items, (it: CartItem) => it.productId != productId);
  }

  /** Removing twice is removing once. */
  lemma RemoveLinesIdempotent(items: seq<CartItem>, productId: string)
    ensures RemoveLines(RemoveLines(items, productId), productId) == RemoveLines(items, productId)
  {
    RemoveLinesCounts(items, productId);
    RemoveAbsentIsNoOp(RemoveLines(items, productId), productId);
  }

  /** Setting a line's quantity and then removing that product is the same as removing it. */
  lemma {:induction false} RemoveAfterSetQuantity(items: seq<CartItem>, productId: string, quantity: int)
    ensures RemoveLines(SetQuantity(items, productId, quantity), productId) == RemoveLines(items, productId)
  {
    if items != [] {
      var updated := SetQuantity(items, productId, quantity);
      assert updated == [updated[0]] + updated[1..] && items == [items[0]] + items[1..];
      assert updated[1..] == SetQuantity(items[1..], productId, quantity);
      RemoveAfterSetQuantity(items[1..], productId, quantity);
      RemoveLinesKeepsOrder([updated[0]], updated[1..], productId);
      RemoveLinesKeepsOrder([items[0]], items[1..], productId);
    }
  }

  /** Updating the quantity keeps every stored quantity in [1, 99]. */
  lemma SetQuantityKeepsRange(items: seq<CartItem>, productId: string, next: Num)
    requires QuantitiesInRange(items)
    ensures QuantitiesInRange(SetQuantity(items, productId, ClampQuantity(next)))
  {
  }

  /** The total of a concatenation is the sum of the totals. */
  lemma {:induction false} CartTotalAppend(a: seq<Row>, b: seq<Row>)
    ensures CartTotal(a + b) == CartTotal(a) + CartTotal(b)
    decreases |b|
  {
    if b == [] {
      assert a + b == a;
    } else {
      var b' := b[..|b| - 1];
      assert (a + b)[..|a + b| - 1] == a + b';
      assert (a + b)[|a + b| - 1] == b[|b| - 1];
      CartTotalAppend(a, b');
    }
  }

  /** Rows of a concatenation are the concatenation of the rows. */
  lemma RowsAppend(a: seq<CartItem>, b: seq<CartItem>, byId: map<string, Product>)
    ensures Rows(a + b, byId) == Rows(a, byId) + Rows(b, byId)
  {
  }

  function IsResolved(byId: map<string, Product>): CartItem -> bool {
    (it: CartItem) => it.productId in byId
  }

  /** The total of the rows of concatenated lines is the sum of the two totals. */
  lemma TotalOfConcat(a: seq<CartItem>, b: seq<CartItem>, byId: map<string, Product>)
    ensures CartTotal(Rows(a + b, byId)) == CartTotal(Rows(a, byId)) + CartTotal(Rows(b, byId))
  {
    RowsAppend(a, b, byId);
    CartTotalAppend(Rows(a, byId), Rows(b, byId));
  }

  /** A single line contributes the same whether or not unresolved lines are dropped first. */
  lemma SingleLineTotal(item: CartItem, byId: map<string, Product>)
    ensures CartTotal(Rows([item], byId)) == CartTotal(Rows(Filter([item], IsResolved(byId)), byId))
  {
    assert CartTotal(Rows([item], byId)) == RowFor(item, byId).lineTotal by {
      assert Rows([item], byId)[..0] == [];
    }
    if item.productId in byId {
      assert Filter([item], IsResolved(byId)) == [item];
    } else {
      assert Filter([item], IsResolved(byId)) == [];
    }
  }

  /** Lines whose product does not resolve contribute nothing: the total equals that of the resolved lines alone. */
  lemma {:induction false} TotalCountsOnlyResolvedLines(items: seq<CartItem>, byId: map<string, Product>)
    ensures CartTotal(Rows(items, byId)) == CartTotal(Rows(Filter(items, IsResolved(byId)), byId))
  {
    if items != [] {
      var head, tail := [items[0]], items[1..];
      var keep := IsResolved(byId);
      assert items == head + tail;
      TotalCountsOnlyResolvedLines(tail, byId);
      SingleLineTotal(items[0], byId);
      FilterAppend(head, tail, keep);
      TotalOfConcat(head, tail, byId);
      TotalOfConcat(Filter(head, keep), Filter(tail, keep), byId);
    }
  }

  /** The total is the sum of price times quantity over the lines whose product resolves. */
  lemma {:induction false} TotalIsSumOfResolvedLines(items: seq<CartItem>, byId: map<string, Product>)
    ensures CartTotal(Rows(items, byId)) == ResolvedSubtotal(items, byId)
    decreases |items|
  {
    if items != [] {
      var init := items[..|items| - 1];
      assert Rows(items, byId)[..|items| - 1] == Rows(init, byId);
      TotalIsSumOfResolvedLines(init, byId);
    }
  }

  /** The sum over resolved lines of unit price times quantity. */
  function ResolvedSubtotal(items: seq<CartItem>, byId: map<string, Product>): int {
    if items == [] then 0
    else
      var last := items[|items| - 1];
      ResolvedSubtotal(items[..|items| - 1], byId)
      + (if last.productId in byId then byId[last.productId].price * last.quantity else 0)
  }

  /** An unknown product is reported exactly when some cart line's id is missing from the lookup table. */
  lemma UnknownIffUnresolvedLine(items: seq<CartItem>, byId: map<string, Product>)
    ensures HasUnknownProducts(Rows(items, byId)) <==> exists i :: 0 <= i < |items| && items[i].productId !in byId
  {
    var rows := Rows(items, byId);
    if HasUnknownProducts(rows) {
      var i :| 0 <= i < |rows| && rows[i].product.None?;
      assert items[i].productId !in byId;
    }
  }
}
