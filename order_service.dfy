/** The order service's handlers (services/order-service/server.js): order creation
    validated against the product service, and the keyed get/update/delete/list
    operations on the order collection. Prices and totals are integer cents. */
module OrderService {
  import opened Results
  import opened Registry
  import opened OrderDiscovery
  import GatewayDiscovery

  datatype OrderItem = OrderItem(productId: string, quantity: int, price: int)

  datatype Order = Order(id: string, userId: string, items: seq<OrderItem>, totalAmount: int,
                         status: string, shippingAddress: string)

  /** What `createOrder` reads of a product. */
  datatype Product = Product(id: string, name: string, price: int, stock: int)

  /** The answer of `productClient.getProduct({id})`: the product, or the error the call
      fails with (its message as the client sees it). */
  datatype ProductReply = Found(product: Product) | Failed(message: string)

  /** The product service as the order service sees it at the moment of the call. */
  type Catalog = map<string, ProductReply>

  /** The message a client gets for the product service's NOT_FOUND answer. */
  const ProductNotFoundMessage := "5 NOT_FOUND: Product not found"

  function GetProduct(catalog: Catalog, productId: string): ProductReply
  {
    if productId in catalog then catalog[productId] else Failed(ProductNotFoundMessage)
  }

  datatype RequestItem = RequestItem(productId: string, quantity: int)

  datatype CreateOrderRequest = CreateOrderRequest(userId: string, items: seq<RequestItem>, shippingAddress: string)

  /** The gRPC status codes the handlers answer with. */
  datatype Code = NOT_FOUND | INTERNAL

  datatype RpcError = RpcError(code: Code, message: string)

  const OrderNotFound := RpcError(NOT_FOUND, "Order not found")

  /** An item passes validation: its product is found and has at least `quantity` in
      stock (`stock < quantity` rejects, so equality is accepted). */
  predicate Accepted(catalog: Catalog, item: RequestItem)
  {
    GetProduct(catalog, item.productId).Found? && GetProduct(catalog, item.productId).product.stock >= item.quantity
  }

  /** The error message of an item that fails validation. */
  function RejectionMessage(catalog: Catalog, item: RequestItem): string
    requires !Accepted(catalog, item)
  {
    match GetProduct(catalog, item.productId)
    case Failed(msg) => msg
    case Found(p) => "Not enough stock for product " + p.name
  }

  /** The price snapshot: the request's product and quantity with the product's price. */
  function Snapshot(catalog: Catalog, item: RequestItem): OrderItem
    requires Accepted(catalog, item)
  {
    OrderItem(item.productId, item.quantity, GetProduct(catalog, item.productId).product.price)
  }

  /** Σ price × quantity */
  function LineTotal(items: seq<OrderItem>): int
  {
    if items == [] then 0 else items[0].price * items[0].quantity + LineTotal(items[1..])
  }

  lemma {:induction false} LineTotalAppend(items: seq<OrderItem>, x: OrderItem)
    ensures LineTotal(items + [x]) == LineTotal(items) + x.price * x.quantity
  {
    if items != [] {
      assert (items + [x])[1..] == items[1..] + [x];
      LineTotalAppend(items[1..], x);
    }
  }

  /** The outcome of the validation loop of `createOrder`. */
  datatype Validation = Priced(items: seq<OrderItem>, total: int) | Rejected(message: string)

  /** The validation loop over `items`, item by item in the order given; it stops at the
      first item that fails. */
  function Validate(catalog: Catalog, items: seq<RequestItem>): (v: Validation)
    ensures v.Priced? ==> |v.items| == |items| && v.total == LineTotal(v.items)
    ensures v.Rejected? ==> items != []
    decreases |items|
  {
    if items == [] then Priced([], 0)
    else
      match Validate(catalog, items[..|items| - 1])
      case Rejected(msg) => Rejected(msg)
      case Priced(done, total) =>
        var item := items[|items| - 1];
        if !Accepted(catalog, item) then Rejected(RejectionMessage(catalog, item))
        else
          var p := GetProduct(catalog, item.productId).product;
          LineTotalAppend(done, Snapshot(catalog, item));
          Priced(done + [Snapshot(catalog, item)], total + p.price * item.quantity)
  }

  /** Validation succeeds exactly when every item is accepted; then the stored items are
      the request's items in order, each with its product's price, and the total is
      Σ price × quantity over them. */
  lemma {:induction false} ValidateAccepts(catalog: Catalog, items: seq<RequestItem>)
    ensures Validate(catalog, items).Priced? <==> forall k :: 0 <= k < |items| ==> Accepted(catalog, items[k])
    ensures Validate(catalog, items).Priced? ==>
      var v := Validate(catalog, items);
      && |v.items| == |items|
      && (forall k :: 0 <= k < |items| ==> v.items[k] == Snapshot(catalog, items[k]))
      && v.total == LineTotal(v.items)
    decreases |items|
  {
    if items != [] {
      var init := items[..|items| - 1];
      ValidateAccepts(catalog, init);
      assert forall k :: 0 <= k < |init| ==> init[k] == items[k];
      match Validate(catalog, init)
      case Rejected(_) =>
      case Priced(done, total) =>
        var item := items[|items| - 1];
        if Accepted(catalog, item) {
          LineTotalAppend(done, Snapshot(catalog, item));
        }
    }
  }

  /** `items[k]` is the first item that is not accepted. */
  predicate FirstRejected(catalog: Catalog, items: seq<RequestItem>, k: nat)
    requires k < |items|
  {
    (forall j :: 0 <= j < k ==> Accepted(catalog, items[j])) && !Accepted(catalog, items[k])
  }

  /** A failing validation reports the first item that is not accepted. */
  lemma {:induction false} ValidateRejects(catalog: Catalog, items: seq<RequestItem>)
    requires Validate(catalog, items).Rejected?
    ensures exists k :: 0 <= k < |items| && FirstRejected(catalog, items, k)
                        && Validate(catalog, items).message == RejectionMessage(catalog, items[k])
    decreases |items|
  {
    var init := items[..|items| - 1];
    assert forall k :: 0 <= k < |init| ==> init[k] == items[k];
    if Validate(catalog, init).Rejected? {
      ValidateRejects(catalog, init);
    } else {
      ValidateAccepts(catalog, init);
      var k := |items| - 1;
      assert FirstRejected(catalog, items, k);
    }
  }

  /** Once a prefix of the items fails, the whole request fails with the same message. */
  lemma {:induction false} RejectionIsFinal(catalog: Catalog, items: seq<RequestItem>, i: nat)
    requires i <= |items| && Validate(catalog, items[..i]).Rejected?
    ensures Validate(catalog, items) == Validate(catalog, items[..i])
    decreases |items| - i
  {
    if i < |items| {
      assert items[..i + 1][..i] == items[..i];
      RejectionIsFinal(catalog, items, i + 1);
    } else {
      assert items[..i] == items;
    }
  }

  /** The record `createOrder` saves once every item is validated: status `pending`, and
      `user_id` and `shipping_address` copied from the request unchecked. */
  function NewOrder(id: string, req: CreateOrderRequest, items: seq<OrderItem>, total: int): Order
  {
    Order(id, req.userId, items, total, "pending", req.shippingAddress)
  }

  /** The ids of a sequence of orders, in order. */
  function Ids(orders: seq<Order>): (ids: set<string>)
    ensures forall o :: o in orders ==> o.id in ids
    ensures forall id :: id in ids ==> exists o :: o in orders && o.id == id
  {
    set o | o in orders :: o.id
  }

  ghost predicate DistinctIds(orders: seq<Order>)
  {
    forall i, j :: 0 <= i < j < |orders| ==> orders[i].id != orders[j].id
  }

  /** Saving an order with a fresh id keeps the ids distinct. */
  lemma FreshIdKeepsDistinct(orders: seq<Order>, o: Order)
    requires DistinctIds(orders) && o.id !in Ids(orders)
    ensures DistinctIds(orders + [o])
  {
    var all := orders + [o];
    assert forall i :: 0 <= i < |orders| ==> all[i] == orders[i] && orders[i] in orders;
  }

  /** `Order.findById(id)` */
  function FindOrder(orders: seq<Order>, id: string): (r: Option<Order>)
    ensures r.Some? <==> id in Ids(orders)
    ensures r.Some? ==> r.value in orders && r.value.id == id
  {
    if orders == [] then None
    else if orders[0].id == id then Some(orders[0])
    else
      var r := FindOrder(orders[1..], id);
      assert forall o :: o in orders[1..] ==> o in orders;
      assert forall o :: o in orders && o != orders[0] ==> o in orders[1..];
      r
  }

  /** `findByIdAndUpdate(id, {status})`: the order with that id gets the new status, whatever
      it is; nothing else changes. */
  function WithStatus(orders: seq<Order>, id: string, status: string): (r: seq<Order>)
    ensures |r| == |orders|
    ensures forall k :: 0 <= k < |orders| ==>
      r[k] == if orders[k].id == id then orders[k].(status := status) else orders[k]
  {
    if orders == [] then []
    else [if orders[0].id == id then orders[0].(status := status) else orders[0]] + WithStatus(orders[1..], id, status)
  }

  /** `findByIdAndDelete(id)`: every order but the one with that id, in order. */
  function Without(orders: seq<Order>, id: string): (r: seq<Order>)
    ensures forall o :: o in r <==> o in orders && o.id != id
    ensures |r| <= |orders|
  {
    if orders == [] then []
    else if orders[0].id == id then Without(orders[1..], id)
    else [orders[0]] + Without(orders[1..], id)
  }

  /** Deleting keeps the remaining orders in their positions: an order appended at the
      end is dropped exactly when it has the id, and nothing before it moves. */
  lemma {:induction false} WithoutAppend(orders: seq<Order>, o: Order, id: string)
    ensures Without(orders + [o], id) == Without(orders, id) + (if o.id == id then [] else [o])
  {
    if orders == [] {
      assert orders + [o] == [o];
      assert [o][1..] == [];
    } else {
      assert (orders + [o])[1..] == orders[1..] + [o];
      WithoutAppend(orders[1..], o, id);
    }
  }

  lemma {:induction false} WithoutRemovesOne(orders: seq<Order>, id: string)
    requires DistinctIds(orders) && id in Ids(orders)
    ensures |Without(orders, id)| == |orders| - 1
    ensures DistinctIds(Without(orders, id))
  {
    if orders[0].id == id {
      TailLacksId(orders, id);
      WithoutNoMatch(orders[1..], id);
    } else {
      TailHasId(orders, id);
      WithoutRemovesOne(orders[1..], id);
      var rest := Without(orders[1..], id);
      forall o | o in rest ensures o.id != orders[0].id {
        var j :| 0 <= j < |orders| && orders[j] == o;
        assert j != 0;
      }
    }
  }

  /** With distinct ids, the id of the first order occurs nowhere after it. */
  lemma TailLacksId(orders: seq<Order>, id: string)
    requires DistinctIds(orders) && orders != [] && orders[0].id == id
    ensures forall o :: o in orders[1..] ==> o.id != id
  {
    forall o | o in orders[1..] ensures o.id != id {
      var j :| 0 <= j < |orders[1..]| && orders[1..][j] == o;
      assert orders[j + 1] == o;
    }
  }

  /** An id held by some order, but not the first, is held by an order after it. */
  lemma TailHasId(orders: seq<Order>, id: string)
    requires id in Ids(orders) && orders[0].id != id
    ensures id in Ids(orders[1..])
  {
    var o :| o in orders && o.id == id;
    assert o != orders[0];
    var j :| 0 <= j < |orders| && orders[j] == o;
    assert orders[1..][j - 1] == o;
  }

  lemma {:induction false} WithoutNoMatch(orders: seq<Order>, id: string)
    requires forall o :: o in orders ==> o.id != id
    ensures Without(orders, id) == orders
  {
    if orders != [] {
      WithoutNoMatch(orders[1..], id);
    }
  }

  /** `call.request.page || 1`: a page of 0 (unset) is page 1. */
  function EffectivePage(page: nat): (p: nat)
    ensures page == 0 ==> p == 1
    ensures page > 0 ==> p == page
  {
    if page == 0 then 1 else page
  }

  /** `call.request.limit || 10`: a limit of 0 (unset) is 10. */
  function EffectiveLimit(limit: nat): (l: nat)
    ensures limit == 0 ==> l == 10
    ensures limit > 0 ==> l == limit
  {
    if limit == 0 then 10 else limit
  }

  /** `{user_id}` as a query: only a non-empty `user_id` filters. */
  function Matching(orders: seq<Order>, userId: string): (r: seq<Order>)
    ensures userId == "" ==> r == orders
    ensures userId != "" ==> forall o :: o in r <==> o in orders && o.userId == userId
    ensures |r| <= |orders|
  {
    if userId == "" || orders == [] then orders
    else if orders[0].userId == userId then [orders[0]] + Matching(orders[1..], userId)
    else Matching(orders[1..], userId)
  }

  /** The filter keeps the matching orders in their positions: an order appended at the
      end is kept exactly when it matches, and nothing before it moves. */
  lemma {:induction false} MatchingAppend(orders: seq<Order>, o: Order, userId: string)
    ensures Matching(orders + [o], userId) == Matching(orders, userId) + (if userId == "" || o.userId == userId then [o] else [])
  {
    if userId != "" {
      if orders == [] {
        assert orders + [o] == [o];
        assert [o][1..] == [];
      } else {
        assert (orders + [o])[1..] == orders[1..] + [o];
        MatchingAppend(orders[1..], o, userId);
      }
    }
  }

  /** How often each order occurs after filtering: as often as in the collection when it
      matches, and never otherwise. So `|Matching(...)|` is the number of matching orders. */
  lemma {:induction false} MatchingCounts(orders: seq<Order>, userId: string)
    ensures forall x ::
              multiset(Matching(orders, userId))[x] == if userId == "" || x.userId == userId then multiset(orders)[x] else 0
  {
    if userId != "" && orders != [] {
      MatchingCounts(orders[1..], userId);
      assert orders == [orders[0]] + orders[1..];
      assert multiset(orders) == multiset([orders[0]]) + multiset(orders[1..]);
    }
  }

  /** The positions of the collection that hold a matching order. */
  ghost function MatchIndices(orders: seq<Order>, userId: string): set<int>
  {
    set k | 0 <= k < |orders| && (userId == "" || orders[k].userId == userId)
  }

  /** The filter's length is the number of matching orders, which is what
      `countDocuments` counts. */
  lemma {:induction false} MatchingLength(orders: seq<Order>, userId: string)
    ensures |Matching(orders, userId)| == |MatchIndices(orders, userId)|
  {
    if orders == [] {
      assert MatchIndices(orders, userId) == {};
    } else {
      var init, last := orders[..|orders| - 1], orders[|orders| - 1];
      assert orders == init + [last];
      MatchingAppend(init, last, userId);
      MatchingLength(init, userId);
      MatchIndicesAppend(init, last, userId);
    }
  }

  /** An appended order adds its own position exactly when it matches. */
  lemma MatchIndicesAppend(init: seq<Order>, last: Order, userId: string)
    ensures |MatchIndices(init + [last], userId)| ==
            |MatchIndices(init, userId)| + (if userId == "" || last.userId == userId then 1 else 0)
  {
    var orders := init + [last];
    assert forall k :: 0 <= k < |init| ==> orders[k] == init[k];
    if userId == "" || last.userId == userId {
      assert MatchIndices(orders, userId) == MatchIndices(init, userId) + {|init|};
      assert |init| !in MatchIndices(init, userId);
    } else {
      assert MatchIndices(orders, userId) == MatchIndices(init, userId);
    }
  }

  datatype OrderList = OrderList(orders: seq<Order>, total: nat)

  /** `(page - 1) * limit`, with the defaults applied. */
  function Skip(page: nat, limit: nat): nat
  {
    (EffectivePage(page) - 1) * EffectiveLimit(limit)
  }

  /** `.skip(skip).limit(size)` over `m`: at most `size` elements, starting at `skip`. */
  function Window(m: seq<Order>, skip: nat, size: nat): (w: seq<Order>)
    ensures |w| == if skip >= |m| then 0 else Min(size, |m| - skip)
    ensures forall k :: 0 <= k < |w| ==> w[k] == m[skip + k]
  {
    if skip >= |m| then [] else m[skip..skip + Min(size, |m| - skip)]
  }

  /** `find(query).skip(skip).limit(limit)` and `countDocuments(query)`. */
  function ListPage(orders: seq<Order>, page: nat, limit: nat, userId: string): (r: OrderList)
    ensures r.total == |Matching(orders, userId)| == |MatchIndices(orders, userId)|
    ensures r.orders == Window(Matching(orders, userId), Skip(page, limit), EffectiveLimit(limit))
  {
    MatchingLength(orders, userId);
    var m := Matching(orders, userId);
    OrderList(Window(m, Skip(page, limit), EffectiveLimit(limit)), |m|)
  }

  function Min(a: int, b: int): int
  {
    if a <= b then a else b
  }

  /** Pages 1 to n, one after the other. */
  function FirstPages(orders: seq<Order>, n: nat, limit: nat, userId: string): seq<Order>
  {
    if n == 0 then [] else FirstPages(orders, n - 1, limit, userId) + ListPage(orders, n, limit, userId).orders
  }

  /** Reading pages 1, 2, ..., n in turn yields the first n × limit matching orders, each
      once and in order: pages neither overlap nor leave gaps. */
  lemma {:induction false} PagesTile(orders: seq<Order>, n: nat, limit: nat, userId: string)
    ensures var m := Matching(orders, userId);
            FirstPages(orders, n, limit, userId) == m[..Min(n * EffectiveLimit(limit), |m|)]
  {
    var m := Matching(orders, userId);
    var size := EffectiveLimit(limit);
    if n > 0 {
      PagesTile(orders, n - 1, limit, userId);
      var skip := (n - 1) * size;
      assert Skip(n, limit) == skip;
      assert n * size == skip + size;
      WindowExtends(m, skip, size);
    }
  }

  /** The prefix before a window, followed by the window, is the longer prefix. */
  lemma WindowExtends(m: seq<Order>, skip: nat, size: nat)
    ensures m[..Min(skip, |m|)] + Window(m, skip, size) == m[..Min(skip + size, |m|)]
  {
    if skip >= |m| {
      assert Min(skip + size, |m|) == |m| == Min(skip, |m|);
    } else {
      assert m[..skip] + m[skip..skip + Min(size, |m| - skip)] == m[..skip + Min(size, |m| - skip)];
    }
  }

  /** Page 2 of 10 starts after the first ten matching orders. */
  lemma SecondPageOffset()
    ensures Skip(2, 10) == 10 && Skip(0, 0) == 0 && EffectiveLimit(0) == 10
  {
  }

  /** With product 1 at 1299.99 and 50 in stock, an order for two of it costs 2599.98. */
  lemma TwoLaptopsExample()
    ensures var catalog := map["1" := Found(Product("1", "Laptop", 129999, 50))];
            Validate(catalog, [RequestItem("1", 2)]) == Priced([OrderItem("1", 2, 129999)], 259998)
  {
    assert [RequestItem("1", 2)][..0] == [];
  }

  /** The order collection of the service, in its natural order. */
  class OrderStore {
    var orders: seq<Order>

    ghost predicate Valid()
      reads this
    {
      DistinctIds(orders)
    }

    constructor ()
      ensures Valid() && orders == []
    {
      orders := [];
    }

    /** `createOrder`: build the two clients, validate every item against the product
        service in order, then save one order. Nothing is written unless every item
        passes, and every failure is reported as INTERNAL. No user is looked up: the user
        client is built and never used. `newId` is the id the store assigns. */
    method CreateOrder(d: Discovery, env: Env, userPick: nat, productPick: nat,
                       catalog: Catalog, req: CreateOrderRequest, newId: string)
      returns (r: Result<Order, RpcError>)
      requires Valid() && newId !in Ids(orders)
      modifies this
      ensures Valid()
      ensures r.Ok? <==> Validate(catalog, req.items).Priced?
      ensures r.Ok? ==> var v := Validate(catalog, req.items);
                        r.value == NewOrder(newId, req, v.items, v.total) && orders == old(orders) + [r.value]
      ensures r.Err? ==> r.error == RpcError(INTERNAL, Validate(catalog, req.items).message) && orders == old(orders)
    {
      OrderClientsResolve(d, env, userPick);
      OrderClientsResolve(d, env, productPick);
      var userAddress := GrpcAddress(d, env, GatewayDiscovery.UserService, userPick).value;
      var productAddress := GrpcAddress(d, env, GatewayDiscovery.ProductService, productPick).value;

      var totalAmount := 0;
      var items: seq<OrderItem> := [];
      var i := 0;
      while i < |req.items|
        invariant i <= |req.items|
        invariant Validate(catalog, req.items[..i]) == Priced(items, totalAmount)
      {
        var item := req.items[i];
        assert req.items[..i + 1][..i] == req.items[..i];
        var reply := GetProduct(catalog, item.productId);
        if reply.Failed? {
          RejectionIsFinal(catalog, req.items, i + 1);
          return Err(RpcError(INTERNAL, reply.message));
        }
        var product := reply.product;
        if product.stock < item.quantity {
          RejectionIsFinal(catalog, req.items, i + 1);
          return Err(RpcError(INTERNAL, "Not enough stock for product " + product.name));
        }
        totalAmount := totalAmount + product.price * item.quantity;
        items := items + [OrderItem(item.productId, item.quantity, product.price)];
        i := i + 1;
      }
      assert req.items[..i] == req.items;

      var order := NewOrder(newId, req, items, totalAmount);
      FreshIdKeepsDistinct(orders, order);
      orders := orders + [order];
      return Ok(order);
    }

    /** `getOrder` */
    function GetOrder(id: string): (r: Result<Order, RpcError>)
      reads this
      ensures r.Err? <==> id !in Ids(orders)
      ensures r.Err? ==> r.error == OrderNotFound
      ensures r.Ok? ==> r.value in orders && r.value.id == id
    {
      match FindOrder(orders, id)
      case None => Err(OrderNotFound)
      case Some(o) => Ok(o)
    }

    /** `updateOrder`: set the status of order `id` to any value; an absent id is NOT_FOUND. */
    method UpdateOrder(id: string, status: string) returns (r: Result<Order, RpcError>)
      requires Valid()
      modifies this
      ensures Valid()
      ensures r.Err? <==> id !in Ids(old(orders))
      ensures r.Err? ==> r.error == OrderNotFound && orders == old(orders)
      ensures r.Ok? ==> (orders == WithStatus(old(orders), id, status)
                         && r.value == FindOrder(old(orders), id).value.(status := status))
    {
      match FindOrder(orders, id)
      case None =>
        return Err(OrderNotFound);
      case Some(o) =>
        orders := WithStatus(orders, id, status);
        return Ok(o.(status := status));
    }

    /** `deleteOrder`: remove order `id`; an absent id is NOT_FOUND. */
    method DeleteOrder(id: string) returns (r: Result<bool, RpcError>)
      requires Valid()
      modifies this
      ensures Valid()
      ensures r.Err? <==> id !in Ids(old(orders))
      ensures r.Err? ==> r.error == OrderNotFound && orders == old(orders)
      ensures r.Ok? ==> r.value && orders == Without(old(orders), id) && |orders| == |old(orders)| - 1
    {
      if id !in Ids(orders) {
        return Err(OrderNotFound);
      }
      WithoutRemovesOne(orders, id);
      orders := Without(orders, id);
      return Ok(true);
    }

    /** `listOrders` */
    function ListOrders(page: nat, limit: nat, userId: string): (r: OrderList)
      reads this
      ensures r.total == |Matching(orders, userId)| == |MatchIndices(orders, userId)|
      ensures |r.orders| == if Skip(page, limit) >= r.total then 0 else Min(EffectiveLimit(limit), r.total - Skip(page, limit))
      ensures forall k :: 0 <= k < |r.orders| ==>
                Skip(page, limit) + k < r.total && r.orders[k] == Matching(orders, userId)[Skip(page, limit) + k]
      ensures userId != "" ==> forall o :: o in r.orders ==> o in orders && o.userId == userId
    {
      ListPage(orders, page, limit, userId)
    }
  }
}
