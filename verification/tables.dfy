/**
 * The three stored tables (Customer, Product, Order) as rows, and the pure
 * computations CreateOrder performs on them: resolving `product_ids` with
 * `Product.objects.filter(id__in=product_ids)` and summing the prices.
 * Prices and totals are integer cents, so sums are exact.
 */
module Tables {
  import opened Wrappers

  datatype Customer = Customer(id: nat, name: string, email: string, phone: Option<string>)

  datatype Product = Product(id: nat, name: string, price: int, stock: int)

  /** `productIds` is the many-to-many link set by `order.products.set(...)`. */
  datatype Order = Order(id: nat, customerId: nat, productIds: set<nat>, totalAmount: int, orderDate: int)

  /** The emails of the stored customers: what `Customer.objects.filter(email=...).exists()` looks in. */
  function Emails(cs: seq<Customer>): (r: set<string>)
    ensures |r| <= |cs|
  {
    if cs == [] then {} else Emails(cs[..|cs| - 1]) + {cs[|cs| - 1].email}
  }

  /** An email is in Emails(cs) exactly when some stored customer has it. */
  lemma {:induction false} EmailsMembers(cs: seq<Customer>, e: string)
    ensures e in Emails(cs) <==> exists i :: 0 <= i < |cs| && cs[i].email == e
  {
    if cs != [] {
      var n := |cs| - 1;
      EmailsMembers(cs[..n], e);
      if exists i :: 0 <= i < n && cs[..n][i].email == e {
        var i :| 0 <= i < n && cs[..n][i].email == e;
        assert cs[i].email == e;
      }
      if exists i :: 0 <= i < |cs| && cs[i].email == e {
        var i :| 0 <= i < |cs| && cs[i].email == e;
        if i < n {
          assert cs[..n][i].email == e;
        }
      }
    }
  }

  lemma EmailsAppend(cs: seq<Customer>, c: Customer)
    ensures Emails(cs + [c]) == Emails(cs) + {c.email}
  {
    assert (cs + [c])[..|cs|] == cs;
  }

  predicate EmailsUnique(cs: seq<Customer>) {
    forall i, j :: 0 <= i < j < |cs| ==> cs[i].email != cs[j].email
  }

  function CustomerIds(cs: seq<Customer>): set<nat> {
    set c | c in cs :: c.id
  }

  function ProductIds(ps: seq<Product>): set<nat> {
    set p | p in ps :: p.id
  }

  /** No two stored products share an id (the table's primary key). */
  predicate ProductIdsDistinct(ps: seq<Product>) {
    forall i, j :: 0 <= i < j < |ps| ==> ps[i].id != ps[j].id
  }

  /** No id occurs twice in the list. */
  predicate Distinct(ids: seq<nat>) {
    forall i, j :: 0 <= i < j < |ids| ==> ids[i] != ids[j]
  }

  /** Every id in the list names a stored product. */
  predicate AllStored(ps: seq<Product>, ids: seq<nat>) {
    forall id :: id in ids ==> id in ProductIds(ps)
  }

  function ToSet(ids: seq<nat>): set<nat> {
    set id | id in ids
  }

  /** `Product.objects.filter(id__in=wanted)`: the stored products whose id is wanted, in storage order. */
  function Matching(ps: seq<Product>, wanted: set<nat>): (r: seq<Product>)
    ensures |r| <= |ps|
  {
    if ps == [] then []
    else (if ps[0].id in wanted then [ps[0]] else []) + Matching(ps[1..], wanted)
  }

  /** A product is found by the lookup exactly when it is stored and its id is wanted. */
  lemma {:induction false} MatchingMember(ps: seq<Product>, wanted: set<nat>, p: Product)
    ensures p in Matching(ps, wanted) <==> p in ps && p.id in wanted
  {
    if ps != [] {
      MatchingMember(ps[1..], wanted, p);
      assert p in ps <==> p == ps[0] || p in ps[1..];
    }
  }

  /** `sum([p.price for p in products])`. */
  function SumPrices(ps: seq<Product>): (r: int)
    ensures PricesPositive(ps) ==> r >= |ps|
  {
    if ps == [] then 0 else ps[0].price + SumPrices(ps[1..])
  }

  /** Every product in the list has a positive price. */
  predicate PricesPositive(ps: seq<Product>) {
    forall i :: 0 <= i < |ps| ==> ps[i].price > 0
  }

  /** The price of the stored product with this id (0 when there is none). */
  function PriceOf(ps: seq<Product>, id: nat): int {
    if ps == [] then 0 else if ps[0].id == id then ps[0].price else PriceOf(ps[1..], id)
  }

  /** The prices of the requested ids, summed in request order. */
  function ListedTotal(ps: seq<Product>, ids: seq<nat>): int {
    if ids == [] then 0 else PriceOf(ps, ids[0]) + ListedTotal(ps, ids[1..])
  }

  /** A product appended to the table shows up at the end of a lookup, if it is wanted at all. */
  lemma {:induction false} MatchingAppend(ps: seq<Product>, p: Product, wanted: set<nat>)
    ensures Matching(ps + [p], wanted) == Matching(ps, wanted) + (if p.id in wanted then [p] else [])
  {
    var tail := if p.id in wanted then [p] else [];
    if ps == [] {
      assert ps + [p] == [p] && [p][1..] == [];
      assert Matching([p], wanted) == tail + Matching([], wanted);
    } else {
      var q := ps + [p];
      var head := if ps[0].id in wanted then [ps[0]] else [];
      assert q[0] == ps[0] && q[1..] == ps[1..] + [p];
      MatchingAppend(ps[1..], p, wanted);
      calc {
        Matching(q, wanted);
        head + Matching(ps[1..] + [p], wanted);
        head + (Matching(ps[1..], wanted) + tail);
        (head + Matching(ps[1..], wanted)) + tail;
        Matching(ps, wanted) + tail;
      }
    }
  }

  /** Asking for an id no stored product has changes nothing. */
  lemma {:induction false} MatchingIgnoresAbsent(ps: seq<Product>, wanted: set<nat>, x: nat)
    requires x !in ProductIds(ps)
    ensures Matching(ps, wanted) == Matching(ps, wanted - {x})
  {
    if ps != [] {
      assert ps[0] in ps;
      assert ProductIds(ps[1..]) <= ProductIds(ps) by {
        forall q | q in ps[1..] ensures q in ps { }
      }
      MatchingIgnoresAbsent(ps[1..], wanted, x);
    }
  }

  /** Taking the first row off a table with distinct ids: its id is not among the others. */
  lemma SplitFirst(ps: seq<Product>)
    requires ps != [] && ProductIdsDistinct(ps)
    ensures ProductIdsDistinct(ps[1..])
    ensures ProductIds(ps) == {ps[0].id} + ProductIds(ps[1..])
    ensures ps[0].id !in ProductIds(ps[1..])
  {
    var rest := ps[1..];
    forall i, j | 0 <= i < j < |rest| ensures rest[i].id != rest[j].id {
      assert rest[i] == ps[i + 1] && rest[j] == ps[j + 1];
    }
    forall q | q in rest ensures q.id != ps[0].id {
      var k :| 0 <= k < |rest| && rest[k] == q;
      assert q == ps[k + 1];
    }
    forall q | q in ps ensures q == ps[0] || q in rest {
      var k :| 0 <= k < |ps| && ps[k] == q;
      if k > 0 { assert q == rest[k - 1]; }
    }
  }

  /** A subset is no larger than its superset. */
  lemma {:induction false} SubsetCount(a: set<nat>, b: set<nat>)
    requires a <= b
    ensures |a| <= |b|
  {
    if b != {} {
      var y :| y in b;
      SubsetCount(a - {y}, b - {y});
    }
  }

  /** The stored ids that are wanted, split at the first row of a table with distinct ids. */
  lemma WantedStoredFirst(ps: seq<Product>, wanted: set<nat>)
    requires ps != [] && ProductIdsDistinct(ps)
    ensures |wanted * ProductIds(ps)| == (if ps[0].id in wanted then 1 else 0) + |wanted * ProductIds(ps[1..])|
  {
    SplitFirst(ps);
    WantedAmongOneMore(wanted, ps[0].id, ProductIds(ps[1..]));
  }

  /** Adding one new id to a set adds one to its intersection with `wanted` exactly when the id is wanted. */
  lemma WantedAmongOneMore(wanted: set<nat>, x: nat, b: set<nat>)
    requires x !in b
    ensures |wanted * ({x} + b)| == (if x in wanted then 1 else 0) + |wanted * b|
  {
    if x in wanted {
      assert wanted * ({x} + b) == {x} + wanted * b;
    } else {
      assert wanted * ({x} + b) == wanted * b;
    }
  }

  /** The number of products a lookup finds is the number of wanted ids that are stored. */
  lemma {:induction false} MatchingCount(ps: seq<Product>, wanted: set<nat>)
    requires ProductIdsDistinct(ps)
    ensures |Matching(ps, wanted)| == |wanted * ProductIds(ps)|
  {
    if ps == [] {
      assert wanted * ProductIds(ps) == {};
    } else {
      SplitFirst(ps);
      MatchingCount(ps[1..], wanted);
      WantedStoredFirst(ps, wanted);
    }
  }

  /** The ids of a non-empty list: its first id and those of the rest. */
  lemma ToSetFirst(ids: seq<nat>)
    requires ids != []
    ensures ToSet(ids) == {ids[0]} + ToSet(ids[1..])
  {
    assert ids == [ids[0]] + ids[1..];
  }

  /** A non-empty list repeats no id exactly when its first id is not in the rest and the rest repeats none. */
  lemma DistinctFirst(ids: seq<nat>)
    requires ids != []
    ensures Distinct(ids) <==> ids[0] !in ids[1..] && Distinct(ids[1..])
  {
    var x, rest := ids[0], ids[1..];
    if Distinct(ids) {
      forall i, j | 0 <= i < j < |rest| ensures rest[i] != rest[j] {
        assert rest[i] == ids[i + 1] && rest[j] == ids[j + 1];
      }
    }
    forall k | 0 <= k < |rest| ensures Distinct(ids) ==> rest[k] != x {
      assert rest[k] == ids[k + 1];
    }
    if x !in rest && Distinct(rest) {
      forall i, j | 0 <= i < j < |ids| ensures ids[i] != ids[j] {
        if i > 0 {
          assert ids[i] == rest[i - 1] && ids[j] == rest[j - 1];
        } else {
          assert ids[j] == rest[j - 1];
        }
      }
    }
  }

  /** A list of ids holds at most as many distinct ids as entries, and exactly as many when no id repeats. */
  lemma {:induction false} ToSetCount(ids: seq<nat>)
    ensures |ToSet(ids)| <= |ids|
    ensures |ToSet(ids)| == |ids| <==> Distinct(ids)
  {
    if ids != [] {
      var x, rest := ids[0], ids[1..];
      ToSetCount(rest);
      ToSetFirst(ids);
      DistinctFirst(ids);
      if x in rest {
        assert x in ToSet(rest);
        assert ToSet(ids) == ToSet(rest);
      } else {
        assert x !in ToSet(rest);
      }
    }
  }

  /**
   * The check `products.count() != len(product_ids)` passes exactly when no
   * id repeats and every id names a stored product.
   */
  lemma CountCheckPasses(ps: seq<Product>, ids: seq<nat>)
    requires ProductIdsDistinct(ps)
    ensures |Matching(ps, ToSet(ids))| == |ids| <==> Distinct(ids) && AllStored(ps, ids)
  {
    var wanted := ToSet(ids);
    MatchingCount(ps, wanted);
    ToSetCount(ids);
    var stored := ProductIds(ps);
    var found := wanted * stored;
    SubsetCount(found, wanted);
    if found != wanted {
      var x :| x in wanted && x !in found;
      SubsetCount(found, wanted - {x});
      assert x in ids && x !in stored;
    } else {
      assert forall id :: id in ids ==> id in wanted;
    }
  }

  /** A lookup for no ids finds nothing. */
  lemma {:induction false} NothingWanted(ps: seq<Product>)
    ensures Matching(ps, {}) == []
  {
    if ps != [] {
      NothingWanted(ps[1..]);
    }
  }

  /** When every requested id is stored, the products found carry exactly the requested ids. */
  lemma FoundAreRequested(ps: seq<Product>, ids: seq<nat>)
    requires AllStored(ps, ids)
    ensures ProductIds(Matching(ps, ToSet(ids))) == ToSet(ids)
  {
    var found := Matching(ps, ToSet(ids));
    forall id | id in ToSet(ids) ensures id in ProductIds(found) {
      var p :| p in ps && p.id == id;
      MatchingMember(ps, ToSet(ids), p);
    }
    forall p | p in found ensures p.id in ToSet(ids) {
      MatchingMember(ps, ToSet(ids), p);
    }
  }

  /** Pulling one stored id out of a lookup takes exactly its price out of the sum. */
  lemma {:induction false} SumWithout(ps: seq<Product>, wanted: set<nat>, x: nat)
    requires ProductIdsDistinct(ps)
    requires x in wanted && x in ProductIds(ps)
    ensures SumPrices(Matching(ps, wanted)) == PriceOf(ps, x) + SumPrices(Matching(ps, wanted - {x}))
  {
    var rest := ps[1..];
    SplitFirst(ps);
    var head := if ps[0].id in wanted then [ps[0]] else [];
    var headLess := if ps[0].id in wanted - {x} then [ps[0]] else [];
    assert Matching(ps, wanted) == head + Matching(rest, wanted);
    assert Matching(ps, wanted - {x}) == headLess + Matching(rest, wanted - {x});
    SumAfterHead(head, Matching(rest, wanted));
    SumAfterHead(headLess, Matching(rest, wanted - {x}));
    if ps[0].id == x {
      MatchingIgnoresAbsent(rest, wanted, x);
    } else {
      SumWithout(rest, wanted, x);
    }
  }

  /** Summing after a leading row of at most one product. */
  lemma SumAfterHead(head: seq<Product>, m: seq<Product>)
    requires |head| <= 1
    ensures SumPrices(head + m) == SumPrices(head) + SumPrices(m)
  {
    if head != [] {
      assert (head + m)[0] == head[0] && (head + m)[1..] == m;
      assert SumPrices(head) == head[0].price + SumPrices(head[1..]);
      assert head[1..] == [];
    } else {
      assert head + m == m;
    }
  }

  /**
   * For ids that are distinct and all stored, the sum over the looked-up
   * products equals the sum of the requested ids' prices.
   */
  lemma {:induction false} MatchingTotal(ps: seq<Product>, ids: seq<nat>)
    requires ProductIdsDistinct(ps)
    requires Distinct(ids) && AllStored(ps, ids)
    ensures SumPrices(Matching(ps, ToSet(ids))) == ListedTotal(ps, ids)
  {
    if ids == [] {
      assert ToSet(ids) == {};
      NothingWanted(ps);
    } else {
      var x, rest := ids[0], ids[1..];
      DistinctFirst(ids);
      ToSetFirst(ids);
      assert x !in ToSet(rest);
      assert ToSet(ids) - {x} == ToSet(rest);
      assert AllStored(ps, rest) by {
        forall id | id in rest ensures id in ProductIds(ps) {
          assert id in ids;
        }
      }
      SumWithout(ps, ToSet(ids), x);
      MatchingTotal(ps, rest);
    }
  }

  /** Customer table invariant: unique ids below the id counter, unique emails. */
  predicate CustomersValid(cs: seq<Customer>, nextId: nat) {
    && (forall i, j :: 0 <= i < j < |cs| ==> cs[i].id != cs[j].id)
    && (forall c :: c in cs ==> c.id < nextId)
    && EmailsUnique(cs)
  }

  /** Product table invariant: unique ids below the id counter, `price > 0`, `stock >= 0`. */
  predicate ProductsValid(ps: seq<Product>, nextId: nat) {
    && ProductIdsDistinct(ps)
    && (forall p :: p in ps ==> p.id < nextId && p.price > 0 && p.stock >= 0)
  }

  /** An order names a stored customer and at least one stored product, and its total is their price sum. */
  predicate OrderConsistent(o: Order, cs: seq<Customer>, ps: seq<Product>) {
    && o.customerId in CustomerIds(cs)
    && o.productIds != {}
    && o.productIds <= ProductIds(ps)
    && o.totalAmount == SumPrices(Matching(ps, o.productIds))
  }

  /** Order table invariant: unique ids below the id counter, every order consistent. */
  predicate OrdersValid(os: seq<Order>, nextId: nat, cs: seq<Customer>, ps: seq<Product>) {
    && (forall i, j :: 0 <= i < j < |os| ==> os[i].id != os[j].id)
    && (forall o :: o in os ==> o.id < nextId && OrderConsistent(o, cs, ps))
  }

  /** Appending a customer with the next id and an email not yet stored keeps the customer table valid. */
  lemma CustomerAppendValid(cs: seq<Customer>, nextId: nat, c: Customer)
    requires CustomersValid(cs, nextId)
    requires c.id == nextId && c.email !in Emails(cs)
    ensures CustomersValid(cs + [c], nextId + 1)
  {
    var cs' := cs + [c];
    forall i, j | 0 <= i < j < |cs'| ensures cs'[i].email != cs'[j].email && cs'[i].id != cs'[j].id {
      if j == |cs| {
        assert cs'[i] in cs;
        EmailsMembers(cs, c.email);
        assert cs[i] == cs'[i];
      }
    }
  }

  /** Appending a product with the next id, a positive price and non-negative stock keeps the product table valid. */
  lemma ProductAppendValid(ps: seq<Product>, nextId: nat, p: Product)
    requires ProductsValid(ps, nextId)
    requires p.id == nextId && p.price > 0 && p.stock >= 0
    ensures ProductsValid(ps + [p], nextId + 1)
  {
    var ps' := ps + [p];
    forall i, j | 0 <= i < j < |ps'| ensures ps'[i].id != ps'[j].id {
      if j == |ps| {
        assert ps'[i] in ps;
      }
    }
  }

  /** Appending a consistent order with the next id keeps the order table valid. */
  lemma OrderAppendValid(os: seq<Order>, nextId: nat, cs: seq<Customer>, ps: seq<Product>, o: Order)
    requires OrdersValid(os, nextId, cs, ps)
    requires o.id == nextId && OrderConsistent(o, cs, ps)
    ensures OrdersValid(os + [o], nextId + 1, cs, ps)
  {
    var os' := os + [o];
    forall i, j | 0 <= i < j < |os'| ensures os'[i].id != os'[j].id {
      if j == |os| {
        assert os'[i] in os;
      }
    }
  }

  /** New customers do not disturb stored orders. */
  lemma OrdersSurviveNewCustomer(os: seq<Order>, nextId: nat, cs: seq<Customer>, ps: seq<Product>, c: Customer)
    requires OrdersValid(os, nextId, cs, ps)
    ensures OrdersValid(os, nextId, cs + [c], ps)
  {
    assert CustomerIds(cs) <= CustomerIds(cs + [c]);
  }

  /**
   * New products do not disturb stored orders: a total stays the sum of the
   * prices of the order's own products, since the new id is in no order.
   */
  lemma OrdersSurviveNewProduct(os: seq<Order>, nextId: nat, cs: seq<Customer>, ps: seq<Product>, p: Product)
    requires OrdersValid(os, nextId, cs, ps)
    requires p.id !in ProductIds(ps)
    ensures OrdersValid(os, nextId, cs, ps + [p])
  {
    assert ProductIds(ps) <= ProductIds(ps + [p]);
    forall o | o in os ensures OrderConsistent(o, cs, ps + [p]) {
      assert OrderConsistent(o, cs, ps);
      assert p.id !in o.productIds;
      MatchingAppend(ps, p, o.productIds);
      assert Matching(ps, o.productIds) + [] == Matching(ps, o.productIds);
    }
  }
}
