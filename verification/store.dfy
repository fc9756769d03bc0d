/**
 * The mutation layer: the four create mutations acting on an in-memory
 * store of the Customer, Product and Order tables. Ids are handed out by
 * one counter per table, as an auto-increment primary key does; the clock
 * read by CreateOrder is the parameter `now`.
 */
module Store {
  import opened Wrappers
  import opened Phone
  import opened Tables
  import opened Customers

  /** The fields of the CreateCustomer payload: `customer`, `success`, `message`. */
  datatype CustomerPayload = CustomerPayload(customer: Option<Customer>, success: bool, message: string)

  datatype ProductPayload = ProductPayload(product: Option<Product>, success: bool, message: string)

  datatype OrderPayload = OrderPayload(order: Option<Order>, success: bool, message: string)

  class Store {
    var customers: seq<Customer>
    var products: seq<Product>
    var orders: seq<Order>
    var nextCustomerId: nat
    var nextProductId: nat
    var nextOrderId: nat

    /** The table invariants, with orders checked against the current customers and products. */
    ghost predicate Valid()
      reads this
    {
      && CustomersValid(customers, nextCustomerId)
      && ProductsValid(products, nextProductId)
      && OrdersValid(orders, nextOrderId, customers, products)
    }

    constructor ()
      ensures Valid()
      ensures customers == [] && products == [] && orders == []
      ensures nextCustomerId == 1 && nextProductId == 1 && nextOrderId == 1
    {
      customers, products, orders := [], [], [];
      nextCustomerId, nextProductId, nextOrderId := 1, 1, 1;
    }

    /** `Customer.objects.create(...)` for an email not yet stored. */
    method InsertCustomer(name: string, email: string, phone: Option<string>) returns (c: Customer)
      requires Valid()
      requires email !in Emails(customers)
      modifies this
      ensures Valid()
      ensures c == Customer(old(nextCustomerId), name, email, phone)
      ensures customers == old(customers) + [c] && nextCustomerId == old(nextCustomerId) + 1
      ensures products == old(products) && orders == old(orders)
      ensures nextProductId == old(nextProductId) && nextOrderId == old(nextOrderId)
    {
      c := Customer(nextCustomerId, name, email, phone);
      CustomerAppendValid(customers, nextCustomerId, c);
      OrdersSurviveNewCustomer(orders, nextOrderId, customers, products, c);
      customers := customers + [c];
      nextCustomerId := nextCustomerId + 1;
    }

    /**
     * createCustomer: refused with "Email already exists." when the email is
     * stored, otherwise with "Invalid phone format." when a non-empty phone
     * fails the pattern; otherwise exactly one row is appended.
     */
    method CreateCustomer(name: string, email: string, phone: Option<string>) returns (r: CustomerPayload)
      requires Valid()
      modifies this
      ensures Valid()
      ensures products == old(products) && orders == old(orders)
      ensures nextProductId == old(nextProductId) && nextOrderId == old(nextOrderId)
      ensures email in Emails(old(customers)) ==>
        && r == CustomerPayload(None, false, "Email already exists.")
        && customers == old(customers) && nextCustomerId == old(nextCustomerId)
      ensures email !in Emails(old(customers)) && !PhoneAccepted(phone) ==>
        && r == CustomerPayload(None, false, "Invalid phone format.")
        && customers == old(customers) && nextCustomerId == old(nextCustomerId)
      ensures email !in Emails(old(customers)) && PhoneAccepted(phone) ==>
        var c := Customer(old(nextCustomerId), name, email, phone);
        && r == CustomerPayload(Some(c), true, "Customer created successfully.")
        && customers == old(customers) + [c] && nextCustomerId == old(nextCustomerId) + 1
    {
      if email in Emails(customers) {
        return CustomerPayload(None, false, "Email already exists.");
      }
      if phone.Some? && phone.value != "" {
        if !MatchesPattern(phone.value) {
          return CustomerPayload(None, false, "Invalid phone format.");
        }
      }
      var c := InsertCustomer(name, email, phone);
      r := CustomerPayload(Some(c), true, "Customer created successfully.");
    }

    /**
     * The body of the bulk loop for one item: the item is refused with an
     * error string when the screen fails, and inserted otherwise.
     */
    method BulkItem(item: CustomerInput) returns (c: Option<Customer>, error: Option<string>)
      requires Valid()
      modifies this
      ensures Valid()
      ensures products == old(products) && orders == old(orders)
      ensures nextProductId == old(nextProductId) && nextOrderId == old(nextOrderId)
      ensures Screen(Emails(old(customers)), item.email, item.phone).Some? ==>
        && c == None
        && error == Some(BulkMessage(item, Screen(Emails(old(customers)), item.email, item.phone).value))
        && customers == old(customers) && nextCustomerId == old(nextCustomerId)
      ensures Screen(Emails(old(customers)), item.email, item.phone) == None ==>
        && c == Some(Row(old(nextCustomerId), item)) && error == None
        && customers == old(customers) + [c.value] && nextCustomerId == old(nextCustomerId) + 1
        && Emails(customers) == Emails(old(customers)) + {item.email}
    {
      if item.email in Emails(customers) {
        return None, Some("Email already exists: " + item.email);
      }
      var phone := item.phone;
      if phone.Some? && phone.value != "" {
        if !MatchesPattern(phone.value) {
          return None, Some("Invalid phone format: " + phone.value);
        }
      }
      ghost var before := customers;
      var row := InsertCustomer(item.name, item.email, item.phone);
      EmailsAppend(before, row);
      c, error := Some(row), None;
    }

    /**
     * bulkCreateCustomers: each item, in input order, is refused with an
     * error string or inserted at once, so a later item sees the rows of
     * the earlier ones. The result is the specification in module Customers.
     */
    method BulkCreateCustomers(items: seq<CustomerInput>) returns (created: seq<Customer>, errors: seq<string>)
      requires Valid()
      modifies this
      ensures Valid()
      ensures products == old(products) && orders == old(orders)
      ensures nextProductId == old(nextProductId) && nextOrderId == old(nextOrderId)
      ensures created == Rows(old(nextCustomerId), Admitted(Emails(old(customers)), items))
      ensures errors == Refusals(Emails(old(customers)), items)
      ensures customers == old(customers) + created
      ensures nextCustomerId == old(nextCustomerId) + |created|
    {
      ghost var start, first := customers, nextCustomerId;
      created, errors := [], [];
      assert items[..0] == [];
      assert Expected(start, first, items[..0]) == BulkState(customers, nextCustomerId, created, errors);
      for i := 0 to |items|
        invariant Valid()
        invariant products == old(products) && orders == old(orders)
        invariant nextProductId == old(nextProductId) && nextOrderId == old(nextOrderId)
        invariant BulkState(customers, nextCustomerId, created, errors) == Expected(start, first, items[..i])
      {
        var item := items[i];
        ghost var before := BulkState(customers, nextCustomerId, created, errors);
        LoopStepExpected(start, first, items, i);
        var c, error := BulkItem(item);
        if c.Some? {
          created := created + [c.value];
        }
        if error.Some? {
          errors := errors + [error.value];
        }
        assert BulkState(customers, nextCustomerId, created, errors) == LoopStep(before, item);
      }
      assert items[..|items|] == items;
    }

    /**
     * createProduct: refused with "Price must be positive." when
     * `price <= 0`, otherwise with "Stock cannot be negative." when
     * `stock < 0`; otherwise exactly one product row is appended.
     */
    method CreateProduct(name: string, price: int, stock: int) returns (r: ProductPayload)
      requires Valid()
      modifies this
      ensures Valid()
      ensures customers == old(customers) && orders == old(orders)
      ensures nextCustomerId == old(nextCustomerId) && nextOrderId == old(nextOrderId)
      ensures price <= 0 ==>
        && r == ProductPayload(None, false, "Price must be positive.")
        && products == old(products) && nextProductId == old(nextProductId)
      ensures price > 0 && stock < 0 ==>
        && r == ProductPayload(None, false, "Stock cannot be negative.")
        && products == old(products) && nextProductId == old(nextProductId)
      ensures price > 0 && stock >= 0 ==>
        var p := Product(old(nextProductId), name, price, stock);
        && r == ProductPayload(Some(p), true, "Product created successfully.")
        && products == old(products) + [p] && nextProductId == old(nextProductId) + 1
    {
      if price <= 0 {
        return ProductPayload(None, false, "Price must be positive.");
      }
      if stock < 0 {
        return ProductPayload(None, false, "Stock cannot be negative.");
      }
      var p := Product(nextProductId, name, price, stock);
      ProductAppendValid(products, nextProductId, p);
      OrdersSurviveNewProduct(orders, nextOrderId, customers, products, p);
      products := products + [p];
      nextProductId := nextProductId + 1;
      r := ProductPayload(Some(p), true, "Product created successfully.");
    }

    /**
     * createOrder: refused, in this order, for an unknown customer, an empty
     * `product_ids`, and a lookup that finds fewer products than ids were
     * given (an unknown or a repeated id); otherwise one order is stored
     * holding the requested products and the sum of their prices.
     */
    method CreateOrder(customerId: nat, productIds: seq<nat>, orderDate: Option<int>, now: int) returns (r: OrderPayload)
      requires Valid()
      modifies this
      ensures Valid()
      ensures customers == old(customers) && products == old(products)
      ensures nextCustomerId == old(nextCustomerId) && nextProductId == old(nextProductId)
      ensures customerId !in CustomerIds(customers) ==>
        && r == OrderPayload(None, false, "Invalid customer ID.")
        && orders == old(orders) && nextOrderId == old(nextOrderId)
      ensures customerId in CustomerIds(customers) && productIds == [] ==>
        && r == OrderPayload(None, false, "At least one product is required.")
        && orders == old(orders) && nextOrderId == old(nextOrderId)
      ensures customerId in CustomerIds(customers) && productIds != [] &&
              !(Distinct(productIds) && AllStored(products, productIds)) ==>
        && r == OrderPayload(None, false, "Some product IDs are invalid.")
        && orders == old(orders) && nextOrderId == old(nextOrderId)
      ensures customerId in CustomerIds(customers) && productIds != [] &&
              Distinct(productIds) && AllStored(products, productIds) ==>
        var date := match orderDate case Some(d) => d case None => now;
        var o := Order(old(nextOrderId), customerId, ToSet(productIds), ListedTotal(products, productIds), date);
        && r == OrderPayload(Some(o), true, "Order created successfully.")
        && orders == old(orders) + [o] && nextOrderId == old(nextOrderId) + 1
        && o.productIds == ProductIds(Matching(products, ToSet(productIds)))
        && o.totalAmount == SumPrices(Matching(products, ToSet(productIds)))
    {
      if customerId !in CustomerIds(customers) {
        return OrderPayload(None, false, "Invalid customer ID.");
      }
      if productIds == [] {
        return OrderPayload(None, false, "At least one product is required.");
      }
      var found := Matching(products, ToSet(productIds));
      CountCheckPasses(products, productIds);
      if |found| != |productIds| {
        return OrderPayload(None, false, "Some product IDs are invalid.");
      }
      MatchingTotal(products, productIds);
      var total := SumPrices(found);
      var date := match orderDate case Some(d) => d case None => now;
      var linked := ProductIds(found);
      FoundAreRequested(products, productIds);
      var o := Order(nextOrderId, customerId, linked, total, date);
      assert productIds[0] in linked;
      OrderAppendValid(orders, nextOrderId, customers, products, o);
      orders := orders + [o];
      nextOrderId := nextOrderId + 1;
      r := OrderPayload(Some(o), true, "Order created successfully.");
    }
  }
}
