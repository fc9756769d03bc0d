/**
 * End-to-end scenarios of the mutations on a fresh store, with prices in
 * cents: an order for a 100.00 and a 50.00 product, and a batch holding one
 * valid item, one repeating its email and one with a malformed phone.
 */
module Scenarios {
  import opened Wrappers
  import opened Phone
  import opened Tables
  import opened Customers
  import opened Store

  /** The listed prices of products 1 and 2 add up to 150.00. */
  lemma TwoProductTotal()
    ensures ToSet([1, 2]) == {1, 2}
    ensures ListedTotal([Product(1, "Laptop", 10000, 5), Product(2, "Mouse", 5000, 0)], [1, 2]) == 15000
  {
    var ps := [Product(1, "Laptop", 10000, 5), Product(2, "Mouse", 5000, 0)];
    assert [1, 2][1..] == [2] && [2][1..] == [];
    assert ps[1..] == [Product(2, "Mouse", 5000, 0)];
    assert PriceOf(ps, 1) == 10000 && PriceOf(ps, 2) == 5000;
    assert ListedTotal(ps, [2]) == 5000 + ListedTotal(ps, []);
  }

  /** Two products priced 100.00 and 50.00 make an order totalling exactly 150.00 that links both. */
  method OrderOfTwoProducts() returns (r: OrderPayload)
    ensures r.success && r.message == "Order created successfully."
    ensures r.order.Some? && r.order.value.totalAmount == 15000 && r.order.value.productIds == {1, 2}
  {
    var store := new Store();
    var laptop := store.CreateProduct("Laptop", 10000, 5);
    var mouse := store.CreateProduct("Mouse", 5000, 0);
    var alice := store.CreateCustomer("Alice", "alice@example.com", None);
    assert store.products == [Product(1, "Laptop", 10000, 5), Product(2, "Mouse", 5000, 0)];
    assert 1 in CustomerIds(store.customers);
    TwoProductTotal();
    assert Distinct([1, 2]);
    assert AllStored(store.products, [1, 2]) by {
      assert store.products[0] in store.products && store.products[1] in store.products;
    }
    r := store.CreateOrder(1, [1, 2], None, 0);
  }

  /** Empty and partly unknown product lists are refused with their messages. */
  method OrdersRefused() returns (empty: OrderPayload, unknown: OrderPayload)
    ensures empty == OrderPayload(None, false, "At least one product is required.")
    ensures unknown == OrderPayload(None, false, "Some product IDs are invalid.")
  {
    var store := new Store();
    var laptop := store.CreateProduct("Laptop", 10000, 5);
    var alice := store.CreateCustomer("Alice", "alice@example.com", None);
    assert 1 in CustomerIds(store.customers);
    empty := store.CreateOrder(1, [], None, 0);
    assert 7 !in ProductIds(store.products);
    unknown := store.CreateOrder(1, [1, 7], None, 0);
  }

  const Ann := CustomerInput("Ann", "ann@example.com", Some("555-123-4567"))
  const AnnAgain := CustomerInput("Ann B", "ann@example.com", None)
  const Bob := CustomerInput("Bob", "bob@example.com", Some("12345"))

  /** Ann's phone is accepted, Bob's is refused, and Bob's email differs from Ann's. */
  lemma MixedBatchInputs()
    ensures PhoneAccepted(Ann.phone) && Bob.phone.Some? && !PhoneAccepted(Bob.phone)
    ensures Bob.email != Ann.email
  {
    DashedAccepted("555", "123", "4567");
    assert "555" + "-" + "123" + "-" + "4567" == "555-123-4567";
    WrongLengthRefused("12345");
    assert Bob.email[0] != Ann.email[0];
  }

  /** The specified outcome of the batch `[Ann, AnnAgain, Bob]` on an empty table. */
  lemma MixedBatchSpecified()
    ensures Rows(1, Admitted({}, [Ann, AnnAgain, Bob])) == [Customer(1, "Ann", "ann@example.com", Some("555-123-4567"))]
    ensures Refusals({}, [Ann, AnnAgain, Bob]) == ["Email already exists: " + "ann@example.com", "Invalid phone format: " + "12345"]
  {
    MixedBatchInputs();
    MixedBatchOutcome({}, Ann, AnnAgain, Bob);
    assert [Ann][..0] == [];
  }

  /**
   * A valid item, an item repeating its email, and an item with a malformed
   * phone: one customer is created and the two errors come in input order.
   */
  method MixedBatch() returns (created: seq<Customer>, errors: seq<string>)
    ensures created == [Customer(1, "Ann", "ann@example.com", Some("555-123-4567"))]
    ensures errors == ["Email already exists: " + "ann@example.com", "Invalid phone format: " + "12345"]
  {
    var store := new Store();
    MixedBatchSpecified();
    created, errors := store.BulkCreateCustomers([Ann, AnnAgain, Bob]);
  }
}
