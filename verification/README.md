# CRM mutation layer in Dafny

This project models the four create mutations of the CRM GraphQL backend: createCustomer, bulkCreateCustomers, createProduct and createOrder, all in `crm/schema.py`. The mutations act on an in-memory store of the Customer, Product and Order tables. The project proves what each mutation returns and how the store changes.

- `wrappers.dfy`: the `Option` type.
- `phone.dfy` (module `Phone`): the phone check. It is the regular expression `^(\+?\d{10,15}|\d{3}-\d{3}-\d{4})$` applied with `re.match`, and only to a phone that is present and non-empty. `\d` is read as an ASCII digit. Python's `$` also matches just before one final newline, and the model includes that.
- `tables.dfy` (module `Tables`): the table rows and the table invariants.
  - Customer ids are unique, below the id counter, and emails are unique.
  - Product ids are unique, `price > 0` and `stock >= 0`.
  - Every order names a stored customer and a non-empty set of stored products. Its total is the sum of those products' prices.
  - The module also models the product lookup `Product.objects.filter(id__in=...)`, its count and its price sum.
- `customers.dfy` (module `Customers`): the two customer guards, and a specification of the whole bulk result that does not replay the loop.
  - An item is refused with "Email already exists: {email}" exactly when its email was stored before the batch, or an earlier item of the batch with the same email passed the phone check.
  - Otherwise it is refused with "Invalid phone format: {phone}" when its phone fails.
  - Otherwise it is created.
- `store.dfy` (module `Store`): the class `Store`, which holds the three tables and one id counter per table. It has one method per mutation. Every method keeps the table invariants (`Valid`). Each method's postcondition gives the payload (`success`, `message`, the created row) and the whole new state in every branch.
- `scenarios.dfy` (module `Scenarios`): end-to-end scenarios, proved on a fresh store.
  - An order for products priced 100.00 and 50.00 has a total of exactly 150.00.
  - An empty product list and a partly unknown product list are both refused.
  - A batch of a valid item, a repeated email and a malformed phone creates one customer and gives two errors, in input order.

Modelling choices:
- Prices and totals are integer cents, so the sum in createOrder is exact.
- Ids come from a per-table counter starting at 1, as the tables' auto-increment primary keys do.
- The clock that `timezone.now()` reads is the parameter `now` of `CreateOrder`. Dates are plain integers.
- An absent phone is `None`, and the empty string is `Some("")`. Both skip the check, as `if phone:` does.

## Model

| member | source | states |
|---|---|---|
| Phone.MatchesPattern | crm/schema.py:57-59 | `re.match` of the pattern with its `$` anchor: one alternative spans the whole string, or all of it but one final newline; a match has 10 to 17 characters |
| Phone.PhoneAccepted | crm/schema.py:56-59 | an absent or empty phone is never checked; any other phone must match the pattern, so an accepted non-empty phone has 10 to 17 characters |
| Phone.WholeMatchShape | crm/schema.py:58 | a string spanning either alternative has 10 to 16 characters, each a digit, a leading '+', or a dash at index 3 or 7 |
| Phone.AcceptedShape | crm/schema.py:57-59 | a phone the pattern accepts has 10 to 17 characters: digits, an optional leading '+', dashes only at indexes 3 and 7, and at most one newline, in last place |
| Phone.NoWholeMatchEndsInNewline | crm/schema.py:58 | neither alternative can end in a newline |
| Phone.TrailingNewline | crm/schema.py:58-59 | `t + "\n"` is accepted if and only if `t` itself spans an alternative (the `$` anchor) |
| Phone.DigitsAccepted | crm/schema.py:58-59 | any 10 to 15 ASCII digits are accepted, with or without a leading '+' |
| Phone.DashedAccepted | crm/schema.py:58-59 | any `DDD-DDD-DDDD` is accepted |
| Phone.WrongLengthRefused | crm/schema.py:56-60 | a non-empty phone shorter than 10 or longer than 17 characters is refused |
| Tables.Emails | crm/schema.py:53 | the set of stored emails that `filter(email=...).exists()` looks in; it has no more elements than there are customers |
| Tables.EmailsMembers | crm/schema.py:53 | an email counts as existing if and only if some stored customer has it |
| Tables.EmailsAppend | crm/schema.py:63 | after one customer is appended, the stored emails are the old ones plus that customer's email |
| Tables.Matching | crm/schema.py:149 | the lookup never returns more rows than are stored |
| Tables.MatchingMember | crm/schema.py:149 | a product is returned by the lookup if and only if it is stored and its id was asked for |
| Tables.SumPrices | crm/schema.py:153 | `sum([p.price for p in products])`; when every price is positive (at least one cent) the sum is at least the number of products |
| Tables.MatchingAppend | crm/schema.py:149 | a product added to the table shows up at the end of a lookup if its id is asked for, and changes nothing otherwise |
| Tables.MatchingIgnoresAbsent | crm/schema.py:149 | asking for an id that no product has does not change the lookup |
| Tables.MatchingCount | crm/schema.py:149-150 | `products.count()` is the number of requested ids that are stored |
| Tables.ToSetCount | crm/schema.py:150 | a list of ids holds at most as many distinct ids as entries, and exactly as many if and only if no id repeats |
| Tables.CountCheckPasses | crm/schema.py:149-151 | the count check passes if and only if no id repeats and every id names a stored product, so an unknown or a repeated id is refused |
| Tables.FoundAreRequested | crm/schema.py:149-159 | when every requested id is stored, the products linked by `order.products.set` carry exactly the requested ids |
| Tables.SumWithout | crm/schema.py:153 | taking one stored id out of a lookup takes exactly that product's price out of the sum |
| Tables.MatchingTotal | crm/schema.py:153 | for distinct, stored ids, the sum over the looked-up products equals the sum of the requested ids' prices, taken in request order |
| Tables.CustomerAppendValid | crm/schema.py:53-63 | appending a customer with the next id and a new email keeps customer ids and emails unique |
| Tables.ProductAppendValid | crm/schema.py:121-126 | appending a product with the next id, price > 0 and stock >= 0 keeps the product table valid |
| Tables.OrderAppendValid | crm/schema.py:154-159 | appending a consistent order with the next id keeps order ids unique and every order consistent |
| Tables.OrdersSurviveNewCustomer | crm/schema.py:63 | a new customer leaves every stored order consistent |
| Tables.OrdersSurviveNewProduct | crm/schema.py:126 | a new product leaves every stored order consistent: each total still equals the sum of the order's own products' prices |
| Customers.Rows | crm/schema.py:102-103 | the batch creates one row per admitted item |
| Customers.RowsContent | crm/schema.py:102-103 | the k-th created row carries the k-th admitted item's name, email and phone under the id `first + k` |
| Customers.Screen | crm/schema.py:53-60 | the two guards in source order: the email check wins, the phone check applies only to a new email, and a customer is created exactly when both pass |
| Customers.BulkMessage | crm/schema.py:91-99 | an error string is the reason's prefix, "Email already exists: " or "Invalid phone format: ", followed by the offending email or phone, which can be read back from it |
| Customers.Refusals | crm/schema.py:88-100 | the `errors` list of a batch; it has at most one entry per item |
| Customers.PickedPositions | crm/schema.py:88-103 | the positions picked for creation (or refusal) are in range, strictly increasing, and exactly those whose verdict is to create (or to refuse) |
| Customers.AdmittedInOrder | crm/schema.py:88-103 | `created_customers` holds exactly the items at the created positions, in input order |
| Customers.RefusalsInOrder | crm/schema.py:88-100 | `errors` holds exactly the messages for the items at the refused positions, in input order, each with its own reason |
| Customers.Admitted | crm/schema.py:88-103 | the created items of a batch; never more of them than input items |
| Customers.AdmittedItemsPass | crm/schema.py:90-103 | every created item comes from the batch, has an email not stored before the batch, and passes the phone check |
| Customers.BulkAccountsForEveryItem | crm/schema.py:88-105 | every input item yields exactly one entry, in `created_customers` or in `errors` |
| Customers.StoredEmailsBeforeItem | crm/schema.py:90-102 | when an item is checked, the stored emails are those from before the batch plus the emails of the earlier items that passed the phone check |
| Customers.AdmittedEmailsFresh | crm/schema.py:90-103 | the created customers' emails are pairwise distinct |
| Customers.RepeatedEmailRefused | crm/schema.py:90-92 | an item that repeats the email of an earlier item with an accepted phone is refused as "Email already exists" |
| Customers.MixedBatchOutcome | crm/schema.py:88-103 | a valid item, then an item repeating its email, then an item with a malformed phone: only the first is created, and the errors are "Email already exists: {email}" then "Invalid phone format: {phone}" |
| Customers.BulkStep | crm/schema.py:90-103 | one more item extends the created list, the error list and the stored emails as the guards decide, against the emails stored at that point |
| Customers.EmailsAfterRows | crm/schema.py:102 | the stored emails after the batch's rows are appended are the old emails plus the created items' emails |
| Customers.LoopStep | crm/schema.py:89-103 | one pass of the loop only appends: the old table, `created` and `errors` are prefixes of the new ones; it records exactly one outcome, and the table, the id counter and `created` grow together by at most one row |
| Customers.StepAdmits | crm/schema.py:102-103 | a loop pass that creates an item appends its row, with the next id, to both the table and `created`, and advances the counter |
| Customers.LoopStepExpected | crm/schema.py:88-103 | one loop pass, taken from the state specified for the items before it, gives the state specified for one more item |
| Customers.StoredAtItem | crm/schema.py:90 | the emails stored when an item is checked depend only on the store before the batch and on the earlier items |
| Store.Store.InsertCustomer | crm/schema.py:63 | `Customer.objects.create` appends one row with the next id and the given fields, and changes nothing else |
| Store.Store.CreateCustomer | crm/schema.py:51-64 | a stored email gives "Email already exists." and the email check comes first; then a failing non-empty phone gives "Invalid phone format."; both leave the store unchanged; otherwise exactly one row is appended and "Customer created successfully." is returned with it |
| Store.Store.BulkItem | crm/schema.py:89-103 | one item is refused with its exact error string and the store is unchanged, or it is inserted and its email joins the stored emails |
| Store.Store.BulkCreateCustomers | crm/schema.py:84-107 | the created list and the errors list equal the batch specification, both in input order; the created rows are appended to the table; emails stay unique |
| Store.Store.CreateProduct | crm/schema.py:120-127 | price <= 0 gives "Price must be positive."; otherwise stock < 0 gives "Stock cannot be negative."; both create nothing; otherwise one product is appended; every stored product keeps price > 0 and stock >= 0 |
| Store.Store.CreateOrder | crm/schema.py:140-161 | refuses, in order, an unknown customer, an empty id list, and an unknown or repeated id, each with its message and with nothing stored; otherwise stores one order whose product set is the resolved set, whose total is the sum of their prices, and whose date is the one given or else `now` |
| Scenarios.OrderOfTwoProducts | crm/schema.py:149-161 | products priced 100.00 and 50.00 give an order totalling exactly 150.00 that links both |
| Scenarios.OrdersRefused | crm/schema.py:146-151 | an empty product list and a list with an unknown id are refused with their messages |
| Scenarios.MixedBatchSpecified | crm/schema.py:88-103 | the specified outcome of the three-item mixed batch on an empty table |
| Scenarios.MixedBatch | crm/schema.py:84-107 | the mixed batch run through the bulk mutation creates exactly Ann and returns the two errors in input order |

## Left out

- Query resolvers (crm/schema.py:167-191): filtering and `order_by` are delegated to Django and django-filter. `crm/filters.py` is not part of this model.
- Graphene type declarations (crm/schema.py:15-34) and the root `Mutation` (crm/schema.py:197-201): declarative wiring only.
- crm/cron.py, send_order_reminders.py, crm/cron_jobs/send_order_reminders.py and crm/seed_db.py: HTTP and GraphQL client calls, clock reads, log-file writes and random fixtures. There is no mutation logic in them. alx_backend_graphql_crm/schema.py is schema wiring.
- `crm/models.py` is not part of this model. The email uniqueness and the id counters are kept by the model's own invariants, not by a database constraint.
- Store.Store.BulkCreateCustomers: the `except Exception` branch (crm/schema.py:104-105) and `@transaction.atomic` (crm/schema.py:83) are left out. They concern storage faults, and the in-memory store has none. An insert in the model always succeeds once the two guards pass.
- Concurrency: two requests racing on the same email are not modelled. Each mutation runs alone.
- Float prices (crm/schema.py:113): prices are integer cents. The model therefore does not capture float rounding in `sum`, or NaN passing `price <= 0`.
- Identifier arguments: `customer_id` and `product_ids` arrive as GraphQL `ID` strings, and the model takes natural numbers. A non-numeric id makes the database lookup raise, and that is not modelled. A null entry of `product_ids` (crm/schema.py:133) is dropped by the `id__in` lookup (crm/schema.py:149), so `count()` falls short and the order is refused with "Some product IDs are invalid." That is the model's refusal for an id no product has.
- Null arguments that make the source raise are not modelled. An explicit `stock: null` skips the default at crm/schema.py:114, and `None < 0` at crm/schema.py:123 raises `TypeError`. A missing `customers` argument (not required and without a default, crm/schema.py:69-78) makes the call to `mutate` (crm/schema.py:84) raise `TypeError` for the missing parameter. An explicit null list makes the loop at crm/schema.py:88 raise outside its `try`. The model's `CreateProduct` takes an integer stock, and `BulkCreateCustomers` takes a sequence of items.
- The argument default `stock=0` (crm/schema.py:114) is applied by the GraphQL layer before `mutate` runs, so `CreateProduct` takes the stock explicitly.
- `order_date or timezone.now()` (crm/schema.py:156): a date value is always truthy in Python, so the model treats the expression as "the given date if present, else `now`". Dates are plain integers.
- Phone: `\d` is read as an ASCII digit. Python 3's `\d` on `str` also matches other Unicode decimal digits.
