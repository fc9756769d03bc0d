/**
 * The checks CreateCustomer and BulkCreateCustomers run before inserting a
 * customer, and a specification of the whole bulk result that does not
 * replay the loop: an item is refused for its email exactly when the email
 * was stored before the batch or an EARLIER item of the batch with the same
 * email passes the phone check.
 */
module Customers {
  import opened Wrappers
  import opened Phone
  import opened Tables

  /** One element of the `customers` argument of bulkCreateCustomers. */
  datatype CustomerInput = CustomerInput(name: string, email: string, phone: Option<string>)

  /** Why a customer is not created; the email check runs first. */
  datatype Rejection = EmailTaken | BadPhone

  /** The two guards in order, against the set of emails already stored. */
  function Screen(taken: set<string>, email: string, phone: Option<string>): (r: Option<Rejection>)
    ensures r == Some(EmailTaken) <==> email in taken
    ensures r == Some(BadPhone) <==> email !in taken && !PhoneAccepted(phone)
    ensures r == None <==> email !in taken && PhoneAccepted(phone)
  {
    if email in taken then Some(EmailTaken)
    else if !PhoneAccepted(phone) then Some(BadPhone)
    else None
  }

  const EmailTakenPrefix := "Email already exists: "
  const BadPhonePrefix := "Invalid phone format: "

  /**
   * The entry BulkCreateCustomers adds to `errors` for a refused item: the
   * reason's prefix followed by the offending email or phone, which can be
   * read back from the message.
   */
  function BulkMessage(item: CustomerInput, why: Rejection): (m: string)
    ensures why == EmailTaken ==>
      |m| >= |EmailTakenPrefix| && m[..|EmailTakenPrefix|] == EmailTakenPrefix && m[|EmailTakenPrefix|..] == item.email
    ensures why == BadPhone && item.phone.Some? ==>
      |m| >= |BadPhonePrefix| && m[..|BadPhonePrefix|] == BadPhonePrefix && m[|BadPhonePrefix|..] == item.phone.value
  {
    match why
    case EmailTaken => EmailTakenPrefix + item.email
    case BadPhone => BadPhonePrefix + (match item.phone case Some(p) => p case None => "")
  }

  /** The row `Customer.objects.create(**data)` inserts under the given id. */
  function Row(id: nat, item: CustomerInput): Customer {
    Customer(id, item.name, item.email, item.phone)
  }

  /** The rows created for `xs`, with consecutive ids starting at `first`. */
  function Rows(first: nat, xs: seq<CustomerInput>): (r: seq<Customer>)
    ensures |r| == |xs|
  {
    if xs == [] then [] else Rows(first, xs[..|xs| - 1]) + [Row(first + |xs| - 1, xs[|xs| - 1])]
  }

  /** The k-th row holds the k-th item's fields under the k-th consecutive id. */
  lemma {:induction false} RowsContent(first: nat, xs: seq<CustomerInput>, k: nat)
    requires k < |xs|
    ensures Rows(first, xs)[k] == Row(first + k, xs[k])
  {
    var n := |xs| - 1;
    if k < n {
      RowsContent(first, xs[..n], k);
    }
  }

  /** The emails of a list of items. */
  function InputEmails(xs: seq<CustomerInput>): set<string> {
    if xs == [] then {} else InputEmails(xs[..|xs| - 1]) + {xs[|xs| - 1].email}
  }

  /** The emails of the items, in a list, that pass the phone check. */
  function ClaimedEmails(xs: seq<CustomerInput>): set<string> {
    if xs == [] then {}
    else
      var n := |xs| - 1;
      ClaimedEmails(xs[..n]) + (if PhoneAccepted(xs[n].phone) then {xs[n].email} else {})
  }

  lemma {:induction false} InputEmailsMember(xs: seq<CustomerInput>, j: nat)
    requires j < |xs|
    ensures xs[j].email in InputEmails(xs)
  {
    var n := |xs| - 1;
    if j < n {
      InputEmailsMember(xs[..n], j);
    }
  }

  lemma {:induction false} ClaimedEmailsMember(xs: seq<CustomerInput>, j: nat)
    requires j < |xs| && PhoneAccepted(xs[j].phone)
    ensures xs[j].email in ClaimedEmails(xs)
  {
    var n := |xs| - 1;
    if j < n {
      ClaimedEmailsMember(xs[..n], j);
    }
  }

  /**
   * The outcome for `items[i]` when `taken` holds the emails stored before
   * the batch: None when it is created.
   */
  function Verdict(taken: set<string>, items: seq<CustomerInput>, i: nat): Option<Rejection>
    requires i < |items|
  {
    Screen(taken + ClaimedEmails(items[..i]), items[i].email, items[i].phone)
  }

  /** The items that are created, in input order. */
  function Admitted(taken: set<string>, items: seq<CustomerInput>): (r: seq<CustomerInput>)
    ensures |r| <= |items|
  {
    if items == [] then []
    else
      var n := |items| - 1;
      Admitted(taken, items[..n]) + (if Verdict(taken, items, n) == None then [items[n]] else [])
  }

  /** The `errors` list, in input order. */
  function Refusals(taken: set<string>, items: seq<CustomerInput>): (r: seq<string>)
    ensures |r| <= |items|
  {
    if items == [] then []
    else
      var n := |items| - 1;
      Refusals(taken, items[..n]) + (match Verdict(taken, items, n) case Some(why) => [BulkMessage(items[n], why)] case None => [])
  }

  /** The positions of the items that are created (`created`) or refused (`!created`), in increasing order. */
  function Picked(taken: set<string>, items: seq<CustomerInput>, created: bool): seq<nat> {
    if items == [] then []
    else
      var n := |items| - 1;
      Picked(taken, items[..n], created) + (if (Verdict(taken, items, n) == None) == created then [n] else [])
  }

  /** The verdict on an item does not depend on the items after it. */
  lemma VerdictPrefix(taken: set<string>, items: seq<CustomerInput>, n: nat, i: nat)
    requires i < n <= |items|
    ensures Verdict(taken, items[..n], i) == Verdict(taken, items, i)
  {
    assert items[..n][..i] == items[..i];
  }

  /**
   * The picked positions are in range and strictly increasing, and they are
   * exactly the positions whose verdict is to create (or to refuse).
   */
  lemma {:induction false} PickedPositions(taken: set<string>, items: seq<CustomerInput>, created: bool)
    ensures forall k :: 0 <= k < |Picked(taken, items, created)| ==> Picked(taken, items, created)[k] < |items|
    ensures forall j, k :: 0 <= j < k < |Picked(taken, items, created)| ==>
      Picked(taken, items, created)[j] < Picked(taken, items, created)[k]
    ensures forall i :: 0 <= i < |items| ==>
      (i in Picked(taken, items, created) <==> (Verdict(taken, items, i) == None) == created)
  {
    if items != [] {
      var n := |items| - 1;
      var ys := items[..n];
      PickedPositions(taken, ys, created);
      var before := Picked(taken, ys, created);
      forall i | 0 <= i < n ensures Verdict(taken, ys, i) == Verdict(taken, items, i) {
        VerdictPrefix(taken, items, n, i);
      }
      assert n !in before;
    }
  }

  /** `created_customers` lists exactly the items at the created positions, in input order. */
  lemma {:induction false} AdmittedInOrder(taken: set<string>, items: seq<CustomerInput>)
    ensures |Admitted(taken, items)| == |Picked(taken, items, true)|
    ensures forall k :: 0 <= k < |Picked(taken, items, true)| ==>
      Picked(taken, items, true)[k] < |items| && Admitted(taken, items)[k] == items[Picked(taken, items, true)[k]]
  {
    if items != [] {
      var n := |items| - 1;
      var ys := items[..n];
      AdmittedInOrder(taken, ys);
      var a, p := Admitted(taken, ys), Picked(taken, ys, true);
      forall k | 0 <= k < |p| ensures a[k] == items[p[k]] {
        assert ys[p[k]] == items[p[k]];
      }
    }
  }

  /** `errors` lists exactly the messages for the items at the refused positions, in input order. */
  lemma {:induction false} RefusalsInOrder(taken: set<string>, items: seq<CustomerInput>)
    ensures |Refusals(taken, items)| == |Picked(taken, items, false)|
    ensures forall k :: 0 <= k < |Picked(taken, items, false)| ==>
      && Picked(taken, items, false)[k] < |items|
      && Verdict(taken, items, Picked(taken, items, false)[k]).Some?
      && Refusals(taken, items)[k] ==
           BulkMessage(items[Picked(taken, items, false)[k]], Verdict(taken, items, Picked(taken, items, false)[k]).value)
  {
    if items != [] {
      var n := |items| - 1;
      var ys := items[..n];
      RefusalsInOrder(taken, ys);
      var e, p := Refusals(taken, ys), Picked(taken, ys, false);
      forall k | 0 <= k < |p| ensures Verdict(taken, items, p[k]) == Verdict(taken, ys, p[k]) && ys[p[k]] == items[p[k]] {
        VerdictPrefix(taken, items, n, p[k]);
      }
    }
  }

  /** A created item comes from the batch, has an email not stored before it, and passes the phone check. */
  lemma {:induction false} AdmittedItemsPass(taken: set<string>, items: seq<CustomerInput>)
    ensures forall x :: x in Admitted(taken, items) ==> x in items && x.email !in taken && PhoneAccepted(x.phone)
  {
    if items != [] {
      var n := |items| - 1;
      AdmittedItemsPass(taken, items[..n]);
      assert forall x :: x in items[..n] ==> x in items;
    }
  }

  /** Every input item yields exactly one entry: a created customer or an error string. */
  lemma {:induction false} BulkAccountsForEveryItem(taken: set<string>, items: seq<CustomerInput>)
    ensures |Admitted(taken, items)| + |Refusals(taken, items)| == |items|
  {
    if items != [] {
      BulkAccountsForEveryItem(taken, items[..|items| - 1]);
    }
  }

  /**
   * The emails stored when the next item is checked: those stored before the
   * batch plus those of the items created so far, which are the same as
   * those stored before plus every earlier email that passed the phone check.
   */
  lemma {:induction false} StoredEmailsBeforeItem(taken: set<string>, xs: seq<CustomerInput>)
    ensures taken + InputEmails(Admitted(taken, xs)) == taken + ClaimedEmails(xs)
  {
    if xs != [] {
      var n := |xs| - 1;
      var ys, y := xs[..n], xs[n];
      assert xs == ys + [y];
      StoredEmailsBeforeItem(taken, ys);
      var before := Admitted(taken, ys);
      if Verdict(taken, xs, n) == None {
        assert Admitted(taken, xs) == before + [y];
        assert (before + [y])[..|before|] == before;
      } else {
        assert Admitted(taken, xs) == before;
      }
    }
  }

  predicate InputEmailsDistinct(xs: seq<CustomerInput>) {
    forall i, j :: 0 <= i < j < |xs| ==> xs[i].email != xs[j].email
  }

  /** The created customers' emails are pairwise distinct. */
  lemma {:induction false} AdmittedEmailsFresh(taken: set<string>, items: seq<CustomerInput>)
    ensures InputEmailsDistinct(Admitted(taken, items))
  {
    if items != [] {
      var n := |items| - 1;
      var ys := items[..n];
      AdmittedEmailsFresh(taken, ys);
      var before := Admitted(taken, ys);
      if Verdict(taken, items, n) == None {
        StoredEmailsBeforeItem(taken, ys);
        assert items[n].email !in InputEmails(before);
        var a := before + [items[n]];
        assert Admitted(taken, items) == a;
        forall i, j | 0 <= i < j < |a| ensures a[i].email != a[j].email {
          if j == |before| {
            InputEmailsMember(before, i);
          }
        }
      } else {
        var a := Admitted(taken, items);
        assert a == before;
        forall i, j | 0 <= i < j < |a| ensures a[i].email != a[j].email {
          assert a[i] == before[i] && a[j] == before[j];
        }
      }
    }
  }

  /**
   * An item repeating the email of an earlier item that passes the phone
   * check is refused with "Email already exists: {email}", whether or not
   * the earlier item was itself created.
   */
  lemma RepeatedEmailRefused(taken: set<string>, items: seq<CustomerInput>, j: nat, i: nat)
    requires j < i < |items|
    requires items[j].email == items[i].email && PhoneAccepted(items[j].phone)
    ensures Verdict(taken, items, i) == Some(EmailTaken)
  {
    ClaimedEmailsMember(items[..i], j);
  }

  /**
   * A batch of a valid item, an item repeating its email and an item with a
   * malformed phone: only the first is created, and the errors name the
   * other two in input order.
   */
  lemma MixedBatchOutcome(taken: set<string>, x: CustomerInput, y: CustomerInput, z: CustomerInput)
    requires x.email !in taken && PhoneAccepted(x.phone)
    requires y.email == x.email
    requires z.email !in taken && z.email != x.email && z.phone.Some? && !PhoneAccepted(z.phone)
    ensures Admitted(taken, [x, y, z]) == [x]
    ensures Refusals(taken, [x, y, z]) == ["Email already exists: " + y.email, "Invalid phone format: " + z.phone.value]
  {
    var items := [x, y, z];
    assert items[..1] == [x] && items[..2] == [x, y] && items[..3] == items;
    assert [x][..0] == [] && [x, y][..1] == [x];
    assert ClaimedEmails([x]) == {x.email};
    assert ClaimedEmails([x, y]) == {x.email};
    assert Verdict(taken, items, 0) == None;
    assert Verdict(taken, items, 1) == Some(EmailTaken);
    assert Verdict(taken, items, 2) == Some(BadPhone);
    assert Admitted(taken, [x]) == [x];
    assert Refusals(taken, [x]) == [];
  }

  /**
   * One more item of the batch, screened against `stored`, the emails in the
   * store at that point: how the specified result and the stored emails grow.
   */
  lemma BulkStep(taken: set<string>, items: seq<CustomerInput>, i: nat, stored: set<string>)
    requires i < |items| && stored == taken + ClaimedEmails(items[..i])
    ensures Verdict(taken, items, i) == Screen(stored, items[i].email, items[i].phone)
    ensures Screen(stored, items[i].email, items[i].phone) == None ==>
      && Admitted(taken, items[..i + 1]) == Admitted(taken, items[..i]) + [items[i]]
      && Refusals(taken, items[..i + 1]) == Refusals(taken, items[..i])
      && taken + ClaimedEmails(items[..i + 1]) == stored + {items[i].email}
    ensures Screen(stored, items[i].email, items[i].phone).Some? ==>
      && Admitted(taken, items[..i + 1]) == Admitted(taken, items[..i])
      && Refusals(taken, items[..i + 1]) ==
           Refusals(taken, items[..i]) + [BulkMessage(items[i], Screen(stored, items[i].email, items[i].phone).value)]
      && taken + ClaimedEmails(items[..i + 1]) == stored
  {
    var xs := items[..i + 1];
    assert xs[..i] == items[..i] && xs[i] == items[i];
    assert xs == items[..i] + [items[i]];
  }

  /** The rows for one more created item end with that item's row. */
  lemma RowsAppend(first: nat, xs: seq<CustomerInput>, x: CustomerInput)
    ensures Rows(first, xs + [x]) == Rows(first, xs) + [Row(first + |xs|, x)]
  {
    assert (xs + [x])[..|xs|] == xs;
  }

  /** What the bulk loop holds between items: the customer table, its id counter and the two output lists. */
  datatype BulkState = BulkState(customers: seq<Customer>, nextId: nat, created: seq<Customer>, errors: seq<string>)

  /** The state once the items `adm` have been created and the errors `refs` recorded. */
  function State(cs: seq<Customer>, first: nat, adm: seq<CustomerInput>, refs: seq<string>): BulkState {
    var rows := Rows(first, adm);
    BulkState(cs + rows, first + |rows|, rows, refs)
  }

  /** The state after the items `xs`, starting from the table `cs` and counter `first`, as the specification has it. */
  function Expected(cs: seq<Customer>, first: nat, xs: seq<CustomerInput>): BulkState {
    State(cs, first, Admitted(Emails(cs), xs), Refusals(Emails(cs), xs))
  }

  /** The emails of a table after rows are appended for some items. */
  lemma {:induction false} EmailsAfterRows(cs: seq<Customer>, first: nat, xs: seq<CustomerInput>)
    ensures Emails(cs + Rows(first, xs)) == Emails(cs) + InputEmails(xs)
  {
    if xs != [] {
      var n := |xs| - 1;
      EmailsAfterRows(cs, first, xs[..n]);
      var rows := Rows(first, xs[..n]);
      var c := Row(first + n, xs[n]);
      assert cs + Rows(first, xs) == (cs + rows) + [c];
      EmailsAppend(cs + rows, c);
    } else {
      assert cs + Rows(first, xs) == cs;
    }
  }

  /** One pass of the bulk loop, screening `item` against the current table. */
  function LoopStep(s: BulkState, item: CustomerInput): (t: BulkState)
    ensures s.customers <= t.customers && s.created <= t.created && s.errors <= t.errors
    ensures |t.created| + |t.errors| == |s.created| + |s.errors| + 1
    ensures t.nextId - s.nextId == |t.customers| - |s.customers| == |t.created| - |s.created|
  {
    match Screen(Emails(s.customers), item.email, item.phone)
    case Some(why) => s.(errors := s.errors + [BulkMessage(item, why)])
    case None =>
      var c := Row(s.nextId, item);
      s.(customers := s.customers + [c], nextId := s.nextId + 1, created := s.created + [c])
  }

  /** A loop pass that creates `item` appends it to the created items. */
  lemma StepAdmits(cs: seq<Customer>, first: nat, adm: seq<CustomerInput>, refs: seq<string>, item: CustomerInput)
    requires Screen(Emails(cs + Rows(first, adm)), item.email, item.phone) == None
    ensures LoopStep(State(cs, first, adm, refs), item) == State(cs, first, adm + [item], refs)
  {
    var s := State(cs, first, adm, refs);
    var rows, c := Rows(first, adm), Row(first + |adm|, item);
    assert LoopStep(s, item) == BulkState(s.customers + [c], s.nextId + 1, s.created + [c], refs);
    RowsAppend(first, adm, item);
    assert cs + (rows + [c]) == (cs + rows) + [c];
  }

  /** A loop pass that refuses `item` appends its message to the errors. */
  lemma StepRefuses(cs: seq<Customer>, first: nat, adm: seq<CustomerInput>, refs: seq<string>, item: CustomerInput, why: Rejection)
    requires Screen(Emails(cs + Rows(first, adm)), item.email, item.phone) == Some(why)
    ensures LoopStep(State(cs, first, adm, refs), item) == State(cs, first, adm, refs + [BulkMessage(item, why)])
  {
  }

  /** The loop, item by item, stays on the specification. */
  lemma LoopStepExpected(cs: seq<Customer>, first: nat, items: seq<CustomerInput>, i: nat)
    requires i < |items|
    ensures LoopStep(Expected(cs, first, items[..i]), items[i]) == Expected(cs, first, items[..i + 1])
  {
    var taken := Emails(cs);
    var before := Expected(cs, first, items[..i]);
    StoredAtItem(cs, first, items[..i]);
    var stored := Emails(before.customers);
    BulkStep(taken, items, i, stored);
    var adm, refs := Admitted(taken, items[..i]), Refusals(taken, items[..i]);
    match Screen(stored, items[i].email, items[i].phone)
    case None => StepAdmits(cs, first, adm, refs, items[i]);
    case Some(why) => StepRefuses(cs, first, adm, refs, items[i], why);
  }

  /** The emails stored when `items[i]` is screened, in terms of the batch alone. */
  lemma StoredAtItem(cs: seq<Customer>, first: nat, xs: seq<CustomerInput>)
    ensures Emails(Expected(cs, first, xs).customers) == Emails(cs) + ClaimedEmails(xs)
  {
    var admitted := Admitted(Emails(cs), xs);
    EmailsAfterRows(cs, first, admitted);
    StoredEmailsBeforeItem(Emails(cs), xs);
  }
}
