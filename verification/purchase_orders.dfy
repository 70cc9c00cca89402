/** The purchase-order list: the search/status filter, approving and
    deleting an order, and which row buttons a user sees. */
module PurchaseOrders {
  import opened Text
  import opened Seqs

  datatype OrderStatus = Pending | Approved

  datatype Order = Order(
    referenceNumber: string,
    name: string,
    sku: string,
    vendor: string,
    quantity: int,
    status: OrderStatus,
    createdAt: string)

  /** The status drop-down: every order, or one status. */
  datatype StatusFilter = All | Only(status: OrderStatus)

  /** The search term occurs, ignoring ASCII case, in the reference number,
      the name or the SKU.  There is no guard for an empty term: the empty
      string occurs in every string. */
  predicate MatchesSearch(o: Order, search: string) {
    var term := Lower(search);
    Includes(Lower(o.referenceNumber), term) || Includes(Lower(o.name), term) || Includes(Lower(o.sku), term)
  }

  predicate MatchesStatus(o: Order, filter: StatusFilter) {
    filter.All? || o.status == filter.status
  }

  /** The filter effect: one pass keeping the orders that match both. */
  function FilterOrders(orders: seq<Order>, search: string, filter: StatusFilter): (r: seq<Order>)
    ensures IsSubsequence(r, orders)
    ensures forall i :: 0 <= i < |r| ==> MatchesSearch(r[i], search) && MatchesStatus(r[i], filter)
    ensures forall i :: 0 <= i < |orders| && MatchesSearch(orders[i], search) && MatchesStatus(orders[i], filter) ==>
              orders[i] in r
    ensures forall x :: multiset(r)[x] ==
              if MatchesSearch(x, search) && MatchesStatus(x, filter) then multiset(orders)[x] else 0
  {
    var keep := (o: Order) => MatchesSearch(o, search) && MatchesStatus(o, filter);
    FilterIsSubsequence(orders, keep);
    FilterCount(orders, keep);
    Filter(orders, keep)
  }

  /** An empty search with "all" shows every order, in order. */
  lemma FilterOrdersShowsAll(orders: seq<Order>)
    ensures FilterOrders(orders, "", All) == orders
  {
    forall i | 0 <= i < |orders|
      ensures MatchesSearch(orders[i], "")
    {
      EmptyIncludedEverywhere(Lower(orders[i].referenceNumber));
    }
    FilterKeepsAll(orders, (o: Order) => MatchesSearch(o, "") && MatchesStatus(o, All));
  }

  /** `prev.map(order => order.reference_number === ref ? {...order, status: "approved"} : order)`. */
  function Approve(orders: seq<Order>, ref: string): (r: seq<Order>)
    ensures |r| == |orders|
    ensures forall i :: 0 <= i < |orders| && orders[i].referenceNumber == ref ==>
              r[i] == orders[i].(status := Approved)
    ensures forall i :: 0 <= i < |orders| && orders[i].referenceNumber != ref ==> r[i] == orders[i]
  {
    seq(|orders|, i requires 0 <= i < |orders| =>
      if orders[i].referenceNumber == ref then orders[i].(status := Approved) else orders[i])
  }

  /** Approving the same reference twice is approving it once. */
  lemma ApproveIdempotent(orders: seq<Order>, ref: string)
    ensures Approve(Approve(orders, ref), ref) == Approve(orders, ref)
  {
  }

  /** Approvals of different references commute. */
  lemma ApproveCommutes(orders: seq<Order>, a: string, b: string)
    ensures Approve(Approve(orders, a), b) == Approve(Approve(orders, b), a)
  {
  }

  /** `prev.filter(order => order.reference_number !== ref)`. */
  function Delete(orders: seq<Order>, ref: string): (r: seq<Order>)
    ensures IsSubsequence(r, orders)
    ensures forall i :: 0 <= i < |r| ==> r[i].referenceNumber != ref
    ensures forall i :: 0 <= i < |orders| && orders[i].referenceNumber != ref ==> orders[i] in r
    ensures forall x :: multiset(r)[x] == if x.referenceNumber != ref then multiset(orders)[x] else 0
  {
    var keep := (o: Order) => o.referenceNumber != ref;
    FilterIsSubsequence(orders, keep);
    FilterCount(orders, keep);
    Filter(orders, keep)
  }

  /** Deleting an order makes an earlier approval of it irrelevant. */
  lemma {:induction false} DeleteAfterApprove(orders: seq<Order>, ref: string)
    ensures Delete(Approve(orders, ref), ref) == Delete(orders, ref)
    decreases |orders|
  {
    if |orders| > 0 {
      var approved := Approve(orders, ref);
      assert approved[1..] == Approve(orders[1..], ref);
      assert approved[0].referenceNumber == orders[0].referenceNumber;
      DeleteAfterApprove(orders[1..], ref);
      if orders[0].referenceNumber == ref {
        assert Delete(approved, ref) == Delete(approved[1..], ref);
        assert Delete(orders, ref) == Delete(orders[1..], ref);
      } else {
        assert approved[0] == orders[0];
        assert Delete(approved, ref) == [orders[0]] + Delete(approved[1..], ref);
        assert Delete(orders, ref) == [orders[0]] + Delete(orders[1..], ref);
      }
    }
  }

  /** The Approve button: managers, pending orders.  The access level is
      the profile's string, `"Employee"` until the profile arrives. */
  predicate ApproveVisible(access: string, o: Order) {
    access == "Manager" && o.status == Pending
  }

  /** The Delete button: managers, any order. */
  predicate DeleteVisible(access: string, o: Order) {
    access == "Manager"
  }

  /** After an approval no row of that reference offers Approve, every
      other row keeps its Approve button, and no row's Delete button
      changes. */
  lemma ButtonsAfterApprove(orders: seq<Order>, ref: string, access: string, i: int)
    requires 0 <= i < |orders| && orders[i].referenceNumber == ref
    ensures !ApproveVisible(access, Approve(orders, ref)[i])
    ensures forall j :: 0 <= j < |orders| && orders[j].referenceNumber != ref ==>
              ApproveVisible(access, Approve(orders, ref)[j]) == ApproveVisible(access, orders[j])
    ensures forall j :: 0 <= j < |orders| ==>
              DeleteVisible(access, Approve(orders, ref)[j]) == DeleteVisible(access, orders[j])
  {
  }
}
