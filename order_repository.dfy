/** order_repository.py: the order table, the per-user index of order ids
    and the fixed status transition table. */
module OrderRepository {
  import opened Common
  import opened Models

  /** The transition table of is_valid_status_transition. */
  predicate IsValidTransition(current: OrderStatus, target: OrderStatus)
  {
    match current
    case Created => target == Pending || target == Cancelled
    case Pending => target == Processing || target == Cancelled
    case Processing => target == Shipped || target == Cancelled
    case Shipped => target == Delivered
    case Delivered => target == Returned
    case _ => false
  }

  /** A ranking of the statuses that every transition increases. */
  function Rank(s: OrderStatus): nat
  {
    match s
    case Created => 0
    case Pending => 1
    case Processing => 2
    case Shipped => 3
    case Delivered => 4
    case Returned => 5
    case Cancelled => 6
  }

  /** Every transition moves up the ranking; nothing leads back to
      "created", and "cancelled" and "returned" have no successors. */
  lemma TransitionFacts(a: OrderStatus, b: OrderStatus)
    ensures IsValidTransition(a, b) ==> Rank(a) < Rank(b)
    ensures !IsValidTransition(a, Created)
    ensures !IsValidTransition(Cancelled, b) && !IsValidTransition(Returned, b)
  {
  }

  /** Consecutive statuses of a sequence of accepted updates. */
  predicate IsChain(ss: seq<OrderStatus>)
  {
    forall i :: 0 <= i < |ss| - 1 ==> IsValidTransition(ss[i], ss[i + 1])
  }

  /** Along any chain of accepted updates the rank strictly increases, so no
      status recurs, no later status is "created", and a chain holds at most
      seven statuses. */
  lemma {:induction false} ChainIncreases(ss: seq<OrderStatus>)
    requires IsChain(ss)
    ensures forall i, j :: 0 <= i < j < |ss| ==> Rank(ss[i]) < Rank(ss[j])
    ensures forall j :: 0 < j < |ss| ==> ss[j] != Created
    ensures |ss| <= 7
  {
    if |ss| > 1 {
      var tail := ss[1..];
      assert IsChain(tail) by {
        forall i | 0 <= i < |tail| - 1 ensures IsValidTransition(tail[i], tail[i + 1]) {
          assert tail[i] == ss[i + 1] && tail[i + 1] == ss[i + 2];
        }
      }
      ChainIncreases(tail);
      TransitionFacts(ss[0], ss[1]);
      forall i, j | 0 <= i < j < |ss| ensures Rank(ss[i]) < Rank(ss[j]) {
        if i > 0 {
          assert ss[i] == tail[i - 1] && ss[j] == tail[j - 1];
        } else if j > 1 {
          assert ss[1] == tail[0] && ss[j] == tail[j - 1];
        }
      }
      assert Rank(ss[0]) + |ss| - 1 <= Rank(ss[|ss| - 1]) by {
        RankSpread(ss);
      }
    }
  }

  lemma {:induction false} RankSpread(ss: seq<OrderStatus>)
    requires |ss| > 0
    requires forall i, j :: 0 <= i < j < |ss| ==> Rank(ss[i]) < Rank(ss[j])
    ensures Rank(ss[0]) + |ss| - 1 <= Rank(ss[|ss| - 1])
  {
    if |ss| > 1 {
      RankSpread(ss[..|ss| - 1]);
      assert Rank(ss[|ss| - 2]) < Rank(ss[|ss| - 1]);
    }
  }

  /** The orders an index list resolves to, skipping ids with no record. */
  function Resolve(orders: map<string, Order>, ids: seq<string>): (r: seq<Order>)
    ensures |r| <= |ids|
    ensures forall i :: 0 <= i < |r| ==> r[i] in orders.Values
  {
    if ids == [] then []
    else
      var rest := Resolve(orders, ids[..|ids| - 1]);
      var id := ids[|ids| - 1];
      if id in orders then rest + [orders[id]] else rest
  }

  function Except(gone: string): string -> bool
  {
    (i: string) => i != gone
  }

  /** Resolving a list extended by one id. */
  lemma ResolveSnoc(orders: map<string, Order>, ids: seq<string>, id: string)
    ensures Resolve(orders, ids + [id]) == Resolve(orders, ids) + (if id in orders then [orders[id]] else [])
  {
    assert (ids + [id])[..|ids|] == ids;
  }

  /** Deleting a record drops exactly that id's entries from what an index
      list resolves to. */
  lemma {:induction false} ResolveAfterDelete(orders: map<string, Order>, ids: seq<string>, gone: string)
    ensures Resolve(orders - {gone}, ids) == Resolve(orders, Filter(ids, Except(gone)))
  {
    if ids != [] {
      var init := ids[..|ids| - 1];
      var id := ids[|ids| - 1];
      ResolveAfterDelete(orders, init, gone);
      assert ids == init + [id];
      FilterSnoc(init, id, Except(gone));
      var kept := Filter(init, Except(gone));
      var rest := orders - {gone};
      ResolveSnoc(rest, init, id);
      if id != gone {
        ResolveSnoc(orders, kept, id);
        assert (id in rest <==> id in orders) && (id in rest ==> rest[id] == orders[id]);
      } else {
        assert id !in rest;
        assert kept + [] == kept;
      }
    }
  }

  datatype Summary = Summary(id: string, status: OrderStatus, total: int, itemCount: nat)

  /** summarize_order */
  function SummarizeOrder(order: Order): (r: Summary)
    ensures r.id == order.id && r.status == order.status && r.total == order.total
    ensures r.itemCount == |order.items|
  {
    Summary(order.id, order.status, order.total, |order.items|)
  }

  class OrderStore {
    /** _orders_db */
    var orders: map<string, Order>
    /** _user_order_index: user id -> ids of the orders created for them */
    var userIndex: map<string, seq<string>>

    /** Each order is stored under its own id. */
    ghost predicate Valid()
      reads this
    {
      forall k :: k in orders ==> orders[k].id == k
    }

    constructor()
      ensures Valid() && orders == map[] && userIndex == map[]
    {
      orders := map[];
      userIndex := map[];
    }

    /** find_order_by_id */
    function Find(id: string): (r: Option<Order>)
      reads this
      ensures r.Some? <==> id in orders
      ensures r.Some? ==> r.value == orders[id]
    {
      if id in orders then Some(orders[id]) else None
    }

    /** The index list of a user ([] when absent). */
    function IndexOf(userId: string): seq<string>
      reads this
    {
      if userId in userIndex then userIndex[userId] else []
    }

    /** create_order_record, with index_order_by_user. */
    method CreateRecord(order: Order)
      requires Valid()
      modifies this
      ensures Valid()
      ensures orders == old(orders)[order.id := order]
      ensures Find(order.id) == Some(order)
      ensures userIndex == old(userIndex)[order.userId := old(IndexOf(order.userId)) + [order.id]]
    {
      orders := orders[order.id := order];
      userIndex := userIndex[order.userId := IndexOf(order.userId) + [order.id]];
    }

    /** update_order_status: refuses an unknown id or an illegal transition;
        otherwise changes the status and nothing else. */
    method UpdateStatus(id: string, target: OrderStatus) returns (r: Option<Order>)
      requires Valid()
      modifies this
      ensures Valid()
      ensures userIndex == old(userIndex)
      ensures (id !in old(orders) || !IsValidTransition(old(orders)[id].status, target)) ==>
                r.None? && orders == old(orders)
      ensures id in old(orders) && IsValidTransition(old(orders)[id].status, target) ==>
                r == Some(old(orders)[id].(status := target)) && orders == old(orders)[id := r.value]
    {
      var found := Find(id);
      if found.None? {
        return None;
      }
      if !IsValidTransition(found.value.status, target) {
        return None;
      }
      var updated := found.value.(status := target);
      orders := orders[id := updated];
      r := Some(updated);
    }

    /** delete_order_record (the user index keeps the id). */
    method Delete(id: string) returns (r: bool)
      requires Valid()
      modifies this
      ensures Valid()
      ensures r <==> id in old(orders)
      ensures orders == old(orders) - {id} && userIndex == old(userIndex)
    {
      if id in orders {
        orders := orders - {id};
        return true;
      }
      return false;
    }

    /** list_orders_by_user: the user's orders in index order, skipping
        deleted ones, cut to `limit`. */
    method ListOrdersByUser(userId: string, limit: int) returns (r: seq<Order>)
      ensures r == Take(Resolve(orders, IndexOf(userId)), limit)
      ensures 0 <= limit ==> |r| <= limit
      ensures forall i :: 0 <= i < |r| ==> r[i] in orders.Values
    {
      var ids := IndexOf(userId);
      var found: seq<Order> := [];
      var i := 0;
      while i < |ids|
        invariant 0 <= i <= |ids|
        invariant found == Resolve(orders, ids[..i])
      {
        assert ids[..i + 1][..i] == ids[..i];
        var order := Find(ids[i]);
        if order.Some? {
          found := found + [order.value];
        }
        i := i + 1;
      }
      assert ids[..i] == ids;
      r := Take(found, limit);
    }

    /** get_order_items: [] for an unknown order. */
    function GetOrderItems(id: string): (r: seq<OrderItem>)
      reads this
      ensures id !in orders ==> r == []
      ensures id in orders ==> r == orders[id].items
    {
      if id in orders then orders[id].items else []
    }

    /** calculate_order_total: the sum of the subtotals, 0 for an unknown
        order. */
    function CalculateOrderTotal(id: string): (r: int)
      reads this
      ensures id !in orders ==> r == 0
      ensures id in orders ==> r == OrderTotal(orders[id].items)
    {
      OrderTotal(GetOrderItems(id))
    }
  }
}
