/** The multi-ordered map (pkg/pipeline/utils/multiorderedmap.go): records by key, plus several lists of all keys.
    A list element is identified by the key it carries, since every order holds each key exactly once. */
module MultiOrderedMaps {
  import opened Common

  type Key = nat
  type OrderID = string

  datatype Error = NoError | AlreadyExists | NonExistingKey | NonExistingOrder

  /** Element.Next: the key after k, as seen before the callback runs. */
  function Next(list: seq<Key>, k: Key): Option<Key>
    requires k in list
  {
    var i := IndexOf(list, k);
    if i + 1 < |list| then Some(list[i + 1]) else None
  }

  /** List.Front. */
  function Front(list: seq<Key>): Option<Key> {
    if list == [] then None else Some(list[0])
  }

  class MultiOrderedMap<R> {
    var m: map<Key, R>
    var orders: map<OrderID, seq<Key>>
    /** Tells maps apart in proofs. */
    ghost const tag: nat

    /** Every order is a permutation of the keys of the map. */
    ghost predicate Valid()
      reads this
    {
      forall o :: o in orders ==> NoDup(orders[o]) && forall k :: k in orders[o] <==> k in m
    }

    constructor (orderIDs: seq<OrderID>, ghost tag: nat)
      ensures Valid() && m == map[] && this.tag == tag
      ensures orders == map o | o in orderIDs :: []
    {
      m := map[];
      this.tag := tag;
      var lists: map<OrderID, seq<Key>> := map[];
      for i := 0 to |orderIDs|
        invariant lists == map o | o in orderIDs[..i] :: []
      {
        lists := lists[orderIDs[i] := []];
      }
      assert orderIDs[..|orderIDs|] == orderIDs;
      orders := lists;
    }

    function Len(): nat
      reads this
    {
      |m|
    }

    function GetRecord(key: Key): (r: Option<R>)
      reads this
      ensures r.Some? <==> key in m
      ensures r.Some? ==> r.value == m[key]
    {
      if key in m then Some(m[key]) else None
    }

    /** A change made to a record through its pointer. */
    method SetRecord(key: Key, record: R)
      requires Valid() && key in m
      modifies this`m
      ensures Valid() && m == old(m)[key := record]
    {
      m := m[key := record];
    }

    method AddRecord(key: Key, record: R) returns (err: Error)
      requires Valid()
      modifies this
      ensures Valid()
      ensures err == if key in old(m) then AlreadyExists else NoError
      ensures err.NoError? ==> m == old(m)[key := record]
      ensures orders.Keys == old(orders).Keys
      ensures err.NoError? ==> forall o :: o in orders ==> orders[o] == old(orders)[o] + [key]
      ensures !err.NoError? ==> m == old(m) && orders == old(orders)
    {
      if key in m {
        return AlreadyExists;
      }
      m := m[key := record];
      var todo := orders.Keys;
      while todo != {}
        invariant todo <= old(orders).Keys && m == old(m)[key := record]
        invariant orders.Keys == old(orders).Keys
        invariant forall o :: o in orders ==> orders[o] == if o in todo then old(orders)[o] else old(orders)[o] + [key]
      {
        var o :| o in todo;
        orders := orders[o := orders[o] + [key]];
        todo := todo - {o};
      }
      return NoError;
    }

    /** Unlinks the elements of key from every order. */
    method Unlink(key: Key)
      modifies this`orders
      ensures orders.Keys == old(orders).Keys
      ensures forall o :: o in orders ==> orders[o] == Without(old(orders)[o], key)
    {
      var todo := orders.Keys;
      while todo != {}
        invariant todo <= old(orders).Keys == orders.Keys
        invariant forall o :: o in orders ==>
          orders[o] == if o in todo then old(orders)[o] else Without(old(orders)[o], key)
      {
        var o :| o in todo;
        orders := orders[o := Without(orders[o], key)];
        todo := todo - {o};
      }
    }

    method RemoveRecord(key: Key)
      requires Valid()
      modifies this
      ensures Valid()
      ensures m == old(m) - {key}
      ensures orders.Keys == old(orders).Keys
      ensures forall o :: o in orders ==> orders[o] == Without(old(orders)[o], key)
    {
      forall o | o in orders ensures NoDup(Without(orders[o], key)) {
        WithoutNoDup(orders[o], key);
      }
      if key !in m {
        forall o | o in orders ensures Without(orders[o], key) == orders[o] {
          WithoutAbsent(orders[o], key);
        }
        return;
      }
      Unlink(key);
      m := m - {key};
    }

    method MoveToBack(key: Key, orderID: OrderID) returns (err: Error)
      requires Valid()
      modifies this`orders
      ensures Valid()
      ensures err == if key !in m then NonExistingKey else if orderID !in old(orders) then NonExistingOrder else NoError
      ensures orders == if err.NoError? then old(orders)[orderID := Without(old(orders)[orderID], key) + [key]]
        else old(orders)
    {
      if key !in m {
        return NonExistingKey;
      }
      if orderID !in orders {
        return NonExistingOrder;
      }
      WithoutNoDup(orders[orderID], key);
      orders := orders[orderID := Without(orders[orderID], key) + [key]];
      return NoError;
    }

    method MoveToFront(key: Key, orderID: OrderID) returns (err: Error)
      requires Valid()
      modifies this`orders
      ensures Valid()
      ensures err == if key !in m then NonExistingKey else if orderID !in old(orders) then NonExistingOrder else NoError
      ensures orders == if err.NoError? then old(orders)[orderID := [key] + Without(old(orders)[orderID], key)]
        else old(orders)
    {
      if key !in m {
        return NonExistingKey;
      }
      if orderID !in orders {
        return NonExistingOrder;
      }
      WithoutNoDup(orders[orderID], key);
      orders := orders[orderID := [key] + Without(orders[orderID], key)];
      return NoError;
    }
  }
}
