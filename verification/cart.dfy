/**
 The cart (`CartProvider`): an ordered list of items keyed by their
 `(id, type)` pair, with add-if-absent, remove-by-key, clear and a
 membership test.
 */
module Cart {
  import opened Types

  /** The item carries the key `(id, kind)`. */
  predicate Matches(item: CartItem, id: string, kind: ItemKind)
  {
    item.id == id && item.kind == kind
  }

  /** Some item of the list carries the key `(id, kind)`. */
  function InCart(items: seq<CartItem>, id: string, kind: ItemKind): (b: bool)
    ensures b <==> exists i :: 0 <= i < |items| && Matches(items[i], id, kind)
  {
    if items == [] then false
    else Matches(items[|items| - 1], id, kind) || InCart(items[..|items| - 1], id, kind)
  }

  /** No two entries share an `(id, type)` pair. */
  ghost predicate Unique(items: seq<CartItem>)
  {
    forall i, j :: 0 <= i < j < |items| ==> !Matches(items[j], items[i].id, items[i].kind)
  }

  /** The list after `addToCart(item)`: unchanged when the key is present,
      otherwise `[...prev, item]`. */
  function Added(items: seq<CartItem>, item: CartItem): seq<CartItem>
  {
    if InCart(items, item.id, item.kind) then items else items + [item]
  }

  /** The list after `removeFromCart(id, kind)`: every item with another
      key, in its original order. */
  function Removed(items: seq<CartItem>, id: string, kind: ItemKind): (r: seq<CartItem>)
    ensures |r| <= |items|
  {
    if items == [] then []
    else
      var rest := Removed(items[..|items| - 1], id, kind);
      if Matches(items[|items| - 1], id, kind) then rest else rest + [items[|items| - 1]]
  }

  // ---------------------------------------------------------------------
  // Properties of adding
  // ---------------------------------------------------------------------

  /** Adding a key that is already present changes nothing. */
  lemma AddPresent(items: seq<CartItem>, item: CartItem)
    requires exists i :: 0 <= i < |items| && Matches(items[i], item.id, item.kind)
    ensures Added(items, item) == items
  {
  }

  /** Adding an absent key appends the item and keeps every earlier entry
      where it was. */
  lemma AddAbsent(items: seq<CartItem>, item: CartItem)
    requires forall i :: 0 <= i < |items| ==> !Matches(items[i], item.id, item.kind)
    ensures |Added(items, item)| == |items| + 1
    ensures Added(items, item)[|items|] == item
    ensures forall i :: 0 <= i < |items| ==> Added(items, item)[i] == items[i]
  {
  }

  /** After an add the key is present, and exactly the keys present before
      plus the added one are. */
  lemma AddedMembership(items: seq<CartItem>, item: CartItem, id: string, kind: ItemKind)
    ensures InCart(Added(items, item), item.id, item.kind)
    ensures InCart(Added(items, item), id, kind) <==> InCart(items, id, kind) || Matches(item, id, kind)
  {
    if !InCart(items, item.id, item.kind) {
      var r := items + [item];
      assert r[|items|] == item;
      if InCart(items, id, kind) {
        var i :| 0 <= i < |items| && Matches(items[i], id, kind);
        assert r[i] == items[i];
      }
      if InCart(r, id, kind) && !Matches(item, id, kind) {
        var i :| 0 <= i < |r| && Matches(r[i], id, kind);
        assert i < |items| && items[i] == r[i];
      }
    }
  }

  /** Adding keeps the keys unique. */
  lemma AddedUnique(items: seq<CartItem>, item: CartItem)
    requires Unique(items)
    ensures Unique(Added(items, item))
  {
    if !InCart(items, item.id, item.kind) {
      var r := items + [item];
      forall i, j | 0 <= i < j < |r| ensures !Matches(r[j], r[i].id, r[i].kind) {
        if j == |items| {
          assert r[i] == items[i];
        } else {
          assert r[i] == items[i] && r[j] == items[j];
        }
      }
    }
  }

  // ---------------------------------------------------------------------
  // Properties of removing
  // ---------------------------------------------------------------------

  /** Removing distributes over concatenation, so the kept entries stay in
      their original order. */
  lemma {:induction false} RemovedAppend(a: seq<CartItem>, b: seq<CartItem>, id: string, kind: ItemKind)
    ensures Removed(a + b, id, kind) == Removed(a, id, kind) + Removed(b, id, kind)
    decreases |b|
  {
    if b == [] {
      assert a + b == a;
    } else {
      var init := b[..|b| - 1];
      assert (a + b)[..|a + b| - 1] == a + init;
      assert (a + b)[|a + b| - 1] == b[|b| - 1];
      RemovedAppend(a, init, id, kind);
    }
  }

  /** Exactly the matching entries go: every other entry is kept as often as
      it occurred, a matching one not at all. */
  lemma {:induction false} RemovedCounts(items: seq<CartItem>, id: string, kind: ItemKind)
    ensures forall x :: multiset(Removed(items, id, kind))[x] == if Matches(x, id, kind) then 0 else multiset(items)[x]
  {
    if items != [] {
      var init, last := items[..|items| - 1], items[|items| - 1];
      RemovedCounts(init, id, kind);
      assert items == init + [last];
    }
  }

  /** Removing an absent key changes nothing. */
  lemma {:induction false} RemovedAbsent(items: seq<CartItem>, id: string, kind: ItemKind)
    requires !InCart(items, id, kind)
    ensures Removed(items, id, kind) == items
  {
    if items != [] {
      var init := items[..|items| - 1];
      RemovedAbsent(init, id, kind);
      assert items == init + [items[|items| - 1]];
    }
  }

  /** After a remove the key is absent, and every other key is present
      exactly when it was before. */
  lemma RemovedMembership(items: seq<CartItem>, id: string, kind: ItemKind, id': string, kind': ItemKind)
    ensures !InCart(Removed(items, id, kind), id, kind)
    ensures !(id' == id && kind' == kind) ==>
      (InCart(Removed(items, id, kind), id', kind') <==> InCart(items, id', kind'))
  {
    var r := Removed(items, id, kind);
    RemovedCounts(items, id, kind);
    forall i | 0 <= i < |r| ensures !Matches(r[i], id, kind) {
      assert r[i] in multiset(r);
    }
    if !(id' == id && kind' == kind) {
      if InCart(items, id', kind') {
        var i :| 0 <= i < |items| && Matches(items[i], id', kind');
        assert multiset(items)[items[i]] > 0;
        assert items[i] in multiset(r);
      }
      if InCart(r, id', kind') {
        var i :| 0 <= i < |r| && Matches(r[i], id', kind');
        assert r[i] in multiset(r);
        assert r[i] in multiset(items);
      }
    }
  }

  /** Removing keeps the keys unique. */
  lemma {:induction false} RemovedUnique(items: seq<CartItem>, id: string, kind: ItemKind)
    requires Unique(items)
    ensures Unique(Removed(items, id, kind))
  {
    if items != [] {
      var init, last := items[..|items| - 1], items[|items| - 1];
      assert Unique(init) by {
        forall i, j | 0 <= i < j < |init| ensures !Matches(init[j], init[i].id, init[i].kind) {
          assert init[i] == items[i] && init[j] == items[j];
        }
      }
      RemovedUnique(init, id, kind);
      var rest := Removed(init, id, kind);
      if !Matches(last, id, kind) {
        assert !InCart(init, last.id, last.kind) by {
          forall i | 0 <= i < |init| ensures !Matches(init[i], last.id, last.kind) {
            assert init[i] == items[i] && last == items[|items| - 1];
          }
        }
        RemovedMembership(init, id, kind, last.id, last.kind);
        AddedUnique(rest, last);
      }
    }
  }

  // ---------------------------------------------------------------------
  // Any sequence of operations
  // ---------------------------------------------------------------------

  /** One call on the cart. */
  datatype Op = Add(item: CartItem) | Remove(id: string, kind: ItemKind) | Clear

  function Apply(items: seq<CartItem>, op: Op): seq<CartItem>
  {
    match op
    case Add(item) => Added(items, item)
    case Remove(id, kind) => Removed(items, id, kind)
    case Clear => []
  }

  function Run(items: seq<CartItem>, ops: seq<Op>): seq<CartItem>
    decreases |ops|
  {
    if ops == [] then items else Run(Apply(items, ops[0]), ops[1..])
  }

  /** Starting from a cart without repeated keys (the empty cart, say), no
      sequence of adds, removes and clears ever produces two entries with the
      same `(id, type)`. */
  lemma {:induction false} RunUnique(items: seq<CartItem>, ops: seq<Op>)
    requires Unique(items)
    ensures Unique(Run(items, ops))
    decreases |ops|
  {
    if ops != [] {
      match ops[0] {
        case Add(item) => AddedUnique(items, item);
        case Remove(id, kind) => RemovedUnique(items, id, kind);
        case Clear =>
      }
      RunUnique(Apply(items, ops[0]), ops[1..]);
    }
  }

  // ---------------------------------------------------------------------
  // The provider's state
  // ---------------------------------------------------------------------

  class CartProvider {
    var cartItems: seq<CartItem>

    ghost predicate Valid()
      reads this
    {
      Unique(cartItems)
    }

    constructor()
      ensures Valid() && cartItems == []
    {
      cartItems := [];
    }

    /** `isInCart`. */
    function IsInCart(id: string, kind: ItemKind): (b: bool)
      reads this
      ensures b <==> exists i :: 0 <= i < |cartItems| && Matches(cartItems[i], id, kind)
    {
      InCart(cartItems, id, kind)
    }

    /** `addToCart`. */
    method AddToCart(item: CartItem)
      requires Valid()
      modifies this
      ensures Valid()
      ensures cartItems == Added(old(cartItems), item)
      ensures IsInCart(item.id, item.kind)
    {
      AddedUnique(cartItems, item);
      AddedMembership(cartItems, item, item.id, item.kind);
      if IsInCart(item.id, item.kind) {
        return;
      }
      cartItems := cartItems + [item];
    }

    /** `removeFromCart`. */
    method RemoveFromCart(id: string, kind: ItemKind)
      requires Valid()
      modifies this
      ensures Valid()
      ensures cartItems == Removed(old(cartItems), id, kind)
      ensures !IsInCart(id, kind)
    {
      RemovedUnique(cartItems, id, kind);
      RemovedMembership(cartItems, id, kind, id, kind);
      cartItems := Removed(cartItems, id, kind);
    }

    /** `clearCart`. */
    method ClearCart()
      modifies this
      ensures Valid() && cartItems == []
    {
      cartItems := [];
    }
  }
}
