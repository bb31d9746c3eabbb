/**
 * The session cart: a PHP array keyed by "type_id" that keeps insertion
 * order, with the map operations the checkout controller applies to it and
 * its subtotal.
 */
module Carts {
  import opened Basics
  import opened Formats

  datatype CartItem = CartItem(id: nat, itemType: ItemType, name: string, price: int, quantity: int)

  datatype CartLine = CartLine(key: string, item: CartItem)

  type Cart = seq<CartLine>

  /** `$productType . '_' . $productId`. */
  function CartKey(t: ItemType, id: nat): string
  {
    TypeName(t) + "_" + Decimal(id)
  }

  /** A cart key names exactly one item. */
  lemma CartKeyInjective(t1: ItemType, id1: nat, t2: ItemType, id2: nat)
    requires CartKey(t1, id1) == CartKey(t2, id2)
    ensures t1 == t2 && id1 == id2
  {
    var k := CartKey(t1, id1);
    assert k[0] == TypeName(t1)[0] && k[0] == TypeName(t2)[0];
    assert t1 == t2;
    var n := |TypeName(t1)| + 1;
    assert k[n..] == Decimal(id1);
    assert CartKey(t2, id2)[n..] == Decimal(id2);
    DecimalInjective(id1, id2);
  }

  /** The keys present in the cart. */
  function KeysOf(cart: Cart): (r: set<string>)
    ensures forall j :: 0 <= j < |cart| ==> cart[j].key in r
    ensures forall k :: k in r ==> exists j :: 0 <= j < |cart| && cart[j].key == k
  {
    if cart == [] then {} else {cart[0].key} + KeysOf(cart[1..])
  }

  /** No key occurs twice, as in any PHP array. */
  predicate UniqueKeys(cart: Cart)
  {
    cart == [] || (cart[0].key !in KeysOf(cart[1..]) && UniqueKeys(cart[1..]))
  }

  /** `$cart[$key] ?? null`: the item on the first line with that key. */
  function Lookup(cart: Cart, key: string): (r: Option<CartItem>)
    ensures r.None? <==> key !in KeysOf(cart)
    ensures r.Some? ==> CartLine(key, r.value) in cart
  {
    if cart == [] then None
    else if cart[0].key == key then Some(cart[0].item)
    else Lookup(cart[1..], key)
  }

  /** Lookup returns the item of the first line that carries the key. */
  lemma {:induction false} LookupFirstMatch(cart: Cart, key: string, j: nat)
    requires j < |cart| && cart[j].key == key
    requires forall i :: 0 <= i < j ==> cart[i].key != key
    ensures Lookup(cart, key) == Some(cart[j].item)
  {
    if j > 0 {
      LookupFirstMatch(cart[1..], key, j - 1);
    }
  }

  /** `$cart[$key] = $item`: overwrite in place when present, append otherwise. */
  function Put(cart: Cart, key: string, item: CartItem): Cart
  {
    if cart == [] then [CartLine(key, item)]
    else if cart[0].key == key then [CartLine(key, item)] + cart[1..]
    else [cart[0]] + Put(cart[1..], key, item)
  }

  /** `unset($cart[$key])`. */
  function Remove(cart: Cart, key: string): Cart
  {
    if cart == [] then []
    else if cart[0].key == key then Remove(cart[1..], key)
    else [cart[0]] + Remove(cart[1..], key)
  }

  /** Put behaves as a map update. */
  lemma {:induction false} PutLookup(cart: Cart, key: string, item: CartItem, other: string)
    ensures Lookup(Put(cart, key, item), key) == Some(item)
    ensures other != key ==> Lookup(Put(cart, key, item), other) == Lookup(cart, other)
  {
    if cart != [] && cart[0].key != key {
      PutLookup(cart[1..], key, item, other);
      assert Put(cart, key, item)[1..] == Put(cart[1..], key, item);
    } else if cart != [] {
      assert Put(cart, key, item)[1..] == cart[1..];
    }
  }

  /** Put adds its key to the key set, keeps keys unique, and appends a new key at the end. */
  lemma {:induction false} PutKeys(cart: Cart, key: string, item: CartItem)
    ensures KeysOf(Put(cart, key, item)) == KeysOf(cart) + {key}
    ensures UniqueKeys(cart) ==> UniqueKeys(Put(cart, key, item))
    ensures key !in KeysOf(cart) ==> Put(cart, key, item) == cart + [CartLine(key, item)]
  {
    if cart != [] {
      var r := Put(cart, key, item);
      if cart[0].key != key {
        PutKeys(cart[1..], key, item);
        assert r[1..] == Put(cart[1..], key, item);
        assert r[0] == cart[0];
      } else {
        assert r[1..] == cart[1..];
      }
    }
  }

  /** Remove deletes exactly one key. */
  lemma {:induction false} RemoveLookup(cart: Cart, key: string, other: string)
    ensures other != key ==> Lookup(Remove(cart, key), other) == Lookup(cart, other)
  {
    if cart != [] {
      RemoveLookup(cart[1..], key, other);
      if cart[0].key != key {
        assert Remove(cart, key)[1..] == Remove(cart[1..], key);
      }
    }
  }

  /** Remove drops its key from the key set, keeps keys unique, and is the identity on an absent key. */
  lemma {:induction false} RemoveKeys(cart: Cart, key: string)
    ensures KeysOf(Remove(cart, key)) == KeysOf(cart) - {key}
    ensures UniqueKeys(cart) ==> UniqueKeys(Remove(cart, key))
    ensures key !in KeysOf(cart) ==> Remove(cart, key) == cart
  {
    if cart != [] {
      RemoveKeys(cart[1..], key);
      if cart[0].key != key {
        var r := Remove(cart, key);
        assert r[1..] == Remove(cart[1..], key);
        assert r[0] == cart[0];
      }
    }
  }

  /** Sum of price × quantity, accumulated front to back. */
  function Subtotal(cart: Cart): int
  {
    if cart == [] then 0
    else Subtotal(cart[..|cart| - 1]) + cart[|cart| - 1].item.price * cart[|cart| - 1].item.quantity
  }

  function LineAmount(line: CartLine): int { line.item.price * line.item.quantity }

  lemma {:induction false} SubtotalAppend(a: Cart, b: Cart)
    ensures Subtotal(a + b) == Subtotal(a) + Subtotal(b)
  {
    if b != [] {
      assert (a + b)[..|a + b| - 1] == a + b[..|b| - 1];
      SubtotalAppend(a, b[..|b| - 1]);
    } else {
      assert a + b == a;
    }
  }

  lemma SubtotalCons(line: CartLine, rest: Cart)
    ensures Subtotal([line] + rest) == LineAmount(line) + Subtotal(rest)
  {
    SubtotalAppend([line], rest);
    assert [line][..0] == [];
  }

  /** Removing a present key lowers the subtotal by that line's amount. */
  lemma {:induction false} SubtotalRemove(cart: Cart, key: string)
    requires UniqueKeys(cart)
    ensures Subtotal(Remove(cart, key)) ==
      Subtotal(cart) - (match Lookup(cart, key) case Some(it) => it.price * it.quantity case None => 0)
  {
    if cart != [] {
      SubtotalCons(cart[0], cart[1..]);
      assert [cart[0]] + cart[1..] == cart;
      SubtotalRemove(cart[1..], key);
      if cart[0].key == key {
        RemoveKeys(cart[1..], key);
      } else {
        SubtotalCons(cart[0], Remove(cart[1..], key));
      }
    }
  }

  /** Subtotal of a cart with non-negative prices and quantities is non-negative. */
  lemma {:induction false} SubtotalNonNegative(cart: Cart)
    requires forall j :: 0 <= j < |cart| ==> cart[j].item.price >= 0 && cart[j].item.quantity >= 0
    ensures Subtotal(cart) >= 0
  {
    if cart != [] {
      SubtotalNonNegative(cart[..|cart| - 1]);
    }
  }
}
