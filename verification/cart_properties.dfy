/** Properties of the cart store that relate several calls: what an add or a
    delete does to the items and to the two aggregates, the invariants they
    keep, the add/delete round trip, and what clearing leaves behind. */
module CartProperties {
  import opened Wrappers
  import opened CartItems
  import opened Cart

  /** Reading the cart twice: the second read finds the document in place,
      returns the same items and writes nothing. */
  lemma GetCartIdempotent(s: Store)
    ensures GetCart(GetCart(s).store) == Step(GetCart(s).store, GetCart(s).value, false)
  {
  }

  /** Adding a product whose name is first carried by item `i`: that item gets
      one more unit and keeps its stored price, every other item is unchanged,
      the quantity sum rises by one and the total price by the stored price. */
  lemma AddExisting(s: Store, arg: ProductArg, i: nat)
    requires Acceptable(arg)
    requires i < |ItemsOf(s)| && ItemsOf(s)[i].product.name == arg.name.s
    requires forall j :: 0 <= j < i ==> ItemsOf(s)[j].product.name != arg.name.s
    ensures |ItemsOf(Add(s, arg).store)| == |ItemsOf(s)|
    ensures ItemsOf(Add(s, arg).store)[i] == Item(ItemsOf(s)[i].product, ItemsOf(s)[i].quantity + 1)
    ensures forall j :: 0 <= j < |ItemsOf(s)| && j != i ==> ItemsOf(Add(s, arg).store)[j] == ItemsOf(s)[j]
    ensures GetProductsQuantity(Add(s, arg).store).value == GetProductsQuantity(s).value + 1
    ensures GetTotalPrice(Add(s, arg).store).value == GetTotalPrice(s).value + ItemsOf(s)[i].product.price
  {
    var p := Validate(arg).value;
    assert ItemsOf(Add(s, arg).store) == AddItem(ItemsOf(s), p);
    AddExistingIncrements(ItemsOf(s), p, i);
    AddExistingTotals(ItemsOf(s), p, i);
  }

  /** Adding a product whose name is absent appends it with quantity 1 after
      the earlier items; the quantity sum rises by one and the total price by
      the product's price. */
  lemma AddNew(s: Store, arg: ProductArg)
    requires Acceptable(arg) && !HasName(ItemsOf(s), arg.name.s)
    ensures ItemsOf(Add(s, arg).store) == ItemsOf(s) + [Item(Product(arg.name.s, arg.price.n), 1)]
    ensures GetProductsQuantity(Add(s, arg).store).value == GetProductsQuantity(s).value + 1
    ensures GetTotalPrice(Add(s, arg).store).value == GetTotalPrice(s).value + arg.price.n
  {
    var p := Validate(arg).value;
    assert ItemsOf(Add(s, arg).store) == AddItem(ItemsOf(s), p);
    AddNewAppends(ItemsOf(s), p);
  }

  /** Any add, accepted or rejected, keeps "one item per name" and "every item valid". */
  lemma AddPreservesInvariant(s: Store, arg: ProductArg)
    requires WellFormed(ItemsOf(s))
    ensures WellFormed(ItemsOf(Add(s, arg).store))
  {
    if Acceptable(arg) {
      var p := Validate(arg).value;
      assert ItemsOf(Add(s, arg).store) == AddItem(ItemsOf(s), p);
      AddPreservesWellFormed(ItemsOf(s), p);
    }
  }

  /** With one item per name, deleting the name of item `i` removes exactly
      that item, keeps the rest in order, writes, and lowers the aggregates by
      that item's share. */
  lemma DeletePresent(s: Store, i: nat)
    requires UniqueNames(ItemsOf(s)) && i < |ItemsOf(s)|
    ensures ItemsOf(DeleteProductByName(s, ItemsOf(s)[i].product.name).store)
         == ItemsOf(s)[..i] + ItemsOf(s)[i + 1..]
    ensures DeleteProductByName(s, ItemsOf(s)[i].product.name).wrote
    ensures GetProductsQuantity(DeleteProductByName(s, ItemsOf(s)[i].product.name).store).value
         == GetProductsQuantity(s).value - ItemsOf(s)[i].quantity
    ensures GetTotalPrice(DeleteProductByName(s, ItemsOf(s)[i].product.name).store).value
         == GetTotalPrice(s).value - LineTotal(ItemsOf(s)[i])
  {
    var items := ItemsOf(s);
    var name := items[i].product.name;
    assert HasName(items, name);
    RemoveNamedSpec(items, name);
    assert ItemsOf(DeleteProductByName(s, name).store) == RemoveNamed(items, name);
    RemoveUnique(items, i);
    RemoveUniqueTotals(items, i);
  }

  /** Any delete keeps "one item per name" and "every item valid". */
  lemma DeletePreservesInvariant(s: Store, name: string)
    requires WellFormed(ItemsOf(s))
    ensures WellFormed(ItemsOf(DeleteProductByName(s, name).store))
  {
    RemoveNamedSpec(ItemsOf(s), name);
    assert ItemsOf(DeleteProductByName(s, name).store) == RemoveNamed(ItemsOf(s), name);
    RemovePreservesWellFormed(ItemsOf(s), name);
  }

  /** Adding a product whose name is not in the cart and then deleting that
      name gives back the original items; on a document that already had its
      `items` field, the whole store is back as it was. */
  lemma AddThenDelete(s: Store, arg: ProductArg)
    requires Acceptable(arg) && !HasName(ItemsOf(s), arg.name.s)
    ensures ItemsOf(DeleteProductByName(Add(s, arg).store, arg.name.s).store) == ItemsOf(s)
    ensures Materialized(s) ==> DeleteProductByName(Add(s, arg).store, arg.name.s).store == s
  {
    var p := Validate(arg).value;
    var added := Add(s, arg).store;
    assert ItemsOf(added) == AddItem(ItemsOf(s), p);
    AddKeepsNames(ItemsOf(s), p, p.name);
    RemoveNamedSpec(ItemsOf(added), p.name);
    assert ItemsOf(DeleteProductByName(added, p.name).store) == RemoveNamed(ItemsOf(added), p.name);
    AddThenRemove(ItemsOf(s), p);
  }

  /** After `clearCart` a reader sees no items, a quantity sum of 0 and a total price of 0. */
  lemma ClearCartEmpties(s: Store)
    ensures GetItems(ClearCart(s).store).value == []
    ensures GetProductsQuantity(ClearCart(s).store).value == 0
    ensures GetTotalPrice(ClearCart(s).store).value == 0
  {
  }
}
