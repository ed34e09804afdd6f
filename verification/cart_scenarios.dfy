/** Whole-sequence behaviours of the cart store: a run of adds from an empty
    cart, repeated adds of one product name, and the pen-and-book scenario. */
module CartScenarios {
  import opened Wrappers
  import opened CartItems
  import opened Cart

  /** The store after the adds `args`, in order. */
  function AddAll(s: Store, args: seq<ProductArg>): Store
    decreases |args|
  {
    if |args| == 0 then s else AddAll(Add(s, args[0]).store, args[1..])
  }

  /** Adding a valid product to an empty cart gives exactly that product with
      quantity 1, and the total price is its price. */
  lemma AddToEmptyCart(arg: ProductArg)
    requires Acceptable(arg)
    ensures GetItems(Add(None, arg).store).value == [Item(Product(arg.name.s, arg.price.n), 1)]
    ensures GetProductsQuantity(Add(None, arg).store).value == 1
    ensures GetTotalPrice(Add(None, arg).store).value == arg.price.n
  {
    AddNewAppends([], Product(arg.name.s, arg.price.n));
  }

  /** Further adds of the same name, at any prices, only raise the quantity of
      the single item; its first captured price stays. */
  lemma {:induction false} SameNameAdds(s: Store, args: seq<ProductArg>, first: Product, k: nat)
    requires ItemsOf(s) == [Item(first, k)]
    requires forall i :: 0 <= i < |args| ==> Acceptable(args[i]) && args[i].name.s == first.name
    ensures ItemsOf(AddAll(s, args)) == [Item(first, k + |args|)]
    decreases |args|
  {
    if |args| > 0 {
      var p := Validate(args[0]).value;
      assert ItemsOf(Add(s, args[0]).store) == AddItem([Item(first, k)], p);
      AddExistingIncrements([Item(first, k)], p, 0);
      SameNameAdds(Add(s, args[0]).store, args[1..], first, k + 1);
    }
  }

  /** Adding one product name n times from an empty cart yields one item with
      quantity n and the price of the first add. */
  lemma RepeatedAddsKeepFirstPrice(args: seq<ProductArg>, name: string)
    requires |args| > 0
    requires forall i :: 0 <= i < |args| ==> Acceptable(args[i]) && args[i].name.s == name
    ensures GetItems(AddAll(None, args)).value == [Item(Product(name, args[0].price.n), |args|)]
  {
    var first := Product(name, args[0].price.n);
    AddNewAppends([], first);
    assert ItemsOf(Add(None, args[0]).store) == [Item(first, 1)];
    SameNameAdds(Add(None, args[0]).store, args[1..], first, 1);
  }

  /** Three adds in a row. */
  lemma AddAllThree(s: Store, a: ProductArg, b: ProductArg, c: ProductArg)
    ensures AddAll(s, [a, b, c]) == Add(Add(Add(s, a).store, b).store, c).store
  {
    var s1 := Add(s, a).store;
    var s2 := Add(s1, b).store;
    calc {
      AddAll(s, [a, b, c]);
    == { assert [a, b, c][1..] == [b, c]; }
      AddAll(s1, [b, c]);
    == { assert [b, c][1..] == [c]; }
      AddAll(s2, [c]);
    == { assert [c][1..] == []; }
      AddAll(Add(s2, c).store, []);
    }
  }

  /** The three adds of the pen-and-book scenario. */
  function PenBookPenArgs(): seq<ProductArg>
  {
    [Object(Text("Pen"), Number(2)), Object(Text("Book"), Number(10)), Object(Text("Pen"), Number(2))]
  }

  /** The items after the pen-and-book scenario. */
  lemma PenBookPenItems()
    ensures ItemsOf(AddAll(None, PenBookPenArgs())) == [Item(Product("Pen", 2), 2), Item(Product("Book", 10), 1)]
  {
    var pen, book := Product("Pen", 2), Product("Book", 10);
    var penArg, bookArg := Object(Text("Pen"), Number(2)), Object(Text("Book"), Number(10));
    var s1 := Add(None, penArg).store;
    var s2 := Add(s1, bookArg).store;
    assert ItemsOf(s1) == [Item(pen, 1)] by {
      AddNewAppends([], pen);
    }
    assert ItemsOf(s2) == [Item(pen, 1), Item(book, 1)] by {
      assert "Book" != "Pen" by { assert "Book"[0] != "Pen"[0]; }
      assert !HasName([Item(pen, 1)], "Book");
      AddNewAppends([Item(pen, 1)], book);
    }
    assert ItemsOf(Add(s2, penArg).store) == [Item(pen, 2), Item(book, 1)] by {
      AddExistingIncrements([Item(pen, 1), Item(book, 1)], pen, 0);
    }
    AddAllThree(None, penArg, bookArg, penArg);
  }

  /** Pen at 2, Book at 10, Pen at 2 again: two pens and one book, quantity 3, total 14. */
  lemma PenBookPen()
    ensures GetItems(AddAll(None, PenBookPenArgs())).value == [Item(Product("Pen", 2), 2), Item(Product("Book", 10), 1)]
    ensures GetProductsQuantity(AddAll(None, PenBookPenArgs())).value == 3
    ensures GetTotalPrice(AddAll(None, PenBookPenArgs())).value == 14
  {
    var pen, book := Product("Pen", 2), Product("Book", 10);
    PenBookPenItems();
    TotalsOfConcat([Item(pen, 2)], [Item(book, 1)]);
    assert [Item(pen, 2), Item(book, 1)] == [Item(pen, 2)] + [Item(book, 1)];
    assert [Item(pen, 2)][..0] == [] && [Item(book, 1)][..0] == [];
    assert LineTotal(Item(pen, 2)) == 4 && LineTotal(Item(book, 1)) == 10;
  }
}
