/** The item list of the cart document and the pure operations the cart store
    performs on it: search by product name, increment-or-append, removal by
    name, and the two reductions (quantity sum and total price). */
module CartItems {
  import opened Wrappers

  /** A product as the cart records it: the catalogue name and the price
      captured when it was first added. Prices are integers here;
      JavaScript's floating-point numbers are not modelled. */
  datatype Product = Product(name: string, price: int)

  /** One line of the cart: a product and how many times it was added. */
  datatype Item = Item(product: Product, quantity: nat)

  /** Some item carries the product name `name`. */
  predicate HasName(items: seq<Item>, name: string)
  {
    exists i :: 0 <= i < |items| && items[i].product.name == name
  }

  /** At most one item per product name. */
  ghost predicate UniqueNames(items: seq<Item>)
  {
    forall i, j :: 0 <= i < j < |items| ==> items[i].product.name != items[j].product.name
  }

  /** Every item looks like one built by a valid add: quantity at least 1,
      non-empty name, non-negative price. */
  ghost predicate ItemsValid(items: seq<Item>)
  {
    forall i :: 0 <= i < |items| ==>
      items[i].quantity >= 1 && items[i].product.name != "" && items[i].product.price >= 0
  }

  /** The invariant that adds and removals preserve. */
  ghost predicate WellFormed(items: seq<Item>)
  {
    UniqueNames(items) && ItemsValid(items)
  }

  /** The position of the FIRST item named `name`, as `Array.prototype.find` sees it. */
  function FindIndex(items: seq<Item>, name: string): (r: Option<nat>)
    ensures r.Some? ==> r.value < |items| && items[r.value].product.name == name
    ensures r.Some? ==> forall j :: 0 <= j < r.value ==> items[j].product.name != name
    ensures r.None? <==> !HasName(items, name)
  {
    if |items| == 0 then None
    else if items[0].product.name == name then Some(0)
    else
      match FindIndex(items[1..], name)
      case None =>
        assert forall j :: 1 <= j < |items| ==> items[j] == items[1..][j - 1];
        None
      case Some(k) => Some(k + 1)
  }

  /** The item list after adding a validated product: the first item with the
      same name gets one more unit (its stored price is kept), otherwise a new
      item with quantity 1 is appended. */
  function AddItem(items: seq<Item>, p: Product): seq<Item>
  {
    match FindIndex(items, p.name)
    case Some(i) => items[i := items[i].(quantity := items[i].quantity + 1)]
    case None => items + [Item(p, 1)]
  }

  /** The items whose name differs from `name`, in their original order
      (`Array.prototype.filter`). */
  function RemoveNamed(items: seq<Item>, name: string): seq<Item>
  {
    if |items| == 0 then []
    else (if items[0].product.name == name then [] else [items[0]]) + RemoveNamed(items[1..], name)
  }

  /** Sum of the quantities, folded from the left as `reduce` does. */
  function TotalQuantity(items: seq<Item>): nat
  {
    if |items| == 0 then 0
    else TotalQuantity(items[..|items| - 1]) + items[|items| - 1].quantity
  }

  /** What one item contributes to the total price. */
  function LineTotal(item: Item): int
  {
    item.product.price * item.quantity
  }

  /** Sum of price times quantity, folded from the left as `reduce` does. */
  function TotalPrice(items: seq<Item>): int
  {
    if |items| == 0 then 0
    else TotalPrice(items[..|items| - 1]) + LineTotal(items[|items| - 1])
  }

  /** Both folds split over a concatenation. */
  lemma {:induction false} TotalsOfConcat(a: seq<Item>, b: seq<Item>)
    ensures TotalQuantity(a + b) == TotalQuantity(a) + TotalQuantity(b)
    ensures TotalPrice(a + b) == TotalPrice(a) + TotalPrice(b)
  {
    if |b| == 0 {
      assert a + b == a;
    } else {
      var b' := b[..|b| - 1];
      assert (a + b)[..|a + b| - 1] == a + b';
      assert (a + b)[|a + b| - 1] == b[|b| - 1];
      TotalsOfConcat(a, b');
    }
  }

  /** The totals of a list with one item in the middle. */
  lemma TotalsAround(items: seq<Item>, i: nat)
    requires i < |items|
    ensures TotalQuantity(items) == TotalQuantity(items[..i]) + items[i].quantity + TotalQuantity(items[i + 1..])
    ensures TotalPrice(items) == TotalPrice(items[..i]) + LineTotal(items[i]) + TotalPrice(items[i + 1..])
  {
    assert items == items[..i] + [items[i]] + items[i + 1..];
    TotalsOfConcat(items[..i] + [items[i]], items[i + 1..]);
    TotalsOfConcat(items[..i], [items[i]]);
    assert [items[i]][..0] == [];
  }

  /** On valid items the quantity sum is at least the number of items and the total price is not negative. */
  lemma {:induction false} TotalsBounds(items: seq<Item>)
    ensures ItemsValid(items) ==> TotalQuantity(items) >= |items|
    ensures ItemsValid(items) ==> TotalPrice(items) >= 0
  {
    if |items| > 0 && ItemsValid(items) {
      var init := items[..|items| - 1];
      assert forall i :: 0 <= i < |init| ==> init[i] == items[i];
      TotalsBounds(init);
      var last := items[|items| - 1];
      assert LineTotal(last) >= 0 by {
        assert last.product.price >= 0 && last.quantity >= 1;
      }
    }
  }

  /** The first-match conditions pin down what `FindIndex` returns. */
  lemma FindIndexIsFirst(items: seq<Item>, name: string, i: nat)
    requires i < |items| && items[i].product.name == name
    requires forall j :: 0 <= j < i ==> items[j].product.name != name
    ensures FindIndex(items, name) == Some(i)
  {
    assert HasName(items, name);
  }

  /** Adding a product whose name is already present gives the first such item
      one more unit, keeps its stored price and leaves every other item alone. */
  lemma AddExistingIncrements(items: seq<Item>, p: Product, i: nat)
    requires i < |items| && items[i].product.name == p.name
    requires forall j :: 0 <= j < i ==> items[j].product.name != p.name
    ensures |AddItem(items, p)| == |items|
    ensures AddItem(items, p)[i] == Item(items[i].product, items[i].quantity + 1)
    ensures forall j :: 0 <= j < |items| && j != i ==> AddItem(items, p)[j] == items[j]
  {
    FindIndexIsFirst(items, p.name, i);
  }

  /** Replacing item `i` by `y` changes each total by the difference of the two items' shares. */
  lemma TotalsOfReplace(items: seq<Item>, i: nat, y: Item)
    requires i < |items|
    ensures TotalQuantity(items[i := y]) == TotalQuantity(items) - items[i].quantity + y.quantity
    ensures TotalPrice(items[i := y]) == TotalPrice(items) - LineTotal(items[i]) + LineTotal(y)
  {
    TotalsAround(items, i);
    TotalsAround(items[i := y], i);
    assert items[i := y][..i] == items[..i];
    assert items[i := y][i + 1..] == items[i + 1..];
  }

  /** One more unit of an item adds exactly its price to its share. */
  lemma LineTotalOfIncrement(x: Item)
    ensures LineTotal(x.(quantity := x.quantity + 1)) == LineTotal(x) + x.product.price
  {
    assert x.product.price * (x.quantity + 1) == x.product.price * x.quantity + x.product.price;
  }

  /** One more unit of item `i` raises the quantity sum by one and the total price by that item's price. */
  lemma TotalsOfIncrement(items: seq<Item>, i: nat)
    requires i < |items|
    ensures TotalQuantity(items[i := items[i].(quantity := items[i].quantity + 1)]) == TotalQuantity(items) + 1
    ensures TotalPrice(items[i := items[i].(quantity := items[i].quantity + 1)]) == TotalPrice(items) + items[i].product.price
  {
    TotalsOfReplace(items, i, items[i].(quantity := items[i].quantity + 1));
    LineTotalOfIncrement(items[i]);
  }

  /** The totals after an add that found its name at position `i`. */
  lemma TotalsOfFoundAdd(items: seq<Item>, p: Product, i: nat)
    requires FindIndex(items, p.name) == Some(i)
    ensures TotalQuantity(AddItem(items, p)) == TotalQuantity(items) + 1
    ensures TotalPrice(AddItem(items, p)) == TotalPrice(items) + items[i].product.price
  {
    assert AddItem(items, p) == items[i := items[i].(quantity := items[i].quantity + 1)];
    TotalsOfIncrement(items, i);
  }

  /** An add of a name already present raises the quantity sum by one and the
      total price by one unit of the STORED price of the first such item. */
  lemma AddExistingTotals(items: seq<Item>, p: Product, i: nat)
    requires i < |items| && items[i].product.name == p.name
    requires forall j :: 0 <= j < i ==> items[j].product.name != p.name
    ensures TotalQuantity(AddItem(items, p)) == TotalQuantity(items) + 1
    ensures TotalPrice(AddItem(items, p)) == TotalPrice(items) + items[i].product.price
  {
    FindIndexIsFirst(items, p.name, i);
    TotalsOfFoundAdd(items, p, i);
  }

  /** Adding a product whose name is absent appends it with quantity 1 after
      all earlier items, and raises the totals by one unit of its price. */
  lemma AddNewAppends(items: seq<Item>, p: Product)
    requires !HasName(items, p.name)
    ensures AddItem(items, p) == items + [Item(p, 1)]
    ensures TotalQuantity(AddItem(items, p)) == TotalQuantity(items) + 1
    ensures TotalPrice(AddItem(items, p)) == TotalPrice(items) + p.price
  {
    TotalsOfConcat(items, [Item(p, 1)]);
    assert [Item(p, 1)][..0] == [];
  }

  /** Add keeps at most one item per name and every item valid. */
  lemma AddPreservesWellFormed(items: seq<Item>, p: Product)
    requires WellFormed(items)
    requires p.name != "" && p.price >= 0
    ensures WellFormed(AddItem(items, p))
  {
    var r := AddItem(items, p);
    match FindIndex(items, p.name)
    case Some(i) =>
      AddExistingIncrements(items, p, i);
      assert forall j :: 0 <= j < |r| ==> r[j].product == items[j].product && r[j].quantity >= items[j].quantity;
    case None =>
      AddNewAppends(items, p);
      assert forall j :: 0 <= j < |items| ==> r[j] == items[j];
      assert r[|items|] == Item(p, 1);
  }

  /** Add never loses a name: every name present before is present after, and so is the added one. */
  lemma AddKeepsNames(items: seq<Item>, p: Product, name: string)
    requires HasName(items, name) || name == p.name
    ensures HasName(AddItem(items, p), name)
  {
    var r := AddItem(items, p);
    match FindIndex(items, p.name)
    case Some(i) =>
      AddExistingIncrements(items, p, i);
      if name == p.name {
        assert r[i].product.name == name;
      } else {
        var k :| 0 <= k < |items| && items[k].product.name == name;
        assert r[k].product.name == name;
      }
    case None =>
      AddNewAppends(items, p);
      if name == p.name {
        assert r[|items|].product.name == name;
      } else {
        var k :| 0 <= k < |items| && items[k].product.name == name;
        assert r[k].product.name == name;
      }
  }

  /** A name occurs in a non-empty list iff it is the head's or occurs in the tail. */
  lemma HasNameCons(items: seq<Item>, name: string)
    requires |items| > 0
    ensures HasName(items, name) <==> items[0].product.name == name || HasName(items[1..], name)
  {
    if HasName(items[1..], name) {
      var j :| 0 <= j < |items[1..]| && items[1..][j].product.name == name;
      assert items[j + 1].product.name == name;
    }
    if HasName(items, name) {
      var j :| 0 <= j < |items| && items[j].product.name == name;
      if j > 0 {
        assert items[1..][j - 1].product.name == name;
      }
    }
  }

  /** Removal keeps exactly the items with another name, and shrinks the list
      iff some item carried the name. */
  lemma {:induction false} RemoveNamedSpec(items: seq<Item>, name: string)
    ensures |RemoveNamed(items, name)| <= |items|
    ensures |RemoveNamed(items, name)| < |items| <==> HasName(items, name)
    ensures forall x :: x in RemoveNamed(items, name) <==> x in items && x.product.name != name
    ensures !HasName(items, name) ==> RemoveNamed(items, name) == items
  {
    if |items| > 0 {
      RemoveNamedSpec(items[1..], name);
      HasNameCons(items, name);
      assert items == [items[0]] + items[1..];
    }
  }

  /** Removal by name distributes over concatenation, so it keeps the relative order of the survivors. */
  lemma {:induction false} RemoveNamedConcat(a: seq<Item>, b: seq<Item>, name: string)
    ensures RemoveNamed(a + b, name) == RemoveNamed(a, name) + RemoveNamed(b, name)
  {
    if |a| == 0 {
      assert a + b == b;
    } else {
      assert (a + b)[0] == a[0];
      assert (a + b)[1..] == a[1..] + b;
      RemoveNamedConcat(a[1..], b, name);
    }
  }

  /** With unique names, the name of item `i` occurs nowhere else. */
  lemma UniqueNameElsewhere(items: seq<Item>, i: nat)
    requires UniqueNames(items) && i < |items|
    ensures !HasName(items[..i], items[i].product.name)
    ensures !HasName(items[i + 1..], items[i].product.name)
  {
    assert forall j :: 0 <= j < i ==> items[..i][j] == items[j];
    assert forall k :: i + 1 <= k < |items| ==> items[i + 1..][k - (i + 1)] == items[k];
  }

  /** Removing the name of an item that occurs only once drops exactly that item. */
  lemma RemoveSingle(before: seq<Item>, x: Item, after: seq<Item>)
    requires !HasName(before, x.product.name) && !HasName(after, x.product.name)
    ensures RemoveNamed(before + [x] + after, x.product.name) == before + after
  {
    var name := x.product.name;
    calc {
      RemoveNamed(before + [x] + after, name);
    == { assert before + [x] + after == before + ([x] + after);
         RemoveNamedConcat(before, [x] + after, name); }
      RemoveNamed(before, name) + RemoveNamed([x] + after, name);
    == { RemoveNamedConcat([x], after, name); }
      RemoveNamed(before, name) + (RemoveNamed([x], name) + RemoveNamed(after, name));
    == { RemoveNamedSpec(before, name); RemoveNamedSpec(after, name); assert RemoveNamed([x], name) == []; }
      before + ([] + after);
    == { assert [] + after == after; }
      before + after;
    }
  }

  /** With unique names, removing the name of item `i` drops exactly that item
      and keeps the others in their order. */
  lemma RemoveUnique(items: seq<Item>, i: nat)
    requires UniqueNames(items) && i < |items|
    ensures RemoveNamed(items, items[i].product.name) == items[..i] + items[i + 1..]
  {
    UniqueNameElsewhere(items, i);
    assert items == items[..i] + [items[i]] + items[i + 1..];
    RemoveSingle(items[..i], items[i], items[i + 1..]);
  }

  /** Removing item `i` lowers the totals by that item's share. */
  lemma RemoveUniqueTotals(items: seq<Item>, i: nat)
    requires UniqueNames(items) && i < |items|
    ensures TotalQuantity(RemoveNamed(items, items[i].product.name)) == TotalQuantity(items) - items[i].quantity
    ensures TotalPrice(RemoveNamed(items, items[i].product.name))
         == TotalPrice(items) - LineTotal(items[i])
  {
    RemoveUnique(items, i);
    TotalsAround(items, i);
    TotalsOfConcat(items[..i], items[i + 1..]);
  }

  /** Dropping one item keeps the invariant. */
  lemma WellFormedWithout(items: seq<Item>, i: nat)
    requires WellFormed(items) && i < |items|
    ensures WellFormed(items[..i] + items[i + 1..])
  {
    var r := items[..i] + items[i + 1..];
    assert forall k :: 0 <= k < |r| ==> r[k] == items[if k < i then k else k + 1];
  }

  /** Removal keeps the invariant. */
  lemma RemovePreservesWellFormed(items: seq<Item>, name: string)
    requires WellFormed(items)
    ensures WellFormed(RemoveNamed(items, name))
  {
    match FindIndex(items, name)
    case Some(i) =>
      RemoveUnique(items, i);
      WellFormedWithout(items, i);
    case None =>
      RemoveNamedSpec(items, name);
  }

  /** Adding a new name and then removing it gives back the original list. */
  lemma AddThenRemove(items: seq<Item>, p: Product)
    requires !HasName(items, p.name)
    ensures RemoveNamed(AddItem(items, p), p.name) == items
  {
    AddNewAppends(items, p);
    RemoveNamedConcat(items, [Item(p, 1)], p.name);
    RemoveNamedSpec(items, p.name);
    assert RemoveNamed([Item(p, 1)], p.name) == [];
  }
}
