/** The storage faults the cart store catches and logs, made explicit. Each
    method body in `Cart.js` sits in a try/catch; `getCart` in particular
    turns any fault into the empty cart, and `add` then carries on with that
    empty cart. An `Io` value says which storage calls fail during one method. */
module StorageFaults {
  import opened Wrappers
  import opened CartItems
  import opened Cart

  /** Which storage calls fail during one cart method: the `findOne` read,
      and the writes (`insertOne`, `updateOne`). */
  datatype Io = Io(readFails: bool, writeFails: bool)

  /** No storage call fails. */
  const Healthy := Io(false, false)

  /** A storage fault surfaced to the caller instead of being swallowed. */
  datatype StoreFault = ReadFault | WriteFault

  /** Why a checked add did not happen. */
  datatype AddFailure = Rejected(error: AddError) | Storage(fault: StoreFault)

  /** `getCart` with its catch: a failed read, or a failed create/repair
      write, leaves the store as it was and yields the empty item list, which
      the caller cannot tell from an empty cart. */
  function GetCartIo(s: Store, io: Io): (r: Step<seq<Item>>)
    ensures io == Healthy ==> r == GetCart(s)
    ensures io.readFails ==> r == Step(s, [], false)
    ensures !io.readFails && io.writeFails && !Materialized(s) ==> r == Step(s, [], true)
    ensures !io.readFails && Materialized(s) ==> r == GetCart(s)
    ensures r.store == s || r.store == GetCart(s).store
    ensures r.value == [] || r.value == ItemsOf(s)
  {
    if io.readFails then Step(s, [], false)
    else if io.writeFails && !Materialized(s) then Step(s, [], true)
    else GetCart(s)
  }

  /** A reader whose `findOne` fails sees the defaults of the source: no
      items, a quantity sum of 0 and a total price of 0, with the store unchanged. */
  lemma FaultedReadDefaults(s: Store, io: Io)
    requires io.readFails
    ensures GetCartIo(s, io).store == s
    ensures GetCartIo(s, io).value == []
    ensures TotalQuantity(GetCartIo(s, io).value) == 0 && TotalPrice(GetCartIo(s, io).value) == 0
  {
  }

  /** `add` as written: the cart it reads comes from `GetCartIo`, so a
      swallowed read fault hands it the empty cart, and the following write
      replaces the stored items with the result. */
  function AddAsWritten(s: Store, arg: ProductArg, io: Io): (r: Step<()>)
    ensures io == Healthy ==> r.store == Add(s, arg).store && r.wrote == Add(s, arg).wrote
    ensures !Acceptable(arg) ==> r.store == s
    ensures r.wrote <==> Acceptable(arg)
  {
    match Validate(arg)
    case Err(_) => Step(s, (), false)
    case Ok(p) =>
      var cart := GetCartIo(s, io);
      if io.writeFails then Step(cart.store, (), true)
      else Step(SetItems(cart.store, AddItem(cart.value, p)), (), true)
  }

  /** When the read fails and the write succeeds, the add as written leaves
      only the added product in the cart, whatever was stored before. */
  lemma ReadFaultOverwritesItems(s: Store, arg: ProductArg)
    requires Acceptable(arg) && s.Some?
    ensures ItemsOf(AddAsWritten(s, arg, Io(true, false)).store) == [Item(Product(arg.name.s, arg.price.n), 1)]
  {
    AddNewAppends([], Product(arg.name.s, arg.price.n));
  }

  /** A concrete instance: a cart holding two pens loses them when a book is
      added during a failed read. */
  lemma ReadFaultLosesPens()
    ensures HasName(ItemsOf(Some(Doc(Some([Item(Product("Pen", 2), 2)])))), "Pen")
    ensures !HasName(ItemsOf(AddAsWritten(Some(Doc(Some([Item(Product("Pen", 2), 2)]))),
                                          Object(Text("Book"), Number(10)), Io(true, false)).store), "Pen")
  {
    var s := Some(Doc(Some([Item(Product("Pen", 2), 2)])));
    assert ItemsOf(s)[0].product.name == "Pen";
    ReadFaultOverwritesItems(s, Object(Text("Book"), Number(10)));
    assert "Book" != "Pen" by { assert "Book"[0] != "Pen"[0]; }
  }

  /** `getCart` that reports a fault instead of answering with the empty cart. */
  function GetCartChecked(s: Store, io: Io): (r: Result<Step<seq<Item>>, StoreFault>)
    ensures r.Ok? <==> !io.readFails && !(io.writeFails && !Materialized(s))
    ensures r.Ok? ==> r.value == GetCart(s)
    ensures io.readFails ==> r == Err(ReadFault)
  {
    if io.readFails then Err(ReadFault)
    else if io.writeFails && !Materialized(s) then Err(WriteFault)
    else Ok(GetCart(s))
  }

  /** `add` that stops at the first storage fault. Either the whole add takes
      effect or the store is left as it was; with no fault it is `Add`. */
  function AddChecked(s: Store, arg: ProductArg, io: Io): (r: Step<Outcome<AddFailure>>)
    ensures r.value.Fail? ==> r.store == s
    ensures r.wrote <==> Acceptable(arg) && !io.readFails
    ensures r.value.Pass? ==> Acceptable(arg) && ItemsOf(r.store) == AddItem(ItemsOf(s), Validate(arg).value)
    ensures io == Healthy ==>
              r.store == Add(s, arg).store && r.wrote == Add(s, arg).wrote && (r.value.Pass? <==> Add(s, arg).value.Pass?)
  {
    match Validate(arg)
    case Err(e) => Step(s, Fail(Rejected(e)), false)
    case Ok(p) =>
      match GetCartChecked(s, io)
      case Err(f) => Step(s, Fail(Storage(f)), f == WriteFault)
      case Ok(cart) =>
        if io.writeFails then Step(s, Fail(Storage(WriteFault)), true)
        else Step(SetItems(cart.store, AddItem(cart.value, p)), Pass, true)
  }

  /** Whatever fails, a checked add never loses an item name that was in the cart. */
  lemma AddCheckedKeepsNames(s: Store, arg: ProductArg, io: Io, name: string)
    requires HasName(ItemsOf(s), name)
    ensures HasName(ItemsOf(AddChecked(s, arg, io).store), name)
  {
    var r := AddChecked(s, arg, io);
    if r.value.Pass? {
      AddKeepsNames(ItemsOf(s), Validate(arg).value, name);
    }
  }
}
