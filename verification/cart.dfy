/** The cart store of `models/Cart.js` with the database replaced by an
    abstract single-document state. Every method of the class becomes a
    function from the store before the call to a `Step`: the store after the
    call, the value the method returns, and whether it issued a write. */
module Cart {
  import opened Wrappers
  import opened CartItems

  /** The one document of the `carts` collection; its `items` field may be missing. */
  datatype Doc = Doc(items: Option<seq<Item>>)

  /** The collection: no document, or the single one every query matches. */
  type Store = Option<Doc>

  /** What one cart method leaves behind. `wrote` says whether the method
      issued a write command (`insertOne` or `updateOne`), whether or not that
      command matched a document or succeeded. */
  datatype Step<T> = Step(store: Store, value: T, wrote: bool)

  /** The store holds a document and that document has an `items` field. */
  predicate Materialized(s: Store)
  {
    s.Some? && s.value.items.Some?
  }

  /** The items a reader of the store sees; a missing document or field reads as no items. */
  function ItemsOf(s: Store): seq<Item>
  {
    if Materialized(s) then s.value.items.value else []
  }

  /** `updateOne({}, {$set: {items}})`: replaces the field of the document if
      there is one; with no document the filter matches nothing. */
  function SetItems(s: Store, items: seq<Item>): (r: Store)
    ensures s.Some? ==> Materialized(r) && ItemsOf(r) == items
    ensures s.None? ==> r.None?
  {
    match s
    case None => None
    case Some(d) => Some(d.(items := Some(items)))
  }

  /** `getCart`: find-or-create the document and repair a missing `items`
      field. Afterwards the document exists and holds exactly the items
      returned, which are the items a reader saw before; a write is issued
      exactly when something had to be created or repaired. */
  function GetCart(s: Store): (r: Step<seq<Item>>)
    ensures r.store == Some(Doc(Some(r.value)))
    ensures r.value == ItemsOf(s)
    ensures r.wrote <==> !Materialized(s)
    ensures Materialized(s) ==> r.store == s
  {
    match s
    case None => Step(Some(Doc(Some([]))), [], true)
    case Some(d) =>
      if d.items.None? then Step(SetItems(s, []), [], true)
      else Step(s, d.items.value, false)
  }

  /** The `name` property of the argument of `add`: a string, or anything else
      (missing, null, a number, an object). */
  datatype NameField = Text(s: string) | NotText

  /** The `price` property of the argument of `add`: missing, or a number. */
  datatype PriceField = Undefined | Number(n: int)

  /** The argument of `add`: not an object at all (null, undefined, a
      primitive), or an object with the two properties `add` inspects. */
  datatype ProductArg = NotAnObject | Object(name: NameField, price: PriceField)

  /** The three errors `add` throws (and then only logs), in the order it checks them. */
  datatype AddError = NotAnObjectError | NameError | PriceError

  /** The arguments `add` accepts: an object with a non-empty string name and a defined, non-negative price. */
  predicate Acceptable(arg: ProductArg)
  {
    && arg.Object?
    && arg.name.Text? && arg.name.s != ""
    && arg.price.Number? && arg.price.n >= 0
  }

  /** The checks at the head of `add`, in source order. */
  function Validate(arg: ProductArg): (r: Result<Product, AddError>)
    ensures r.Ok? <==> Acceptable(arg)
    ensures r.Ok? ==> r.value == Product(arg.name.s, arg.price.n)
    ensures arg.NotAnObject? ==> r == Err(NotAnObjectError)
    ensures arg.Object? && !(arg.name.Text? && arg.name.s != "") ==> r == Err(NameError)
  {
    if arg.NotAnObject? then Err(NotAnObjectError)
    else if !arg.name.Text? || arg.name.s == "" then Err(NameError)
    else if !arg.price.Number? || arg.price.n < 0 then Err(PriceError)
    else Ok(Product(arg.name.s, arg.price.n))
  }

  /** `add`: validate, read the cart, increment-or-append, write the whole
      item list back. The value is the error that was thrown (and swallowed),
      if any. A rejected argument leaves the store untouched and writes
      nothing; an accepted one always writes. */
  function Add(s: Store, arg: ProductArg): (r: Step<Outcome<AddError>>)
    ensures r.value.Fail? <==> !Acceptable(arg)
    ensures r.value.Fail? ==> r.value.error == Validate(arg).error && r.store == s && !r.wrote
    ensures r.value.Pass? ==> r.wrote && Materialized(r.store)
  {
    match Validate(arg)
    case Err(e) => Step(s, Fail(e), false)
    case Ok(p) =>
      var cart := GetCart(s);
      Step(SetItems(cart.store, AddItem(cart.value, p)), Pass, true)
  }

  /** `deleteProductByName`: read the cart, filter out the items with that
      name, and write only when the filter removed something. The items
      afterwards are exactly those with another name; a write is issued
      exactly when the document had to be created or repaired, or some item
      carried the name. */
  function DeleteProductByName(s: Store, name: string): (r: Step<()>)
    ensures Materialized(r.store)
    ensures ItemsOf(r.store) == RemoveNamed(ItemsOf(s), name)
    ensures forall x :: x in ItemsOf(r.store) <==> x in ItemsOf(s) && x.product.name != name
    ensures r.wrote <==> !Materialized(s) || HasName(ItemsOf(s), name)
    ensures !HasName(ItemsOf(s), name) ==> ItemsOf(r.store) == ItemsOf(s)
    ensures Materialized(s) && !HasName(ItemsOf(s), name) ==> r.store == s
  {
    var cart := GetCart(s);
    var kept := RemoveNamed(cart.value, name);
    RemoveNamedSpec(cart.value, name);
    if |kept| < |cart.value| then Step(SetItems(cart.store, kept), (), true)
    else Step(cart.store, (), cart.wrote)
  }

  /** `getItems`: the items a reader sees; the read may create or repair the
      document but never changes the items. */
  function GetItems(s: Store): (r: Step<seq<Item>>)
    ensures r.value == ItemsOf(s) && ItemsOf(r.store) == ItemsOf(s)
    ensures Materialized(r.store)
  {
    GetCart(s)
  }

  /** `getProductsQuantity`: the quantity sum of the items a reader sees. On
      items built by valid adds it is at least the number of items. */
  function GetProductsQuantity(s: Store): (r: Step<nat>)
    ensures r.value == TotalQuantity(ItemsOf(s)) && ItemsOf(r.store) == ItemsOf(s)
    ensures ItemsValid(ItemsOf(s)) ==> r.value >= |ItemsOf(s)|
  {
    var cart := GetCart(s);
    TotalsBounds(cart.value);
    Step(cart.store, TotalQuantity(cart.value), cart.wrote)
  }

  /** `getTotalPrice`: the sum of price times quantity of the items a reader
      sees. On items built by valid adds it is not negative. */
  function GetTotalPrice(s: Store): (r: Step<int>)
    ensures r.value == TotalPrice(ItemsOf(s)) && ItemsOf(r.store) == ItemsOf(s)
    ensures ItemsValid(ItemsOf(s)) ==> r.value >= 0
  {
    var cart := GetCart(s);
    TotalsBounds(cart.value);
    Step(cart.store, TotalPrice(cart.value), cart.wrote)
  }

  /** `clearCart`: one `updateOne` setting `items` to the empty list. It does
      not go through `getCart`, so with no document it changes nothing. */
  function ClearCart(s: Store): (r: Step<()>)
    ensures ItemsOf(r.store) == []
    ensures r.store.Some? <==> s.Some?
    ensures r.wrote
  {
    Step(SetItems(s, []), (), true)
  }
}
