/** The cart endpoints: a per-user list of (product, quantity) lines kept in
    the carts collection, and the read-side join that prices it against the
    products collection. */
module CartRoutes {
  import opened Common
  import opened Models

  /** One line of a cart as answered to the client. */
  datatype ViewLine = ViewLine(productId: Id, qty: int, title: string, price: int,
                               image: Option<string>, slug: Option<string>)

  datatype Totals = Totals(subtotal: int, total: int)

  /** The response body `{ items, subtotal, total }`. */
  datatype CartView = CartView(items: seq<ViewLine>, subtotal: int, total: int)

  const UnknownTitle: string := "Unknown Product"

  /** The answer for a user without a cart, or with an empty one. */
  const EmptyView: CartView := CartView([], 0, 0)

  /* ------------------------------ totals ------------------------------ */

  function Amount(it: ViewLine): int { it.price * it.qty }

  /** The sum of `price * qty` over the lines. */
  function Sum(items: seq<ViewLine>): int {
    if items == [] then 0 else Amount(items[0]) + Sum(items[1..])
  }

  /** The callback `(s, it) => s + it.price * it.qty` folded from the left,
      starting from `s`, as `Array.prototype.reduce` runs it. */
  function Reduce(items: seq<ViewLine>, s: int): int {
    if items == [] then s else Reduce(items[1..], s + Amount(items[0]))
  }

  lemma {:induction false} ReduceIsSum(items: seq<ViewLine>, s: int)
    ensures Reduce(items, s) == s + Sum(items)
  {
    if items != [] {
      ReduceIsSum(items[1..], s + Amount(items[0]));
    }
  }

  /** `computeTotals`: the subtotal is the sum of price times quantity over
      the lines and the total equals it (no tax or shipping at this layer). */
  function ComputeTotals(items: seq<ViewLine>): (t: Totals)
    ensures t.subtotal == Sum(items)
    ensures t.total == t.subtotal
  {
    ReduceIsSum(items, 0);
    var subtotal := Reduce(items, 0);
    Totals(subtotal, subtotal)
  }

  /** The subtotal of two lists of lines put together is the sum of theirs. */
  lemma {:induction false} SumAppend(a: seq<ViewLine>, b: seq<ViewLine>)
    ensures Sum(a + b) == Sum(a) + Sum(b)
  {
    if a == [] {
      assert a + b == b;
    } else {
      assert (a + b)[1..] == a[1..] + b;
      SumAppend(a[1..], b);
    }
  }

  /** With non-negative prices and quantities the subtotal is not negative. */
  lemma {:induction false} SumNonNegative(items: seq<ViewLine>)
    requires forall i :: 0 <= i < |items| ==> items[i].price >= 0 && items[i].qty >= 0
    ensures Sum(items) >= 0
  {
    if items != [] {
      SumNonNegative(items[1..]);
    }
  }

  /* ----------------------------- reconcile ---------------------------- */

  /** `p?.images?.[0] ?? null` */
  function FirstImage(images: seq<string>): Option<string> {
    if images == [] then None else Some(images[0])
  }

  /** The view of one line: the product's title, price, first image and slug
      when the product is found, the sentinels otherwise. */
  function ViewOf(line: Line, products: map<Id, Product>): ViewLine {
    if line.productId in products then
      var p := products[line.productId];
      ViewLine(line.productId, line.qty, p.title, p.price, FirstImage(p.images), Some(p.slug))
    else
      ViewLine(line.productId, line.qty, UnknownTitle, 0, None, None)
  }

  /** The join of stored lines with the products found for their ids
      (`Product.find({ _id: { $in: ids } })`, which has no `active` filter).
      One view line per stored line, in order, with id and quantity copied;
      a product that no longer exists gives title "Unknown Product", price
      0, and no image or slug. */
  function Reconcile(lines: seq<Line>, products: map<Id, Product>): (r: seq<ViewLine>)
    ensures |r| == |lines|
    ensures forall i :: 0 <= i < |lines| ==>
              r[i].productId == lines[i].productId && r[i].qty == lines[i].qty
    ensures forall i :: 0 <= i < |lines| && lines[i].productId in products ==>
              var p := products[lines[i].productId];
              && r[i].title == p.title && r[i].price == p.price
              && r[i].image == FirstImage(p.images) && r[i].slug == Some(p.slug)
    ensures forall i :: 0 <= i < |lines| && lines[i].productId !in products ==>
              r[i].title == UnknownTitle && r[i].price == 0
              && r[i].image == None && r[i].slug == None
  {
    if lines == [] then [] else [ViewOf(lines[0], products)] + Reconcile(lines[1..], products)
  }

  /** The response for a list of stored lines: the reconciled items and
      their totals. */
  function Respond(lines: seq<Line>, products: map<Id, Product>): (v: CartView)
    ensures v.items == Reconcile(lines, products)
    ensures v.subtotal == Sum(v.items) && v.total == v.subtotal
  {
    var items := Reconcile(lines, products);
    var totals := ComputeTotals(items);
    CartView(items, totals.subtotal, totals.total)
  }

  /** Answering an empty list of lines reads no product: the response is the
      empty view whatever the products collection holds. */
  lemma EmptyCartNeedsNoLookup(products: map<Id, Product>)
    ensures Respond([], products) == EmptyView
  {
  }

  /** A stored cart never shows a negative amount: with every quantity at
      least 1 and every stored price at least 0, the subtotal and the total
      are at least 0. */
  lemma {:induction false} CartSubtotalNonNegative(lines: seq<Line>, products: map<Id, Product>)
    requires WellFormed(lines)
    requires forall id :: id in products ==> ProductSchemaValid(products[id])
    ensures Respond(lines, products).subtotal >= 0 && Respond(lines, products).total >= 0
  {
    SumNonNegative(Reconcile(lines, products));
  }

  lemma {:induction false} ReconcileAppend(a: seq<Line>, b: seq<Line>, products: map<Id, Product>)
    ensures Reconcile(a + b, products) == Reconcile(a, products) + Reconcile(b, products)
  {
    if a == [] {
      assert a + b == b;
    } else {
      assert (a + b)[1..] == a[1..] + b;
      ReconcileAppend(a[1..], b, products);
    }
  }

  /** Appending a line for a product (the `$push` branch) raises the
      subtotal by that line's price times its quantity, the price being the
      product's when it exists and 0 otherwise. */
  lemma {:induction false} PushAddsItsAmount(lines: seq<Line>, pid: Id, qty: int,
                                             products: map<Id, Product>)
    ensures Respond(lines + [Line(pid, qty)], products).subtotal
            == Respond(lines, products).subtotal
               + (if pid in products then products[pid].price * qty else 0)
  {
    ReconcileAppend(lines, [Line(pid, qty)], products);
    SumAppend(Reconcile(lines, products), Reconcile([Line(pid, qty)], products));
    assert Reconcile([Line(pid, qty)], products) == [ViewOf(Line(pid, qty), products)];
  }

  /** Deactivating or reactivating a product does not change any cart view:
      the join looks at title, price, images and slug only. */
  lemma {:induction false} ReconcileIgnoresActive(lines: seq<Line>, products: map<Id, Product>,
                                                  id: Id, active: bool)
    requires id in products
    ensures Reconcile(lines, products[id := products[id].(active := active)])
            == Reconcile(lines, products)
  {
    if lines != [] {
      ReconcileIgnoresActive(lines[1..], products, id, active);
    }
  }

  /** Deleting a product turns exactly its lines into sentinel lines and keeps
      every line, so the subtotal loses that product's share only. */
  lemma {:induction false} DeletedProductKeepsLines(lines: seq<Line>, products: map<Id, Product>, id: Id)
    ensures var r := Reconcile(lines, products - {id});
            && |r| == |lines|
            && (forall i :: 0 <= i < |lines| && lines[i].productId == id ==>
                  r[i] == ViewLine(id, lines[i].qty, UnknownTitle, 0, None, None))
            && (forall i :: 0 <= i < |lines| && lines[i].productId != id ==>
                  r[i] == Reconcile(lines, products)[i])
  {
  }

  /* ------------------------- stored-line updates ------------------------- */

  /** The invariant the handlers keep: at most one line per product, and
      every quantity at least 1 (`qty: { min: 1 }`). */
  ghost predicate WellFormed(lines: seq<Line>) {
    && (forall i :: 0 <= i < |lines| ==> lines[i].qty >= 1)
    && (forall i, j :: 0 <= i < j < |lines| ==> lines[i].productId != lines[j].productId)
  }

  /** The index of the first line for `pid` (`items.find`, and the line the
      positional operator `items.$` selects). */
  function Find(lines: seq<Line>, pid: Id): (r: Option<nat>)
    ensures r.Some? ==> r.value < |lines| && lines[r.value].productId == pid
                        && forall j :: 0 <= j < r.value ==> lines[j].productId != pid
    ensures r.None? ==> forall j :: 0 <= j < |lines| ==> lines[j].productId != pid
  {
    if lines == [] then None
    else if lines[0].productId == pid then Some(0)
    else match Find(lines[1..], pid)
      case None => None
      case Some(k) => Some(k + 1)
  }

  /** `$pull: { items: { productId } }`: drops every line for `pid` and keeps
      the others; on a list without such a line it changes nothing. */
  function Pull(lines: seq<Line>, pid: Id): (r: seq<Line>)
    ensures |r| <= |lines|
    ensures forall j :: 0 <= j < |r| ==> r[j].productId != pid
    ensures Find(lines, pid).None? ==> r == lines
  {
    if lines == [] then []
    else if lines[0].productId == pid then Pull(lines[1..], pid)
    else [lines[0]] + Pull(lines[1..], pid)
  }

  /** Pulling keeps exactly the lines of other products. */
  lemma {:induction false} PullMembers(lines: seq<Line>, pid: Id, l: Line)
    ensures l in Pull(lines, pid) <==> l in lines && l.productId != pid
  {
    if lines != [] {
      PullMembers(lines[1..], pid, l);
      assert lines == [lines[0]] + lines[1..];
    }
  }

  lemma WellFormedTail(lines: seq<Line>)
    requires WellFormed(lines) && lines != []
    ensures WellFormed(lines[1..])
  {
    var t := lines[1..];
    forall a, b | 0 <= a < b < |t| ensures t[a].productId != t[b].productId {
      assert t[a] == lines[a + 1] && t[b] == lines[b + 1];
    }
  }

  /** On a well-formed list, pulling a product removes exactly the one line
      at its index and leaves the others in order. */
  lemma {:induction false} PullRemovesOne(lines: seq<Line>, pid: Id, i: nat)
    requires WellFormed(lines)
    requires Find(lines, pid) == Some(i)
    ensures Pull(lines, pid) == lines[..i] + lines[i + 1..]
  {
    WellFormedTail(lines);
    var t := lines[1..];
    if i == 0 {
      assert lines[0].productId == pid;
      forall j | 0 <= j < |t| ensures t[j].productId != pid {
        assert t[j] == lines[j + 1];
      }
      assert Find(t, pid).None?;
      assert Pull(lines, pid) == Pull(t, pid) == t;
    } else {
      assert lines[0].productId != pid;
      assert Find(t, pid) == Some(i - 1);
      PullRemovesOne(t, pid, i - 1);
      assert Pull(lines, pid) == [lines[0]] + Pull(t, pid);
      assert t[..i - 1] == lines[1..i];
      assert t[i..] == lines[i + 1..];
      assert [lines[0]] + lines[1..i] == lines[..i];
    }
  }

  lemma PullKeepsWellFormed(lines: seq<Line>, pid: Id)
    requires WellFormed(lines)
    ensures WellFormed(Pull(lines, pid))
  {
    match Find(lines, pid)
    case None =>
    case Some(i) =>
      PullRemovesOne(lines, pid, i);
      RemoveAtKeepsWellFormed(lines, i);
  }

  /** Dropping the line at one index keeps the invariant. */
  lemma RemoveAtKeepsWellFormed(lines: seq<Line>, i: nat)
    requires WellFormed(lines) && i < |lines|
    ensures WellFormed(lines[..i] + lines[i + 1..])
  {
    var r := lines[..i] + lines[i + 1..];
    assert |r| == |lines| - 1;
    forall a | 0 <= a < |r| ensures r[a] == lines[if a < i then a else a + 1] {
    }
    forall a, b | 0 <= a < b < |r| ensures r[a].productId != r[b].productId {
      var a' := if a < i then a else a + 1;
      var b' := if b < i then b else b + 1;
      assert r[a] == lines[a'] && r[b] == lines[b'];
    }
  }

  lemma ReplaceKeepsWellFormed(lines: seq<Line>, pid: Id, i: nat, qty: int)
    requires WellFormed(lines) && qty >= 1
    requires Find(lines, pid) == Some(i)
    ensures WellFormed(lines[i := Line(pid, qty)])
  {
  }

  lemma PushKeepsWellFormed(lines: seq<Line>, pid: Id, qty: int)
    requires WellFormed(lines) && qty >= 1
    requires Find(lines, pid).None?
    ensures WellFormed(lines + [Line(pid, qty)])
  {
  }

  /** The stored lines after setting the quantity of `pid` to `qty`: 0
      pulls the product, a present line gets the new quantity in place, an
      absent product is appended at the end. */
  function SetQty(lines: seq<Line>, pid: Id, qty: int): (r: seq<Line>)
    ensures qty == 0 ==> r == Pull(lines, pid)
    ensures qty != 0 ==> match Find(lines, pid)
                         case Some(i) => r == lines[i := Line(pid, qty)]
                         case None => r == lines + [Line(pid, qty)]
  {
    if qty == 0 then Pull(lines, pid)
    else match Find(lines, pid)
      case Some(i) => lines[i := Line(pid, qty)]
      case None => lines + [Line(pid, qty)]
  }

  /** Setting a quantity the rules accept keeps one line per product and
      every quantity at least 1. */
  lemma SetQtyKeepsWellFormed(lines: seq<Line>, pid: Id, qty: int)
    requires WellFormed(lines) && qty >= 0
    ensures WellFormed(SetQty(lines, pid, qty))
  {
    match Find(lines, pid)
    case Some(i) =>
      if qty == 0 {
        PullKeepsWellFormed(lines, pid);
      } else {
        ReplaceKeepsWellFormed(lines, pid, i, qty);
      }
    case None =>
      if qty == 0 {
        PullKeepsWellFormed(lines, pid);
      } else {
        PushKeepsWellFormed(lines, pid, qty);
      }
  }

  /** After a non-zero set, the product has exactly one line, holding the
      quantity set. */
  lemma {:induction false} SetQtyHolds(lines: seq<Line>, pid: Id, qty: int)
    requires WellFormed(lines) && qty >= 1
    ensures var r := SetQty(lines, pid, qty);
            Find(r, pid).Some? && r[Find(r, pid).value] == Line(pid, qty)
  {
    var r := SetQty(lines, pid, qty);
    match Find(lines, pid)
    case Some(i) =>
      FindAt(r, pid, i);
    case None =>
      FindAt(r, pid, |lines|);
  }

  lemma FindAt(lines: seq<Line>, pid: Id, i: nat)
    requires i < |lines| && lines[i].productId == pid
    requires forall j :: 0 <= j < i ==> lines[j].productId != pid
    ensures Find(lines, pid) == Some(i)
  {
    var f := Find(lines, pid);
    assert f.Some? by {
      assert lines[i].productId == pid;
    }
  }

  /** Setting 2 and then 3 leaves 3, not 5: a quantity is replaced, never
      added to. */
  lemma {:induction false} SetQtyOverwrites(lines: seq<Line>, pid: Id, a: int, b: int)
    requires WellFormed(lines) && a >= 1 && b >= 1
    ensures SetQty(SetQty(lines, pid, a), pid, b) == SetQty(lines, pid, b)
  {
    var r := SetQty(lines, pid, a);
    match Find(lines, pid)
    case Some(i) =>
      FindAt(r, pid, i);
      assert r[i := Line(pid, b)] == lines[i := Line(pid, b)];
    case None =>
      FindAt(r, pid, |lines|);
      assert r[|lines| := Line(pid, b)] == lines + [Line(pid, b)];
  }

  /** The quantity as it arrives in the body: a JSON number, or a string of
      digits. `isInt({ min: 0 })` accepts both. */
  datatype RawQty = Number(n: int) | Numeral(n: int)

  /** The stored lines as the handler computes them: the removal branch is
      taken only for the number 0 (`qty === 0`); otherwise the value is
      written through `$set` or `$push`, which Mongoose casts to a number
      without running the `min: 1` validator. */
  function SetQtyAsWritten(lines: seq<Line>, pid: Id, q: RawQty): (r: seq<Line>)
    ensures q.Number? ==> r == SetQty(lines, pid, q.n)
    ensures q.Numeral? && q.n != 0 ==> r == SetQty(lines, pid, q.n)
  {
    if q == Number(0) then Pull(lines, pid)
    else match Find(lines, pid)
      case Some(i) => lines[i := Line(pid, q.n)]
      case None => lines + [Line(pid, q.n)]
  }

  /** The quantity `"0"` passes the rules and, instead of removing the
      line, stores a line with quantity 0. */
  lemma NumeralZeroStoresZeroQty()
    ensures var r := SetQtyAsWritten([Line(7, 2)], 7, Numeral(0));
            && Numeral(0).n >= 0
            && WellFormed([Line(7, 2)])
            && r == [Line(7, 0)]
            && !WellFormed(r)
  {
    var r := SetQtyAsWritten([Line(7, 2)], 7, Numeral(0));
    assert Find([Line(7, 2)], 7) == Some(0);
    assert r[0].qty == 0;
  }

  /* ------------------------------ handlers ------------------------------ */

  /** The POST body. `productId` is `None` when it is not a Mongo id, `qty`
      is `None` when it is not an integer. */
  datatype UpsertBody = UpsertBody(productId: Option<Id>, qty: Option<int>)

  datatype CartError = ValidationFailed | ProductUnavailable

  function ErrorStatus(e: CartError): int {
    match e
    case ValidationFailed => 400
    case ProductUnavailable => 404
  }

  /** `isMongoId()` on productId and `isInt({ min: 0 })` on qty. */
  predicate UpsertRulesHold(body: UpsertBody) {
    body.productId.Some? && body.qty.Some? && body.qty.value >= 0
  }

  /** `Product.findOne({ _id: productId, active: true })` finds a product. */
  predicate ActiveProduct(products: map<Id, Product>, pid: Id) {
    pid in products && products[pid].active
  }

  /** The carts collection: at most one cart per user, created lazily. */
  class CartStore {
    var carts: map<Id, seq<Line>>

    ghost predicate Valid()
      reads this
    {
      forall u :: u in carts ==> WellFormed(carts[u])
    }

    /** The lines of a user's cart; none when the user has no cart. */
    function LinesOf(user: Id): seq<Line>
      reads this
    {
      if user in carts then carts[user] else []
    }

    constructor ()
      ensures Valid() && carts == map[]
    {
      carts := map[];
    }

    /** GET /api/cart: a missing or empty cart answers the empty view at
        once; otherwise the stored lines are reconciled and totalled. */
    method Get(user: Id, products: map<Id, Product>) returns (view: CartView)
      ensures view == Respond(LinesOf(user), products)
      ensures LinesOf(user) == [] ==> view == EmptyView
    {
      if user !in carts || |carts[user]| == 0 {
        return EmptyView;
      }
      var lines := carts[user];
      view := Respond(lines, products);
    }

    /** POST /api/cart: set the quantity of one product in the caller's cart.
        A product that is missing or inactive is refused before anything is
        stored, even for qty 0. Otherwise the cart is created if needed;
        qty 0 pulls the product, a present line gets the new quantity
        (replaced, not added), an absent product is appended at the end.
        The quantity is taken by its numeric value, so a digit string "0"
        removes too (unlike `SetQtyAsWritten`). */
    method Upsert(user: Id, body: UpsertBody, products: map<Id, Product>)
      returns (res: Result<CartView, CartError>)
      requires Valid()
      modifies this
      ensures Valid()
      ensures !UpsertRulesHold(body) ==> res == Err(ValidationFailed) && carts == old(carts)
      ensures UpsertRulesHold(body) && !ActiveProduct(products, body.productId.value) ==>
                res == Err(ProductUnavailable) && carts == old(carts)
      ensures res.Ok? <==> UpsertRulesHold(body) && ActiveProduct(products, body.productId.value)
      ensures res.Ok? && body.qty.value == 0 ==>
                carts == old(carts)[user := Pull(old(LinesOf(user)), body.productId.value)]
      ensures res.Ok? && body.qty.value > 0 && Find(old(LinesOf(user)), body.productId.value).Some? ==>
                carts == old(carts)[user := old(LinesOf(user))[Find(old(LinesOf(user)), body.productId.value).value
                                                               := Line(body.productId.value, body.qty.value)]]
      ensures res.Ok? && body.qty.value > 0 && Find(old(LinesOf(user)), body.productId.value).None? ==>
                carts == old(carts)[user := old(LinesOf(user)) + [Line(body.productId.value, body.qty.value)]]
      ensures res.Ok? ==>
                carts == old(carts)[user := SetQty(old(LinesOf(user)), body.productId.value, body.qty.value)]
      ensures res.Ok? ==> res.value == Respond(carts[user], products)
    {
      if !UpsertRulesHold(body) {
        return Err(ValidationFailed);
      }
      var pid, qty := body.productId.value, body.qty.value;
      if !ActiveProduct(products, pid) {
        return Err(ProductUnavailable);
      }
      // findOneAndUpdate with $setOnInsert and upsert: the cart now exists
      if user !in carts {
        carts := carts[user := []];
      }
      var lines := carts[user];
      if qty == 0 {
        PullKeepsWellFormed(lines, pid);
        carts := carts[user := Pull(lines, pid)];
      } else {
        match Find(lines, pid)
        case Some(i) =>
          ReplaceKeepsWellFormed(lines, pid, i, qty);
          carts := carts[user := lines[i := Line(pid, qty)]];
        case None =>
          PushKeepsWellFormed(lines, pid, qty);
          carts := carts[user := lines + [Line(pid, qty)]];
      }
      res := Ok(Respond(carts[user], products));
    }

    /** DELETE /api/cart/:productId: pull the product from the caller's cart.
        Without a cart nothing is created and the empty view is answered;
        pulling a product the cart does not hold changes nothing. */
    method Remove(user: Id, productId: Option<Id>, products: map<Id, Product>)
      returns (res: Result<CartView, CartError>)
      requires Valid()
      modifies this
      ensures Valid()
      ensures productId.None? ==> res == Err(ValidationFailed) && carts == old(carts)
      ensures productId.Some? && user !in old(carts) ==> res == Ok(EmptyView) && carts == old(carts)
      ensures productId.Some? && user in old(carts) ==>
                && carts == old(carts)[user := Pull(old(carts)[user], productId.value)]
                && res == Ok(Respond(carts[user], products))
    {
      if productId.None? {
        return Err(ValidationFailed);
      }
      if user !in carts {
        return Ok(EmptyView);
      }
      var lines := carts[user];
      PullKeepsWellFormed(lines, productId.value);
      carts := carts[user := Pull(lines, productId.value)];
      res := Ok(Respond(carts[user], products));
    }
  }

  /** The cart test: a fresh buyer adds two of a 50-priced speaker, the
      answer shows quantity 2, and reading the cart back gives subtotal 100. */
  method AddTwoSpeakers() returns (addedQty: int, subtotal: int)
    ensures addedQty == 2 && subtotal == 100
  {
    var store := new CartStore();
    var buyer, speakerId := 1, 7;
    var speaker := Product("Cart Test Speaker", "cart-test-speaker", "", 50, 5, Some("speaker"), [], true);
    var products := map[speakerId := speaker];
    var added := store.Upsert(buyer, UpsertBody(Some(speakerId), Some(2)), products);
    assert store.carts[buyer] == [Line(speakerId, 2)];
    addedQty := added.value.items[0].qty;
    var view := store.Get(buyer, products);
    var items := view.items;
    assert |items| == 1 && items[0].price == 50 && items[0].qty == 2;
    assert Sum(items) == Amount(items[0]) + Sum(items[1..]);
    subtotal := view.subtotal;
  }
}
