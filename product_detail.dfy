/** The product detail page: the quantity selector bounded by the product's
    stock, and "add to cart", which either raises the quantity of the user's
    existing line for the product or inserts a new line.

    The `cart_items` table of the hosted service is represented by an
    in-memory list of rows; each call to the service is one step that may
    report an error, chosen by a `Faults` parameter.
 */
module ProductDetailPage {
  import opened Backend

  /** The one field of a product the page's logic uses: its stock. */
  datatype Product = Product(stock: nat)

  // ---------------------------------------------------------------------------
  // The quantity selector

  datatype Click = Decrease | Increase

  function Max(a: int, b: int): int { if a < b then b else a }

  function Min(a: int, b: int): int { if a < b then a else b }

  /** The largest quantity the selector can show: the stock, or 1 when the
      stock is 0 (the selector starts at 1 whatever the stock). */
  function Cap(stock: nat): nat {
    Max(1, stock)
  }

  /** The plus button is disabled once the quantity reaches the stock. While
      it is enabled, one more stays within the stock, so the cap applied by its
      handler never bites. */
  function IncreaseEnabled(stock: nat, quantity: int): (r: bool)
    ensures r <==> Min(stock, quantity + 1) == quantity + 1
    ensures r ==> quantity + 1 <= stock
    ensures !r ==> Min(stock, quantity + 1) == stock
  {
    !(quantity >= stock)
  }

  /** The add-to-cart button is disabled when the product is out of stock.
      While it is enabled, the selector's range is exactly [1, stock]. */
  function AddToCartEnabled(stock: nat): (r: bool)
    ensures r <==> Cap(stock) <= stock
    ensures r ==> Cap(stock) == stock
    ensures !r ==> Cap(stock) == 1
  {
    stock != 0
  }

  /** The selected quantity after one click on the minus or the plus button.
      A click on a disabled plus button does nothing. */
  function Step(stock: nat, quantity: int, click: Click): (r: int)
    ensures 1 <= quantity <= Cap(stock) ==> 1 <= r <= Cap(stock)
    ensures click == Decrease ==> r >= 1 && (quantity > 1 ==> r == quantity - 1)
    ensures click == Decrease && quantity <= 1 ==> r == 1
    ensures click == Increase ==> r == (if IncreaseEnabled(stock, quantity) then quantity + 1 else quantity)
  {
    match click
    case Decrease => Max(1, quantity - 1)
    case Increase => if !IncreaseEnabled(stock, quantity) then quantity else Min(stock, quantity + 1)
  }

  /** The quantity after a run of clicks starting from `quantity`. */
  function Apply(stock: nat, quantity: int, clicks: seq<Click>): int
    decreases |clicks|
  {
    if clicks == [] then quantity else Apply(stock, Step(stock, quantity, clicks[0]), clicks[1..])
  }

  /** One more click applies to the quantity the earlier clicks left. */
  lemma {:induction false} ApplySnoc(stock: nat, quantity: int, clicks: seq<Click>, click: Click)
    ensures Apply(stock, quantity, clicks + [click]) == Step(stock, Apply(stock, quantity, clicks), click)
    decreases |clicks|
  {
    if clicks == [] {
      assert clicks + [click] == [click];
    } else {
      assert (clicks + [click])[0] == clicks[0];
      assert (clicks + [click])[1..] == clicks[1..] + [click];
      ApplySnoc(stock, Step(stock, quantity, clicks[0]), clicks[1..], click);
    }
  }

  /** The quantity the page shows after a run of clicks: it starts at 1, and
      each click's handler acts on the quantity the earlier clicks left. */
  function Selected(stock: nat, clicks: seq<Click>): (r: int)
    ensures clicks == [] ==> r == 1
    ensures clicks != [] ==>
      r == Step(stock, Selected(stock, clicks[..|clicks| - 1]), clicks[|clicks| - 1])
  {
    if clicks == [] then Apply(stock, 1, clicks)
    else
      var earlier, last := clicks[..|clicks| - 1], clicks[|clicks| - 1];
      assert clicks == earlier + [last];
      ApplySnoc(stock, 1, earlier, last);
      Apply(stock, 1, clicks)
  }

  lemma {:induction false} ApplyInRange(stock: nat, quantity: int, clicks: seq<Click>)
    requires 1 <= quantity <= Cap(stock)
    ensures 1 <= Apply(stock, quantity, clicks) <= Cap(stock)
    decreases |clicks|
  {
    if clicks != [] {
      ApplyInRange(stock, Step(stock, quantity, clicks[0]), clicks[1..]);
    }
  }

  /** Whatever the clicks, the selected quantity stays between 1 and
      max(1, stock); whenever add-to-cart is enabled it is at most the stock. */
  lemma SelectedInRange(stock: nat, clicks: seq<Click>)
    ensures 1 <= Selected(stock, clicks) <= Cap(stock)
    ensures AddToCartEnabled(stock) ==> Selected(stock, clicks) <= stock
  {
    ApplyInRange(stock, 1, clicks);
  }

  function Increases(n: nat): (r: seq<Click>)
    ensures |r| == n
  {
    seq(n, _ => Increase)
  }

  lemma {:induction false} ApplyIncreases(stock: nat, quantity: int, n: nat)
    requires 1 <= quantity && quantity + n <= Cap(stock)
    ensures Apply(stock, quantity, Increases(n)) == quantity + n
    decreases n
  {
    if n != 0 {
      assert Increases(n)[0] == Increase;
      assert Increases(n)[1..] == Increases(n - 1);
      ApplyIncreases(stock, quantity + 1, n - 1);
    }
  }

  /** Every quantity from 1 to max(1, stock) can be selected. */
  lemma EveryQuantitySelectable(stock: nat, target: int)
    requires 1 <= target <= Cap(stock)
    ensures Selected(stock, Increases(target - 1)) == target
  {
    ApplyIncreases(stock, 1, target - 1);
  }

  // ---------------------------------------------------------------------------
  // The cart_items table and add-or-increment

  datatype Row = Row(id: LineId, user: UserId, product: ProductId, quantity: int)

  /** The rows of `user` for `product`, in table order. */
  function Matching(rows: seq<Row>, user: UserId, product: ProductId): (r: seq<Row>)
    ensures |r| <= |rows|
    ensures forall i :: 0 <= i < |r| ==> r[i].user == user && r[i].product == product
  {
    if rows == [] then []
    else
      (if rows[0].user == user && rows[0].product == product then [rows[0]] else [])
      + Matching(rows[1..], user, product)
  }

  lemma {:induction false} MatchingFinds(rows: seq<Row>, user: UserId, product: ProductId, l: Row)
    ensures l in Matching(rows, user, product) <==> l in rows && l.user == user && l.product == product
  {
    if rows != [] {
      assert rows == [rows[0]] + rows[1..];
      MatchingFinds(rows[1..], user, product, l);
    }
  }

  lemma {:induction false} MatchingAppend(a: seq<Row>, b: seq<Row>, user: UserId, product: ProductId)
    ensures Matching(a + b, user, product) == Matching(a, user, product) + Matching(b, user, product)
  {
    if a == [] {
      assert a + b == b;
    } else {
      var head := if a[0].user == user && a[0].product == product then [a[0]] else [];
      assert (a + b)[0] == a[0];
      assert (a + b)[1..] == a[1..] + b;
      calc {
        Matching(a + b, user, product);
      ==
        head + Matching(a[1..] + b, user, product);
      == { MatchingAppend(a[1..], b, user, product); }
        head + (Matching(a[1..], user, product) + Matching(b, user, product));
      ==
        (head + Matching(a[1..], user, product)) + Matching(b, user, product);
      }
    }
  }

  /** `update ... where id = id`: the rows carrying `id` get the new quantity,
      every other row is left as it was. */
  function SetQuantity(rows: seq<Row>, id: LineId, quantity: int): (r: seq<Row>)
    ensures |r| == |rows|
    ensures forall i :: 0 <= i < |rows| ==>
      r[i] == if rows[i].id == id then rows[i].(quantity := quantity) else rows[i]
  {
    if rows == [] then []
    else
      [if rows[0].id == id then rows[0].(quantity := quantity) else rows[0]]
      + SetQuantity(rows[1..], id, quantity)
  }

  /** Updating a quantity never moves a row from one (user, product) pair to
      another. */
  lemma {:induction false} MatchingSetQuantity(rows: seq<Row>, id: LineId, quantity: int, user: UserId, product: ProductId)
    ensures Matching(SetQuantity(rows, id, quantity), user, product)
         == SetQuantity(Matching(rows, user, product), id, quantity)
  {
    if rows != [] {
      var s := SetQuantity(rows, id, quantity);
      assert s == [s[0]] + SetQuantity(rows[1..], id, quantity);
      MatchingSetQuantity(rows[1..], id, quantity, user, product);
      var m := Matching(rows[1..], user, product);
      if rows[0].user == user && rows[0].product == product {
        assert Matching(rows, user, product) == [rows[0]] + m;
        assert SetQuantity([rows[0]] + m, id, quantity)[1..] == SetQuantity(m, id, quantity);
      } else {
        assert Matching(rows, user, product) == m;
      }
    }
  }

  /** What `maybeSingle()` makes of the rows a select returns: none, one, or an
      error when there are several. */
  datatype Match = NoLine | OneLine(line: Row) | SeveralLines

  function Lookup(rows: seq<Row>, user: UserId, product: ProductId): (m: Match)
    ensures m.NoLine? <==> Matching(rows, user, product) == []
    ensures m.OneLine? ==> Matching(rows, user, product) == [m.line]
    ensures m.SeveralLines? <==> |Matching(rows, user, product)| >= 2
    ensures m.OneLine? ==> m.line in rows && m.line.user == user && m.line.product == product
  {
    var found := Matching(rows, user, product);
    if |found| == 0 then NoLine
    else if |found| == 1 then
      MatchingFinds(rows, user, product, found[0]);
      assert found == [found[0]];
      OneLine(found[0])
    else SeveralLines
  }

  /** Which service calls report an error. */
  datatype Faults = Faults(selectFails: bool, writeFails: bool)

  /** The table after a step, the outcome shown to the user, and the requests
      issued, in order. */
  datatype Effect = Effect(rows: seq<Row>, nextId: LineId, outcome: Outcome, requests: seq<Request>)

  /** Add-to-cart as one sequential step: check the session, look up the
      user's line for the product, then raise its quantity or insert a line.
      An error at any call ends the step with no further request. */
  function AddOrIncrement(rows: seq<Row>, nextId: LineId, session: Option<UserId>,
                          product: ProductId, quantity: int, faults: Faults): (r: Effect)
    ensures session.None? ==> r == Effect(rows, nextId, Redirect(Auth), [])
    ensures session.Some? ==> 1 <= |r.requests| <= 2 && r.requests[0] == SelectLine(session.value, product)
    ensures forall i :: 0 <= i < |r.requests| - 1 ==> !r.requests[i].IsWrite()
    ensures r.outcome != Ok ==> r.rows == rows && r.nextId == nextId
    ensures session.Some? && r.outcome != Ok ==> r.outcome == Failed
    ensures session.Some? && (faults.selectFails || |Matching(rows, session.value, product)| >= 2) ==>
      r.requests == [SelectLine(session.value, product)]
    ensures r.outcome == Ok <==>
      session.Some? && !faults.selectFails && !faults.writeFails
      && |Matching(rows, session.value, product)| <= 1
  {
    match session
    case None => Effect(rows, nextId, Redirect(Auth), [])
    case Some(user) =>
      var select := [SelectLine(user, product)];
      if faults.selectFails then Effect(rows, nextId, Failed, select)
      else
        match Lookup(rows, user, product)
        case SeveralLines => Effect(rows, nextId, Failed, select)
        case OneLine(existing) =>
          var raised := existing.quantity + quantity;
          var requests := select + [UpdateQuantity(existing.id, raised)];
          if faults.writeFails then Effect(rows, nextId, Failed, requests)
          else Effect(SetQuantity(rows, existing.id, raised), nextId, Ok, requests)
        case NoLine =>
          var requests := select + [InsertLine(user, product, quantity)];
          if faults.writeFails then Effect(rows, nextId, Failed, requests)
          else Effect(rows + [Row(nextId, user, product, quantity)], nextId + 1, Ok, requests)
  }

  /** An existing line for (user, product) is sent an update to
      `existing.quantity + quantity`, whether or not that write fails; when it
      succeeds the line gets that quantity and no line is inserted. */
  lemma AddToExistingLine(rows: seq<Row>, nextId: LineId, user: UserId, product: ProductId,
                          quantity: int, existing: Row, writeFails: bool)
    requires Matching(rows, user, product) == [existing]
    ensures var r := AddOrIncrement(rows, nextId, Some(user), product, quantity, Faults(false, writeFails));
      r.requests == [SelectLine(user, product), UpdateQuantity(existing.id, existing.quantity + quantity)]
      && (writeFails ==> r.outcome == Failed && r.rows == rows)
    ensures var r := AddOrIncrement(rows, nextId, Some(user), product, quantity, Faults(false, writeFails));
      !writeFails ==>
        r.outcome == Ok && |r.rows| == |rows| && r.nextId == nextId
        && Matching(r.rows, user, product) == [existing.(quantity := existing.quantity + quantity)]
  {
    MatchingSetQuantity(rows, existing.id, existing.quantity + quantity, user, product);
  }

  /** Without a line for (user, product), an insert is sent, whether or not
      that write fails; when it succeeds exactly one line is appended. */
  lemma AddNewLine(rows: seq<Row>, nextId: LineId, user: UserId, product: ProductId, quantity: int,
                   writeFails: bool)
    requires Matching(rows, user, product) == []
    ensures var r := AddOrIncrement(rows, nextId, Some(user), product, quantity, Faults(false, writeFails));
      r.requests == [SelectLine(user, product), InsertLine(user, product, quantity)]
      && (writeFails ==> r.outcome == Failed && r.rows == rows)
    ensures var r := AddOrIncrement(rows, nextId, Some(user), product, quantity, Faults(false, writeFails));
      var line := Row(nextId, user, product, quantity);
      !writeFails ==>
        r.outcome == Ok && r.rows == rows + [line] && r.nextId == nextId + 1
        && Matching(r.rows, user, product) == [line]
  {
    var line := Row(nextId, user, product, quantity);
    MatchingAppend(rows, [line], user, product);
    assert [line][1..] == [];
  }

  /** Row ids are unique, as the table's primary key makes them. */
  ghost predicate UniqueIds(rows: seq<Row>) {
    forall i, j :: 0 <= i < |rows| && 0 <= j < |rows| && rows[i].id == rows[j].id ==> i == j
  }

  /** The table as the service keeps it: unique ids, all below the next one
      it will hand out. */
  ghost predicate TableInvariant(rows: seq<Row>, nextId: LineId) {
    UniqueIds(rows) && forall i :: 0 <= i < |rows| ==> rows[i].id < nextId
  }

  /** The invariant the add-or-increment logic is meant to keep. */
  ghost predicate AtMostOneLinePerPair(rows: seq<Row>) {
    forall user, product :: |Matching(rows, user, product)| <= 1
  }

  /** Add-to-cart changes no row but the one for (user, product): every other
      row keeps its place and its content, and a row is only ever appended. */
  lemma AddLeavesOtherLines(rows: seq<Row>, nextId: LineId, session: Option<UserId>,
                            product: ProductId, quantity: int, faults: Faults)
    requires UniqueIds(rows)
    ensures var r := AddOrIncrement(rows, nextId, session, product, quantity, faults);
      (|r.rows| == |rows| || (session.Some? && r.rows == rows + [Row(nextId, session.value, product, quantity)]))
      && forall i :: 0 <= i < |rows| && (session != Some(rows[i].user) || rows[i].product != product) ==>
           r.rows[i] == rows[i]
  {
  }

  /** No (user, product) pair ever gains a second line: each pair keeps its
      number of lines, or goes from none to one. This holds whatever the table
      held before, because the lookup reports an error on several lines. */
  lemma AddNeverDuplicates(rows: seq<Row>, nextId: LineId, session: Option<UserId>,
                           product: ProductId, quantity: int, faults: Faults,
                           u: UserId, p: ProductId)
    ensures var r := AddOrIncrement(rows, nextId, session, product, quantity, faults);
      |Matching(r.rows, u, p)| == |Matching(rows, u, p)|
      || (|Matching(rows, u, p)| == 0 && |Matching(r.rows, u, p)| == 1)
  {
    if session.Some? && !faults.selectFails && !faults.writeFails {
      var user := session.value;
      match Lookup(rows, user, product)
      case SeveralLines =>
      case OneLine(e) =>
        MatchingSetQuantity(rows, e.id, e.quantity + quantity, u, p);
      case NoLine =>
        var line := Row(nextId, user, product, quantity);
        MatchingAppend(rows, [line], u, p);
        assert [line][1..] == [];
    }
  }

  /** Add-or-increment preserves "at most one line per (user, product)". */
  lemma AddPreservesOneLinePerPair(rows: seq<Row>, nextId: LineId, session: Option<UserId>,
                                   product: ProductId, quantity: int, faults: Faults)
    requires AtMostOneLinePerPair(rows)
    ensures AtMostOneLinePerPair(AddOrIncrement(rows, nextId, session, product, quantity, faults).rows)
  {
    forall u, p
      ensures |Matching(AddOrIncrement(rows, nextId, session, product, quantity, faults).rows, u, p)| <= 1
    {
      AddNeverDuplicates(rows, nextId, session, product, quantity, faults, u, p);
    }
  }

  /** Ids stay unique and below the next id to hand out. */
  lemma AddPreservesTable(rows: seq<Row>, nextId: LineId, session: Option<UserId>,
                          product: ProductId, quantity: int, faults: Faults)
    requires TableInvariant(rows, nextId)
    ensures var r := AddOrIncrement(rows, nextId, session, product, quantity, faults);
      TableInvariant(r.rows, r.nextId)
  {
  }

  /** One add-to-cart action: who is signed in, the product, the selected
      quantity, and which calls fail. */
  datatype AddAction = AddAction(session: Option<UserId>, product: ProductId, quantity: int, faults: Faults)

  /** The table after the actions run one after another. */
  function RunAll(rows: seq<Row>, nextId: LineId, actions: seq<AddAction>): (seq<Row>, LineId)
    decreases |actions|
  {
    if actions == [] then (rows, nextId)
    else
      var a := actions[0];
      var r := AddOrIncrement(rows, nextId, a.session, a.product, a.quantity, a.faults);
      RunAll(r.rows, r.nextId, actions[1..])
  }

  /** Run sequentially, any actions keep the table valid and keep at most one
      line per (user, product). */
  lemma {:induction false} RunAllPreserves(rows: seq<Row>, nextId: LineId, actions: seq<AddAction>)
    requires TableInvariant(rows, nextId) && AtMostOneLinePerPair(rows)
    ensures var (rows', nextId') := RunAll(rows, nextId, actions);
      TableInvariant(rows', nextId') && AtMostOneLinePerPair(rows')
    decreases |actions|
  {
    if actions != [] {
      var a := actions[0];
      var r := AddOrIncrement(rows, nextId, a.session, a.product, a.quantity, a.faults);
      AddPreservesTable(rows, nextId, a.session, a.product, a.quantity, a.faults);
      AddPreservesOneLinePerPair(rows, nextId, a.session, a.product, a.quantity, a.faults);
      RunAllPreserves(r.rows, r.nextId, actions[1..]);
    }
  }

  /** Starting from an empty table, no run of adds produces two lines for one
      (user, product). */
  lemma EmptyTableNeverDuplicates(actions: seq<AddAction>)
    ensures AtMostOneLinePerPair(RunAll([], 0, actions).0)
  {
    forall u, p ensures |Matching([], u, p)| <= 1 {
    }
    RunAllPreserves([], 0, actions);
  }

  /** Adding 1 of a product already in the cart at 2 gives one line at 3. */
  lemma AddExample()
    ensures AddOrIncrement([Row(0, "u", "p", 2)], 1, Some("u"), "p", 1, Faults(false, false)).rows
         == [Row(0, "u", "p", 3)]
  {
    var rows := [Row(0, "u", "p", 2)];
    assert Matching(rows, "u", "p") == [rows[0]] by {
      assert rows[1..] == [];
    }
  }

  // ---------------------------------------------------------------------------
  // State

  /** The `cart_items` table, held in memory. */
  class CartTable {
    var rows: seq<Row>
    var nextId: LineId

    ghost predicate Valid()
      reads this
    {
      TableInvariant(rows, nextId)
    }

    constructor ()
      ensures Valid() && rows == [] && nextId == 0
    {
      rows := [];
      nextId := 0;
    }

    /** The add-to-cart handler: session check, lookup of the existing line,
        then an update of its quantity or an insert. */
    method AddToCart(session: Option<UserId>, product: ProductId, quantity: int, faults: Faults)
      returns (outcome: Outcome, requests: seq<Request>)
      requires Valid()
      modifies this
      ensures Valid()
      ensures Effect(rows, nextId, outcome, requests)
           == AddOrIncrement(old(rows), old(nextId), session, product, quantity, faults)
      ensures AtMostOneLinePerPair(old(rows)) ==> AtMostOneLinePerPair(rows)
    {
      ghost var effect := AddOrIncrement(rows, nextId, session, product, quantity, faults);
      AddPreservesTable(rows, nextId, session, product, quantity, faults);
      if AtMostOneLinePerPair(rows) {
        AddPreservesOneLinePerPair(rows, nextId, session, product, quantity, faults);
      }
      assert TableInvariant(effect.rows, effect.nextId);
      assert AtMostOneLinePerPair(rows) ==> AtMostOneLinePerPair(effect.rows);
      if session.None? {
        return Redirect(Auth), [];
      }
      var user := session.value;
      requests := [SelectLine(user, product)];
      if faults.selectFails {
        return Failed, requests;
      }
      var existing := Lookup(rows, user, product);
      match existing {
        case SeveralLines =>
          return Failed, requests;
        case OneLine(line) =>
          var raised := line.quantity + quantity;
          requests := requests + [UpdateQuantity(line.id, raised)];
          if faults.writeFails {
            return Failed, requests;
          }
          rows := SetQuantity(rows, line.id, raised);
        case NoLine =>
          requests := requests + [InsertLine(user, product, quantity)];
          if faults.writeFails {
            return Failed, requests;
          }
          rows := rows + [Row(nextId, user, product, quantity)];
          nextId := nextId + 1;
      }
      outcome := Ok;
    }
  }

  /** The detail page's state: the route's product id, the loaded product,
      the selected quantity, and whether it is still loading. */
  class ProductPage {
    const id: ProductId
    var product: Option<Product>
    var quantity: int
    var loading: bool

    ghost predicate Valid()
      reads this
    {
      1 <= quantity
      && (loading ==> quantity == 1 && product.None?)
      && (product.Some? ==> quantity <= Cap(product.value.stock))
    }

    constructor (id: ProductId)
      ensures Valid() && this.id == id
      ensures product.None? && quantity == 1 && loading
    {
      this.id := id;
      product := None;
      quantity := 1;
      loading := true;
    }

    /** Mount: fetch the product by id. When the fetch fails, the page shows
        an error and goes back to the product list. */
    method Load(response: Response<Product>) returns (outcome: Outcome, requests: seq<Request>)
      requires Valid() && loading
      modifies this
      ensures Valid() && !loading && quantity == old(quantity)
      ensures requests == [SelectProduct(id)]
      ensures match response
        case Data(p) => product == Some(p) && outcome == Ok
        case Error => product.None? && outcome == Redirect(ProductList)
    {
      requests := [SelectProduct(id)];
      match response {
        case Data(p) =>
          product := Some(p);
          outcome := Ok;
        case Error =>
          outcome := Redirect(ProductList);
      }
      loading := false;
    }

    /** The minus button. */
    method Minus()
      requires Valid() && product.Some?
      modifies this
      ensures Valid() && product == old(product) && loading == old(loading)
      ensures quantity == Step(product.value.stock, old(quantity), Decrease)
    {
      quantity := Max(1, quantity - 1);
    }

    /** The plus button; while disabled, a click does nothing. */
    method Plus()
      requires Valid() && product.Some?
      modifies this
      ensures Valid() && product == old(product) && loading == old(loading)
      ensures quantity == Step(product.value.stock, old(quantity), Increase)
    {
      var stock := product.value.stock;
      if IncreaseEnabled(stock, quantity) {
        quantity := Min(stock, quantity + 1);
      }
    }

    /** The add-to-cart button: disabled while the product is out of stock,
        otherwise it runs the handler with the selected quantity. */
    method PressAddToCart(table: CartTable, session: Option<UserId>, faults: Faults)
      returns (outcome: Option<Outcome>, requests: seq<Request>)
      requires Valid() && product.Some? && table.Valid()
      modifies table
      ensures table.Valid()
      ensures !AddToCartEnabled(product.value.stock) ==>
        outcome.None? && requests == [] && table.rows == old(table.rows) && table.nextId == old(table.nextId)
      ensures AddToCartEnabled(product.value.stock) ==>
        1 <= quantity <= product.value.stock && outcome.Some?
        && Effect(table.rows, table.nextId, outcome.value, requests)
           == AddOrIncrement(old(table.rows), old(table.nextId), session, id, quantity, faults)
      ensures AtMostOneLinePerPair(old(table.rows)) ==> AtMostOneLinePerPair(table.rows)
    {
      if !AddToCartEnabled(product.value.stock) {
        return None, [];
      }
      var result;
      result, requests := table.AddToCart(session, id, quantity, faults);
      outcome := Some(result);
    }
  }
}
