/** The cart page: the lines of the signed-in user's cart, their total, and
    removal of a line.

    A line carries the row id, the price of the joined product in whole VND and
    the quantity. The page keeps the lines in a local list; the total is computed
    from that list on every render.
 */
module CartPage {
  import opened Backend

  datatype CartLine = CartLine(id: LineId, price: int, quantity: int)

  /** The amount shown on a line's card: price times quantity. It is never
      negative for a non-negative price and quantity, and it is 0 for an empty
      quantity. */
  function Amount(line: CartLine): (r: int)
    ensures line.price >= 0 && line.quantity >= 0 ==> r >= 0
    ensures line.quantity == 0 ==> r == 0
  {
    line.price * line.quantity
  }

  predicate NonNegative(lines: seq<CartLine>) {
    forall i :: 0 <= i < |lines| ==> lines[i].price >= 0 && lines[i].quantity >= 0
  }

  /** The order total, folded from the left starting at 0 as `reduce` does:
      the total of all lines but the last, plus the last line's amount. */
  function Total(lines: seq<CartLine>): (r: int)
    ensures lines == [] ==> r == 0
    ensures NonNegative(lines) ==> r >= 0
  {
    if |lines| == 0 then 0
    else
      Total(lines[..|lines| - 1]) + Amount(lines[|lines| - 1])
  }

  /** The amounts shown on the line cards, one per line, in display order. */
  function Amounts(lines: seq<CartLine>): (r: seq<int>)
    ensures |r| == |lines|
    ensures forall i :: 0 <= i < |lines| ==> r[i] == Amount(lines[i])
  {
    if lines == [] then [] else [Amount(lines[0])] + Amounts(lines[1..])
  }

  /** The arithmetic sum of a list of amounts. */
  function Sum(xs: seq<int>): int {
    if xs == [] then 0 else xs[0] + Sum(xs[1..])
  }

  lemma {:induction false} TotalAppend(a: seq<CartLine>, b: seq<CartLine>)
    ensures Total(a + b) == Total(a) + Total(b)
    decreases |b|
  {
    if b == [] {
      assert a + b == a;
    } else {
      var b' := b[..|b| - 1];
      assert (a + b)[..|a + b| - 1] == a + b';
      assert (a + b)[|a + b| - 1] == b[|b| - 1];
      TotalAppend(a, b');
    }
  }

  /** The total in the summary card is the sum of the amounts shown on the
      line cards. */
  lemma {:induction false} TotalIsSumOfAmounts(lines: seq<CartLine>)
    ensures Total(lines) == Sum(Amounts(lines))
  {
    if lines != [] {
      assert lines == [lines[0]] + lines[1..];
      TotalAppend([lines[0]], lines[1..]);
      assert [lines[0]][..0] == [];
      TotalIsSumOfAmounts(lines[1..]);
    }
  }

  /** The list after a successful delete of `itemId`: every line whose id
      differs, in the original order. */
  function Without(lines: seq<CartLine>, itemId: LineId): (r: seq<CartLine>)
    ensures |r| <= |lines|
    ensures forall i :: 0 <= i < |r| ==> r[i].id != itemId
  {
    if lines == [] then []
    else (if lines[0].id == itemId then [] else [lines[0]]) + Without(lines[1..], itemId)
  }

  /** A line survives the removal exactly when it is in the list and carries
      another id. */
  lemma {:induction false} WithoutKeeps(lines: seq<CartLine>, itemId: LineId, l: CartLine)
    ensures l in Without(lines, itemId) <==> l in lines && l.id != itemId
  {
    if lines != [] {
      assert lines == [lines[0]] + lines[1..];
      WithoutKeeps(lines[1..], itemId, l);
    }
  }

  /** Filtering distributes over concatenation: lines before and after keep
      their relative order. */
  lemma {:induction false} WithoutAppend(a: seq<CartLine>, b: seq<CartLine>, itemId: LineId)
    ensures Without(a + b, itemId) == Without(a, itemId) + Without(b, itemId)
  {
    if a == [] {
      assert a + b == b;
    } else {
      var head := if a[0].id == itemId then [] else [a[0]];
      assert (a + b)[0] == a[0];
      assert (a + b)[1..] == a[1..] + b;
      calc {
        Without(a + b, itemId);
      ==
        head + Without(a[1..] + b, itemId);
      == { WithoutAppend(a[1..], b, itemId); }
        head + (Without(a[1..], itemId) + Without(b, itemId));
      ==
        (head + Without(a[1..], itemId)) + Without(b, itemId);
      }
    }
  }

  /** Removing an id that no line carries leaves the list as it was. */
  lemma {:induction false} WithoutAbsent(lines: seq<CartLine>, itemId: LineId)
    requires forall i :: 0 <= i < |lines| ==> lines[i].id != itemId
    ensures Without(lines, itemId) == lines
  {
    if lines != [] {
      WithoutAbsent(lines[1..], itemId);
    }
  }

  /** Removing the same id twice leaves the same list as removing it once. */
  lemma {:induction false} WithoutIdempotent(lines: seq<CartLine>, itemId: LineId)
    ensures Without(Without(lines, itemId), itemId) == Without(lines, itemId)
  {
    WithoutAbsent(Without(lines, itemId), itemId);
  }

  /** When exactly one line carries `lines[k].id`, removal drops that line
      and only that line. */
  lemma {:induction false} RemoveUniqueLine(lines: seq<CartLine>, k: nat)
    requires k < |lines|
    requires forall j :: 0 <= j < |lines| && j != k ==> lines[j].id != lines[k].id
    ensures Without(lines, lines[k].id) == lines[..k] + lines[k + 1..]
  {
    var id := lines[k].id;
    var tail := lines[1..];
    if k == 0 {
      assert forall i :: 0 <= i < |tail| ==> tail[i] == lines[i + 1];
      WithoutAbsent(tail, id);
      assert lines[..0] + lines[1..] == tail;
    } else {
      assert tail[k - 1] == lines[k];
      assert forall j :: 0 <= j < |tail| ==> tail[j] == lines[j + 1];
      RemoveUniqueLine(tail, k - 1);
      assert lines[..k] + lines[k + 1..] == [lines[0]] + (tail[..k - 1] + tail[k..]);
    }
  }

  lemma TotalSnoc(lines: seq<CartLine>, line: CartLine)
    ensures Total(lines + [line]) == Total(lines) + Amount(line)
  {
  }

  /** After a successful removal of a line whose id is unique, the total falls
      by exactly that line's amount. */
  lemma TotalAfterRemove(lines: seq<CartLine>, k: nat)
    requires k < |lines|
    requires forall j :: 0 <= j < |lines| && j != k ==> lines[j].id != lines[k].id
    ensures Total(Without(lines, lines[k].id)) == Total(lines) - Amount(lines[k])
  {
    var before, line, after := lines[..k], lines[k], lines[k + 1..];
    RemoveUniqueLine(lines, k);
    assert lines == (before + [line]) + after;
    calc {
      Total(lines);
    ==
      Total((before + [line]) + after);
    == { TotalAppend(before + [line], after); }
      Total(before + [line]) + Total(after);
    == { TotalSnoc(before, line); }
      Total(before) + Amount(line) + Total(after);
    == { TotalAppend(before, after); }
      Total(before + after) + Amount(line);
    }
  }

  /** A two-line cart: 1,000,000 x 2 and 500,000 x 1. */
  lemma TotalExample()
    ensures Total([CartLine(1, 1000000, 2), CartLine(2, 500000, 1)]) == 2500000
  {
    var lines := [CartLine(1, 1000000, 2), CartLine(2, 500000, 1)];
    assert lines[..1] == [CartLine(1, 1000000, 2)];
    assert lines[..1][..0] == [];
  }

  /** The cart page's state: the line list and whether it is still loading. */
  class CartView {
    var lines: seq<CartLine>
    var loading: bool

    constructor ()
      ensures lines == [] && loading
    {
      lines := [];
      loading := true;
    }

    /** The page's total, as rendered in both summary rows. */
    function ShownTotal(): (r: int)
      reads this
      ensures r == Sum(Amounts(lines))
    {
      TotalIsSumOfAmounts(lines);
      Total(lines)
    }

    /** Mount: without a session, redirect to sign-in and fetch nothing;
        otherwise fetch the cart. A failed fetch leaves the list as it was, a
        missing result reads as an empty cart; loading ends either way. */
    method CheckAuthAndFetchCart(session: Option<UserId>, response: Response<Option<seq<CartLine>>>)
      returns (outcome: Outcome, requests: seq<Request>)
      modifies this
      ensures session.None? ==> outcome == Redirect(Auth) && requests == []
      ensures session.None? ==> lines == old(lines) && loading == old(loading)
      ensures session.Some? ==> requests == [SelectCart] && !loading
      ensures session.Some? ==> match response
        case Data(Some(items)) => outcome == Ok && lines == items
        case Data(None) => outcome == Ok && lines == []
        case Error => outcome == Failed && lines == old(lines)
    {
      if session.None? {
        return Redirect(Auth), [];
      }
      requests := [SelectCart];
      match response {
        case Data(data) =>
          lines := if data.Some? then data.value else [];
          outcome := Ok;
        case Error =>
          outcome := Failed;
      }
      loading := false;
    }

    /** Delete the row with id `itemId`; only when the service reports success
        is the line dropped from the local list. */
    method Remove(itemId: LineId, status: Status) returns (outcome: Outcome, requests: seq<Request>)
      modifies this
      ensures requests == [DeleteLine(itemId)]
      ensures outcome == (if status == Succeeded then Ok else Failed)
      ensures lines == (if status == Succeeded then Without(old(lines), itemId) else old(lines))
      ensures loading == old(loading)
    {
      requests := [DeleteLine(itemId)];
      if status == Errored {
        return Failed, requests;
      }
      lines := Without(lines, itemId);
      outcome := Ok;
    }
  }
}
