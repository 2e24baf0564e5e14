/** The new-order screen's cart: removing lines, changing quantities (never
    below one), and the order summary — subtotal, shipping by the chosen
    option, 8% tax and total — in exact decimal arithmetic. */
module Cart {
  import opened Options
  import opened Seqs

  /** One product line of the order being drafted. */
  datatype CartLine = CartLine(id: string, name: string, variant: string, price: real, quantity: int, image: string)

  datatype ShippingOption = ShippingOption(id: string, name: string, price: real, eta: string)

  /** The shipping options offered. */
  const ShippingOptions: seq<ShippingOption> := [
    ShippingOption("standard", "Standard Shipping", 5.99, "3-5 days"),
    ShippingOption("express", "Express Shipping", 12.99, "1-2 days"),
    ShippingOption("economy", "Economy Shipping", 3.99, "5-7 days")
  ]

  /** The option selected when the screen opens. */
  const DefaultShipping: string := "standard"

  /** The cart the screen opens with. */
  const InitialCart: seq<CartLine> := [CartLine("p001", "Blue T-shirt", "XL", 29.99, 1, "/api/placeholder/60/60")]

  const TaxRate: real := 0.08

  // ---------------------------------------------------------------------
  // Cart edits
  // ---------------------------------------------------------------------

  /** Removing every line with the given id. */
  function RemoveProduct(cart: seq<CartLine>, id: string): (r: seq<CartLine>)
    ensures forall i :: 0 <= i < |r| ==> r[i].id != id
  {
    Filter(cart, (l: CartLine) => l.id != id)
  }

  /** Exactly the lines with another id remain, in their original order and
      with their original multiplicity. */
  lemma RemoveProductExactly(cart: seq<CartLine>, id: string, l: CartLine)
    ensures l in RemoveProduct(cart, id) <==> l in cart && l.id != id
    ensures multiset(RemoveProduct(cart, id))[l] == if l.id != id then multiset(cart)[l] else 0
    ensures IsSubsequence(RemoveProduct(cart, id), cart)
  {
    var p := (l: CartLine) => l.id != id;
    FilterMembers(cart, p, l);
    FilterCounts(cart, p, l);
    FilterIsSubsequence(cart, p);
  }

  /** Setting the quantity of the lines with the given id; a quantity below
      one is ignored and the cart is left as it is. */
  function ChangeQuantity(cart: seq<CartLine>, id: string, quantity: int): (r: seq<CartLine>)
    ensures quantity < 1 ==> r == cart
    ensures |r| == |cart|
    ensures forall i :: 0 <= i < |cart| ==> r[i].(quantity := cart[i].quantity) == cart[i]
    ensures forall i :: 0 <= i < |cart| ==>
      r[i].quantity == if quantity >= 1 && cart[i].id == id then quantity else cart[i].quantity
  {
    if quantity < 1 then cart
    else
      seq(|cart|, i requires 0 <= i < |cart| =>
        if cart[i].id == id then cart[i].(quantity := quantity) else cart[i])
  }

  /** Every line orders at least one item. */
  predicate QuantitiesPositive(cart: seq<CartLine>) {
    forall i :: 0 <= i < |cart| ==> cart[i].quantity >= 1
  }

  /** Edits, one after another: a removal or a quantity change. */
  datatype CartEdit = Remove(id: string) | SetQuantity(id: string, quantity: int)

  function ApplyEdits(cart: seq<CartLine>, edits: seq<CartEdit>): seq<CartLine>
    decreases |edits|
  {
    if edits == [] then cart
    else
      var next := match edits[0]
        case Remove(id) => RemoveProduct(cart, id)
        case SetQuantity(id, q) => ChangeQuantity(cart, id, q);
      ApplyEdits(next, edits[1..])
  }

  /** Starting from quantities of at least one, no sequence of edits brings a
      line below one. */
  lemma {:induction false} QuantitiesStayPositive(cart: seq<CartLine>, edits: seq<CartEdit>)
    requires QuantitiesPositive(cart)
    ensures QuantitiesPositive(ApplyEdits(cart, edits))
    decreases |edits|
  {
    if edits != [] {
      var next := match edits[0]
        case Remove(id) => RemoveProduct(cart, id)
        case SetQuantity(id, q) => ChangeQuantity(cart, id, q);
      if edits[0].Remove? {
        var p := (l: CartLine) => l.id != edits[0].id;
        forall i | 0 <= i < |next|
          ensures next[i].quantity >= 1
        {
          FilterMembers(cart, p, next[i]);
        }
      }
      QuantitiesStayPositive(next, edits[1..]);
    }
  }

  // ---------------------------------------------------------------------
  // Order summary
  // ---------------------------------------------------------------------

  function LineTotal(l: CartLine): real {
    l.price * l.quantity as real
  }

  /** Sum of price times quantity, accumulated from the first line on. */
  function Subtotal(cart: seq<CartLine>): (s: real)
    ensures cart == [] ==> s == 0.0
    ensures |cart| == 1 ==> s == cart[0].price * cart[0].quantity as real
    decreases |cart|
  {
    if cart == [] then 0.0 else Subtotal(cart[..|cart| - 1]) + LineTotal(cart[|cart| - 1])
  }

  /** The subtotal of two carts side by side is the sum of their subtotals. */
  lemma {:induction false} SubtotalAppend(a: seq<CartLine>, b: seq<CartLine>)
    ensures Subtotal(a + b) == Subtotal(a) + Subtotal(b)
    decreases |b|
  {
    if b == [] {
      assert a + b == a;
    } else {
      var ab := a + b;
      assert ab[..|ab| - 1] == a + b[..|b| - 1] && ab[|ab| - 1] == b[|b| - 1];
      SubtotalAppend(a, b[..|b| - 1]);
    }
  }

  /** Removing a product lowers the subtotal by exactly the lines removed. */
  lemma {:induction false} RemoveProductSubtotal(cart: seq<CartLine>, id: string)
    ensures Subtotal(cart) == Subtotal(RemoveProduct(cart, id)) + Subtotal(Filter(cart, (l: CartLine) => l.id == id))
    decreases |cart|
  {
    var keep := (l: CartLine) => l.id != id;
    var drop := (l: CartLine) => l.id == id;
    if cart != [] {
      var h := cart[0];
      var t := cart[1..];
      assert cart == [h] + t;
      RemoveProductSubtotal(t, id);
      FilterCons(h, t, keep);
      FilterCons(h, t, drop);
      SubtotalAppend([h], Filter(t, keep));
      SubtotalAppend([h], Filter(t, drop));
      SubtotalAppend([h], t);
    }
  }

  /** With non-negative prices and quantities, the subtotal is non-negative. */
  lemma {:induction false} SubtotalNonNegative(cart: seq<CartLine>)
    requires forall i :: 0 <= i < |cart| ==> cart[i].price >= 0.0 && cart[i].quantity >= 0
    ensures Subtotal(cart) >= 0.0
    decreases |cart|
  {
    if cart != [] {
      SubtotalNonNegative(cart[..|cart| - 1]);
      var l := cart[|cart| - 1];
      assert LineTotal(l) >= 0.0 by {
        assert l.quantity as real >= 0.0;
      }
    }
  }

  /** The price of the selected shipping option, 0 when no option has that id. */
  function ShippingCost(options: seq<ShippingOption>, selected: string): (c: real)
    ensures (forall j :: 0 <= j < |options| ==> options[j].id != selected) ==> c == 0.0
    ensures forall k ::
      (0 <= k < |options| && options[k].id == selected && forall j :: 0 <= j < k ==> options[j].id != selected)
      ==> c == options[k].price
  {
    match FindFirst(options, (o: ShippingOption) => o.id == selected)
    case None => 0.0
    case Some(k) => options[k].price
  }

  /** Each offered option costs its listed price; an unknown choice costs nothing. */
  lemma OfferedShippingCosts()
    ensures ShippingCost(ShippingOptions, "standard") == 5.99
    ensures ShippingCost(ShippingOptions, "express") == 12.99
    ensures ShippingCost(ShippingOptions, "economy") == 3.99
    ensures ShippingCost(ShippingOptions, "overnight") == 0.0
  {
    assert ShippingOptions[0].id == "standard";
    assert ShippingOptions[1].id == "express";
    assert ShippingOptions[2].id == "economy";
  }

  datatype Summary = Summary(subtotal: real, shipping: real, tax: real, total: real)

  /** The order summary shown beside the cart. */
  function OrderSummary(cart: seq<CartLine>, options: seq<ShippingOption>, selected: string): (s: Summary)
    ensures s.tax == TaxRate * s.subtotal
    ensures s.total == s.subtotal + s.shipping + s.tax
    ensures s.subtotal == Subtotal(cart) && s.shipping == ShippingCost(options, selected)
  {
    var subtotal := Subtotal(cart);
    var shipping := ShippingCost(options, selected);
    var tax := subtotal * TaxRate;
    Summary(subtotal, shipping, tax, subtotal + shipping + tax)
  }

  /** Removing a product lowers the total by the removed lines' subtotal
      with its tax. */
  lemma RemoveProductTotal(cart: seq<CartLine>, options: seq<ShippingOption>, selected: string, id: string)
    ensures OrderSummary(cart, options, selected).total ==
      OrderSummary(RemoveProduct(cart, id), options, selected).total
      + (1.0 + TaxRate) * Subtotal(Filter(cart, (l: CartLine) => l.id == id))
  {
    RemoveProductSubtotal(cart, id);
  }

  /** With non-negative prices and quantities, removing a product never
      raises the total. */
  lemma RemoveProductNeverRaisesTotal(cart: seq<CartLine>, options: seq<ShippingOption>, selected: string, id: string)
    requires forall i :: 0 <= i < |cart| ==> cart[i].price >= 0.0 && cart[i].quantity >= 0
    ensures OrderSummary(RemoveProduct(cart, id), options, selected).total <= OrderSummary(cart, options, selected).total
  {
    var drop := (l: CartLine) => l.id == id;
    var removed := Filter(cart, drop);
    RemoveProductTotal(cart, options, selected, id);
    forall i | 0 <= i < |removed|
      ensures removed[i].price >= 0.0 && removed[i].quantity >= 0
    {
      FilterMembers(cart, drop, removed[i]);
    }
    SubtotalNonNegative(removed);
  }

  /** The opening screen: one T-shirt at 29.99 with standard shipping gives a
      subtotal of 29.99, shipping 5.99, tax 2.3992 and total 38.3792. */
  lemma InitialSummary()
    ensures OrderSummary(InitialCart, ShippingOptions, DefaultShipping) == Summary(29.99, 5.99, 2.3992, 38.3792)
  {
    assert InitialCart[..0] == [];
    OfferedShippingCosts();
  }
}
