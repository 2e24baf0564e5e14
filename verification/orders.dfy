/** The vendor's order fulfilment dashboard: the order list with its status
    and search filter, status updates that keep the selected copy in sync,
    idempotent tracking-id assignment, the monotonic "label generated" flag,
    and "mark as shipped". */
module Orders {
  import opened Options
  import opened Seqs
  import opened Text

  datatype OrderStatus = Pending | Processing | Shipped | Delivered

  /** The status as it is spelled in order records and in the filter options. */
  function StatusName(s: OrderStatus): string {
    match s
    case Pending => "pending"
    case Processing => "processing"
    case Shipped => "shipped"
    case Delivered => "delivered"
  }

  datatype OrderAddress = OrderAddress(
    name: string, street: string, city: string, state: string,
    postalCode: string, country: string, phone: string)

  datatype OrderItem = OrderItem(id: int, name: string, quantity: int, price: real, imageUrl: string)

  /** An order; an absent `labelGenerated` reads as `false`. */
  datatype Order = Order(
    id: string, status: OrderStatus, products: seq<OrderItem>, customer: OrderAddress,
    total: real, tax: real, shippingCost: real,
    trackingId: Option<string>, labelGenerated: bool, createdAt: string)

  datatype ToastKind = Success | Error
  datatype Toast = Toast(visible: bool, message: string, kind: ToastKind)

  /** The dashboard's component state. */
  datatype Dashboard = Dashboard(
    orders: seq<Order>, selected: Option<Order>, detailOpen: bool,
    statusFilter: string, searchText: string, labelModalOpen: bool, toast: Toast)

  /** The status filter value that lets every status through. */
  const AllStatuses: string := "all"

  const StatusUpdatedMessage: string := "Order status updated successfully!"
  const LabelPrintedMessage: string := "Shipping label printed successfully!"
  const LabelDownloadedMessage: string := "Shipping label downloaded successfully!"
  const ShippedMessage: string := "Order marked as shipped! Drop-off completed."
  const StatusSavedMessage: string := "Order status saved successfully!"

  /** The state the dashboard starts in. */
  function Initial(orders: seq<Order>): (d: Dashboard)
    ensures d.orders == orders && d.selected.None? && !d.detailOpen && !d.labelModalOpen
    ensures d.statusFilter == AllStatuses && d.searchText == "" && !d.toast.visible
    ensures FilteredOrders(d) == orders
  {
    FilterKeepsAll(orders, (o: Order) => MatchesOrder(AllStatuses, "", o));
    Dashboard(orders, None, false, AllStatuses, "", false, Toast(false, "", Success))
  }

  function ShowToast(d: Dashboard, message: string, kind: ToastKind): (r: Dashboard)
    ensures r.toast.visible && r.toast.message == message && r.toast.kind == kind
    ensures r.(toast := d.toast) == d
  {
    d.(toast := Toast(true, message, kind))
  }

  // ---------------------------------------------------------------------
  // Filtering
  // ---------------------------------------------------------------------

  /** The status filter and the case-insensitive search over id and customer name. */
  predicate MatchesOrder(statusFilter: string, searchText: string, o: Order)
    ensures searchText == "" ==>
      (MatchesOrder(statusFilter, searchText, o) <==> statusFilter == AllStatuses || StatusName(o.status) == statusFilter)
    ensures statusFilter != AllStatuses && StatusName(o.status) != statusFilter ==> !MatchesOrder(statusFilter, searchText, o)
  {
    && (statusFilter == AllStatuses || StatusName(o.status) == statusFilter)
    && (|| searchText == ""
        || Includes(Lower(o.id), Lower(searchText))
        || Includes(Lower(o.customer.name), Lower(searchText)))
  }

  /** The orders shown in the list. */
  function FilteredOrders(d: Dashboard): (r: seq<Order>)
    ensures |r| <= |d.orders|
    ensures forall i :: 0 <= i < |r| ==> MatchesOrder(d.statusFilter, d.searchText, r[i])
  {
    Filter(d.orders, (o: Order) => MatchesOrder(d.statusFilter, d.searchText, o))
  }

  /** With the "all" filter and no search text the list shows every order in order. */
  lemma UnfilteredShowsAll(d: Dashboard)
    requires d.statusFilter == AllStatuses && d.searchText == ""
    ensures FilteredOrders(d) == d.orders
  {
    FilterKeepsAll(d.orders, (o: Order) => MatchesOrder(d.statusFilter, d.searchText, o));
  }

  /** An order is listed exactly when its status passes the filter and the
      lower-cased search text occurs somewhere in its lower-cased id or
      customer name; the listed orders keep their relative order. */
  lemma FilteredOrdersExactly(d: Dashboard, o: Order)
    ensures o in FilteredOrders(d) <==>
      && o in d.orders
      && (d.statusFilter == "all" || StatusName(o.status) == d.statusFilter)
      && (|| (exists i :: OccursAt(Lower(o.id), Lower(d.searchText), i))
          || (exists i :: OccursAt(Lower(o.customer.name), Lower(d.searchText), i)))
    ensures IsSubsequence(FilteredOrders(d), d.orders)
  {
    var p := (o: Order) => MatchesOrder(d.statusFilter, d.searchText, o);
    FilterMembers(d.orders, p, o);
    FilterIsSubsequence(d.orders, p);
    IncludesIffOccurs(Lower(o.id), Lower(d.searchText));
    IncludesIffOccurs(Lower(o.customer.name), Lower(d.searchText));
    if d.searchText == "" {
      assert OccursAt(Lower(o.id), Lower(d.searchText), 0);
    }
  }

  // ---------------------------------------------------------------------
  // Selection
  // ---------------------------------------------------------------------

  /** Opening an order in the detail panel. */
  function SelectOrder(d: Dashboard, o: Order): (r: Dashboard)
    ensures r.selected == Some(o) && r.detailOpen
    ensures r.(selected := d.selected, detailOpen := d.detailOpen) == d
  {
    d.(selected := Some(o), detailOpen := true)
  }

  /** Closing the detail panel drops the selection. */
  function CloseDetail(d: Dashboard): (r: Dashboard)
    ensures r.selected.None? && !r.detailOpen
    ensures r.(selected := d.selected, detailOpen := d.detailOpen) == d
  {
    d.(selected := None, detailOpen := false)
  }

  /** Saving the status only reports, and only when an order is selected. */
  function SaveStatus(d: Dashboard): (r: Dashboard)
    ensures d.selected.None? ==> r == d
    ensures d.selected.Some? ==> r.toast.visible && r.toast.message == StatusSavedMessage
    ensures r.(toast := d.toast) == d
  {
    if d.selected.Some? then ShowToast(d, StatusSavedMessage, Success) else d
  }

  // ---------------------------------------------------------------------
  // Status updates
  // ---------------------------------------------------------------------

  /** Every order whose id is `id` gets status `st`; all others are kept. */
  function SetStatusOf(orders: seq<Order>, id: string, st: OrderStatus): (r: seq<Order>)
    ensures |r| == |orders|
    ensures forall i :: 0 <= i < |orders| ==>
      r[i].(status := orders[i].status) == orders[i]
    ensures forall i :: 0 <= i < |orders| ==>
      r[i].status == if orders[i].id == id then st else orders[i].status
  {
    seq(|orders|, i requires 0 <= i < |orders| =>
      if orders[i].id == id then orders[i].(status := st) else orders[i])
  }

  /** Changing an order's status, in the list and in the selected copy. */
  function UpdateStatus(d: Dashboard, id: string, st: OrderStatus): (r: Dashboard)
    ensures |r.orders| == |d.orders|
    ensures forall i :: 0 <= i < |d.orders| ==>
      && r.orders[i].(status := d.orders[i].status) == d.orders[i]
      && r.orders[i].status == (if d.orders[i].id == id then st else d.orders[i].status)
    ensures r.selected.Some? <==> d.selected.Some?
    ensures d.selected.Some? ==>
      && r.selected.value.(status := d.selected.value.status) == d.selected.value
      && r.selected.value.status == (if d.selected.value.id == id then st else d.selected.value.status)
    ensures r.toast == Toast(true, StatusUpdatedMessage, Success)
    ensures r.(orders := d.orders, selected := d.selected, toast := d.toast) == d
  {
    var selected :=
      if d.selected.Some? && d.selected.value.id == id then Some(d.selected.value.(status := st))
      else d.selected;
    ShowToast(d.(orders := SetStatusOf(d.orders, id, st), selected := selected),
              StatusUpdatedMessage, Success)
  }

  /** Applying the same status update twice is the same as applying it once. */
  lemma UpdateStatusIdempotent(d: Dashboard, id: string, st: OrderStatus)
    ensures UpdateStatus(UpdateStatus(d, id, st), id, st) == UpdateStatus(d, id, st)
  {
    var once := UpdateStatus(d, id, st);
    assert UpdateStatus(once, id, st).orders == once.orders;
  }

  /** A selection that is the list's copy of an order stays the list's copy
      after any status update: no divergent copy arises. */
  lemma UpdateStatusKeepsSelectionInSync(d: Dashboard, k: nat, id: string, st: OrderStatus)
    requires k < |d.orders| && d.selected == Some(d.orders[k])
    ensures UpdateStatus(d, id, st).selected == Some(UpdateStatus(d, id, st).orders[k])
  {
  }

  // ---------------------------------------------------------------------
  // Shipping labels
  // ---------------------------------------------------------------------

  /** A tracking id is present: set and non-empty (`!order.trackingId` is false). */
  predicate HasTracking(o: Order) {
    o.trackingId.Some? && o.trackingId.value != ""
  }

  /** `Math.floor(10000000 + Math.random() * 90000000)` for a draw of `Math.random()`. */
  function TrackingNumber(draw: real): (n: int)
    requires 0.0 <= draw < 1.0
    ensures 10000000 <= n <= 99999999
  {
    (10000000.0 + draw * 90000000.0).Floor
  }

  /** `'TRK-' + n`. */
  function TrackingIdOf(n: nat): string {
    "TRK-" + DecimalString(n)
  }

  /** The shape of a generated tracking id: the prefix, then eight digits
      spelling a number in [10000000, 99999999]. */
  predicate IsTrackingId(t: string) {
    && |t| == 12
    && t[..4] == "TRK-"
    && AllDigits(t[4..])
    && 10000000 <= ParseDecimal(t[4..]) <= 99999999
  }

  /** Every draw yields a well-formed tracking id, and the digits read back
      as the drawn number. */
  lemma GeneratedTrackingIdWellFormed(draw: real)
    requires 0.0 <= draw < 1.0
    ensures IsTrackingId(TrackingIdOf(TrackingNumber(draw)))
    ensures ParseDecimal(TrackingIdOf(TrackingNumber(draw))[4..]) == TrackingNumber(draw)
  {
    var n := TrackingNumber(draw);
    var t := TrackingIdOf(n);
    assert t[4..] == DecimalString(n);
    assert Pow10(7) == 10000000 && Pow10(8) == 100000000;
    DecimalLength(n, 8);
    DecimalRoundTrip(n);
  }

  /** The position of the first order with the given id (`orders.find`). */
  function FindOrder(orders: seq<Order>, id: string): (r: Option<nat>)
    ensures r.Some? ==> r.value < |orders| && orders[r.value].id == id
    ensures r.Some? ==> forall j :: 0 <= j < r.value ==> orders[j].id != id
    ensures r.None? <==> forall j :: 0 <= j < |orders| ==> orders[j].id != id
  {
    FindFirst(orders, (o: Order) => o.id == id)
  }

  /** Opening the label for an order: the first order with that id receives a
      tracking id if it has none (the source writes it into the order object,
      which is the one held in the list), becomes the selection, and the
      label dialog opens. An unknown id changes nothing. */
  function GenerateLabel(d: Dashboard, id: string, draw: real): (r: Dashboard)
    requires 0.0 <= draw < 1.0
    ensures (forall j :: 0 <= j < |d.orders| ==> d.orders[j].id != id) ==> r == d
    ensures |r.orders| == |d.orders|
    ensures forall i :: 0 <= i < |d.orders| ==>
      r.orders[i].(trackingId := d.orders[i].trackingId) == d.orders[i]
    ensures forall i :: 0 <= i < |d.orders| && HasTracking(d.orders[i]) ==>
      r.orders[i] == d.orders[i]
    ensures forall i :: 0 <= i < |d.orders| && r.orders[i] != d.orders[i] ==>
      d.orders[i].id == id && r.orders[i].trackingId.Some? && IsTrackingId(r.orders[i].trackingId.value)
    ensures (exists j :: 0 <= j < |d.orders| && d.orders[j].id == id) ==>
      && r.labelModalOpen
      && r.selected.Some? && r.selected.value in r.orders
      && r.selected.value.id == id && HasTracking(r.selected.value)
    ensures r.(orders := d.orders, selected := d.selected, labelModalOpen := d.labelModalOpen) == d
  {
    match FindOrder(d.orders, id)
    case None => d
    case Some(k) =>
      var o := d.orders[k];
      var o' := if HasTracking(o) then o
                else o.(trackingId := Some(TrackingIdOf(TrackingNumber(draw))));
      GeneratedTrackingIdWellFormed(draw);
      d.(orders := d.orders[k := o'], selected := Some(o'), labelModalOpen := true)
  }

  /** The order a label is opened for is the first one with the id: it
      becomes the selection as the list now holds it, and no other order
      changes. */
  lemma GenerateLabelTouchesFirstMatch(d: Dashboard, id: string, draw: real, k: nat)
    requires 0.0 <= draw < 1.0
    requires k < |d.orders| && d.orders[k].id == id
    requires forall j :: 0 <= j < k ==> d.orders[j].id != id
    ensures GenerateLabel(d, id, draw).selected == Some(GenerateLabel(d, id, draw).orders[k])
    ensures forall i :: 0 <= i < |d.orders| && i != k ==> GenerateLabel(d, id, draw).orders[i] == d.orders[i]
  {
    var found := FindOrder(d.orders, id);
    assert found == Some(k) by {
      if found.value < k {
      } else if found.value > k {
      }
    }
  }

  /** A second label request for the same order assigns nothing new: the
      tracking id of the first call stays, whatever the second draw. */
  lemma GenerateLabelIdempotent(d: Dashboard, id: string, draw1: real, draw2: real)
    requires 0.0 <= draw1 < 1.0 && 0.0 <= draw2 < 1.0
    ensures GenerateLabel(GenerateLabel(d, id, draw1), id, draw2) == GenerateLabel(d, id, draw1)
  {
    var once := GenerateLabel(d, id, draw1);
    match FindOrder(d.orders, id)
    case None =>
    case Some(k) =>
      assert FindOrder(once.orders, id) == Some(k) by {
        assert forall j :: 0 <= j < |d.orders| ==> once.orders[j].id == d.orders[j].id;
      }
      assert HasTracking(once.orders[k]);
      assert once.orders[k := once.orders[k]] == once.orders;
      assert once.selected == Some(once.orders[k]) && once.labelModalOpen;
  }

  /** Marking the selected order's label as produced, in the list and in the
      selection; the dialog closes and `message` is reported. Nothing happens
      without a selection. */
  function MarkLabelGenerated(d: Dashboard, message: string): (r: Dashboard)
    ensures d.selected.None? ==> r == d
    ensures |r.orders| == |d.orders|
    ensures forall i :: 0 <= i < |d.orders| ==>
      && r.orders[i].(labelGenerated := d.orders[i].labelGenerated) == d.orders[i]
      && (r.orders[i].labelGenerated <==>
            d.orders[i].labelGenerated || (d.selected.Some? && d.orders[i].id == d.selected.value.id))
    ensures d.selected.Some? ==>
      && r.selected == Some(d.selected.value.(labelGenerated := true))
      && !r.labelModalOpen
      && r.toast == Toast(true, message, Success)
    ensures r.(orders := d.orders, selected := d.selected, labelModalOpen := d.labelModalOpen, toast := d.toast) == d
  {
    match d.selected
    case None => d
    case Some(s) =>
      var orders := seq(|d.orders|, i requires 0 <= i < |d.orders| =>
        if d.orders[i].id == s.id then d.orders[i].(labelGenerated := true) else d.orders[i]);
      ShowToast(d.(orders := orders, selected := Some(s.(labelGenerated := true)), labelModalOpen := false),
                message, Success)
  }

  /** Printing the label. */
  function PrintLabel(d: Dashboard): (r: Dashboard)
    ensures d.selected.None? ==> r == d
    ensures d.selected.Some? ==> r.toast.message == LabelPrintedMessage && r.selected.Some? && r.selected.value.labelGenerated
  {
    MarkLabelGenerated(d, LabelPrintedMessage)
  }

  /** Downloading the label. */
  function DownloadLabel(d: Dashboard): (r: Dashboard)
    ensures d.selected.None? ==> r == d
    ensures d.selected.Some? ==> r.toast.message == LabelDownloadedMessage && r.selected.Some? && r.selected.value.labelGenerated
  {
    MarkLabelGenerated(d, LabelDownloadedMessage)
  }

  /** The flag never goes back to false, whatever is printed or downloaded. */
  lemma LabelGeneratedMonotonic(d: Dashboard, message: string, i: nat)
    requires i < |d.orders| && d.orders[i].labelGenerated
    ensures MarkLabelGenerated(d, message).orders[i].labelGenerated
    ensures d.selected.Some? && d.selected.value.labelGenerated ==>
      MarkLabelGenerated(d, message).selected.value.labelGenerated
  {
  }

  /** Printing then downloading, or downloading then printing, leaves the
      orders, the selection and the dialog as a single print would; only the
      last reported message tells the two apart. */
  lemma PrintAndDownloadCommute(d: Dashboard)
    ensures DownloadLabel(PrintLabel(d)).(toast := d.toast) == PrintLabel(d).(toast := d.toast)
    ensures PrintLabel(DownloadLabel(d)).(toast := d.toast) == PrintLabel(d).(toast := d.toast)
  {
    if d.selected.Some? {
      var p := PrintLabel(d);
      var dl := DownloadLabel(d);
      assert DownloadLabel(p).orders == p.orders;
      assert PrintLabel(dl).orders == p.orders;
    }
  }

  /** Marking an order as shipped: a status update to `shipped`, then the
      drop-off message. */
  function MarkAsShipped(d: Dashboard, id: string): (r: Dashboard)
    ensures r.toast == Toast(true, ShippedMessage, Success)
  {
    ShowToast(UpdateStatus(d, id, Shipped), ShippedMessage, Success)
  }

  /** On the orders and the selection, marking as shipped is exactly the
      status update to `shipped`; no label is required first. */
  lemma MarkAsShippedIsStatusUpdate(d: Dashboard, id: string)
    ensures MarkAsShipped(d, id).(toast := d.toast) == UpdateStatus(d, id, Shipped).(toast := d.toast)
    ensures forall i :: 0 <= i < |d.orders| && d.orders[i].id == id ==>
      MarkAsShipped(d, id).orders[i].status == Shipped
  {
  }
}
