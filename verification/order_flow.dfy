/** The step-by-step order handling flow: a step counter over the screens
    of the flow, the current order, status updates kept in sync with it,
    drop-off and delivery. */
module OrderFlow {
  import opened Options
  import opened Seqs

  /** The screens of the flow, numbered in order. */
  const OrdersStep: int := 1
  const OrderDetailsStep: int := 2
  const ShippingLabelStep: int := 3
  const ShippingProgressStep: int := 4
  const OrderCompleteStep: int := 5

  /** The statuses the flow's orders take. */
  datatype FlowStatus = New | InTransit | Delivered

  datatype FlowOrder = FlowOrder(
    id: string, status: FlowStatus, productName: string, quantity: int,
    customerName: string, location: string, total: real, trackingId: Option<string>)

  /** The hook's state. */
  datatype Flow = Flow(step: int, showModal: bool, orders: seq<FlowOrder>, current: Option<FlowOrder>)

  /** The state the hook starts in. */
  function Start(orders: seq<FlowOrder>): (f: Flow)
    ensures f.step == OrdersStep && !f.showModal && f.current.None? && f.orders == orders
  {
    Flow(OrdersStep, false, orders, None)
  }

  /** Jumping to a screen: any step number is taken as given. */
  function GoToStep(f: Flow, step: int): (r: Flow)
    ensures r.step == step
    ensures r.(step := f.step) == f
  {
    f.(step := step)
  }

  /** Going back one screen, never below the first one. */
  function NavigateBack(f: Flow): (r: Flow)
    ensures f.step > 1 ==> r.step == f.step - 1
    ensures f.step <= 1 ==> r == f
    ensures f.step >= 1 ==> r.step >= 1
    ensures r.(step := f.step) == f
  {
    if f.step > 1 then f.(step := f.step - 1) else f
  }

  /** Going back `n` times. */
  function NavigateBackTimes(f: Flow, n: nat): Flow
    decreases n
  {
    if n == 0 then f else NavigateBackTimes(NavigateBack(f), n - 1)
  }

  /** However often one goes back, the step stops at the first screen. */
  lemma {:induction false} NavigateBackFloor(f: Flow, n: nat)
    requires f.step >= 1
    ensures NavigateBackTimes(f, n).step == if f.step - n >= 1 then f.step - n else 1
    ensures NavigateBackTimes(f, n).(step := f.step) == f
    decreases n
  {
    if n > 0 {
      NavigateBackFloor(NavigateBack(f), n - 1);
    }
  }

  function SetShowModal(f: Flow, show: bool): (r: Flow)
    ensures r.showModal == show
    ensures r.(showModal := f.showModal) == f
  {
    f.(showModal := show)
  }

  /** Picking an order by id (`find`): a known id makes the first such
      order current and moves to the details screen; an unknown id clears the
      current order and stays on the same screen. */
  function SelectOrder(f: Flow, id: string): (r: Flow)
    ensures (forall j :: 0 <= j < |f.orders| ==> f.orders[j].id != id) ==>
      r == f.(current := None)
    ensures (exists j :: 0 <= j < |f.orders| && f.orders[j].id == id) ==>
      && r.step == OrderDetailsStep
      && r.current.Some? && r.current.value.id == id && r.current.value in f.orders
    ensures (exists j :: 0 <= j < |f.orders| && f.orders[j].id == id) ==>
      exists k :: 0 <= k < |f.orders| && r.current == Some(f.orders[k])
        && forall j :: 0 <= j < k ==> f.orders[j].id != id
    ensures r.orders == f.orders && r.showModal == f.showModal
  {
    match FindFirst(f.orders, (o: FlowOrder) => o.id == id)
    case None => f.(current := None)
    case Some(k) => f.(current := Some(f.orders[k]), step := OrderDetailsStep)
  }

  /** Setting the status of the orders with this id, and of the current
      order when it has this id. */
  function UpdateOrderStatus(f: Flow, id: string, st: FlowStatus): (r: Flow)
    ensures |r.orders| == |f.orders|
    ensures forall i :: 0 <= i < |f.orders| ==>
      && r.orders[i].(status := f.orders[i].status) == f.orders[i]
      && r.orders[i].status == (if f.orders[i].id == id then st else f.orders[i].status)
    ensures r.current.Some? <==> f.current.Some?
    ensures f.current.Some? ==>
      && r.current.value.(status := f.current.value.status) == f.current.value
      && r.current.value.status == (if f.current.value.id == id then st else f.current.value.status)
    ensures r.step == f.step && r.showModal == f.showModal
  {
    var orders := seq(|f.orders|, i requires 0 <= i < |f.orders| =>
      if f.orders[i].id == id then f.orders[i].(status := st) else f.orders[i]);
    var current :=
      if f.current.Some? && f.current.value.id == id then Some(f.current.value.(status := st))
      else f.current;
    f.(orders := orders, current := current)
  }

  /** The current order that was picked from the list stays equal to the
      list's copy under every status update. */
  lemma UpdateKeepsCurrentInSync(f: Flow, k: nat, id: string, st: FlowStatus)
    requires k < |f.orders| && f.current == Some(f.orders[k])
    ensures UpdateOrderStatus(f, id, st).current == Some(UpdateOrderStatus(f, id, st).orders[k])
  {
  }

  /** Selecting an order by id and then updating its status leaves the
      current order equal to the updated list entry. */
  lemma SelectThenUpdate(f: Flow, id: string, st: FlowStatus)
    requires exists j :: 0 <= j < |f.orders| && f.orders[j].id == id
    ensures var r := UpdateOrderStatus(SelectOrder(f, id), id, st);
      r.current.Some? && r.current.value.status == st && r.current.value in r.orders
  {
    var s := SelectOrder(f, id);
    var k := FindFirst(f.orders, (o: FlowOrder) => o.id == id).value;
    UpdateKeepsCurrentInSync(s, k, id, st);
  }

  /** Handing the current order to the courier: it and every order with its
      id go in transit, the modal closes and the flow moves to the
      completion screen. Without a current order nothing happens. */
  function HandleDropOff(f: Flow): (r: Flow)
    ensures f.current.None? ==> r == f
    ensures f.current.Some? ==>
      && r.current.Some? && r.current.value == f.current.value.(status := InTransit)
      && !r.showModal && r.step == OrderCompleteStep
      && |r.orders| == |f.orders|
      && forall i :: 0 <= i < |f.orders| ==>
           && r.orders[i].(status := f.orders[i].status) == f.orders[i]
           && r.orders[i].status == (if f.orders[i].id == f.current.value.id then InTransit else f.orders[i].status)
  {
    match f.current
    case None => f
    case Some(o) => GoToStep(SetShowModal(UpdateOrderStatus(f, o.id, InTransit), false), OrderCompleteStep)
  }

  /** A current order picked from the list is still the list's copy after
      the drop-off, now in transit. */
  lemma DropOffKeepsCurrentInSync(f: Flow, k: nat)
    requires k < |f.orders| && f.current == Some(f.orders[k])
    ensures HandleDropOff(f).current == Some(HandleDropOff(f).orders[k])
    ensures HandleDropOff(f).orders[k].status == InTransit
  {
    UpdateKeepsCurrentInSync(f, k, f.orders[k].id, InTransit);
  }

  /** Confirming delivery: every order with the id becomes delivered, and so
      does the current order when it has that id; nothing else changes. */
  function HandleDelivered(f: Flow, id: string): (r: Flow)
    ensures |r.orders| == |f.orders|
    ensures forall i :: 0 <= i < |f.orders| ==>
      && r.orders[i].(status := f.orders[i].status) == f.orders[i]
      && r.orders[i].status == (if f.orders[i].id == id then Delivered else f.orders[i].status)
    ensures r.current.Some? <==> f.current.Some?
    ensures f.current.Some? ==>
      && r.current.value.(status := f.current.value.status) == f.current.value
      && r.current.value.status == (if f.current.value.id == id then Delivered else f.current.value.status)
    ensures r.step == f.step && r.showModal == f.showModal
  {
    UpdateOrderStatus(f, id, Delivered)
  }

  /** A current order picked from the list is still the list's copy after a
      delivery confirmation, whatever the id. */
  lemma DeliveredKeepsCurrentInSync(f: Flow, k: nat, id: string)
    requires k < |f.orders| && f.current == Some(f.orders[k])
    ensures HandleDelivered(f, id).current == Some(HandleDelivered(f, id).orders[k])
  {
    UpdateKeepsCurrentInSync(f, k, id, Delivered);
  }

  /** Dropping off the current order and then confirming its delivery leaves
      it delivered, still the list's copy, on the completion screen with the
      modal closed. */
  lemma DropOffThenDelivered(f: Flow, k: nat)
    requires k < |f.orders| && f.current == Some(f.orders[k])
    ensures var r := HandleDelivered(HandleDropOff(f), f.orders[k].id);
      && r.current == Some(r.orders[k]) && r.orders[k].status == Delivered
      && r.step == OrderCompleteStep && !r.showModal
      && r.orders[k].(status := f.orders[k].status) == f.orders[k]
  {
    DropOffKeepsCurrentInSync(f, k);
    DeliveredKeepsCurrentInSync(HandleDropOff(f), k, f.orders[k].id);
  }
}
