/** The order endpoints: create, list, get, update, delete and search over
    the `orders` table. The table is its rows in insertion order; a new
    row's id is one more than the last id, as SQLite assigns row ids, and
    `created_at desc` lists the newest row first. The request bodies arrive
    already parsed, as `OrderSchemas` describes; authentication and the
    per-minute request limits are not modelled here. */
module OrdersRouter {
  import opened Wrappers
  import opened Text
  import opened Schema
  import opened OrderSchemas
  import opened Paging
  import opened Rows

  datatype Order = Order(
    id: nat,
    orderNumber: string,
    firstName: Option<string>,
    lastName: Option<string>,
    dateOfBirth: Option<string>,
    orderType: string,
    status: string,
    totalAmount: Option<real>,
    notes: Option<string>,
    createdAt: Instant,
    updatedAt: Option<Instant>)

  const OrderNotFound := HttpError(404, "Order not found")
  const UpdateFailed := HttpError(500, "Failed to update order")
  const NoPatientName := HttpError(400, "At least one of first_name or last_name must be provided")
  const DeletedMessage := "Order deleted successfully"

  /** The 400 for an order number another order already holds. */
  function Duplicate(n: string): HttpError {
    HttpError(400, "Order with number '" + n + "' already exists")
  }

  /** A Python truth test on an optional string. */
  predicate Truthy(v: Option<string>) {
    v.Some? && v.value != ""
  }

  /** What the table's keys guarantee: ids ascending in insertion order and
      order numbers unique. */
  ghost predicate TableInvariant(orders: seq<Order>) {
    && (forall i, j :: 0 <= i < j < |orders| ==> orders[i].id < orders[j].id)
    && UniqueNumbers(orders)
  }

  predicate UniqueNumbers(orders: seq<Order>) {
    forall i, j :: 0 <= i < j < |orders| ==> orders[i].orderNumber != orders[j].orderNumber
  }

  function IndexOfId(orders: seq<Order>, id: int): Option<nat> {
    FirstWhere(orders, (o: Order) => o.id == id)
  }

  /** The id SQLite gives the next row. */
  function NextId(orders: seq<Order>): nat {
    if orders == [] then 1 else orders[|orders| - 1].id + 1
  }

  // ---- create_order ----

  /** The status column's value for a sent status: the ORM leaves a `None`
      attribute out of the INSERT, so the column default "pending" fills it. */
  function StatusOrDefault(status: Option<string>): string {
    if status.Some? then status.value else DefaultStatus
  }

  /** `create_order`: refused when an order holds the number. Returns the
      answer and the new table. */
  function Create(orders: seq<Order>, f: OrderFields, now: Instant): (Result<Order, HttpError>, seq<Order>) {
    if FirstWhere(orders, (o: Order) => o.orderNumber == f.orderNumber).Some? then
      (Err(Duplicate(f.orderNumber)), orders)
    else
      var row := Order(NextId(orders), f.orderNumber, f.firstName, f.lastName, f.dateOfBirth,
                       f.orderType, StatusOrDefault(f.status), f.totalAmount, f.notes, now, None);
      (Ok(row), orders + [row])
  }

  /** A number already in the table is refused with 400 and the table is
      left as it was; otherwise the order is appended with the values sent,
      an id above every other id, and the table keeps its keys. */
  lemma CreateRules(orders: seq<Order>, f: OrderFields, now: Instant)
    requires TableInvariant(orders)
    ensures var (r, orders') := Create(orders, f, now);
      && ((exists o :: o in orders && o.orderNumber == f.orderNumber) <==> r == Err(Duplicate(f.orderNumber)))
      && (r.Err? ==> orders' == orders)
      && (r.Ok? ==>
            && orders' == orders + [r.value]
            && r.value.orderNumber == f.orderNumber
            && r.value.status == (if f.status.Some? then f.status.value else "pending")
            && r.value.firstName == f.firstName && r.value.lastName == f.lastName
            && r.value.dateOfBirth == f.dateOfBirth && r.value.orderType == f.orderType
            && r.value.totalAmount == f.totalAmount && r.value.notes == f.notes
            && (forall o :: o in orders ==> o.id < r.value.id)
            && TableInvariant(orders'))
  {
    var hit := FirstWhere(orders, (o: Order) => o.orderNumber == f.orderNumber);
    if hit.None? {
      forall o | o in orders ensures o.orderNumber != f.orderNumber {
        var j :| 0 <= j < |orders| && orders[j] == o;
      }
    }
    var (r, orders') := Create(orders, f, now);
    if r.Ok? {
      forall o | o in orders ensures o.id < r.value.id {
        var j :| 0 <= j < |orders| && orders[j] == o;
        LastIdIsLargest(orders, j);
      }
      forall i, j | 0 <= i < j < |orders'|
        ensures orders'[i].id < orders'[j].id && orders'[i].orderNumber != orders'[j].orderNumber
      {
        if j == |orders| {
          assert orders'[i] in orders;
        }
      }
    }
  }

  lemma LastIdIsLargest(orders: seq<Order>, j: nat)
    requires j < |orders|
    requires forall a, b :: 0 <= a < b < |orders| ==> orders[a].id < orders[b].id
    ensures orders[j].id <= orders[|orders| - 1].id
  {
  }

  // ---- get_orders / get_order ----

  /** The response of `get_orders`. */
  datatype OrderList = OrderList(orders: seq<Order>, total: nat, page: int, pageSize: int, totalPages: nat)

  /** The filters of `get_orders`: status and type, each when truthy. */
  predicate Listed(o: Order, status: Option<string>, orderType: Option<string>) {
    (Truthy(status) ==> o.status == status.value) && (Truthy(orderType) ==> o.orderType == orderType.value)
  }

  /** `get_orders`; the query parameters are already checked to lie in
      `page >= 1` and `1 <= page_size <= 100`. */
  function List(orders: seq<Order>, page: int, pageSize: int, status: Option<string>, orderType: Option<string>): OrderList
    requires page >= 1 && 1 <= pageSize <= 100
  {
    var matches := Filter(orders, (o: Order) => Listed(o, status, orderType));
    OrderList(PageSlice(NewestFirst(matches), PageOffset(page, pageSize), pageSize), |matches|,
              page, pageSize, PageCount(|matches|, pageSize))
  }

  /** Every listed order passes the filters and a page holds at most
      `page_size` of them; the total counts every match; the page count
      covers the total without a spare page, and a page holds orders iff
      its number is at most the page count. */
  lemma ListRules(orders: seq<Order>, page: int, pageSize: int, status: Option<string>, orderType: Option<string>)
    requires page >= 1 && 1 <= pageSize <= 100
    ensures var l := List(orders, page, pageSize, status, orderType);
      && |l.orders| <= pageSize
      && (forall o :: o in l.orders ==> o in orders && Listed(o, status, orderType))
      && l.total == |Filter(orders, (o: Order) => Listed(o, status, orderType))|
      && l.totalPages * pageSize >= l.total && (l.totalPages == 0 || (l.totalPages - 1) * pageSize < l.total)
      && (l.orders != [] <==> page <= l.totalPages)
  {
    var p := (o: Order) => Listed(o, status, orderType);
    var matches := Filter(orders, p);
    var l := List(orders, page, pageSize, status, orderType);
    assert l.orders == PageSlice(NewestFirst(matches), PageOffset(page, pageSize), pageSize);
    assert l.total == |matches| && l.totalPages == PageCount(|matches|, pageSize);
    PageOfMatches(orders, p, page, pageSize);
    PageNonEmptyIffCounted(NewestFirst(matches), page, pageSize);
  }

  /** `get_order`: the order with that id, or 404. */
  function Get(orders: seq<Order>, id: int): (r: Result<Order, HttpError>)
    ensures r.Ok? ==> r.value in orders && r.value.id == id
    ensures r.Err? <==> forall o :: o in orders ==> o.id != id
    ensures r.Err? ==> r.error == OrderNotFound
  {
    var i := IndexOfId(orders, id);
    if i.None? then Err(OrderNotFound) else Ok(orders[i.value])
  }

  // ---- update_order ----

  datatype TextField = OrderNumberField | PatientFirstField | PatientLastField | PatientDobField
                     | OrderTypeField | StatusField | NotesField

  /** One `(field, value)` pair of `order_update.dict(exclude_unset=True)`. */
  datatype OrderItem = TextItem(field: TextField, text: Option<string>) | AmountItem(amount: Option<real>)

  /** The pair a sent text field contributes. */
  function TextItems(f: TextField, g: Given<Option<string>>): seq<OrderItem> {
    if g.Given? then [TextItem(f, g.value)] else []
  }

  function AmountItems(g: Given<Option<real>>): seq<OrderItem> {
    if g.Given? then [AmountItem(g.value)] else []
  }

  /** The fields sent, in declaration order. */
  function SetItems(p: OrderPatch): seq<OrderItem> {
    TextItems(OrderNumberField, p.orderNumber) + TextItems(PatientFirstField, p.firstName)
    + TextItems(PatientLastField, p.lastName) + TextItems(PatientDobField, p.dateOfBirth)
    + TextItems(OrderTypeField, p.orderType) + TextItems(StatusField, p.status)
    + AmountItems(p.totalAmount) + TextItems(NotesField, p.notes)
  }

  /** The columns declared `nullable=False` among the updatable ones. */
  predicate Required(f: TextField) {
    f == OrderNumberField || f == OrderTypeField || f == StatusField
  }

  /** Whether some sent item writes `null` into a required column. */
  predicate NullsRequired(items: seq<OrderItem>) {
    exists j :: 0 <= j < |items| && items[j].TextItem? && Required(items[j].field) && items[j].text.None?
  }

  /** One `setattr`. A `null` for a required column leaves the row as it
      is, since that commit fails. */
  function SetAttr(o: Order, item: OrderItem): Order {
    match item
    case AmountItem(a) => o.(totalAmount := a)
    case TextItem(f, v) =>
      match f
      case OrderNumberField => if v.Some? then o.(orderNumber := v.value) else o
      case PatientFirstField => o.(firstName := v)
      case PatientLastField => o.(lastName := v)
      case PatientDobField => o.(dateOfBirth := v)
      case OrderTypeField => if v.Some? then o.(orderType := v.value) else o
      case StatusField => if v.Some? then o.(status := v.value) else o
      case NotesField => o.(notes := v)
  }

  /** The `setattr` loop over `items`. */
  function ApplyItems(o: Order, items: seq<OrderItem>): Order
    decreases |items|
  {
    if items == [] then o else ApplyItems(SetAttr(o, items[0]), items[1..])
  }

  /** The number an update asks for when it must be checked against the
      other orders: a truthy number that differs from the current one. */
  predicate ChangesNumber(p: OrderPatch, o: Order) {
    p.orderNumber.Given? && Truthy(p.orderNumber.value) && p.orderNumber.value.value != o.orderNumber
  }

  /** `update_order`: returns the answer and the new table. `updated_at`
      moves only when some column changed, as an ORM flush issues no UPDATE
      otherwise; a broken NOT NULL or UNIQUE makes the commit fail. */
  function Update(orders: seq<Order>, id: int, p: OrderPatch, now: Instant): (Result<Order, HttpError>, seq<Order>) {
    var i := IndexOfId(orders, id);
    if i.None? then (Err(OrderNotFound), orders)
    else
      var o := orders[i.value];
      if ChangesNumber(p, o)
         && FirstWhere(orders, (x: Order) => x.orderNumber == p.orderNumber.value.value && x.id != id).Some? then
        (Err(Duplicate(p.orderNumber.value.value)), orders)
      else if NullsRequired(SetItems(p)) then (Err(UpdateFailed), orders)
      else
        var row := ApplyItems(o, SetItems(p));
        var row' := if row != o then row.(updatedAt := Some(now)) else row;
        var orders' := orders[i.value := row'];
        if !UniqueNumbers(orders') then (Err(UpdateFailed), orders)
        else (Ok(row'), orders')
  }

  lemma {:induction false} ApplyItemsAppend(o: Order, a: seq<OrderItem>, b: seq<OrderItem>)
    ensures ApplyItems(o, a + b) == ApplyItems(ApplyItems(o, a), b)
    decreases |a|
  {
    if a == [] {
      assert a + b == b;
    } else {
      assert (a + b)[0] == a[0];
      assert (a + b)[1..] == a[1..] + b;
      ApplyItemsAppend(SetAttr(o, a[0]), a[1..], b);
    }
  }

  /** One text field of the patch, applied when it was sent. */
  function ApplyText(o: Order, f: TextField, g: Given<Option<string>>): Order {
    if g.Given? then SetAttr(o, TextItem(f, g.value)) else o
  }

  function ApplyAmount(o: Order, g: Given<Option<real>>): Order {
    if g.Given? then SetAttr(o, AmountItem(g.value)) else o
  }

  lemma ApplyTextItem(o: Order, f: TextField, g: Given<Option<string>>)
    ensures ApplyItems(o, TextItems(f, g)) == ApplyText(o, f, g)
  {
    if g.Given? {
      assert ApplyItems(o, TextItems(f, g)) == ApplyItems(SetAttr(o, TextItem(f, g.value)), []);
    }
  }

  lemma ApplyAmountItem(o: Order, g: Given<Option<real>>)
    ensures ApplyItems(o, AmountItems(g)) == ApplyAmount(o, g)
  {
    if g.Given? {
      assert ApplyItems(o, AmountItems(g)) == ApplyItems(SetAttr(o, AmountItem(g.value)), []);
    }
  }

  /** The loop over the sent items is the eight fields applied in turn. */
  lemma ApplyPatchInTurn(o: Order, p: OrderPatch)
    ensures ApplyItems(o, SetItems(p))
      == ApplyText(ApplyAmount(ApplyText(ApplyText(ApplyText(ApplyText(ApplyText(ApplyText(o,
           OrderNumberField, p.orderNumber), PatientFirstField, p.firstName), PatientLastField, p.lastName),
           PatientDobField, p.dateOfBirth), OrderTypeField, p.orderType), StatusField, p.status),
           p.totalAmount), NotesField, p.notes)
  {
    var i1, i2, i3, i4 := TextItems(OrderNumberField, p.orderNumber), TextItems(PatientFirstField, p.firstName),
                          TextItems(PatientLastField, p.lastName), TextItems(PatientDobField, p.dateOfBirth);
    var i5, i6, i7, i8 := TextItems(OrderTypeField, p.orderType), TextItems(StatusField, p.status),
                          AmountItems(p.totalAmount), TextItems(NotesField, p.notes);
    ApplyItemsAppend(o, i1 + i2 + i3 + i4 + i5 + i6 + i7, i8);
    ApplyItemsAppend(o, i1 + i2 + i3 + i4 + i5 + i6, i7);
    ApplyItemsAppend(o, i1 + i2 + i3 + i4 + i5, i6);
    ApplyItemsAppend(o, i1 + i2 + i3 + i4, i5);
    ApplyItemsAppend(o, i1 + i2 + i3, i4);
    ApplyItemsAppend(o, i1 + i2, i3);
    ApplyItemsAppend(o, i1, i2);
    var v1 := ApplyItems(o, i1);
    ApplyTextItem(o, OrderNumberField, p.orderNumber);
    var v2 := ApplyItems(v1, i2);
    ApplyTextItem(v1, PatientFirstField, p.firstName);
    var v3 := ApplyItems(v2, i3);
    ApplyTextItem(v2, PatientLastField, p.lastName);
    var v4 := ApplyItems(v3, i4);
    ApplyTextItem(v3, PatientDobField, p.dateOfBirth);
    var v5 := ApplyItems(v4, i5);
    ApplyTextItem(v4, OrderTypeField, p.orderType);
    var v6 := ApplyItems(v5, i6);
    ApplyTextItem(v5, StatusField, p.status);
    var v7 := ApplyItems(v6, i7);
    ApplyAmountItem(v6, p.totalAmount);
    ApplyTextItem(v7, NotesField, p.notes);
  }

  /** No required column is sent as `null`. */
  lemma NoNullsRequired(p: OrderPatch)
    requires !NullsRequired(SetItems(p))
    ensures p.orderNumber.Given? ==> p.orderNumber.value.Some?
    ensures p.orderType.Given? ==> p.orderType.value.Some?
    ensures p.status.Given? ==> p.status.value.Some?
  {
    var i1, i2, i3, i4 := TextItems(OrderNumberField, p.orderNumber), TextItems(PatientFirstField, p.firstName),
                          TextItems(PatientLastField, p.lastName), TextItems(PatientDobField, p.dateOfBirth);
    var i5, i6, i7, i8 := TextItems(OrderTypeField, p.orderType), TextItems(StatusField, p.status),
                          AmountItems(p.totalAmount), TextItems(NotesField, p.notes);
    assert SetItems(p) == i1 + i2 + i3 + i4 + i5 + i6 + i7 + i8;
    if p.orderNumber.Given? { assert i1[0] == SetItems(p)[0]; }
    if p.orderType.Given? { assert i5[0] == SetItems(p)[|i1 + i2 + i3 + i4|]; }
    if p.status.Given? { assert i6[0] == SetItems(p)[|i1 + i2 + i3 + i4 + i5|]; }
  }

  /** The value a sent field ends up with. */
  function Patched<T>(prev: Option<T>, g: Given<Option<T>>): Option<T> {
    if g.Given? then g.value else prev
  }

  /** The `setattr` loop writes exactly the fields sent and leaves the id
      and the timestamps as they were. */
  lemma PatchWritesSentFields(o: Order, p: OrderPatch)
    requires !NullsRequired(SetItems(p))
    ensures var v := ApplyItems(o, SetItems(p));
      && Some(v.orderNumber) == Patched(Some(o.orderNumber), p.orderNumber)
      && v.firstName == Patched(o.firstName, p.firstName)
      && v.lastName == Patched(o.lastName, p.lastName)
      && v.dateOfBirth == Patched(o.dateOfBirth, p.dateOfBirth)
      && Some(v.orderType) == Patched(Some(o.orderType), p.orderType)
      && Some(v.status) == Patched(Some(o.status), p.status)
      && v.totalAmount == Patched(o.totalAmount, p.totalAmount)
      && v.notes == Patched(o.notes, p.notes)
      && v.id == o.id && v.createdAt == o.createdAt && v.updatedAt == o.updatedAt
  {
    NoNullsRequired(p);
    ApplyPatchInTurn(o, p);
    var v1 := ApplyText(o, OrderNumberField, p.orderNumber);
    var v2 := ApplyText(v1, PatientFirstField, p.firstName);
    var v3 := ApplyText(v2, PatientLastField, p.lastName);
    var v4 := ApplyText(v3, PatientDobField, p.dateOfBirth);
    var v5 := ApplyText(v4, OrderTypeField, p.orderType);
    var v6 := ApplyText(v5, StatusField, p.status);
    var v7 := ApplyAmount(v6, p.totalAmount);
    var v8 := ApplyText(v7, NotesField, p.notes);
    assert v1 == o.(orderNumber := v1.orderNumber);
    assert v2 == v1.(firstName := v2.firstName);
    assert v3 == v2.(lastName := v3.lastName);
    assert v4 == v3.(dateOfBirth := v4.dateOfBirth);
    assert v5 == v4.(orderType := v5.orderType);
    assert v6 == v5.(status := v6.status);
    assert v7 == v6.(totalAmount := v7.totalAmount);
    assert v8 == v7.(notes := v8.notes);
  }

  /** A missing id is a 404. A truthy number that differs from the order's
      own and is held by another order is a 400 naming it, and no other
      update is ever refused as a duplicate. Every refusal leaves the table
      as it was. A successful update rewrites only that row: the fields
      sent take the values sent, the others, the id and the creation time
      stay. */
  lemma UpdateRules(orders: seq<Order>, id: int, p: OrderPatch, now: Instant)
    ensures var (r, orders') := Update(orders, id, p, now);
      && ((forall o :: o in orders ==> o.id != id) <==> r == Err(OrderNotFound))
      && (r.Err? ==> orders' == orders)
      && (r.Err? && r.error.status == 400 ==>
            exists i, j :: 0 <= i < |orders| && 0 <= j < |orders| && orders[i].id == id && orders[j].id != id
              && ChangesNumber(p, orders[i]) && orders[j].orderNumber == p.orderNumber.value.value
              && r.error == Duplicate(p.orderNumber.value.value))
      && (r.Ok? ==>
            exists i :: 0 <= i < |orders| && orders[i].id == id && orders' == orders[i := r.value]
              && r.value.id == id && r.value.createdAt == orders[i].createdAt
              && Some(r.value.orderNumber) == Patched(Some(orders[i].orderNumber), p.orderNumber)
              && r.value.firstName == Patched(orders[i].firstName, p.firstName)
              && r.value.lastName == Patched(orders[i].lastName, p.lastName)
              && r.value.dateOfBirth == Patched(orders[i].dateOfBirth, p.dateOfBirth)
              && Some(r.value.orderType) == Patched(Some(orders[i].orderType), p.orderType)
              && Some(r.value.status) == Patched(Some(orders[i].status), p.status)
              && r.value.totalAmount == Patched(orders[i].totalAmount, p.totalAmount)
              && r.value.notes == Patched(orders[i].notes, p.notes))
  {
    var i := IndexOfId(orders, id);
    if i.Some? && !NullsRequired(SetItems(p)) {
      PatchWritesSentFields(orders[i.value], p);
    }
  }

  /** An order that another order's number is changed to conflicts, so the
      update is refused: the duplicate test of the router. */
  lemma ChangedToHeldNumberRefused(orders: seq<Order>, id: int, p: OrderPatch, now: Instant, j: nat)
    requires exists o :: o in orders && o.id == id
    requires j < |orders| && orders[j].id != id
    requires p.orderNumber == Given(Some(orders[j].orderNumber)) && orders[j].orderNumber != ""
    requires forall o :: o in orders && o.id == id ==> o.orderNumber != orders[j].orderNumber
    ensures Update(orders, id, p, now).0 == Err(Duplicate(orders[j].orderNumber))
    ensures Update(orders, id, p, now).1 == orders
  {
    var i := IndexOfId(orders, id);
    var n := orders[j].orderNumber;
    assert orders[i.value] in orders;
    assert orders[j].orderNumber == n && orders[j].id != id;
  }

  /** A successful update keeps the table's keys. */
  lemma UpdateKeepsInvariant(orders: seq<Order>, id: int, p: OrderPatch, now: Instant)
    requires TableInvariant(orders)
    ensures TableInvariant(Update(orders, id, p, now).1)
  {
    var i := IndexOfId(orders, id);
    if i.Some? && !NullsRequired(SetItems(p)) {
      PatchWritesSentFields(orders[i.value], p);
    }
  }

  // ---- delete_order ----

  /** `delete_order`: returns the answer and the new table. */
  function Delete(orders: seq<Order>, id: int): (Result<string, HttpError>, seq<Order>) {
    var i := IndexOfId(orders, id);
    if i.None? then (Err(OrderNotFound), orders)
    else (Ok(DeletedMessage), orders[..i.value] + orders[i.value + 1..])
  }

  /** The rows left when the row at `k` is removed. */
  lemma RemovedRow(orders: seq<Order>, k: nat)
    requires k < |orders|
    requires forall a, b :: 0 <= a < b < |orders| ==> orders[a].id < orders[b].id
    ensures forall o :: o in orders[..k] + orders[k + 1..] <==> o in orders && o.id != orders[k].id
  {
    var orders' := orders[..k] + orders[k + 1..];
    forall o | o in orders'
      ensures o in orders && o.id != orders[k].id
    {
      var m :| 0 <= m < |orders'| && orders'[m] == o;
      var j := RemovedIndex(orders, k, m);
      if j < k { assert orders[j].id < orders[k].id; } else { assert orders[k].id < orders[j].id; }
    }
    forall o | o in orders && o.id != orders[k].id
      ensures o in orders'
    {
      var j :| 0 <= j < |orders| && orders[j] == o;
      var m := if j < k then j else j - 1;
      var j' := RemovedIndex(orders, k, m);
    }
  }

  /** Position `m` of the table without row `k` is row `j` of the table. */
  lemma RemovedIndex(orders: seq<Order>, k: nat, m: nat) returns (j: nat)
    requires k < |orders| && m < |orders| - 1
    ensures j < |orders| && j != k && j == (if m < k then m else m + 1)
    ensures (orders[..k] + orders[k + 1..])[m] == orders[j]
  {
    j := if m < k then m else m + 1;
  }

  /** Removing a row keeps the table's keys. */
  lemma RemovedRowKeepsInvariant(orders: seq<Order>, k: nat)
    requires k < |orders| && TableInvariant(orders)
    ensures TableInvariant(orders[..k] + orders[k + 1..])
  {
    var orders' := orders[..k] + orders[k + 1..];
    forall a, b | 0 <= a < b < |orders'|
      ensures orders'[a].id < orders'[b].id && orders'[a].orderNumber != orders'[b].orderNumber
    {
      var a' := if a < k then a else a + 1;
      var b' := if b < k then b else b + 1;
      assert orders'[a] == orders[a'] && orders'[b] == orders[b'];
    }
  }

  /** A missing id is a 404 and changes nothing. Otherwise exactly that
      order leaves the table: no remaining order has the id, every other
      order stays, and the table keeps its keys. */
  lemma DeleteRules(orders: seq<Order>, id: int)
    requires TableInvariant(orders)
    ensures var (r, orders') := Delete(orders, id);
      && ((forall o :: o in orders ==> o.id != id) <==> r.Err?)
      && (r.Err? ==> r.error == OrderNotFound && orders' == orders)
      && (r.Ok? ==> r.value == DeletedMessage && |orders'| == |orders| - 1)
      && (forall o :: o in orders' <==> o in orders && o.id != id)
      && TableInvariant(orders')
  {
    var i := IndexOfId(orders, id);
    if i.Some? {
      RemovedRow(orders, i.value);
      RemovedRowKeepsInvariant(orders, i.value);
    }
  }

  // ---- search_orders_by_patient ----

  /** `ilike('%q%')` on a nullable column, for a truthy `q`: a `NULL`
      column never matches. */
  predicate NameHit(column: Option<string>, q: Option<string>) {
    !Truthy(q) || (column.Some? && Contains(Lower(column.value), Lower(q.value)))
  }

  predicate SearchHit(o: Order, firstName: Option<string>, lastName: Option<string>) {
    NameHit(o.firstName, firstName) && NameHit(o.lastName, lastName)
  }

  /** `search_orders_by_patient`: the matching orders, newest first, and
      their count. */
  function Search(orders: seq<Order>, firstName: Option<string>, lastName: Option<string>)
    : Result<(seq<Order>, nat), HttpError>
  {
    if !Truthy(firstName) && !Truthy(lastName) then Err(NoPatientName)
    else
      var hits := NewestFirst(Filter(orders, (o: Order) => SearchHit(o, firstName, lastName)));
      Ok((hits, |hits|))
  }

  /** The search is refused iff neither name is truthy. Otherwise it returns
      exactly the orders whose names contain each name given, ignoring case,
      and the count is the number returned. */
  lemma SearchRules(orders: seq<Order>, firstName: Option<string>, lastName: Option<string>)
    ensures Search(orders, firstName, lastName).Err? <==> !Truthy(firstName) && !Truthy(lastName)
    ensures Search(orders, firstName, lastName).Err? ==> Search(orders, firstName, lastName).error == NoPatientName
    ensures Search(orders, firstName, lastName).Ok? ==>
      var (hits, count) := Search(orders, firstName, lastName).value;
      && count == |hits|
      && (forall o :: o in hits <==> o in orders && SearchHit(o, firstName, lastName))
  {
    if Truthy(firstName) || Truthy(lastName) {
      var matches := Filter(orders, (o: Order) => SearchHit(o, firstName, lastName));
      var hits := NewestFirst(matches);
      forall o ensures o in hits <==> o in matches {
        if o in hits {
          var k :| 0 <= k < |hits| && hits[k] == o;
          assert matches[|matches| - 1 - k] == o;
        }
        if o in matches {
          var k :| 0 <= k < |matches| && matches[k] == o;
          assert hits[|matches| - 1 - k] == o;
        }
      }
    }
  }

  // ---- the table behind the session ----

  /** The `setattr` loop of `update_order` over the sent items; `nulled`
      records whether a required column was set to `null`. */
  method ApplyOrderItems(o: Order, items: seq<OrderItem>) returns (row: Order, nulled: bool)
    ensures row == ApplyItems(o, items)
    ensures nulled == NullsRequired(items)
  {
    row := o;
    nulled := false;
    var k := 0;
    while k < |items|
      invariant 0 <= k <= |items|
      invariant ApplyItems(row, items[k..]) == ApplyItems(o, items)
      invariant nulled <==> NullsRequired(items[..k])
    {
      var item := items[k];
      if item.TextItem? && Required(item.field) && item.text.None? {
        nulled := true;
      }
      assert items[k..][1..] == items[k + 1..];
      assert items[..k + 1] == items[..k] + [item];
      row := SetAttr(row, item);
      k := k + 1;
    }
    assert items[..k] == items;
  }

  /** The `orders` table as the endpoints change it. */
  class OrderTable {
    var orders: seq<Order>

    ghost predicate Valid()
      reads this
    {
      TableInvariant(orders)
    }

    constructor (rows: seq<Order>)
      requires TableInvariant(rows)
      ensures orders == rows && Valid()
    {
      orders := rows;
    }

    method CreateOrder(f: OrderFields, now: Instant) returns (r: Result<Order, HttpError>)
      requires Valid()
      modifies this
      ensures (r, orders) == Create(old(orders), f, now)
      ensures Valid()
    {
      CreateRules(orders, f, now);
      if FirstWhere(orders, (o: Order) => o.orderNumber == f.orderNumber).Some? {
        return Err(Duplicate(f.orderNumber));
      }
      var row := Order(NextId(orders), f.orderNumber, f.firstName, f.lastName, f.dateOfBirth,
                       f.orderType, StatusOrDefault(f.status), f.totalAmount, f.notes, now, None);
      orders := orders + [row];
      r := Ok(row);
    }

    method UpdateOrder(id: int, p: OrderPatch, now: Instant) returns (r: Result<Order, HttpError>)
      requires Valid()
      modifies this
      ensures (r, orders) == Update(old(orders), id, p, now)
      ensures Valid()
    {
      UpdateKeepsInvariant(orders, id, p, now);
      var i := IndexOfId(orders, id);
      if i.None? {
        return Err(OrderNotFound);
      }
      var o := orders[i.value];
      if ChangesNumber(p, o)
         && FirstWhere(orders, (x: Order) => x.orderNumber == p.orderNumber.value.value && x.id != id).Some? {
        return Err(Duplicate(p.orderNumber.value.value));
      }
      var row, nulled := ApplyOrderItems(o, SetItems(p));
      if nulled {
        return Err(UpdateFailed);
      }
      if row != o {
        row := row.(updatedAt := Some(now));
      }
      var committed := orders[i.value := row];
      if !UniqueNumbers(committed) {
        return Err(UpdateFailed);
      }
      orders := committed;
      r := Ok(row);
    }

    method DeleteOrder(id: int) returns (r: Result<string, HttpError>)
      requires Valid()
      modifies this
      ensures (r, orders) == Delete(old(orders), id)
      ensures Valid()
    {
      DeleteRules(orders, id);
      var i := IndexOfId(orders, id);
      if i.None? {
        return Err(OrderNotFound);
      }
      orders := orders[..i.value] + orders[i.value + 1..];
      r := Ok(DeletedMessage);
    }
  }
}
