/** The Sales page: the transaction list filters and the "add sale" form
    (item lookup, stock check, price computation and form reset). */
module Sales {
  import opened Text
  import opened Seqs
  import opened Records

  // ---------------------------------------------------------------------
  // List filters.

  /** The search box, the status drop-down (`"all"` switches it off) and
      the date picker (`""` switches it off). */
  datatype Filters = Filters(search: string, status: string, date: string)

  const NoFilters := Filters("", "all", "")

  /** The search term occurs, ignoring ASCII case, in the transaction id,
      the item name or the customer name. */
  predicate MatchesSearch(t: Transaction, search: string) {
    var term := Lower(search);
    Includes(Lower(t.transactionId), term) ||
    Includes(Lower(t.itemName), term) ||
    Includes(Lower(t.customerName), term)
  }

  /** `t` passes every filter that is switched on.  `isoDay` maps a stored
      date to its `YYYY-MM-DD` day (`new Date(d).toISOString().split("T")[0]`). */
  predicate Passes(t: Transaction, f: Filters, isoDay: string -> string) {
    (f.search == "" || MatchesSearch(t, f.search)) &&
    (f.status == "all" || t.status == f.status) &&
    (f.date == "" || isoDay(t.transactionDate) == f.date)
  }

  /** One step of the chain: `s.filter(p)` when its control is set, `s`
      otherwise. */
  function FilterWhen(on: bool, s: seq<Transaction>, p: Transaction -> bool): (r: seq<Transaction>)
    ensures IsSubsequence(r, s)
    ensures forall t :: t in r ==> t in s && (on ==> p(t))
    ensures forall t :: t in s && (on ==> p(t)) ==> t in r
    ensures !on ==> r == s
  {
    if on then
      FilterIsSubsequence(s, p);
      Filter(s, p)
    else
      SubsequenceReflexive(s);
      s
  }

  /** A step is a single filter by "switched off, or `p`". */
  lemma FilterWhenIsFilter(on: bool, s: seq<Transaction>, p: Transaction -> bool, q: Transaction -> bool)
    requires forall t :: q(t) == (!on || p(t))
    ensures FilterWhen(on, s, p) == Filter(s, q)
  {
    if on {
      FilterExtensional(s, p, q);
    } else {
      FilterKeepsAll(s, q);
    }
  }

  /** Search, then status, then date; each step only when switched on. */
  function ApplyFilters(txs: seq<Transaction>, f: Filters, isoDay: string -> string): (r: seq<Transaction>)
    ensures IsSubsequence(r, txs)
    ensures forall i :: 0 <= i < |r| ==> Passes(r[i], f, isoDay)
    ensures forall i :: 0 <= i < |r| ==> f.search == "" || MatchesSearch(r[i], f.search)
    ensures forall i :: 0 <= i < |r| ==> f.status == "all" || r[i].status == f.status
    ensures forall i :: 0 <= i < |txs| && Passes(txs[i], f, isoDay) ==> txs[i] in r
    ensures f == NoFilters ==> r == txs
  {
    var bySearch := FilterWhen(f.search != "", txs, (t: Transaction) => MatchesSearch(t, f.search));
    var byStatus := FilterWhen(f.status != "all", bySearch, (t: Transaction) => t.status == f.status);
    var byDate := FilterWhen(f.date != "", byStatus, (t: Transaction) => isoDay(t.transactionDate) == f.date);
    SubsequenceTransitive(byStatus, bySearch, txs);
    SubsequenceTransitive(byDate, byStatus, txs);
    byDate
  }

  /** The three steps together are a single filter by `Passes`. */
  lemma ApplyFiltersIsOneFilter(txs: seq<Transaction>, f: Filters, isoDay: string -> string)
    ensures ApplyFilters(txs, f, isoDay) == Filter(txs, (t: Transaction) => Passes(t, f, isoDay))
  {
    var search := (t: Transaction) => f.search == "" || MatchesSearch(t, f.search);
    var status := (t: Transaction) => f.status == "all" || t.status == f.status;
    var date := (t: Transaction) => f.date == "" || isoDay(t.transactionDate) == f.date;
    var searchStatus := (t: Transaction) => search(t) && status(t);
    var bySearch := FilterWhen(f.search != "", txs, (t: Transaction) => MatchesSearch(t, f.search));
    var byStatus := FilterWhen(f.status != "all", bySearch, (t: Transaction) => t.status == f.status);
    FilterWhenIsFilter(f.search != "", txs, (t: Transaction) => MatchesSearch(t, f.search), search);
    FilterWhenIsFilter(f.status != "all", bySearch, (t: Transaction) => t.status == f.status, status);
    FilterFilter(txs, search, status, searchStatus);
    FilterWhenIsFilter(f.date != "", byStatus, (t: Transaction) => isoDay(t.transactionDate) == f.date, date);
    FilterFilter(txs, searchStatus, date, (t: Transaction) => Passes(t, f, isoDay));
  }

  // ---------------------------------------------------------------------
  // The "add sale" form.

  /** The modal's fields. */
  datatype SaleForm = SaleForm(
    sku: string,
    itemName: string,
    quantity: int,
    customerName: string,
    paymentMethod: string,
    transactionDate: string,
    totalPrice: real)

  /** The position `inventoryItems.find(item => item.SKU === sku)` stops at. */
  function FindIndex(items: seq<InventoryItem>, sku: string): (r: Option<nat>)
    ensures r.None? <==> forall i :: 0 <= i < |items| ==> items[i].sku != sku
    ensures r.Some? ==> r.value < |items| && items[r.value].sku == sku &&
                        forall i :: 0 <= i < r.value ==> items[i].sku != sku
  {
    if |items| == 0 then None
    else if items[0].sku == sku then Some(0)
    else match FindIndex(items[1..], sku)
      case None => None
      case Some(k) => Some(k + 1)
  }

  /** `inventoryItems.find(item => item.SKU === sku)`: the first item with
      that SKU. */
  function FindItem(items: seq<InventoryItem>, sku: string): (r: Option<InventoryItem>)
    ensures r.None? <==> forall i :: 0 <= i < |items| ==> items[i].sku != sku
    ensures r.Some? ==> r.value.sku == sku && r.value == items[FindIndex(items, sku).value]
  {
    match FindIndex(items, sku)
    case None => None
    case Some(k) => Some(items[k])
  }

  /** Why a sale is refused, checked in this order. */
  datatype AddError =
    | UnknownItem                    // "Please select a valid item"
    | InsufficientStock(available: int)
    | BlankCustomer                  // "Customer Name must not be empty."

  datatype AddOutcome = Rejected(error: AddError) | Accepted(sale: Transaction)

  /** `handleAddTransaction` up to the request: `id` stands for `uuidv4()`. */
  function AddTransaction(items: seq<InventoryItem>, form: SaleForm, id: string): (o: AddOutcome)
    ensures o == Rejected(UnknownItem) <==> FindItem(items, form.sku).None?
    ensures FindItem(items, form.sku).Some? ==>
              var item := FindItem(items, form.sku).value;
              (o.Rejected? && o.error.InsufficientStock? <==> form.quantity > item.quantity) &&
              (o == Rejected(BlankCustomer) <==> form.quantity <= item.quantity && IsBlank(form.customerName)) &&
              (o.Rejected? && o.error.InsufficientStock? ==> o.error.available == item.quantity)
    ensures o.Accepted? ==> FindItem(items, form.sku).Some?
    ensures o.Accepted? && FindItem(items, form.sku).Some? ==>
              var item := FindItem(items, form.sku).value;
              o.sale.totalPrice == item.sellingPrice * form.quantity as real &&
              o.sale.status == "pending" && o.sale.transactionId == id &&
              form.quantity <= item.quantity && !IsBlank(form.customerName)
    ensures o.Accepted? ==>
              o.sale.sku == form.sku && o.sale.itemName == form.itemName &&
              o.sale.quantity == form.quantity && o.sale.customerName == form.customerName &&
              o.sale.paymentMethod == form.paymentMethod && o.sale.transactionDate == form.transactionDate
  {
    match FindItem(items, form.sku)
    case None => Rejected(UnknownItem)
    case Some(item) => CheckStockAndCustomer(item, form, id)
  }

  /** The checks after the item is found: stock, then the customer name. */
  function CheckStockAndCustomer(item: InventoryItem, form: SaleForm, id: string): (o: AddOutcome)
    ensures o != Rejected(UnknownItem)
    ensures o.Rejected? && o.error.InsufficientStock? <==> form.quantity > item.quantity
    ensures o.Rejected? && o.error.InsufficientStock? ==> o.error.available == item.quantity
    ensures o == Rejected(BlankCustomer) <==> form.quantity <= item.quantity && IsBlank(form.customerName)
    ensures o.Accepted? <==> form.quantity <= item.quantity && !IsBlank(form.customerName)
    ensures o.Accepted? ==>
              o.sale == Transaction(id, form.sku, form.itemName, form.quantity, form.customerName,
                                    form.paymentMethod, form.transactionDate, "pending",
                                    item.sellingPrice * form.quantity as real)
  {
    if form.quantity > item.quantity then Rejected(InsufficientStock(item.quantity))
    else if IsBlank(form.customerName) then Rejected(BlankCustomer)
    else Accepted(Transaction(id, form.sku, form.itemName, form.quantity, form.customerName,
                              form.paymentMethod, form.transactionDate, "pending",
                              item.sellingPrice * form.quantity as real))
  }

  /** The form's displayed total is the selected item's price times the
      quantity (whenever the SKU names an item). */
  predicate TotalConsistent(items: seq<InventoryItem>, form: SaleForm) {
    FindItem(items, form.sku).Some? ==>
      form.totalPrice == FindItem(items, form.sku).value.sellingPrice * form.quantity as real
  }

  /** `handleItemSelect`: the SKU is stored; name and total follow the item
      when it exists. */
  function ItemSelect(items: seq<InventoryItem>, form: SaleForm, sku: string): (r: SaleForm)
    ensures r.sku == sku
    ensures r.quantity == form.quantity && r.customerName == form.customerName &&
            r.paymentMethod == form.paymentMethod && r.transactionDate == form.transactionDate
    ensures FindItem(items, sku).None? ==> r == form.(sku := sku)
    ensures FindItem(items, sku).Some? ==> r.itemName == FindItem(items, sku).value.itemName
    ensures TotalConsistent(items, r)
  {
    match FindItem(items, sku)
    case None => form.(sku := sku)
    case Some(item) =>
      form.(sku := sku, itemName := item.itemName, totalPrice := item.sellingPrice * form.quantity as real)
  }

  /** `handleQuantityChange`: the quantity is stored; the total follows it
      when the selected SKU names an item. */
  function QuantityChange(items: seq<InventoryItem>, form: SaleForm, quantity: int): (r: SaleForm)
    ensures r.quantity == quantity
    ensures FindItem(items, form.sku).None? ==> r == form.(quantity := quantity)
    ensures r.(totalPrice := form.totalPrice) == form.(quantity := quantity)
    ensures TotalConsistent(items, r)
  {
    match FindItem(items, form.sku)
    case None => form.(quantity := quantity)
    case Some(item) => form.(quantity := quantity, totalPrice := item.sellingPrice * quantity as real)
  }

  /** `resetFormFields`: `today` stands for today's ISO date. */
  function ResetForm(today: string): (r: SaleForm)
    ensures r.sku == "" && r.itemName == "" && r.customerName == ""
    ensures r.quantity == 1 && r.paymentMethod == "cash" && r.totalPrice == 0.0
    ensures r.transactionDate == today
  {
    SaleForm("", "", 1, "", "cash", today, 0.0)
  }

  /** Once the form went through either handler, the total shown is the
      total that would be recorded. */
  lemma AcceptedTotalMatchesForm(items: seq<InventoryItem>, form: SaleForm, id: string)
    requires TotalConsistent(items, form)
    requires AddTransaction(items, form, id).Accepted?
    ensures AddTransaction(items, form, id).sale.totalPrice == form.totalPrice
  {
  }

  /** A reset form is refused unless some item has an empty SKU. */
  lemma ResetFormRejected(items: seq<InventoryItem>, today: string, id: string)
    requires forall i :: 0 <= i < |items| ==> items[i].sku != ""
    ensures AddTransaction(items, ResetForm(today), id) == Rejected(UnknownItem)
  {
  }
}
