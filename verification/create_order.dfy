/** The "create purchase order" form: the SKU field, the item-name lookup
    it drives, and the submitted payload. */
module CreateOrder {
  import opened Text

  /** The fields of an inventory item the form reads. */
  datatype StockItem = StockItem(sku: string, itemName: string, quantity: int)

  datatype OrderForm = OrderForm(name: string, sku: string, vendor: string, quantity: int)

  const EmptyForm := OrderForm("", "", "", 1)

  /** The SKU input's `onChange`: the typed text is stored in upper case. */
  function TypeSku(form: OrderForm, text: string): (r: OrderForm)
    ensures r.sku == Upper(text)
    ensures forall i :: 0 <= i < |r.sku| ==> !IsLowerLetter(r.sku[i])
    ensures r.(sku := form.sku) == form
  {
    form.(sku := Upper(text))
  }

  /** The first item whose upper-cased SKU equals `key`. */
  function FindBySku(items: seq<StockItem>, key: string): (r: Option<nat>)
    ensures r.None? <==> forall i :: 0 <= i < |items| ==> Upper(items[i].sku) != key
    ensures r.Some? ==> r.value < |items| && Upper(items[r.value].sku) == key &&
                        forall i :: 0 <= i < r.value ==> Upper(items[i].sku) != key
  {
    if |items| == 0 then None
    else if Upper(items[0].sku) == key then Some(0)
    else match FindBySku(items[1..], key)
      case None => None
      case Some(k) => Some(k + 1)
  }

  /** The SKU effect: for a non-empty SKU, the name of the first item whose
      upper-cased SKU equals the upper-cased, trimmed input; otherwise the
      name is left as it was. */
  function LookupName(form: OrderForm, items: seq<StockItem>): (r: OrderForm)
    ensures r.(name := form.name) == form
    ensures form.sku == "" ==> r == form
    ensures form.sku != "" && FindBySku(items, Trim(Upper(form.sku))).None? ==> r == form
    ensures form.sku != "" && FindBySku(items, Trim(Upper(form.sku))).Some? ==>
              var k := FindBySku(items, Trim(Upper(form.sku))).value;
              r.name == items[k].itemName && Upper(items[k].sku) == Trim(Upper(form.sku))
  {
    if form.sku == "" then form
    else match FindBySku(items, Trim(Upper(form.sku)))
      case None => form
      case Some(k) => form.(name := items[k].itemName)
  }

  /** Running the effect again changes nothing. */
  lemma LookupNameIdempotent(form: OrderForm, items: seq<StockItem>)
    ensures LookupName(LookupName(form, items), items) == LookupName(form, items)
  {
  }

  /** Typing a SKU that differs from an item's only in letter case finds
      that item (or an earlier one with the same upper-cased SKU). */
  lemma TypedSkuFindsItem(form: OrderForm, items: seq<StockItem>, text: string, j: int)
    requires 0 <= j < |items| && text != "" && Upper(text) == Upper(items[j].sku)
    requires Trim(Upper(text)) == Upper(text)
    ensures FindBySku(items, Trim(Upper(Upper(text)))).Some?
    ensures FindBySku(items, Trim(Upper(Upper(text)))).value <= j
    ensures LookupName(TypeSku(form, text), items).name ==
              items[FindBySku(items, Upper(text)).value].itemName
  {
    UpperIdempotent(text);
  }

  /** The JSON body of the request. */
  datatype Payload = Payload(name: string, sku: string, vendor: string, quantity: int)

  /** The SKU is sent upper-cased (not trimmed); the rest as typed. */
  function SubmitPayload(form: OrderForm): (r: Payload)
    ensures r.sku == Upper(form.sku)
    ensures forall i :: 0 <= i < |r.sku| ==> !IsLowerLetter(r.sku[i])
    ensures r.name == form.name && r.vendor == form.vendor && r.quantity == form.quantity
  {
    Payload(form.name, Upper(form.sku), form.vendor, form.quantity)
  }

  /** Upper-casing at submission adds nothing to a SKU typed into the form. */
  lemma PayloadSkuAsTyped(form: OrderForm, text: string)
    ensures SubmitPayload(TypeSku(form, text)).sku == TypeSku(form, text).sku
  {
    UpperIdempotent(text);
  }
}
