/** The "add item" form: field edits, the unsaved-changes flag, the
    non-negative check on submission, and leaving the page. */
module AddItem {
  import opened Text

  datatype Field =
    | ItemName | Sku | Quantity | CostPrice | SellingPrice | ReorderPoint | Description | ExpirationDate

  /** Every input holds the text typed into it. */
  datatype ItemForm = ItemForm(
    itemName: string,
    sku: string,
    quantity: string,
    costPrice: string,
    sellingPrice: string,
    reorderPoint: string,
    description: string,
    expirationDate: string)

  const EmptyForm := ItemForm("", "", "", "", "", "", "", "")

  function Get(form: ItemForm, field: Field): string {
    match field
    case ItemName => form.itemName
    case Sku => form.sku
    case Quantity => form.quantity
    case CostPrice => form.costPrice
    case SellingPrice => form.sellingPrice
    case ReorderPoint => form.reorderPoint
    case Description => form.description
    case ExpirationDate => form.expirationDate
  }

  datatype AddItemState = AddItemState(form: ItemForm, dirty: bool)

  /** `handleChange`: the named field takes the new text and the form is
      marked dirty. */
  function Change(s: AddItemState, field: Field, value: string): (r: AddItemState)
    ensures Get(r.form, field) == value
    ensures forall other: Field :: other != field ==> Get(r.form, other) == Get(s.form, other)
    ensures r.dirty
  {
    var f := s.form;
    var form := match field
      case ItemName => f.(itemName := value)
      case Sku => f.(sku := value)
      case Quantity => f.(quantity := value)
      case CostPrice => f.(costPrice := value)
      case SellingPrice => f.(sellingPrice := value)
      case ReorderPoint => f.(reorderPoint := value)
      case Description => f.(description := value)
      case ExpirationDate => f.(expirationDate := value);
    AddItemState(form, true)
  }

  /** Editing a field back to what it held leaves the form as it was (but
      still dirty). */
  lemma ChangeBack(s: AddItemState, field: Field, value: string)
    ensures Change(Change(s, field, value), field, Get(s.form, field)).form == s.form
  {
  }

  /** `Number(text) < 0`.  `toNumber` stands for JavaScript's `Number`
      conversion, `None` for NaN, and NaN is not negative. */
  predicate IsNegative(text: string, toNumber: string -> Option<real>) {
    toNumber(text).Some? && toNumber(text).value < 0.0
  }

  /** The four numeric inputs checked on submission. */
  predicate HasNegative(form: ItemForm, toNumber: string -> Option<real>) {
    IsNegative(form.quantity, toNumber) || IsNegative(form.reorderPoint, toNumber) ||
    IsNegative(form.costPrice, toNumber) || IsNegative(form.sellingPrice, toNumber)
  }

  /** What the server said to the POST, if it answered at all. */
  datatype PostReply = PostOk | PostRefused | NoAnswer

  datatype SubmitEffect =
    | NegativeAlert      // nothing is sent
    | AddedAndLeave      // "Item added successfully!" and back to the inventory
    | FailedAlert        // "Failed to add item."
    | NoEffect           // the request itself threw

  datatype SubmitResult = SubmitResult(state: AddItemState, effect: SubmitEffect)

  /** `handleSubmit`: a negative number stops everything; otherwise the
      flag is cleared before the request, whatever its outcome. */
  function Submit(s: AddItemState, toNumber: string -> Option<real>, reply: PostReply): (r: SubmitResult)
    ensures r.effect == NegativeAlert <==> HasNegative(s.form, toNumber)
    ensures r.effect == NegativeAlert ==> r.state == s
    ensures r.effect != NegativeAlert ==> r.state == AddItemState(s.form, false)
    ensures r.effect == AddedAndLeave <==> !HasNegative(s.form, toNumber) && reply == PostOk
    ensures r.effect == FailedAlert <==> !HasNegative(s.form, toNumber) && reply == PostRefused
    ensures r.effect == NoEffect <==> !HasNegative(s.form, toNumber) && reply == NoAnswer
    ensures r.state.form == s.form
  {
    if HasNegative(s.form, toNumber) then SubmitResult(s, NegativeAlert)
    else
      var next := AddItemState(s.form, false);
      match reply
      case PostOk => SubmitResult(next, AddedAndLeave)
      case PostRefused => SubmitResult(next, FailedAlert)
      case NoAnswer => SubmitResult(next, NoEffect)
  }

  /** The Cancel button: whether the "discard changes?" question is asked,
      and whether the page is left. */
  datatype CancelResult = CancelResult(asked: bool, leaves: bool)

  /** `!isDirty || window.confirm(...)`: the question is asked only when the
      form is dirty, and `confirmed` is the answer.  The browser's back
      navigation is guarded by the same test. */
  function Cancel(s: AddItemState, confirmed: bool): (r: CancelResult)
    ensures r.asked <==> s.dirty
    ensures r.leaves <==> !s.dirty || confirmed
  {
    if !s.dirty then CancelResult(false, true) else CancelResult(true, confirmed)
  }

  /** The browser's "leave page?" prompt on reload or close appears exactly
      when dirty. */
  predicate PromptOnUnload(s: AddItemState) {
    s.dirty
  }

  /** A fresh form can be left without a question; after any edit the
      question comes back until a submission passes the check. */
  lemma DirtyLifecycle(field: Field, value: string, toNumber: string -> Option<real>, reply: PostReply, confirmed: bool)
    ensures !PromptOnUnload(AddItemState(EmptyForm, false))
    ensures PromptOnUnload(Change(AddItemState(EmptyForm, false), field, value))
    ensures var edited := Change(AddItemState(EmptyForm, false), field, value);
            PromptOnUnload(Submit(edited, toNumber, reply).state) <==> HasNegative(edited.form, toNumber)
    ensures !Cancel(AddItemState(EmptyForm, false), confirmed).asked
    ensures Cancel(Change(AddItemState(EmptyForm, false), field, value), confirmed).asked
    ensures var edited := Change(AddItemState(EmptyForm, false), field, value);
            var submitted := Submit(edited, toNumber, reply);
            Cancel(submitted.state, confirmed).asked <==> HasNegative(edited.form, toNumber)
  {
  }
}
