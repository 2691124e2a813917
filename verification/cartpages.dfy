/** Which cart controls the patient pharmacy page (app/patient/pharmacy/page.tsx)
    and lab-test page (app/patient/lab-tests/page.tsx) render for an item,
    and what clicking them can do to the cart. */
module CartPages {
  import opened Wrappers
  import opened Cart

  /** What an item's card offers: a disabled "Out of Stock" button, the
      minus/plus stepper, or the "Add to Cart" button (enabled or not). */
  datatype Control = OutOfStock | Stepper | AddButton(enabled: bool)

  /** The medicine fields the pharmacy page consults. */
  datatype Medicine = Medicine(inStock: bool, requiresPrescription: bool)

  /** A click on one item's control. */
  datatype Click = ClickAdd(id: int) | ClickPlus(id: int) | ClickMinus(id: int)

  /** JavaScript truthiness of `cart[id]`: present and non-zero. */
  predicate InCart(c: Cart, id: int)
  {
    id in c && c[id] != 0
  }

  /** The pharmacy card: out of stock first, then the stepper for an item
      already in the cart, else an add button that is disabled for
      prescription-only medicine. */
  function PharmacyControl(m: Medicine, c: Cart, id: int): (r: Control)
    ensures r == OutOfStock <==> !m.inStock
    ensures r == Stepper <==> m.inStock && InCart(c, id)
    ensures r.AddButton? ==> (r.enabled <==> !m.requiresPrescription)
  {
    if !m.inStock then OutOfStock
    else if InCart(c, id) then Stepper
    else AddButton(!m.requiresPrescription)
  }

  /** The lab-test card: the same stepper, and an add button that is never
      disabled. */
  function LabTestControl(c: Cart, id: int): (r: Control)
    ensures r != OutOfStock
    ensures r == Stepper <==> InCart(c, id)
    ensures r.AddButton? ==> r.enabled
  {
    if InCart(c, id) then Stepper else AddButton(true)
  }

  /** Whether a click hits a control the control table actually shows
      enabled; an unknown medicine has no card. */
  predicate Offered(meds: map<int, Medicine>, c: Cart, click: Click)
  {
    click.id in meds &&
    match PharmacyControl(meds[click.id], c, click.id)
    case OutOfStock => false
    case Stepper => !click.ClickAdd?
    case AddButton(enabled) => click.ClickAdd? && enabled
  }

  /** The cart after one click. */
  function Apply(c: Cart, click: Click): (d: Cart)
    ensures click.ClickMinus? ==> d == Remove(c, click.id)
    ensures !click.ClickMinus? ==> d == Add(c, click.id)
  {
    match click
    case ClickMinus(id) => Remove(c, id)
    case _ => Add(c, click.id)
  }

  /** The cart after a run of offered clicks, starting empty; `None` marks a
      run containing a click the page does not offer. */
  function Run(meds: map<int, Medicine>, clicks: seq<Click>): (r: Option<Cart>)
    decreases |clicks|
  {
    if clicks == [] then Some(map[])
    else
      match Run(meds, clicks[..|clicks| - 1])
      case None => None
      case Some(c) =>
        var last := clicks[|clicks| - 1];
        if Offered(meds, c, last) then Some(Apply(c, last)) else None
  }

  /** What can be in the pharmacy cart: known medicines in stock that need no
      prescription, each with a positive count. */
  predicate Admissible(meds: map<int, Medicine>, c: Cart)
  {
    Valid(c) && forall k :: k in c ==> k in meds && meds[k].inStock && !meds[k].requiresPrescription
  }

  /** Whatever the patient clicks, the pharmacy cart never holds a
      prescription-only or out-of-stock medicine. */
  lemma {:induction false} RunAdmissible(meds: map<int, Medicine>, clicks: seq<Click>)
    requires Run(meds, clicks).Some?
    ensures Admissible(meds, Run(meds, clicks).value)
    decreases |clicks|
  {
    if clicks != [] {
      var prefix := clicks[..|clicks| - 1];
      RunAdmissible(meds, prefix);
      var c := Run(meds, prefix).value;
      var last := clicks[|clicks| - 1];
      assert Offered(meds, c, last);
      if !last.ClickMinus? {
        assert last.id in meds && meds[last.id].inStock;
        assert last.ClickAdd? ==> !meds[last.id].requiresPrescription;
        assert last.ClickPlus? ==> InCart(c, last.id);
      }
    }
  }

  /** On the lab-test page every test can be put in the cart with one click. */
  lemma LabTestAlwaysAddable(c: Cart, id: int)
    requires Valid(c)
    ensures LabTestControl(c, id) == Stepper || LabTestControl(c, id) == AddButton(true)
    ensures Total(Add(c, id)) == Total(c) + 1
  {
    TotalAfterAdd(c, id);
  }
}
