/** The checkout page: a two-step form (shipping address, then payment)
    that ends in a terminal "order placed" state. */
module Checkout {
  import opened Wrappers
  import opened Text
  import opened Patterns
  import Cart

  /** The six free-text fields of the shipping address form. */
  datatype Address = Address(name: string, phone: string, address: string, city: string, state: string, pincode: string)

  datatype AddressField = NameField | PhoneField | AddressLineField | CityField | StateField | PincodeField

  const EMPTY_ADDRESS := Address("", "", "", "", "", "")

  function FieldOf(a: Address, f: AddressField): string {
    match f
    case NameField => a.name
    case PhoneField => a.phone
    case AddressLineField => a.address
    case CityField => a.city
    case StateField => a.state
    case PincodeField => a.pincode
  }

  /** `setAddress({ ...address, [key]: value })`: only the edited field changes. */
  function WithField(a: Address, f: AddressField, v: string): (b: Address)
    ensures FieldOf(b, f) == v
    ensures forall g :: g != f ==> FieldOf(b, g) == FieldOf(a, g)
  {
    match f
    case NameField => a.(name := v)
    case PhoneField => a.(phone := v)
    case AddressLineField => a.(address := v)
    case CityField => a.(city := v)
    case StateField => a.(state := v)
    case PincodeField => a.(pincode := v)
  }

  /** No value of the address object is falsy, i.e. none is the empty string. */
  predicate AddressComplete(a: Address) {
    a.name != "" && a.phone != "" && a.address != "" && a.city != "" && a.state != "" && a.pincode != ""
  }

  lemma AddressCompleteIff(a: Address)
    ensures AddressComplete(a) <==> forall f :: FieldOf(a, f) != ""
  {
    if !AddressComplete(a) {
      var f := if a.name == "" then NameField else if a.phone == "" then PhoneField
               else if a.address == "" then AddressLineField else if a.city == "" then CityField
               else if a.state == "" then StateField else PincodeField;
      assert FieldOf(a, f) == "";
    }
  }

  /** The `<select>` values `""`, `"card"`, `"upi"` and `"cod"`. */
  datatype PaymentMethod = Unselected | CardPayment | UpiPayment | CashOnDelivery

  /** The keys the payment inputs write into `paymentDetails`. */
  datatype DetailKey = CardNumber | Ifsc | HolderName | Expiry | Cvv | UpiId

  /** `paymentDetails`: the object of the entered payment fields. */
  type Details = map<DetailKey, string>

  /** The value under a key; an absent key reads as the empty string, which
      every check treats as missing. */
  function Detail(d: Details, k: DetailKey): string {
    if k in d then d[k] else ""
  }

  /** The inputs rendered for a method: five for the card, one for UPI, none otherwise. */
  predicate Renders(m: PaymentMethod, k: DetailKey) {
    match m
    case CardPayment => k != UpiId
    case UpiPayment => k == UpiId
    case _ => false
  }

  /** The value an input stores: the IFSC input upper-cases what is typed,
      so a stored IFSC holds no lower-case letter and is already its own
      upper-casing; every other input stores exactly what is typed. */
  function Stored(k: DetailKey, typed: string): (v: string)
    ensures |v| == |typed|
    ensures k == Ifsc ==> (forall i :: 0 <= i < |v| ==> !IsAsciiLower(v[i])) && ToUpper(v) == v
    ensures k != Ifsc ==> v == typed
  {
    if k == Ifsc then ToUpper(typed) else typed
  }

  /** The reason a payment submission is refused. */
  datatype PaymentError = NoMethodSelected | CardIncomplete | BadCardNumber | BadIfsc | BadCvv | BadUpi

  predicate CardComplete(d: Details) {
    Detail(d, CardNumber) != "" && Detail(d, Ifsc) != "" && Detail(d, HolderName) != ""
    && Detail(d, Expiry) != "" && Detail(d, Cvv) != ""
  }

  /** The checks of the payment step, in order; the first that fails is
      reported and `None` means the order may be placed. */
  function ValidatePayment(m: PaymentMethod, d: Details): (r: Option<PaymentError>)
    ensures r == Some(NoMethodSelected) <==> m == Unselected
    ensures m == CashOnDelivery ==> r == None
    ensures m == UpiPayment ==> (r == None <==> IsUpiId(Detail(d, UpiId))) && r != Some(CardIncomplete)
    ensures m == CardPayment ==>
              (r == None <==> CardComplete(d) && IsCardNumber(Detail(d, CardNumber))
                              && IsIfsc(Detail(d, Ifsc)) && IsCvv3(Detail(d, Cvv)))
    ensures r == Some(CardIncomplete) <==> m == CardPayment && !CardComplete(d)
    ensures r == Some(BadCardNumber) <==>
              m == CardPayment && CardComplete(d) && !IsCardNumber(Detail(d, CardNumber))
    ensures r == Some(BadIfsc) <==>
              m == CardPayment && CardComplete(d) && IsCardNumber(Detail(d, CardNumber)) && !IsIfsc(Detail(d, Ifsc))
    ensures r == Some(BadCvv) <==>
              m == CardPayment && CardComplete(d) && IsCardNumber(Detail(d, CardNumber)) && IsIfsc(Detail(d, Ifsc))
              && !IsCvv3(Detail(d, Cvv))
    ensures r == Some(BadUpi) <==> m == UpiPayment && !IsUpiId(Detail(d, UpiId))
  {
    match m
    case Unselected => Some(NoMethodSelected)
    case CardPayment =>
      if !CardComplete(d) then Some(CardIncomplete)
      else if !IsCardNumber(Detail(d, CardNumber)) then Some(BadCardNumber)
      else if !IsIfsc(Detail(d, Ifsc)) then Some(BadIfsc)
      else if !IsCvv3(Detail(d, Cvv)) then Some(BadCvv)
      else None
    case UpiPayment =>
      if Detail(d, UpiId) == "" || !IsUpiId(Detail(d, UpiId)) then Some(BadUpi) else None
    case CashOnDelivery => None
  }

  /** The expiry is only required to be present: its value is never checked. */
  lemma ExpiryOnlyPresence(d: Details, x: string)
    requires x != "" && Detail(d, Expiry) != ""
    ensures ValidatePayment(CardPayment, d[Expiry := x]) == ValidatePayment(CardPayment, d)
  {
    var e := d[Expiry := x];
    assert forall k :: k != Expiry ==> Detail(e, k) == Detail(d, k);
  }

  /** An IFSC code typed in lower case is stored as the code itself, so the
      IFSC check never refuses it. */
  lemma LowerCaseIfscAccepted(d: Details, code: string)
    requires IsIfsc(code)
    ensures Stored(Ifsc, ToLower(code)) == code
    ensures ValidatePayment(CardPayment, d[Ifsc := Stored(Ifsc, ToLower(code))]) != Some(BadIfsc)
  {
    var v := Stored(Ifsc, ToLower(code));
    forall k | 0 <= k < |code| ensures v[k] == code[k] {
      assert IsAsciiUpper(code[k]) || IsDigit(code[k]);
    }
    assert v == code;
    assert Detail(d[Ifsc := v], Ifsc) == code;
  }

  /** The page's own total, `cart.reduce((sum, item) => sum + item.price * item.quantity, 0)`.
      It has no defaults: one line without a price or a quantity makes the
      sum `NaN`, here `None`. When every line is complete it equals the cart
      page's total. */
  function OrderTotal(cart: seq<Cart.LineItem>): (r: Option<int>)
    ensures r.Some? <==> forall k :: 0 <= k < |cart| ==> cart[k].price.Some? && cart[k].quantity.Some?
    ensures r.Some? ==> r.value == Cart.Total(cart)
  {
    if cart == [] then Some(0)
    else
      var last := cart[|cart| - 1];
      match OrderTotal(cart[..|cart| - 1])
      case None => None
      case Some(sum) =>
        if last.price.Some? && last.quantity.Some? then Some(sum + last.price.value * last.quantity.value)
        else None
  }

  /** The order handed to the success page. The timestamp is not modelled. */
  datatype Order = Order(items: seq<Cart.LineItem>, total: Option<int>, address: Address,
                         paymentMethod: PaymentMethod, paymentDetails: Details)

  /** What the page shows. */
  datatype View = AddressForm | PaymentForm | OrderPlaced

  /** The user actions the page's forms accept. */
  datatype Event =
    | EditAddress(field: AddressField, value: string)
    | SubmitAddress
    | ChooseMethod(methodChosen: PaymentMethod)
    | EditDetail(key: DetailKey, typed: string)
    | SubmitOrder

  /** An action has a handler on screen: the address form's inputs and
      submit in the address step, the method selector, the inputs of the
      chosen method and the order submit in the payment step, and nothing
      once the order is placed. */
  predicate Accepts(v: View, m: PaymentMethod, ev: Event) {
    match ev
    case EditAddress(_, _) => v == AddressForm
    case SubmitAddress => v == AddressForm
    case ChooseMethod(_) => v == PaymentForm
    case EditDetail(k, _) => v == PaymentForm && Renders(m, k)
    case SubmitOrder => v == PaymentForm
  }

  class CheckoutPage {
    /** The cart context's contents as the page sees them. */
    var cart: seq<Cart.LineItem>
    var step: int
    var address: Address
    var paymentMethod: PaymentMethod
    var paymentDetails: Details
    var orderPlaced: bool
    /** The order passed on to the success page once placed. */
    var placedOrder: Option<Order>

    ghost predicate Valid()
      reads this
    {
      && (step == 1 || step == 2)
      && (step == 1 ==> paymentMethod == Unselected && paymentDetails == map[] && !orderPlaced)
      && (step == 2 ==> AddressComplete(address))
      && (forall k :: k in paymentDetails ==> Renders(paymentMethod, k))
      && (orderPlaced <==> placedOrder.Some?)
      && (orderPlaced ==> cart == [] && ValidatePayment(placedOrder.value.paymentMethod,
                                                        placedOrder.value.paymentDetails) == None
                          && AddressComplete(placedOrder.value.address))
    }

    /** The placed view is shown exactly when the order is placed; before
        that, step 1 is the address form and step 2 the payment form. */
    function View(): (v: View)
      reads this
      ensures v == OrderPlaced <==> orderPlaced
      ensures v == AddressForm <==> !orderPlaced && step == 1
    {
      if orderPlaced then OrderPlaced else if step == 1 then AddressForm else PaymentForm
    }

    /** A fresh page starts in the address step with every field empty. */
    constructor(cart: seq<Cart.LineItem>)
      ensures Valid() && View() == AddressForm
      ensures this.cart == cart && step == 1 && address == EMPTY_ADDRESS
      ensures paymentMethod == Unselected && paymentDetails == map[] && !orderPlaced && placedOrder == None
    {
      this.cart := cart;
      step := 1;
      address := EMPTY_ADDRESS;
      paymentMethod := Unselected;
      paymentDetails := map[];
      orderPlaced := false;
      placedOrder := None;
    }

    /** An address input's `onChange`. */
    method EditAddress(field: AddressField, value: string)
      requires Valid() && View() == AddressForm
      modifies this
      ensures Valid() && View() == AddressForm
      ensures address == WithField(old(address), field, value)
      ensures cart == old(cart) && step == old(step) && paymentMethod == old(paymentMethod)
      ensures paymentDetails == old(paymentDetails) && orderPlaced == old(orderPlaced)
      ensures placedOrder == old(placedOrder)
    {
      address := WithField(address, field, value);
    }

    /** `handleAddressSubmit`: on to the payment step only when all six fields are filled. */
    method HandleAddressSubmit() returns (accepted: bool)
      requires Valid() && View() == AddressForm
      modifies this
      ensures Valid()
      ensures accepted == AddressComplete(address)
      ensures step == if accepted then 2 else 1
      ensures View() == if accepted then PaymentForm else AddressForm
      ensures cart == old(cart) && address == old(address) && paymentMethod == old(paymentMethod)
      ensures paymentDetails == old(paymentDetails) && orderPlaced == old(orderPlaced)
      ensures placedOrder == old(placedOrder)
    {
      if !AddressComplete(address) {
        return false;
      }
      step := 2;
      return true;
    }

    /** The method selector's `onChange`: switching method discards every entered detail. */
    method ChooseMethod(m: PaymentMethod)
      requires Valid() && View() == PaymentForm
      modifies this
      ensures Valid() && View() == PaymentForm
      ensures paymentMethod == m && paymentDetails == map[]
      ensures cart == old(cart) && step == old(step) && address == old(address)
      ensures orderPlaced == old(orderPlaced) && placedOrder == old(placedOrder)
    {
      paymentMethod := m;
      paymentDetails := map[];
    }

    /** A payment input's `onChange`: stores one detail and keeps the others. */
    method EditDetail(k: DetailKey, typed: string)
      requires Valid() && View() == PaymentForm && Renders(paymentMethod, k)
      modifies this
      ensures Valid() && View() == PaymentForm
      ensures paymentDetails == old(paymentDetails)[k := Stored(k, typed)]
      ensures cart == old(cart) && step == old(step) && address == old(address)
      ensures paymentMethod == old(paymentMethod)
      ensures orderPlaced == old(orderPlaced) && placedOrder == old(placedOrder)
    {
      paymentDetails := paymentDetails[k := Stored(k, typed)];
    }

    /** `handleOrderSubmit`: a refusal changes nothing; an acceptance records
        the order from the cart as it was, then clears the cart and ends the flow. */
    method HandleOrderSubmit() returns (outcome: Option<PaymentError>)
      requires Valid() && View() == PaymentForm
      modifies this
      ensures Valid()
      ensures outcome == ValidatePayment(paymentMethod, paymentDetails)
      ensures outcome.Some? ==> View() == PaymentForm && cart == old(cart) && placedOrder == old(placedOrder)
      ensures outcome.None? ==>
                && View() == OrderPlaced && cart == []
                && placedOrder == Some(Order(old(cart), OrderTotal(old(cart)), address, paymentMethod, paymentDetails))
      ensures step == old(step) && address == old(address)
      ensures paymentMethod == old(paymentMethod) && paymentDetails == old(paymentDetails)
    {
      outcome := ValidatePayment(paymentMethod, paymentDetails);
      if outcome.Some? {
        return;
      }
      var orderData := Order(cart, OrderTotal(cart), address, paymentMethod, paymentDetails);
      cart := [];
      orderPlaced := true;
      placedOrder := Some(orderData);
    }

    /** One user action, delivered to the handler on screen if there is one.
        Placing the order is final: afterwards no action changes anything. */
    method Handle(ev: Event)
      requires Valid()
      modifies this
      ensures Valid()
      ensures !Accepts(old(View()), old(paymentMethod), ev) ==>
                cart == old(cart) && step == old(step) && address == old(address)
                && paymentMethod == old(paymentMethod) && paymentDetails == old(paymentDetails)
                && orderPlaced == old(orderPlaced) && placedOrder == old(placedOrder)
      ensures old(orderPlaced) ==> orderPlaced && placedOrder == old(placedOrder) && View() == OrderPlaced
      ensures old(step) <= step
    {
      if !Accepts(View(), paymentMethod, ev) {
        return;
      }
      match ev
      case EditAddress(f, v) => EditAddress(f, v);
      case SubmitAddress => var _ := HandleAddressSubmit();
      case ChooseMethod(m) => ChooseMethod(m);
      case EditDetail(k, v) => EditDetail(k, v);
      case SubmitOrder => var _ := HandleOrderSubmit();
    }
  }

  /** The end-to-end example: a cart of $10 x 2 and $5 x 1 paid cash on
      delivery is placed with total 25 and leaves the cart empty. */
  method CashOnDeliveryExample(a: Address)
    requires AddressComplete(a)
  {
    var items := [Cart.LineItem(1, None, Some(10), Some(2)), Cart.LineItem(2, None, Some(5), Some(1))];
    var page := new CheckoutPage(items);
    page.EditAddress(NameField, a.name);
    page.EditAddress(PhoneField, a.phone);
    page.EditAddress(AddressLineField, a.address);
    page.EditAddress(CityField, a.city);
    page.EditAddress(StateField, a.state);
    page.EditAddress(PincodeField, a.pincode);
    var accepted := page.HandleAddressSubmit();
    assert accepted;
    page.ChooseMethod(CashOnDelivery);
    var outcome := page.HandleOrderSubmit();
    assert outcome == None && page.cart == [] && page.View() == OrderPlaced;
    assert items[..1] == [items[0]] && items[..1][..0] == [];
    assert page.placedOrder.value.total == Some(25);
  }
}
