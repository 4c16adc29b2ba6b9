/** The limits every order must respect (src/common/orderValidation.cpp). */
module OrderValidation {
  import opened Orders

  const MIN_CRITICAL_HUB_QUANTITY := 20
  const MAX_CRITICAL_HUB_QUANTITY := 100
  const MIN_NONCRITICAL_HUB_QUANTITY := 50
  const MAX_CRITICAL_EXTERNAL_QUANTITY := 25
  const MIN_EXTERNAL_QUANTITY := 5

  const ERR_MISSING_GENERAL_INFO := 1001
  const ERR_MISSING_REQUIRED_FIELDS := 1002
  const ERR_INVALID_VALUES := 1003
  const ERR_INVALID_ACTION_TYPE := 1004
  const ERR_INVALID_QTY_HUB_CRIT := 1005
  const ERR_INVALID_QTY_HUB_NONCRIT := 1006
  const ERR_INVALID_QTY_EXT_CRIT := 1007
  const ERR_INVALID_QTY_EXT_ANY := 1008
  const ERR_UNKNOWN_CLIENT_TYPE := 1009

  const CRITICAL_PRODUCTS: map<string, bool> :=
    map["Water" := true, "Medicines" := true, "Meat" := false, "Weapons" := false, "Clothes" := false]

  /** `Crashed` is the exception of a lookup that nothing catches: it ends the process. */
  datatype Verdict = Accepted | Rejected(code: int) | Crashed

  function ValidateOrderLimits(o: Order): Verdict {
    if o.info.None? then
      Rejected(ERR_MISSING_GENERAL_INFO)
    else if o.info.value.destination.None? || o.info.value.action.None? || o.Act().product.None? then
      Rejected(ERR_MISSING_REQUIRED_FIELDS)
    else if o.Dst().place.NoPlace? || o.Act().verb.NoAction? || o.Prod().name == "" || o.Prod().quantity <= 0 then
      Rejected(ERR_INVALID_VALUES)
    else if !o.Act().verb.Request? then
      Rejected(ERR_INVALID_ACTION_TYPE)
    else if o.Prod().name !in CRITICAL_PRODUCTS then
      Crashed
    else
      CheckQuantity(o.Dst().place, CRITICAL_PRODUCTS[o.Prod().name], o.Prod().quantity)
  }

  function CheckQuantity(place: Place, critical: bool, quantity: int): Verdict {
    if place.Hub? then
      if critical && (quantity < MIN_CRITICAL_HUB_QUANTITY || quantity > MAX_CRITICAL_HUB_QUANTITY) then
        Rejected(ERR_INVALID_QTY_HUB_CRIT)
      else if !critical && quantity < MIN_NONCRITICAL_HUB_QUANTITY then
        Rejected(ERR_INVALID_QTY_HUB_NONCRIT)
      else
        Accepted
    else if place.External? then
      if critical && quantity > MAX_CRITICAL_EXTERNAL_QUANTITY then
        Rejected(ERR_INVALID_QTY_EXT_CRIT)
      else if quantity < MIN_EXTERNAL_QUANTITY then
        Rejected(ERR_INVALID_QTY_EXT_ANY)
      else
        Accepted
    else
      Rejected(ERR_UNKNOWN_CLIENT_TYPE)
  }

  /** The limits of the header: the least and, for critical products, the greatest quantity per destination. */
  function Least(place: Place, critical: bool): int {
    match place
    case Hub => if critical then 20 else 50
    case _ => 5
  }

  function Greatest(place: Place): int {
    match place
    case Hub => 100
    case _ => 25
  }

  /** An order the limits of the header allow. */
  predicate Admissible(o: Order) {
    && o.Act().verb.Request?
    && (o.Dst().place.Hub? || o.Dst().place.External?)
    && o.Prod().name in CRITICAL_PRODUCTS
    && var critical := CRITICAL_PRODUCTS[o.Prod().name];
    && Least(o.Dst().place, critical) <= o.Prod().quantity
    && (critical ==> o.Prod().quantity <= Greatest(o.Dst().place))
  }

  /** Every required field is there with a usable value, the action is a request, and the product is unknown. */
  predicate NamesUnknownProduct(o: Order) {
    && o.Act().verb.Request?
    && !o.Dst().place.NoPlace?
    && o.Prod().quantity > 0
    && o.Prod().name != ""
    && o.Prod().name !in CRITICAL_PRODUCTS
  }

  lemma ValidationMeetsLimits(o: Order)
    ensures ValidateOrderLimits(o).Accepted? <==> Admissible(o)
    ensures ValidateOrderLimits(o).Crashed? <==> NamesUnknownProduct(o)
    ensures Admissible(o) ==> o.Prod().quantity >= MIN_EXTERNAL_QUANTITY && o.Prod().name != ""
  {
    assert "" !in CRITICAL_PRODUCTS;
  }

  /** The limits product by product. Water and Medicines are critical: a hub orders 20 to 100 of them and an external
    * client 5 to 25. Meat, Weapons and Clothes are not: a hub orders 50 or more, an external client 5 or more. Any
    * other name in an otherwise usable request ends the process.
    */
  lemma LimitsByProduct(o: Order)
    ensures var (place, name, q) := (o.Dst().place, o.Prod().name, o.Prod().quantity);
            var (critical, plain) := (name in {"Water", "Medicines"}, name in {"Meat", "Weapons", "Clothes"});
            && (ValidateOrderLimits(o).Accepted? <==>
                  o.Act().verb == Verb.Request
                  && ((place == Hub && ((critical && 20 <= q <= 100) || (plain && 50 <= q)))
                      || (place == External && ((critical && 5 <= q <= 25) || (plain && 5 <= q)))))
            && (ValidateOrderLimits(o).Crashed? <==>
                  o.Act().verb == Verb.Request && place != NoPlace && q > 0 && name != "" && !critical && !plain)
  {
    ProductsAreKnown(o.Prod().name);
    ValidationMeetsLimits(o);
  }

  lemma ProductsAreKnown(name: string)
    ensures name in CRITICAL_PRODUCTS <==> name in {"Water", "Medicines", "Meat", "Weapons", "Clothes"}
    ensures name in {"Water", "Medicines"} ==> CRITICAL_PRODUCTS[name]
    ensures name in {"Meat", "Weapons", "Clothes"} ==> !CRITICAL_PRODUCTS[name]
  {
    assert "Water" != "Meat" && "Medicines" != "Meat" && "Water"[0] != "Clothes"[0];
  }

  /** Each code of the header, and the requests that get it. */
  lemma CodesByRule(o: Order)
    requires o.info.Some? && o.info.value.destination.Some? && o.Act().product.Some?
    ensures var (place, verb, name, q) := (o.Dst().place, o.Act().verb, o.Prod().name, o.Prod().quantity);
            var (critical, plain) := (name in {"Water", "Medicines"}, name in {"Meat", "Weapons", "Clothes"});
            var usable := place != NoPlace && verb != NoAction && name != "" && q > 0;
            var known := usable && verb == Verb.Request && (critical || plain);
            && (ValidateOrderLimits(o) == Rejected(1003) <==> !usable)
            && (ValidateOrderLimits(o) == Rejected(1004) <==> usable && verb != Verb.Request)
            && (ValidateOrderLimits(o) == Rejected(1005) <==> known && place == Hub && critical && !(20 <= q <= 100))
            && (ValidateOrderLimits(o) == Rejected(1006) <==> known && place == Hub && plain && q < 50)
            && (ValidateOrderLimits(o) == Rejected(1007) <==> known && place == External && critical && q > 25)
            && (ValidateOrderLimits(o) == Rejected(1008) <==> known && place == External && q < 5)
            && (ValidateOrderLimits(o) == Rejected(1009) <==> known && place != Hub && place != External)
  {
    ProductsAreKnown(o.Prod().name);
  }

  /** Missing parts have the codes 1001 and 1002. */
  lemma CodesOfMissingParts(o: Order)
    ensures ValidateOrderLimits(o) == Rejected(1001) <==> o.info.None?
    ensures ValidateOrderLimits(o) == Rejected(1002) <==>
              o.info.Some? && (o.info.value.destination.None? || o.info.value.action.None? || o.info.value.action.value.product.None?)
  {
  }

  /** The codes of three rejected requests: without `general_info`, with empty fields, and for an unknown kind of client. */
  lemma CodesOfRejectedRequests()
    ensures ValidateOrderLimits(Order(None)) == Rejected(1001)
    ensures ValidateOrderLimits(RequestFor(NoPlace, "", -10)) == Rejected(1003)
    ensures ValidateOrderLimits(RequestFor(OtherPlace, "Water", 10)) == Rejected(1009)
  {
    assert "Water" in CRITICAL_PRODUCTS;
  }

  function RequestFor(place: Place, product: string, quantity: int): Order {
    Order(Some(Info(Source(NoPlace, None), Some(Destination(place, 0)), Some(Action(Verb.Request, Some(Product(None, product, quantity)))))))
  }
}
