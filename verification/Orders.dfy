/** The order documents that clients send, as the server reads them.
  *
  * JSON text is not modelled. An absent string field reads as the empty string
  * (here `NoPlace`, `NoAction`, the name ""), an absent number reads as 0, and the
  * fields whose absence the code tests for are `Option`s.
  */
module Orders {

  datatype Option<+T> = None | Some(value: T)

  /** Largest value of the C++ `int` and of the SQL `INT` columns. */
  const MAX_INT := 0x7FFF_FFFF

  /** The `type` of a source or a destination. */
  datatype Place = NoPlace | Hub | Warehouse | External | OtherPlace

  /** The `type` of the action; `Request` stands for both accepted spellings. */
  datatype Verb = NoAction | Request | OtherAction

  datatype Source = Source(place: Place, location: Option<int>)

  datatype Destination = Destination(place: Place, location: int)

  /** `id` is `None` when the id is not a number. */
  datatype Product = Product(id: Option<int>, name: string, quantity: int)

  datatype Action = Action(verb: Verb, product: Option<Product>)

  datatype Info = Info(source: Source, destination: Option<Destination>, action: Option<Action>)

  datatype Order = Order(info: Option<Info>)
  {
    function Src(): Source {
      if info.Some? then info.value.source else Source(NoPlace, None)
    }

    function Dst(): Destination {
      if info.Some? && info.value.destination.Some? then info.value.destination.value else Destination(NoPlace, 0)
    }

    function Act(): Action {
      if info.Some? && info.value.action.Some? then info.value.action.value else Action(NoAction, None)
    }

    function Prod(): Product {
      if Act().product.Some? then Act().product.value else Product(None, "", 0)
    }

    /** The amount the order asks for; an order without a name or with a quantity below 1 asks for nothing. */
    function Wanted(product: string): nat {
      if Prod().name == product && product != "" && Prod().quantity > 0 then Prod().quantity else 0
    }
  }

  /** What arrives on a connection: text starting with '{', which may parse or not, or other text, with the
    * number it starts with. That number is 0 for the commands and the process id when a client announces itself.
    */
  datatype Message = Command(number: int) | Unparseable | Doc(order: Order)

  /** An order with every field present. */
  function FullOrder(source: Place, a: int, destination: Place, b: int, verb: Verb, id: Option<int>, name: string, quantity: int): Order {
    Order(Some(Info(Source(source, Some(a)), Some(Destination(destination, b)), Some(Action(verb, Some(Product(id, name, quantity)))))))
  }

  /** A request for 20 units of Water from warehouse 1 to a hub, for the lemmas that show a single input. */
  function WaterFor(hub: int): Order {
    FullOrder(Warehouse, 1, Hub, hub, Request, Some(2), "Water", 20)
  }
}
