/** The records of the client's domain, as the API returns them. */
module Types {
  import opened Wrappers

  /** The five order states, in the order the type lists them. */
  datatype OrderStatus = Pending | Processing | Shipped | Delivered | Cancelled

  const AllStatuses: seq<OrderStatus> := [Pending, Processing, Shipped, Delivered, Cancelled]

  /** The wire spelling of each status. */
  function StatusName(s: OrderStatus): string {
    match s
    case Pending => "pending"
    case Processing => "processing"
    case Shipped => "shipped"
    case Delivered => "delivered"
    case Cancelled => "cancelled"
  }

  /** The enumeration lists every status, each once, and no two share a spelling. */
  lemma StatusEnumeration()
    ensures forall s: OrderStatus :: s in AllStatuses
    ensures forall i, j :: 0 <= i < j < |AllStatuses| ==> AllStatuses[i] != AllStatuses[j]
    ensures forall s, t :: StatusName(s) == StatusName(t) ==> s == t
  {
    forall s: OrderStatus ensures s in AllStatuses {
      match s
      case Pending => assert AllStatuses[0] == s;
      case Processing => assert AllStatuses[1] == s;
      case Shipped => assert AllStatuses[2] == s;
      case Delivered => assert AllStatuses[3] == s;
      case Cancelled => assert AllStatuses[4] == s;
    }
  }

  datatype User = User(
    id: string,
    email: string,
    firstName: string,
    lastName: string,
    createdAt: string,
    updatedAt: string)

  datatype Product = Product(
    id: string,
    name: string,
    description: string,
    price: real,
    stock: int,
    imageUrl: Option<string>,
    category: Option<string>)

  datatype OrderItem = OrderItem(
    id: string,
    orderId: string,
    productId: string,
    quantity: int,
    price: real,
    total: real,
    productName: Option<string>,
    product: Option<Product>)
}
