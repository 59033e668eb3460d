/** Shared vocabulary of the back end: identifiers, optional values, and the
    outcome of a request handler (a success value, or an HTTP failure status
    with the reason the handler gives). */
module Common {

  /** Row identifiers are uuid strings generated by the server. */
  type ProductId = string
  type CategoryId = string
  type UserId = string
  type StaffId = string
  type SaleId = string
  type SaleItemId = string

  /** An optional request field or nullable column. */
  datatype Option<+T> = None | Some(value: T) {
    function GetOr(default: T): T {
      match this
      case Some(v) => v
      case None => default
    }
  }

  /** The failure statuses the handlers answer with. */
  datatype Status = BadRequest | NotFound | ServerError

  function StatusCode(s: Status): (code: int)
    ensures 400 <= code < 600
  {
    match s
    case BadRequest => 400
    case NotFound => 404
    case ServerError => 500
  }

  /** Why a handler failed; each case stands for one message the handlers send. */
  datatype Reason =
    | ItemsRequired                                    // 'Items are required'
    | UserNotFound                                     // 'User not found'
    | ProductNotFound(productId: ProductId)            // 'Product <id> not found' / 'Product not found'
    | InsufficientStock(name: string, available: int)  // 'Insufficient stock for <name>. Available: <n>'
    | SaleNotFound                                     // 'Sale not found'
    | CategoryNotFound                                 // 'Category not found'
    | CategoryNameExists                               // 'Category name already exists'
    | CategoryHasProducts                              // 'Cannot delete category with existing products...'
    | ProductHasSales                                  // 'Cannot delete product with sales history...'
    | InvalidOperation                                 // 'Invalid operation. Use: add, subtract, or set'
    | UpdatesRequired                                  // 'Updates array is required'
    | EmailInUse                                       // 'Email already in use'
    | QueryRequired                                    // 'Search query is required'
    | StaffNotFound                                    // 'Staff not found'
    | IncorrectPassword                                // 'Current password is incorrect'

  /** What a handler sends back: a payload, or a failure status and its reason. */
  datatype Response<+T> = Ok(value: T) | Err(status: Status, reason: Reason)

  /** `q` occurs in `s` starting at position `i`. */
  predicate OccursAt(s: string, q: string, i: int) {
    0 <= i <= |s| - |q| && s[i..i + |q|] == q
  }

  /** `q` occurs in `s` as a contiguous piece (SQL `LIKE '%q%'`). */
  predicate Contains(s: string, q: string) {
    exists i | 0 <= i <= |s| - |q| :: OccursAt(s, q, i)
  }

  /** Character-wise lexicographic order on strings (`ORDER BY name`). */
  predicate StrLe(a: string, b: string) {
    if a == [] then true
    else if b == [] then false
    else if a[0] < b[0] then true
    else if a[0] > b[0] then false
    else StrLe(a[1..], b[1..])
  }

  lemma {:induction false} StrLeTotal(a: string, b: string)
    ensures StrLe(a, b) || StrLe(b, a)
  {
    if a != [] && b != [] && a[0] == b[0] {
      StrLeTotal(a[1..], b[1..]);
    }
  }

  lemma {:induction false} StrLeTransitive(a: string, b: string, c: string)
    requires StrLe(a, b) && StrLe(b, c)
    ensures StrLe(a, c)
  {
    if a != [] && b != [] && c != [] && a[0] == b[0] && b[0] == c[0] {
      StrLeTransitive(a[1..], b[1..], c[1..]);
    }
  }
}
