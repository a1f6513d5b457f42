/** The entities of the inventory tracker: authenticated callers, JavaScript
    request values, HTTP outcomes, the five tables' rows and the audit and
    notification entries the handlers append. */
module Domain {
  import opened Optional
  import opened JsText

  /** The user roles. `OtherRole` stands for any role string outside the three
      the helpers know, so that their deny-by-default branches are modelled. */
  datatype Role = SuperAdmin | StoreManager | SiteEngineer | OtherRole

  predicate IsManagerOrEngineer(r: Role) { r == StoreManager || r == SiteEngineer }

  /** The caller decoded from the token: `{ id, role, locationId? }`. */
  datatype AuthUser = AuthUser(id: int, role: Role, locationId: Option<int>)

  /** JavaScript truthiness of an optional number: absent and 0 are falsy. */
  predicate TruthyInt(o: Option<int>) { o.Some? && o.value != 0 }

  /** A value read from a request's params, query or JSON body. */
  datatype JsVal = Undefined | Str(s: string) | Num(n: int)

  /** JavaScript truthiness: `undefined`, `""` and `0` are falsy. */
  predicate Truthy(v: JsVal) {
    match v
    case Undefined => false
    case Str(s) => |s| > 0
    case Num(n) => n != 0
  }

  /** A text field of a request: None when it is absent. Truthy when non-empty. */
  predicate TruthyText(o: Option<string>) { o.Some? && |o.value| > 0 }

  /** `text || fallback`. */
  function TextOr(o: Option<string>, fallback: string): (r: string)
    ensures TruthyText(o) ==> r == o.value
    ensures !TruthyText(o) ==> r == fallback
  {
    if TruthyText(o) then o.value else fallback
  }

  /** `parseInt(v)`: the argument is first converted to a string, so a
      number reads back as itself (`ParseJsIsParseIntOfRender`). */
  function ParseJs(v: JsVal): Option<int> {
    match v
    case Undefined => None
    case Str(s) => ParseInt(s)
    case Num(n) => Some(n)
  }

  /** `parseInt(v, 10)`. */
  function ParseJs10(v: JsVal): Option<int> {
    match v
    case Undefined => None
    case Str(s) => ParseInt10(s)
    case Num(n) => Some(n)
  }

  /** `${v}` in a template literal. */
  function Render(v: JsVal): string {
    match v
    case Undefined => "undefined"
    case Str(s) => s
    case Num(n) => IntToString(n)
  }

  /** `v || fallback` for a value used as a string. */
  function OrString(v: JsVal, fallback: string): string {
    if Truthy(v) then Render(v) else fallback
  }

  /** `ParseJs` and `ParseJs10` are `parseInt` applied to the value's string
      form, `undefined` included. */
  lemma ParseJsIsParseIntOfRender(v: JsVal)
    ensures ParseJs(v) == ParseInt(Render(v))
    ensures ParseJs10(v) == ParseInt10(Render(v))
  {
    match v
    case Undefined => ParseIntWithoutDigits("undefined");
    case Str(s) =>
    case Num(n) => ParseIntOfIntToString(n);
  }

  /** The HTTP status a handler or gate answers with. */
  datatype Status = Ok | Created | BadRequest | Unauthorized | Forbidden | NotFound | ServerError

  /** Which version of a handler with a known defect runs: the code as it is
      written, or the code with the defect corrected. */
  datatype Revision = AsWritten | Corrected

  function HttpCode(s: Status): (code: int)
    ensures 200 <= code < 600
  {
    match s
    case Ok => 200
    case Created => 201
    case BadRequest => 400
    case Unauthorized => 401
    case Forbidden => 403
    case NotFound => 404
    case ServerError => 500
  }

  /** What a middleware does with a request: hand it on to the next handler,
      or answer it with a status after appending `log`. */
  datatype Gate = Next | Answer(status: Status, log: seq<Event>)

  datatype LocationType = Store | Site

  /** A row of the location table (stores and sites share it). */
  datatype Location = Location(
    name: string, kind: LocationType, status: string,
    region: Option<string>, description: Option<string>, address: Option<string>,
    managerId: Option<int>, engineerId: Option<int>)

  /** A row of the user table; the password hash is not modelled. */
  datatype User = User(email: string, name: string, role: Role, locationId: Option<int>, isActive: bool)

  /** The price as the body gave it: `price ? parseFloat(price) : 0`. */
  datatype Price = ZeroPrice | ParsedPrice(raw: JsVal)

  /** A row of the product table. */
  datatype Product = Product(
    name: string, sku: string, category: string, mainCategory: string, unit: string,
    description: Option<string>, price: Price, defaultMinStock: int, status: string)

  /** A row of the inventory table: the quantity of one product at one location. */
  datatype InventoryRecord = InventoryRecord(locationId: int, productId: int, quantity: int)

  datatype RequestStatus = Pending | Approved | Rejected

  function RequestStatusName(s: RequestStatus): string {
    match s
    case Pending => "PENDING"
    case Approved => "APPROVED"
    case Rejected => "REJECTED"
  }

  /** A row of the inventory-request table (also used for assignments). */
  datatype InventoryRequest = InventoryRequest(
    productId: int, locationId: int, quantity: int, requestedById: int,
    status: RequestStatus, approvedById: Option<int>)

  /** The security audit actions. */
  datatype AuditAction = AccessDenied | LocationViolation | UnauthorizedAttempt
                       | ParameterTampering | DataAccess | PermissionViolation

  datatype NoticeKind = Info | Success | Warning | Error

  /** An entry appended to the audit log or the notification table. */
  datatype Event =
    | SecurityLog(userId: int, action: AuditAction, resource: string, details: string)
    | ActivityLog(userId: int, activity: string, entityId: string, details: string)
    | Notice(recipient: int, kind: NoticeKind, link: string)

  /** One notification of the same kind and link per recipient, in order. */
  function Notices(recipients: seq<int>, kind: NoticeKind, link: string): (es: seq<Event>)
    ensures |es| == |recipients|
    ensures forall i :: 0 <= i < |es| ==> es[i] == Notice(recipients[i], kind, link)
  {
    if |recipients| == 0 then [] else [Notice(recipients[0], kind, link)] + Notices(recipients[1..], kind, link)
  }
}
