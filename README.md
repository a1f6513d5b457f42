# A verified model of the wechecha inventory tracker

wechecha tracks the stock of a construction company. The stock is held at two
kinds of location: stores (warehouses run by a store manager) and sites
(projects run by a site engineer). Every stock movement is recorded in an
inventory ledger:

- a deduction for usage;
- a transfer between two locations;
- an approved request from a site;
- an approved assignment of stock to a site.

Every change is also written to an audit log. This project models the
backend's controllers and middleware and the frontend's client logic in Dafny,
and proves what they promise.

The model follows the structure of the program:

- `optional.dfy`, `js_text.dfy`: an `Option` type, and the JavaScript values
  the controllers read from a request. This covers JavaScript truthiness,
  `parseInt` (whitespace, sign, an `0x` prefix, the radix-10 form),
  `toLowerCase` on ASCII and substring search.
- `domain.dfy`: the records (users, roles, locations, products, inventory,
  requests, assignments, audit events) and the HTTP answers (status and body).
- `role_guards.dfy`, `access_control.dfy`, `query_helpers.dfy`: the role
  middleware and the location-scoped access middleware.
  `query_helpers.dfy` adds the helpers that narrow a list query to the
  locations the caller may see.
- `paging.dfy`: the page and limit arguments and the page count.
- `database.dfy`: the `Db` class. It holds the tables as maps, id counters and
  the audit event log. Each Prisma call becomes a method whose `ensures`
  states the whole new state. The database is well formed: every id is
  below its table's counter, (location, product) is unique among inventory
  records, and every record's location and product exist.
- `inventory_controller.dfy`, `request_controller.dfy`,
  `assignment_controller.dfy`, `product_controller.dfy`, `sku.dfy`,
  `site_controller.dfy`, `store_controller.dfy`, `location_lifecycle.dfy`,
  `dashboard_controller.dfy`: one module per controller.
  - Each handler is a method on the `Db`. It checks its input in the order
    the source does and answers the same status codes.
  - Two handlers have a defect (see Findings): `transferAsset` and
    `createProduct`. Each of their methods takes a `Revision`. With
    `AsWritten` it does what the source does, defect included. With
    `Corrected` it applies the fix. Both versions are proved.
  - It changes the tables as the source's transaction does, and the
    transaction is taken as atomic.
  - Its `ensures` ties the answer and the new state to the old state.
  - Each stock-moving handler is proved to keep the database well formed.
    It is also proved to change the sums of quantities in a scope (one
    product, one location, everything) by exactly what it moves.
  - The creation and update of stores and sites keep location names unique
    within each kind, and e-mail addresses unique.
- `api_client.dfy`, `inventory_table.dfy`, `action_modals.dfy`: the
  frontend's logic.
  - The API client covers the base URL, the per-role page access, the error
    handling (a 401 clears the session) and how a request is built.
  - The inventory table covers its search and tab filter and the actions each
    row offers.
  - The deduct and transfer dialogs cover what they show, what they send,
    and the list of destinations.

The design describes stock quantities as never negative. The code does not
keep that in two places:

- A transfer with a negative quantity is accepted (see Findings).
  `TransferAsset` with `AsWritten` accepts it, as the source does; with
  `Corrected` it refuses it.
- An approved request or assignment whose quantity was created negative.
  Creation accepts it, and the model keeps that.

The design also calls SKUs unique and increasing per category. The source's
generator can repeat a SKU after number 999 (see Findings). With `AsWritten`,
the model's `createProduct` then fails with 500, because the SKU column is
unique.

## Model

| member | source | states |
|---|---|---|
| RoleGuards.RoleGuard | backend/src/middleware/roleMiddleware.ts:19-67 | a guard passes exactly a caller whose role it admits; without a caller it answers 401, otherwise 403, and it logs nothing |
| RoleGuards.GuardsWithoutUser | backend/src/middleware/roleMiddleware.ts:20-22 | each of the four guards answers 401 when no caller is attached |
| RoleGuards.GuardsAdmit | backend/src/middleware/roleMiddleware.ts:24-64 | the roles each guard admits; a super admin passes every guard and the store or site guard implies the manager-or-engineer guard |
| AccessControl.AuthorizeLocationAccess | backend/src/middleware/accessControlMiddleware.ts:21-72 | the gate answers only 400, 401 or 403, and it writes a log entry exactly when it answers 403 |
| AccessControl.AuthorizeIsSound | backend/src/middleware/accessControlMiddleware.ts:34-67 | a request it passes that carries a non-zero target targets a location the caller may access |
| AccessControl.AuthorizeWithoutUser | backend/src/middleware/accessControlMiddleware.ts:25-27 | without a caller: 401 and no log entry |
| AccessControl.AuthorizeAdmin | backend/src/middleware/accessControlMiddleware.ts:30-32 | a super admin always passes |
| AccessControl.AuthorizeWithoutTarget | backend/src/middleware/accessControlMiddleware.ts:35-41 | no extracted target, or target 0, is passed to the handler |
| AccessControl.AuthorizeNegativeTarget | backend/src/middleware/accessControlMiddleware.ts:44-46 | a negative target is answered 400 for any caller but a super admin |
| AccessControl.AuthorizeDenied | backend/src/middleware/accessControlMiddleware.ts:49-64 | a refused target gives 403 plus one LOCATION_VIOLATION entry on `Location:<id>` |
| AccessControl.RequireLocationAssignment | backend/src/middleware/accessControlMiddleware.ts:78-116 | passes exactly a caller who is not a manager or engineer lacking a location |
| AccessControl.LocationAssignmentDenial | backend/src/middleware/accessControlMiddleware.ts:92-108 | only a manager or engineer with no location is refused, with 403 and one PERMISSION_VIOLATION entry on `LocationRequired` |
| QueryHelpers.MatchesAfterSet | backend/src/utils/queryHelpers.ts:38-41 | overriding one key of a filter (`{ ...baseWhere, key: v }`) keeps every other key's condition and replaces that key's |
| QueryHelpers.LocationScopedWhere | backend/src/utils/queryHelpers.ts:24-45 | the scoped filter keeps every key of the base filter other than `id` and `locationId` |
| QueryHelpers.ScopedWhereOfAdmin | backend/src/utils/queryHelpers.ts:26-28 | for a super admin the scoped filter selects exactly what the base filter selects |
| QueryHelpers.ScopedWhereFailsClosed | backend/src/utils/queryHelpers.ts:31-34 | a caller other than a super admin without a location matches no row (`id: -1`), and the base filter's other keys stay |
| QueryHelpers.ScopedWhereConfines | backend/src/utils/queryHelpers.ts:37-42 | a manager or engineer with a location matches exactly the rows at that location that the rest of the base filter matches; a `locationId` in the base is overridden |
| QueryHelpers.ScopedWhereOfUnknownRole | backend/src/utils/queryHelpers.ts:44-69 | a role outside the three known ones, with a location, gets the base filter unrestricted, although the access check denies it every location |
| QueryHelpers.ValidateLocationAccessIff | backend/src/utils/queryHelpers.ts:54-70 | access holds iff the caller is a super admin, or a manager or engineer whose truthy location is the target |
| QueryHelpers.ScopedWhereImpliesAccess | backend/src/utils/queryHelpers.ts:24-70 | for a known role, every row the scoped filter admits is at a location the access check grants |
| QueryHelpers.AccessibleLocationIds | backend/src/utils/queryHelpers.ts:78-90 | the accessible-id list is `null` (None) or has at most one element |
| QueryHelpers.AccessibleIdsAgreeWithAccess | backend/src/utils/queryHelpers.ts:54-90 | a location is accessible iff the list is `null` or contains it |
| QueryHelpers.FirstAccepted | backend/src/utils/queryHelpers.ts:98-139 | the scan over the sources finds an id iff some source is accepted |
| QueryHelpers.FirstParsed | backend/src/utils/queryHelpers.ts:98-139 | the id is found iff some source is truthy and parses |
| QueryHelpers.FirstAcceptedIsFirst | backend/src/utils/queryHelpers.ts:98-139 | the id found is the parse of one of the sources |
| QueryHelpers.FirstParsedIsFirst | backend/src/utils/queryHelpers.ts:98-139 | the id found is the parse of one truthy source |
| QueryHelpers.FirstOfSeven | backend/src/utils/queryHelpers.ts:100-138 | the scan over seven sources is the chain of seven checks in order |
| QueryHelpers.FirstAcceptedCons | backend/src/utils/queryHelpers.ts:100-103 | the first accepted source wins, and the scan otherwise goes on to the rest |
| QueryHelpers.ExtractIsFirstParsed | backend/src/utils/queryHelpers.ts:98-139 | `extractTargetLocationId` checks params.id, query.locationId, body.locationId, body.storeId, body.siteId, query.storeId and query.siteId, in that order |
| QueryHelpers.ExtractedIsParsed | backend/src/utils/queryHelpers.ts:98-139 | an extracted id is `parseInt` of one truthy source among the seven |
| QueryHelpers.ValidateIntegerId | backend/src/utils/queryHelpers.ts:149-155 | a validated id is at least 1 (otherwise the helper throws, modelled as None) |
| QueryHelpers.ValidateIntegerIdRoundTrip | backend/src/utils/queryHelpers.ts:149-155 | a number, or its decimal text, validates to itself when positive and is refused otherwise |
| JsText.ParseIntOfIntToString | backend/src/utils/queryHelpers.ts:150 | `parseInt` of an integer's decimal text gives the integer back, with or without radix 10 |
| JsText.ParseIntWithoutDigits | backend/src/utils/queryHelpers.ts:150-151 | a string without any digit parses to NaN |
| JsText.ParseIntReadsDigitPrefix | backend/src/utils/queryHelpers.ts:150 | `parseInt` reads the leading run of digits and ignores what follows |
| JsText.ContainsIffOccurs | backend/src/controllers/productController.ts:266-271 | `contains` holds iff the term occurs at some position |
| JsText.PadStart | backend/src/controllers/productController.ts:33 | `padStart` pads on the left with the fill character up to the width and keeps the string at its end |
| JsText.NatToString | backend/src/controllers/productController.ts:33 | the decimal rendering is all digits, reads back as the number and has no leading zero |
| Domain.ParseJsIsParseIntOfRender | backend/src/utils/queryHelpers.ts:150 | `parseInt(v)` of a request value, `undefined` included, is `parseInt` of its string form |
| Domain.Notices | backend/src/controllers/productController.ts:102-111 | one notification per recipient, in order, each with the given kind and link |
| Paging.IntOr | backend/src/controllers/productController.ts:248-249 | the value parsed by `parseInt` when that is a non-zero number, and the fallback otherwise |
| Paging.SkipRefusedIff | backend/src/controllers/productController.ts:248-250 | `skip = (page - 1) * limit` is negative exactly for a page below 1 with a positive limit or a page above 1 with a negative limit |
| Paging.CeilDivIsPageCount | backend/src/controllers/productController.ts:293 | `Math.ceil(total / limit)` is the least page count that holds every item, and it is 0 only for no items |
| ProductController.PendingIffAssignedByStaff | backend/src/controllers/productController.ts:55-71 | a new product awaits approval iff a caller other than the super admin gives a location, or the caller asks for that status; the ACTIVE and APPROVED defaults |
| ProductController.ManagerOrEngineer | backend/src/controllers/productController.ts:118 | the location's contact: the manager when truthy, otherwise the engineer |
| ProductController.CorrectedSkuIsFree | backend/src/controllers/productController.ts:8-34 | the corrected generator's SKU carries the category's prefix and belongs to no existing product, so the corrected handler never meets the SKU conflict |
| ProductController.CreateAfter999AsWritten | backend/src/controllers/productController.ts:20-85 | with SKUs 999 and 1000 of the category on file, the handler as written picks 1000 again, answers 500 and writes nothing |
| ProductController.CreateAfter999Corrected | backend/src/controllers/productController.ts:20-85 | in the same state the corrected handler writes the product with SKU number 1001 |
| ProductController.WrittenSku | backend/src/controllers/productController.ts:73-85 | a creation that writes the product stores the SKU it was given |
| ProductController.CreateKeepsSkusUnique | backend/src/controllers/productController.ts:73-85 | every creation keeps SKUs unique, whichever SKU the generator picks, because the insert refuses a taken one |
| ProductController.WithProductKeepsSkusUnique | backend/src/controllers/productController.ts:73-85 | writing a product whose SKU no product has keeps SKUs unique |
| ProductController.CreatedProductIsNew | backend/src/controllers/productController.ts:73-85 | once name, category and unit are present, the minimum stock parses and the SKU is free, the product is written under the next id with the SKU, the body's fields and defaults and its initial status; no other product changes |
| ProductController.WithProductAdds | backend/src/controllers/productController.ts:73-85 | inserting a product adds exactly the next id and keeps every other row |
| ProductController.CreatedRecord | backend/src/controllers/productController.ts:88-133 | once the product is written: with an existing location the product also gets one empty inventory record there plus the notifications, with 201; with a location that is missing or does not parse the product stays, no record is written and the answer is 500; without a location nothing more is written |
| ProductController.CreateRejectsEarly | backend/src/controllers/productController.ts:43-85 | a missing name, category or unit (400), or a minimum stock that does not parse or a SKU that is taken (500), writes nothing |
| ProductController.CreationNoticesReach | backend/src/controllers/productController.ts:99-130 | a pending product notifies super admins only (INFO); any other product notifies at most the location's manager, or failing that its engineer (SUCCESS) |
| ProductController.WithProductWellFormed | backend/src/controllers/productController.ts:73-85 | writing a product keeps the tables well formed |
| ProductController.WithEmptyRecordWellFormed | backend/src/controllers/productController.ts:90-96 | an empty record of the new product at an existing location keeps the tables well formed, and the (location, product) slot stays unique |
| ProductController.CreateOutcomeWellFormed | backend/src/controllers/productController.ts:38-138 | every outcome of a creation leaves the tables well formed |
| ProductController.CreateProduct | backend/src/controllers/productController.ts:38-138 | the handler leaves exactly the outcome `CreateOutcome` describes. The SKU comes from the as-written generator with `AsWritten`, or the corrected one with `Corrected` |
| ProductController.StockNewProduct | backend/src/controllers/productController.ts:88-131 | the empty record and the notifications of a product created at a location |
| ProductController.Recipients | backend/src/controllers/productController.ts:167-169 | the recipients are exactly the non-null manager-or-engineer contacts of the given locations |
| ProductController.Dedup | backend/src/controllers/productController.ts:172 | `[...new Set(xs)]` has the same members, no repeats and is no longer than the input |
| ProductController.DedupOfDistinct | backend/src/controllers/productController.ts:172 | a list without repeats is its own de-duplication |
| ProductController.RecordLocationsExist | backend/src/controllers/productController.ts:159-162 | every location of a product's inventory records exists |
| ProductController.DecisionRecipientsAreContacts | backend/src/controllers/productController.ts:156-184 | the users told of a decision are, each once, exactly the contacts of the locations holding a record of the product |
| ProductController.DecisionChangesOnlyStatus | backend/src/controllers/productController.ts:141-243 | only the super admin decides; a failed decision changes nothing; a decision changes that product's status alone and only appends notifications |
| ProductController.DecideProduct | backend/src/controllers/productController.ts:141-243 | the shared body of approve and reject: 400 for a bad id, 403 for a non-admin, 500 for a missing product, else the status and the notifications of `DecisionOutcome` |
| ProductController.ApproveProduct | backend/src/controllers/productController.ts:141-191 | APPROVED, SUCCESS notices linking to the store products page |
| ProductController.RejectProduct | backend/src/controllers/productController.ts:194-243 | REJECTED, WARNING notices linking to the pending tab |
| ProductController.SearchHolds | backend/src/controllers/productController.ts:266-272 | the search condition holds iff the term occurs in the name, the SKU or a present description |
| ProductController.ProductFilterSelects | backend/src/controllers/productController.ts:256-272 | the `where` of `getAllProducts` selects a product iff it is listed: the category, main category and status asked for, ACTIVE or APPROVED by default, and the search |
| ProductController.RowFilterSelects | backend/src/controllers/productController.ts:256-272 | the same over any row that shows the product's fields |
| ProductController.MatchesProductKeys | backend/src/controllers/productController.ts:256-272 | a filter with the keys `getAllProducts` sets holds iff each key's condition holds |
| ProductController.ProductWhereHas | backend/src/controllers/productController.ts:256-272 | the filter always has the status key and each given filter's key, with the condition the handler writes there, and never a NaN |
| ProductController.GetAllProducts | backend/src/controllers/productController.ts:246-300 | 500 with no rows exactly when the skip is negative; otherwise the products selected are exactly the listed ones; page and limit default to 1 and 20; the total and `totalPages = ceil(total / limit)` |
| ProductController.PatchedProperties | backend/src/controllers/productController.ts:346-358 | an update never changes the SKU, keeps a price or minimum stock given falsy, applying it twice is applying it once, and an empty body changes nothing |
| ProductController.UpdateProduct | backend/src/controllers/productController.ts:336-365 | 400 for a bad id; 500 for a missing product or an unparsable minimum stock, with no change; otherwise that row alone patched |
| ProductController.Deactivated | backend/src/controllers/productController.ts:378-381 | the soft delete sets INACTIVE and changes no other field |
| ProductController.DeleteProduct | backend/src/controllers/productController.ts:368-388 | 400 for a bad id, 500 for a missing product, else only that product's status becomes INACTIVE: the row and its inventory stay |
| Sku.CategoryCode | backend/src/controllers/productController.ts:9-17 | BLD, EQP, FIN, TLS and SFT for the five listed categories, and GEN exactly for any other |
| Sku.CodeIsCapitals | backend/src/controllers/productController.ts:9-17 | every code is three capital letters, so the SKU pattern's `[A-Z]+` reads it |
| Sku.UpperRun | backend/src/controllers/productController.ts:27 | `[A-Z]+` reads the longest run of capitals |
| Sku.MatchHere | backend/src/controllers/productController.ts:27 | a match of the pattern at a position captures a non-empty run of digits |
| Sku.SkuMatch | backend/src/controllers/productController.ts:27 | the leftmost match's capture group is a non-empty run of digits |
| Sku.SkuNumberIsParseInt | backend/src/controllers/productController.ts:29 | `parseInt` of the captured group is its decimal value |
| Sku.UpperRunStops | backend/src/controllers/productController.ts:27 | the capital run of a code followed by a non-capital is the code |
| Sku.MatchHereOfSku | backend/src/controllers/productController.ts:27 | the pattern matches `PRD-<code>-<digits>` at its start and captures the digits |
| Sku.MatchOfSku | backend/src/controllers/productController.ts:27 | the leftmost match of a generated SKU captures its number |
| Sku.SkuNumber | backend/src/controllers/productController.ts:33 | `padStart(3, '0')` of a number has at least three digits |
| Sku.SkuNumberValue | backend/src/controllers/productController.ts:33 | padding with zeros does not change the number |
| Sku.DecValueLeadingZeros | backend/src/controllers/productController.ts:33 | leading zeros do not change the value of a digit string |
| Sku.LexLessIrreflexive | backend/src/controllers/productController.ts:22 | the SKU order is irreflexive |
| Sku.LexLessTotal | backend/src/controllers/productController.ts:22 | the SKU order is total |
| Sku.LexLessTransitive | backend/src/controllers/productController.ts:22 | the SKU order is transitive |
| Sku.LexLessCommonPrefix | backend/src/controllers/productController.ts:21-22 | a common prefix does not change the order of two SKUs |
| Sku.LastWithPrefix | backend/src/controllers/productController.ts:20-23 | the last SKU is absent iff no SKU has the prefix; otherwise it is one with the prefix and no SKU with the prefix sorts after it |
| Sku.NextNumberAsWritten | backend/src/controllers/productController.ts:25-31 | the number the generator as written picks is at least 1 |
| Sku.LastOfTwo | backend/src/controllers/productController.ts:20-23 | of two SKUs of a prefix the greater is the last, in either order |
| Sku.NatToStringStep | backend/src/controllers/productController.ts:33 | `toString` of `10m + d` is that of `m` followed by the digit d |
| Sku.NatToStringHead | backend/src/controllers/productController.ts:33 | the rendering of `10m + d` is one character longer than that of `m` and starts with the same character |
| Sku.SkuOfParts | backend/src/controllers/productController.ts:27-33 | a generated SKU carries the prefix, its pattern captures the padded number, and that number reads back as n |
| Sku.SkuNumber1000 | backend/src/controllers/productController.ts:33 | number 1000 is written with four digits and starts with '1' |
| Sku.SkuNumber999 | backend/src/controllers/productController.ts:33 | number 999 is written with three digits and starts with '9' |
| Sku.ThousandSortsFirst | backend/src/controllers/productController.ts:22 | `PRD-<code>-1000` sorts before `PRD-<code>-999` |
| Sku.AsWrittenFollowsGreater | backend/src/controllers/productController.ts:20-33 | given two numbered SKUs of a category, the generator as written numbers the next SKU after the lexicographically greater one, in either list order |
| Sku.NextAfterGreater | backend/src/controllers/productController.ts:20-31 | the number as written is one more than the lexicographically greater SKU's number |
| Sku.CorrectedFollowsLarger | backend/src/controllers/productController.ts:20-33 | given two numbered SKUs, the corrected generator numbers the next SKU after the larger number |
| Sku.MaxOfTwoSkus | backend/src/controllers/productController.ts:20-31 | the greatest number of two SKUs of a code is the larger number |
| Sku.DuplicateSkuAfter999 | backend/src/controllers/productController.ts:20-33 | beside the SKUs numbered 999 and 1000, the generator as written hands out number 1000 again, a SKU that exists |
| Sku.CorrectedAfter999 | backend/src/controllers/productController.ts:20-33 | the corrected generator gives number 1001 there |
| Sku.MaxNumberIsMax | backend/src/controllers/productController.ts:20-30 | the greatest number bounds the number of every SKU of the prefix and is one of them, or 0 when there is none |
| Sku.MaxNumberOfNone | backend/src/controllers/productController.ts:25-26 | with no SKU of the prefix the greatest number is 0 |
| Sku.GeneratedSkuIsFresh | backend/src/controllers/productController.ts:8-34 | the corrected SKU carries the category's prefix and is never an existing SKU |
| Sku.SkuNumberOfDigit | backend/src/controllers/productController.ts:33 | a one-digit number is padded with two zeros |
| Sku.FirstNumbers | backend/src/controllers/productController.ts:25-26 | without SKUs of the code both generators pick number 1 |
| Sku.FirstSkuOfCategory | backend/src/controllers/productController.ts:25-33 | for a category without SKUs both generators give `PRD-<code>-001` |
| Sku.SkuOfOne | backend/src/controllers/productController.ts:33 | number 1 is written `001` |
| Sku.SkuNumberOne | backend/src/controllers/productController.ts:33 | `padStart` of 1 is `001` |
| Sku.SmallSkusInOrder | backend/src/controllers/productController.ts:22 | SKUs numbered below 10 sort as their numbers do |
| Sku.SeedSkuAsWritten | backend/prisma/seed.ts:154-167 | after the SKUs numbered 1 and 2 of the seed data, the generator as written gives number 3 |
| Sku.MaxOfTwo | backend/src/controllers/productController.ts:20-31 | of two numbered SKUs of a prefix the greater number is the greatest |
| Sku.SeedSkuCorrected | backend/prisma/seed.ts:154-167 | the corrected generator also gives number 3 on the seed data |
| Database.TotalAgree | backend/src/controllers/dashboardController.ts:21-24 | two tables whose records contribute the same quantities below an id have the same `_sum` |
| Database.TotalAfterWrite | backend/src/controllers/inventoryController.ts:43-46 | overwriting one record changes a sum by the new contribution minus the old one |
| Database.TotalAfterInsert | backend/src/controllers/productController.ts:90-96 | inserting a record at the next id adds its quantity to every sum whose scope covers it |
| Database.AddToSlotTotal | backend/src/controllers/inventoryRequestController.ts:182-208 | adding q at a slot, whether the record exists or is created, raises each sum covering the slot by q and no other sum |
| Database.AddToSlotKeepsIndex | backend/src/controllers/inventoryRequestController.ts:182-208 | adding at a slot keeps (locationId, productId) unique and ids below the counter, and leaves a record at the slot |
| Database.SameSlotsKeep | backend/src/controllers/inventoryController.ts:43-46 | an update that changes only quantities keeps every slot, the unique index and the foreign keys |
| Database.AddToSlotLinks | backend/src/controllers/inventoryRequestController.ts:182-208 | adding at an existing slot, or at one whose location and product exist, keeps every foreign key resolving |
| Database.SlotResolves | backend/src/controllers/inventoryRequestController.ts:182-191 | in a well-formed database an existing record's location and product exist |
| Database.Decided | backend/src/controllers/inventoryRequestController.ts:168-174 | deciding a request sets its status and its approver when one is known, and changes no other request or column |
| Database.AfterApprovalStock | backend/src/controllers/inventoryRequestController.ts:166-208 | an approval raises exactly the sums covering the request's slot, by the request's quantity |
| Database.AfterApprovalWellFormed | backend/src/controllers/inventoryRequestController.ts:166-208 | an approval keeps the database well formed and leaves a record at the request's slot |
| Database.AdminIdsAreTheAdmins | backend/src/controllers/productController.ts:102 | the admin list is strictly ascending and holds exactly the SUPER_ADMIN users |
| Database.InventoryRowFields | backend/src/controllers/dashboardController.ts:122-135 | the row a filter sees for an inventory record carries its id, location id and product id |
| Database.Skus | backend/src/controllers/productController.ts:20-23 | the SKU list holds the SKU of every product and nothing else |
| Database.RecordLocations | backend/src/controllers/productController.ts:157-168 | the locations listed are exactly those holding a record of the product |
| Database.FreshProductHasNoSlot | backend/src/controllers/productController.ts:88-96 | no record holds the product about to be created, so its first record takes a free slot |
| Database.EngineersDeactivated | backend/src/controllers/siteController.ts:324-332 | exactly the SITE_ENGINEER users of the location lose access; no user is added, removed or otherwise changed |
| Database.Db.FindSlot | backend/src/controllers/inventoryRequestController.ts:182-189 | returns a record at (locationId, productId), and none exactly when no record is there |
| Database.Db.SumQuantity | backend/src/controllers/siteController.ts:294-303 | returns the sum of the quantities in scope, 0 for none |
| Database.Db.AnyInventoryAt | backend/src/controllers/siteController.ts:252-266 | true exactly when some inventory record points at the location |
| Database.Db.SuperAdminIds | backend/src/controllers/productController.ts:102 | returns the SUPER_ADMIN ids in id order |
| Database.Db.Append | backend/src/controllers/inventoryController.ts:49-55 | appends the entries and changes no table |
| Database.Db.NotifyAdmins | backend/src/controllers/productController.ts:102-111 | appends one notification per super admin and changes no table |
| Database.Db.NameTaken | backend/src/controllers/storeController.ts:21-27 | true exactly when another location of the kind has the name |
| Database.Db.EmailTaken | backend/src/controllers/storeController.ts:35-41 | true exactly when some user has the e-mail address |
| Database.Db.Approve | backend/src/controllers/inventoryRequestController.ts:166-208 | the transaction leaves the tables as the approval function says and keeps them well formed |
| Database.Db.InsertRequest | backend/src/controllers/inventoryRequestController.ts:21-27 | inserts the request under the next id and changes nothing else |
| Database.Db.InsertProduct | backend/src/controllers/productController.ts:73-85 | inserts the product under the next id and changes nothing else |
| Database.Db.SetProduct | backend/src/controllers/productController.ts:346-358 | replaces one product row and changes nothing else |
| Database.Db.InsertRecord | backend/src/controllers/productController.ts:90-96 | inserts a record at a free slot whose keys resolve and changes nothing else |
| Database.Db.InsertUser | backend/src/controllers/storeController.ts:44-53 | inserts the user under the next id and changes nothing else |
| Database.Db.SetUser | backend/src/controllers/storeController.ts:74-77 | replaces one user row and changes nothing else |
| Database.Db.InsertLocation | backend/src/controllers/storeController.ts:57-69 | inserts the location under the next id and changes nothing else |
| Database.Db.SetLocation | backend/src/controllers/storeController.ts:221-229 | replaces one location row and changes nothing else |
| Database.Db.DeleteLocation | backend/src/controllers/storeController.ts:271 | removes a location no record points at and changes nothing else |
| Database.Db.AllSkus | backend/src/controllers/productController.ts:20-23 | returns the SKUs of every product in id order |
| Database.Db.ProductLocations | backend/src/controllers/productController.ts:157-168 | returns the locations of the product's records in record order |
| Database.Db.DeactivateEngineers | backend/src/controllers/siteController.ts:324-332 | the users table becomes the one with the location's engineers deactivated; the rest of the database is unchanged |
| Database.Db.AddQuantity | backend/src/controllers/inventoryController.ts:109-127 | adds q at the slot, creating the record when absent, and keeps the database well formed |
| InventoryController.TransferCheckAsWritten | backend/src/controllers/inventoryController.ts:95-99 | as written, the quantity moved (the given quantity, or 1 when it is falsy) is at most the source's stock, with no lower bound |
| InventoryController.TransferNegativeQuantityAsWritten | backend/src/controllers/inventoryController.ts:95-128 | as written, a source holding 3 accepts a transfer of -5, and the target record is created with a negative quantity |
| InventoryController.TransferCheck | backend/src/controllers/inventoryController.ts:95-99 | the corrected check accepts exactly a quantity between 1 and the stock (absent or 0 meaning 1) |
| InventoryController.TransferCheckAgreesOnPositive | backend/src/controllers/inventoryController.ts:95-99 | for absent or non-negative quantities the corrected check agrees with the code as written |
| InventoryController.ChecksDifferOnNegative | backend/src/controllers/inventoryController.ts:95-99 | the two checks differ exactly on a negative quantity no larger than the stock; the check as written then moves it and the corrected one refuses it |
| InventoryController.DecrementedTotal | backend/src/controllers/inventoryController.ts:43-46 | decrementing a record lowers by q exactly the sums that cover it |
| InventoryController.TransferConserves | backend/src/controllers/inventoryController.ts:101-129 | a transfer removes q from the source's scopes and adds q to the target slot's scopes |
| InventoryController.TransferConservesProduct | backend/src/controllers/inventoryController.ts:101-129 | a transfer leaves the product's total stock and the grand total unchanged |
| InventoryController.AdjustQuantity | backend/src/controllers/inventoryController.ts:9-63 | 400 without an id or a positive quantity, 404 for a missing record, 403 outside the user's location, 400 for insufficient stock; on success exactly the record's quantity drops by q, stays non-negative, and one audit entry is appended; any refusal changes nothing |
| InventoryController.TransferredStock | backend/src/controllers/inventoryController.ts:101-145 | a committed transfer conserves the product's total and the grand total, and moves q from the source location to a different target |
| InventoryController.TransferredWellFormed | backend/src/controllers/inventoryController.ts:101-145 | a transfer whose transaction does not throw keeps the database well formed |
| InventoryController.TransferAsset | backend/src/controllers/inventoryController.ts:66-153 | with `AsWritten` the quantity check is the source's, which passes a negative quantity; with `Corrected` it is the fixed one. 400 without an id or a target, 404, 403 and 400 as the guards order them, 500 when the target does not parse or the record it would create has no location; otherwise the tables become the transferred ones, and any refusal changes nothing |
| InventoryController.ApplyTransfer | backend/src/controllers/inventoryController.ts:101-145 | the transaction decrements the source, adds at the target slot and appends the audit entry |
| RequestController.NewRequest | backend/src/controllers/inventoryRequestController.ts:21-28 | a new request is PENDING without an approver and carries the parsed product, location, quantity and requester |
| RequestController.CreateRequest | backend/src/controllers/inventoryRequestController.ts:8-41 | 400 unless product, location and quantity are all truthy, then 401 without a caller id, 500 when a value does not parse or the product or location is missing; otherwise exactly one PENDING request is inserted under the next id, and any refusal changes nothing |
| RequestController.GetAllRequests | backend/src/controllers/inventoryRequestController.ts:44-91 | 500 with no rows exactly when the skip is negative; the filter has a status key exactly when one is given and a location key exactly for a manager or engineer with a location; it selects exactly the requests with that status and location; page, limit and page count follow the query |
| RequestController.RequestWhere | backend/src/controllers/inventoryRequestController.ts:52-60 | the filter holds the status when given and the caller's location when scoped, and nothing else |
| RequestController.RequestWhereSelects | backend/src/controllers/inventoryRequestController.ts:52-64 | the filter selects a request exactly when its status and location are the ones asked for |
| RequestController.GetRequestById | backend/src/controllers/inventoryRequestController.ts:94-129 | 400 for an unparsable id, 404 for a missing request, 403 exactly for a manager or engineer of another location, else 200 |
| RequestController.MayDecideIsAccess | backend/src/controllers/inventoryRequestController.ts:161 | for a manager or engineer the approval guard agrees with the location access check |
| RequestController.ApproveRequest | backend/src/controllers/inventoryRequestController.ts:133-221 | 400, 401, 404, 400 for a decided request, 403 outside the caller's location, 500 when the record it would create does not resolve; otherwise the request is APPROVED with the caller as approver and its quantity is added at its slot, and any refusal changes nothing |
| RequestController.ApprovalIsFinal | backend/src/controllers/inventoryRequestController.ts:156-158 | after an approval the request is APPROVED, so approving again is refused and stock is never added twice; no other request, location, product or user changes |
| RequestController.RejectRequest | backend/src/controllers/inventoryRequestController.ts:224-276 | the same guards as approval; on success only the request becomes REJECTED with the caller as approver, and inventory is never touched |
| RequestController.GetPendingRequestsForUser | backend/src/controllers/inventoryRequestController.ts:279-305 | nothing without a location; otherwise exactly the PENDING requests of the caller's location, oldest first |
| AssignmentController.CallerId | backend/src/controllers/assignmentController.ts:92 | the approver written is the caller's id when there is a caller, and nothing otherwise |
| AssignmentController.CreateAssignment | backend/src/controllers/assignmentController.ts:8-50 | 400 unless product, quantity and the caller's location are all truthy, 500 when a value does not parse or the product or location is missing; otherwise one PENDING request for the caller's own location is inserted and each super admin gets one INFO notification linking to the assignments page; a refusal changes nothing |
| AssignmentController.AssignmentNoticesReachAdmins | backend/src/controllers/assignmentController.ts:35-43 | every recipient is a super admin, every super admin is notified, and no one twice |
| AssignmentController.GetAssignments | backend/src/controllers/assignmentController.ts:53-85 | a caller who is not a super admin and has no location gets nothing; otherwise exactly the requests with the asked status and, for such a caller, of their own location |
| AssignmentController.ApproveAssignment | backend/src/controllers/assignmentController.ts:88-151 | 500 for an unparsable id, 400 for a missing or decided request, 500 when its slot does not resolve; otherwise the approval's tables plus one SUCCESS notice to the requester linking to their store or site dashboard; no location check, and a refusal changes nothing |
| AssignmentController.RejectAssignment | backend/src/controllers/assignmentController.ts:154-191 | 500, 400 as for approval, 500 for a missing product; otherwise only the request becomes REJECTED and one ERROR notice is appended; inventory is never touched |
| LocationLifecycle.NewStaff | backend/src/controllers/storeController.ts:44-53 | a hired person is active, has the kind's staff role and the body's e-mail, no location yet, and the default name when none is given |
| LocationLifecycle.NewLocation | backend/src/controllers/storeController.ts:57-68 | the new row has the name and kind, ACTIVE when no status is given, the body's region, description and address, and the staff id in the kind's column only |
| LocationLifecycle.CreateLocation | backend/src/controllers/storeController.ts:11-88 | the handler leaves exactly the answer and the tables the creation outcome defines |
| LocationLifecycle.HireAndPlace | backend/src/controllers/storeController.ts:29-81 | after the name check: hire (500 on a taken e-mail) or take the given staff id (500 when it does not parse, or names no user), then place the location |
| LocationLifecycle.Place | backend/src/controllers/storeController.ts:57-78 | inserts the location and links the staff member back to it |
| LocationLifecycle.CreateRejects | backend/src/controllers/storeController.ts:16-27 | a missing or taken name is a 400, a taken e-mail of the person to hire a 500, and no failed creation changes anything |
| LocationLifecycle.PlacedAdds | backend/src/controllers/storeController.ts:57-78 | a placement adds exactly the new row and links exactly the named staff member to it |
| LocationLifecycle.CreateLinks | backend/src/controllers/storeController.ts:29-81 | after a creation the location and its staff member point at each other, a hired person is the new user, and no other table changes |
| LocationLifecycle.CreateKeepsNamesUnique | backend/src/controllers/storeController.ts:21-27 | a creation keeps location names unique within each kind |
| LocationLifecycle.InsertKeepsNamesUnique | backend/src/controllers/storeController.ts:21-27 | inserting under a fresh id keeps names unique when the name is free for its kind |
| LocationLifecycle.PlacedKeepsEmailsUnique | backend/src/controllers/storeController.ts:74-77 | linking the staff member changes no e-mail |
| LocationLifecycle.WithStaffKeepsEmailsUnique | backend/src/controllers/storeController.ts:35-53 | hiring someone whose e-mail nobody has keeps e-mails unique |
| LocationLifecycle.CreateKeepsEmailsUnique | backend/src/controllers/storeController.ts:33-53 | a creation keeps e-mails unique |
| LocationLifecycle.UpdateLocation | backend/src/controllers/storeController.ts:191-241 | the handler leaves exactly the answer and the tables the update outcome defines: 400 for a NaN id, 404 for a missing location of the kind, 400 for a new name another location of the kind has, 500 for an unparsable staff id |
| LocationLifecycle.UpdateAt | backend/src/controllers/storeController.ts:202-233 | the update of the location whose id parsed |
| LocationLifecycle.UpdateTouchesOneRow | backend/src/controllers/storeController.ts:211-229 | an update writes only the location's row and keeps its id and kind; keeping the current name never conflicts |
| LocationLifecycle.UpdateKeepsNamesUnique | backend/src/controllers/storeController.ts:211-218 | an update with a non-empty name keeps names unique within each kind |
| LocationLifecycle.DeleteLocation | backend/src/controllers/storeController.ts:244-278 | 400 for a NaN id, 404 for a missing location of the kind, 400 while any record points at it, else it is removed |
| LocationLifecycle.DeleteBlockedByRecords | backend/src/controllers/storeController.ts:264-271 | a location with any record, even one of quantity 0, is not deleted; a deletion removes only that location and keeps the database well formed |
| LocationLifecycle.LocationFilterSelects | backend/src/controllers/storeController.ts:97-102 | the list filter selects a location exactly when it is of the kind and, for the kind's staff with a location, is that location |
| LocationLifecycle.ListLocations | backend/src/controllers/storeController.ts:91-131 | 500 with no rows exactly when the skip is negative; otherwise exactly the locations of the kind the caller may list; page, limit (default 10) and page count follow the query |
| LocationLifecycle.DetailGate | backend/src/controllers/storeController.ts:139-158 | the lookup runs exactly when the id parses, there is a caller and the access check admits them; only a 403 writes to the log |
| LocationLifecycle.DetailGateOrder | backend/src/controllers/storeController.ts:139-158 | 400, then 401, then 403 with one LOCATION_VIOLATION entry on the location's resource name |
| SiteController.CreateSite | backend/src/controllers/siteController.ts:11-85 | the creation outcome for kind SITE |
| SiteController.GetAllSites | backend/src/controllers/siteController.ts:88-128 | 500 exactly when the skip is negative; otherwise exactly the sites, or only their own site for a site engineer with one; paging as in the query |
| SiteController.SiteDetailShown | backend/src/controllers/siteController.ts:131-189 | a site is shown exactly to a caller the access check admits, and a finished one only to a super admin; only a refused access writes one log entry on `Site:<id>` |
| SiteController.GetSiteById | backend/src/controllers/siteController.ts:131-189 | the answer and the log entries of the site detail |
| SiteController.ShowSite | backend/src/controllers/siteController.ts:140-184 | the detail once the id has parsed |
| SiteController.UpdateSite | backend/src/controllers/siteController.ts:192-240 | the update outcome for kind SITE |
| SiteController.DeleteSite | backend/src/controllers/siteController.ts:243-275 | the deletion outcome for kind SITE |
| SiteController.FinishSite | backend/src/controllers/siteController.ts:283-346 | 400 for a NaN id or a location whose quantities add up to more than 0, 500 for a missing location; otherwise COMPLETED and its site engineers deactivated, in one step |
| SiteController.FinishRejects | backend/src/controllers/siteController.ts:288-311 | a refused finish changes nothing; a finish succeeds exactly when the id parses, no stock remains and the location exists |
| SiteController.FinishEffects | backend/src/controllers/siteController.ts:314-335 | a finish sets COMPLETED on that location only and deactivates exactly its site engineers, changing nothing else about any user or table |
| SiteController.FinishLeavesNoStock | backend/src/controllers/siteController.ts:303-311 | after a finish the location holds no stock |
| SiteController.FinishIdempotent | backend/src/controllers/siteController.ts:283-346 | finishing a finished site again succeeds and changes nothing |
| SiteController.FinishedSiteHidden | backend/src/controllers/siteController.ts:176-178 | once a site is finished only a super admin can see its details |
| SiteController.CompletedSiteHidden | backend/src/controllers/siteController.ts:176-178 | a COMPLETED site's details are refused to anyone but a super admin |
| StoreController.CreateStore | backend/src/controllers/storeController.ts:11-88 | the creation outcome for kind STORE |
| StoreController.GetAllStores | backend/src/controllers/storeController.ts:91-131 | 500 exactly when the skip is negative; otherwise exactly the stores, or only their own store for a store manager with one; paging as in the query |
| StoreController.StoreDetailShown | backend/src/controllers/storeController.ts:134-188 | a store is shown exactly to a caller the access check admits; 401 exactly without a caller; a 403 writes one LOCATION_VIOLATION entry on `Store:<id>` |
| StoreController.GetStoreById | backend/src/controllers/storeController.ts:134-188 | the answer and log entries of the store detail |
| StoreController.ShowStore | backend/src/controllers/storeController.ts:143-183 | the detail once the id has parsed |
| StoreController.GetStoreInventory | backend/src/controllers/storeController.ts:281-321 | behind the same gate, exactly the records at the id, changing nothing; a refusal writes only the gate's log entry |
| StoreController.StoreInventoryAt | backend/src/controllers/storeController.ts:290-316 | the records at the id once it has parsed |
| StoreController.UpdateStore | backend/src/controllers/storeController.ts:191-241 | the update outcome for kind STORE |
| StoreController.DeleteStore | backend/src/controllers/storeController.ts:244-278 | the deletion outcome for kind STORE |
| DashboardController.StatsCounts | backend/src/controllers/dashboardController.ts:9-42 | the store and site counts add up to the number of locations; the ACTIVE products and PENDING requests are bounded by their tables |
| DashboardController.StatsAfterApproval | backend/src/controllers/dashboardController.ts:9-42 | approving a pending request lowers the pending count by one and raises the total quantity by the request's quantity; the store, site and product counts stay |
| DashboardController.LocationsPartition | backend/src/controllers/dashboardController.ts:18-19 | every location is counted once, as a store or as a site |
| DashboardController.TotalOfNonNegative | backend/src/controllers/dashboardController.ts:21-24 | a sum over records none of which is negative is not negative |
| DashboardController.TotalOfEmpty | backend/src/controllers/dashboardController.ts:21-33 | the sum over no records is 0, as the null sum defaulted to 0 gives |
| DashboardController.StatsQuantity | backend/src/controllers/dashboardController.ts:21-33 | the summed quantity is not negative when no record is, and 0 with no records |
| DashboardController.OverviewIsAccess | backend/src/controllers/dashboardController.ts:45-72 | for the three known roles the overview holds exactly the records at the locations the access check grants; another role sees everything with a location and nothing without |
| DashboardController.ParamOf | backend/src/controllers/dashboardController.ts:94-106 | a query value counts as given exactly when truthy, and its parsed value is `parseInt` of it |
| DashboardController.ScopedRequest | backend/src/controllers/dashboardController.ts:94-101 | the location part of the filter constrains only the location id and the row id |
| DashboardController.ProductStage | backend/src/controllers/dashboardController.ts:104-106 | the product stage adds at most the product id |
| DashboardController.CategoryStage | backend/src/controllers/dashboardController.ts:108-110 | the category stage adds at most the product relation |
| DashboardController.FilterWhere | backend/src/controllers/dashboardController.ts:91-119 | for a manager or engineer with a location the filter pins the location id to theirs |
| DashboardController.ScopedSelects | backend/src/controllers/dashboardController.ts:94-101 | the location part selects exactly the admitted locations: the requested one for a super admin, always their own for a manager or engineer |
| DashboardController.ProductStageSelects | backend/src/controllers/dashboardController.ts:104-106 | the product stage keeps exactly the records of the parsed product |
| DashboardController.CategoryStageSelects | backend/src/controllers/dashboardController.ts:108-110 | the category stage keeps exactly the rows of the category |
| DashboardController.SearchStageSelects | backend/src/controllers/dashboardController.ts:113-119 | the search stage keeps exactly the rows the OR condition holds for |
| DashboardController.CategoryHolds | backend/src/controllers/dashboardController.ts:108-110 | the category condition holds for a record exactly when its product exists and has the category |
| DashboardController.SearchHolds | backend/src/controllers/dashboardController.ts:113-119 | the search holds exactly when the term occurs in the product's name or SKU or in the location's name |
| DashboardController.FilterSelects | backend/src/controllers/dashboardController.ts:91-137 | the filter selects exactly the wanted records: admitted location, product, category and search |
| DashboardController.StagesSelect | backend/src/controllers/dashboardController.ts:91-119 | the four stages, over any row showing the record's location and product, select by all four conditions |
| DashboardController.NaNAfterAdd | backend/src/controllers/dashboardController.ts:104-106 | adding a condition adds its NaN, if any |
| DashboardController.ScopedNaN | backend/src/controllers/dashboardController.ts:94-101 | the location part holds a NaN exactly when the requested id does not parse and the caller's own location does not replace it |
| DashboardController.FilterNaN | backend/src/controllers/dashboardController.ts:91-119 | the filter holds a NaN, and the query throws, exactly when the product id does not parse or the unreplaced requested id does not |
| DashboardController.GetFilteredInventory | backend/src/controllers/dashboardController.ts:75-153 | 500 exactly when the page, the limit or a filter value is NaN, or the skip is negative (`page=0` gives -50, since the default replaces only a missing page); otherwise exactly the wanted records and a pagination block with the parsed page and limit and the page count |
| DashboardController.FilteredStaysInScope | backend/src/controllers/dashboardController.ts:100-101 | whatever location is asked for, a manager or engineer only ever gets records of their own location |
| ApiClient.CanAccessLocation | frontend/lib/apiClient.ts:55-68 | no stored user is refused, a super admin admitted, a manager or engineer admitted exactly at their own location, any other role refused |
| ApiClient.CanAccessMirrorsServer | frontend/lib/apiClient.ts:55-68 | on every location id but 0 the client's check agrees with the server's; on 0 a manager assigned to 0 is admitted by the client and refused by the server |
| ApiClient.ApiBaseUrl | frontend/lib/apiClient.ts:10 | the configured URL, or `http://localhost:3001/api` when it is unset or empty |
| ApiClient.TrimTrailingSlash | frontend/lib/apiClient.ts:112 | exactly one trailing slash is removed, if there is one |
| ApiClient.TrimLeadingSlash | frontend/lib/apiClient.ts:113 | exactly one leading slash is removed, if there is one |
| ApiClient.RequestUrlJoins | frontend/lib/apiClient.ts:111-114 | the URL joins base and endpoint with exactly one slash in each of the four slash cases |
| ApiClient.RequestUrlIgnoresOneSlash | frontend/lib/apiClient.ts:111-114 | writing the optional slash on either side or both gives the same URL |
| ApiClient.RequestUrlOfDefault | frontend/lib/apiClient.ts:10-114 | the default base with `/products` gives `http://localhost:3001/api/products` |
| ApiClient.RequestHeaders | frontend/lib/apiClient.ts:103-109 | JSON content type always, a bearer token header exactly when a token is stored, nothing else |
| ApiClient.ErrorMessage | frontend/lib/apiClient.ts:83-91 | a 403 reports the body's message before its error, any other status its error before its message; the fixed text when neither is set; never empty |
| ApiClient.ErrorMessageChoice | frontend/lib/apiClient.ts:83-91 | the message is one of the body's texts or the fixed text, and a body with two different texts reads differently on a 403 |
| ApiClient.Session.HandleApiError | frontend/lib/apiClient.ts:73-92 | always throws the status with the chosen message; a 401 in a browser clears the token and user and goes to `/login`, anything else leaves the session alone |
| ApiClient.Resolve | frontend/lib/apiClient.ts:116-186 | a network TypeError is status 0, any other thrown error or a malformed JSON body 500 `Request failed`; a failed JSON reply goes through the error handler, a failed non-JSON reply keeps its status; data comes back exactly for a 2xx |
| ApiClient.ApiRequest | frontend/lib/apiClient.ts:97-187 | replies as the resolution says and clears the session exactly on a JSON 401 in a browser |
| ApiClient.OnlyUnauthorizedSignsOut | frontend/lib/apiClient.ts:74-81 | only a JSON 401 signs the user out; a 403 or a network failure does not |
| ApiClient.NetworkErrorNamesUrl | frontend/lib/apiClient.ts:172-177 | a network failure is status 0 and its message names the URL |
| InventoryTable.FilteredInventory | frontend/app/components/InventoryTable.tsx:22-33 | exactly the rows matching both the search and the tab, never more rows than given |
| InventoryTable.FilteredIsSubsequence | frontend/app/components/InventoryTable.tsx:22-33 | the filter keeps the rows' order |
| InventoryTable.SubsequenceSkips | frontend/app/components/InventoryTable.tsx:22 | a subsequence of the tail is one of the whole list |
| InventoryTable.SubsequenceDropsHead | frontend/app/components/InventoryTable.tsx:22 | dropping the first element keeps a subsequence |
| InventoryTable.EmptySearchShowsAll | frontend/app/components/InventoryTable.tsx:22-33 | an empty search on the all tab shows every row in order |
| InventoryTable.FilterIdempotent | frontend/app/components/InventoryTable.tsx:22-33 | filtering the filtered rows again changes nothing |
| InventoryTable.LowerCharIdempotent | frontend/app/components/InventoryTable.tsx:24-25 | lower-casing a character twice is lower-casing it once |
| InventoryTable.ToLowerIdempotent | frontend/app/components/InventoryTable.tsx:24-25 | lower-casing a string twice is lower-casing it once |
| InventoryTable.SearchIgnoresCase | frontend/app/components/InventoryTable.tsx:24-25 | the search ignores the case of the term |
| InventoryTable.TabsPartition | frontend/app/components/InventoryTable.tsx:27-30 | no row is on both the consumables and the fixed tab, and both are parts of the all tab |
| InventoryTable.OtherSpellingOnlyOnAll | frontend/app/components/InventoryTable.tsx:29-30 | a main category spelled `FIXED_ASSETS` appears on neither the fixed nor the consumables tab |
| InventoryTable.RowActions | frontend/app/components/InventoryTable.tsx:116-130 | Use/Deduct exactly for consumables, and Transfer last on every row |
| InventoryTable.TabActions | frontend/app/components/InventoryTable.tsx:116-130 | every row of the consumables tab can be deducted; no row of the fixed tab can, but each can be transferred |
| ActionModals.DeductModal | frontend/app/components/InventoryActionModals.tsx:19-58 | nothing renders when closed or without an item; otherwise the field's maximum is the stock and it starts at 1 |
| ActionModals.DeductPayload | frontend/app/components/InventoryActionModals.tsx:25-29 | the body carries the item's id, the entered quantity and the reason |
| ActionModals.DeductReachesServer | frontend/app/components/InventoryActionModals.tsx:53-63 | a deduction the form lets through passes the server's input and stock checks; an unparsable field is refused |
| ActionModals.TransferModal | frontend/app/components/InventoryActionModals.tsx:141-193 | nothing renders when closed or without an item; the quantity field shows exactly for items that are not fixed assets |
| ActionModals.TransferQuantity | frontend/app/components/InventoryActionModals.tsx:150 | a fixed asset sends 1, anything else `parseInt` of the field |
| ActionModals.TransferPayload | frontend/app/components/InventoryActionModals.tsx:147-152 | the body carries the item's id, the parsed target, the quantity and the reason |
| ActionModals.QuantityFieldMatchesPayload | frontend/app/components/InventoryActionModals.tsx:150-193 | the dialog asks for a quantity exactly when it sends the one entered |
| ActionModals.TransferMovesOnServer | frontend/app/components/InventoryActionModals.tsx:150 | a fixed asset, or an unparsable quantity, moves exactly one unit on the server when the source holds one, with the handler as written or corrected |
| ActionModals.Tagged | frontend/app/components/InventoryActionModals.tsx:131-132 | each listed place becomes a destination with the given type, in order |
| ActionModals.Except | frontend/app/components/InventoryActionModals.tsx:133 | the destinations other than the item's own location, and no others |
| ActionModals.DestinationsAre | frontend/app/components/InventoryActionModals.tsx:126-133 | a destination is offered exactly when it is a listed store or site other than the item's location; a list that did not come back counts as empty |
| ActionModals.ExceptKeepsStoresFirst | frontend/app/components/InventoryActionModals.tsx:133 | the filter keeps stores before sites |
| ActionModals.DestinationsStoresFirst | frontend/app/components/InventoryActionModals.tsx:130-133 | every store destination comes before every site destination |

## Left out

- Concurrency: each Prisma transaction is modelled as one atomic step. Two requests that interleave are not modelled.
- List ordering (`orderBy` on `createdAt` or `name`) and `skip`/`take` slices are not modelled. A list result is stated as the set of rows it holds. Request ids stand for creation order.
- `include`/`select` projections are not modelled. A result carries the record itself, not the joined shape.
- Enum validation and the database schema are not modelled. `schema.prisma` is not part of this model, so which foreign keys the database checks, and whether a delete cascades, is not known.
- Foreign keys checked on insert: an inventory row's location and product, and a request's product and location. A row whose key names a missing row fails with 500, and the transaction rolls back.
- LocationLifecycle.DeleteLocation: modelled as if no foreign key pointed at a location except from inventory rows. A store or site that requests still reference is removed with 200, and those requests keep a location id that no longer exists. With a required relation the database would instead refuse the delete with 500 or cascade it.
- LocationLifecycle.UpdateLocation: modelled as if the manager and engineer columns were not foreign keys. A staff id that names no user is stored with 200. Through the `manager`/`engineer` relation the update would fail with 500.
- Prices go through `parseFloat` in the source. The model keeps the raw value the body gave and does not model floating point.
- JSON `null` is not a separate value. A JavaScript number is an integer of unbounded size, so double-precision rounding is not modelled.
- Password hashing (bcrypt) and token signing (JWT) are not modelled. The authenticated caller is a plain input to each handler.
- Domain.Notices: a notification keeps its recipient, kind and link. It drops the `message` text the handlers build (productController.ts:107, 124, 179 and 231; assignmentController.ts:39, 139 and 179), since nothing the model proves depends on it.
- Sku.CategoryCode: the source looks the category up in a plain object, so `constructor`, `toString` and other prototype members do not fall back to `GEN`. The model maps every unlisted category to `GEN`.
- The SKU column is taken as unique, so inserting a duplicate SKU fails with 500 before anything is written.
- LocationLifecycle.UpdateKeepsNamesUnique: requires a non-empty new name. The source writes an empty name without the uniqueness check, and the invariant is not claimed for that case.
- `finishSite` does not check that the location is a site, and `getStoreInventory` does not check that the location is a store. Both are modelled as written.
- Updating a store or site does not relink its manager or engineer user. The model keeps that behaviour.
- Prisma refuses a negative `skip`, and the list handlers answer 500 for one. It accepts a negative `take` and counts rows from the end. Since slices are not modelled, a negative limit with a non-negative skip is answered with the rows the filter selects.
- `createRequest` and `createAssignment` accept a negative quantity. The model keeps that and proves nothing about the sign of stock after such a request is approved.
- `URLSearchParams` encoding, the `JSON.parse` in `getCurrentUser`, React state and effects, and console logging are not modelled.
- `toLowerCase` is modelled on ASCII letters only.
- The browser's form validation is modelled as the predicate `DeductSubmittable`. The absence of `window` during server rendering is the parameter `hasWindow`.
- The SKU examples are stated through `SkuOf(code, n)` rather than as literal strings.
- `getProductById`, the reports and PDF export, the auth controller, the notification controller, the audit logger's storage, the routes and the seed data are not modelled. The audit log is modelled as a sequence of appended events.

## Findings

| source | as written | input that shows it | evidently intended | confidence | as-written member | corrected member |
|---|---|---|---|---|---|---|
| backend/src/controllers/inventoryController.ts:95-99 | the quantity falls back to 1 only when it is falsy, and the only check is that stock is not below it, so a negative quantity passes | stock 3 at the source, quantity -5: the source's stock rises to 8 and the target gets -5 | refuse a quantity below 1 | not executed | InventoryController.TransferNegativeQuantityAsWritten, InventoryController.ChecksDifferOnNegative | InventoryController.TransferCheck, InventoryController.TransferCheckAgreesOnPositive |
| backend/src/controllers/productController.ts:20-33 | the next SKU number is one more than the number of the lexicographically largest SKU with the category's prefix | SKUs PRD-BLD-999 and PRD-BLD-1000 exist: PRD-BLD-999 sorts last, so the next SKU is PRD-BLD-1000, which already exists | one more than the numerically largest number | not executed | Sku.DuplicateSkuAfter999, ProductController.CreateAfter999AsWritten | Sku.GeneratedSkuIsFresh, ProductController.CreateAfter999Corrected |
