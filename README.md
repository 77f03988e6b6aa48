# Key store order workflow, in Dafny

A model of the order and inventory workflow of a small digital-goods store
(an Express server, `server.js`). A customer buys a product. The order waits in
a `pending` list. An administrator then either verifies it or cancels it.
Verifying takes the first `qty` keys off the product's key list, first in first out.
It then files the order under `delivered[orderId]` with those keys attached.
Cancelling moves the order to the end of a `canceled` list and touches no key.

The two JSON documents the handlers read and rewrite whole are the fields of the class `Shop.Shop`:

- the inventory, a map from product id to product, with the enumeration order of the inventory object (the order `Object.values` walks) kept in `productIds`;
- the orders: `pending`, `delivered` and an optional `canceled`.

The handler bodies become methods (`Buy`, `Verify` with its commit step in `Deliver`
and its allocation loop in `Allocate`, `Cancel`) and the product listing is a function (`Products`, built on
`Catalog.Listing`). Replies are `Ok`, `BadRequest(message)`, `NotFound`
and `NotEnoughStock`, each mapped to its HTTP status.

Files:

- `wrappers.dfy`: `Option`, with `GetOr` standing for JavaScript's `x || default`.
- `catalog.dfy`: products, the listing, taking keys off the front (`Withdraw`), and key uniqueness (`KeysDistinct`).
- `orders.dfy`: the order record, and `findIndex` and `splice` on `pending` (`FindOrder`, `RemoveAt`).
  It also holds the tagging of issued keys and the ledger invariant that an order id lives in one place only.
- `notify.dfy`: the plain-text key list of the delivery e-mail, and its split back into lines.
- `shop.dfy`: the `Shop` class and its handlers.
- `scenarios.dfy`: client methods walking the lifecycle on the seeded inventory, using only the contracts.
  They cover: buying two keys, verifying that order, buying beyond stock, rejected purchases, buy then cancel, and verifying twice.

Inputs the server draws from its environment are parameters:

- the generated `orderId` (server.js:85);
- the stored upload's file name, turned into `proofPath` (server.js:86);
- the ISO timestamps (server.js:98, 151, 199).

An absent request field (`productId`, `email`, `name`, `orderId`) is the empty string: both are falsy in JavaScript.
An absent `qty` is `None` and defaults to 1.

Points where the code's behaviour is easy to misread:

- A verify or cancel request without an `orderId` answers 400 "orderId required" (server.js:123, 191).
- The seeded orders document has no `canceled` list (server.js:26). Cancel creates it on first use (server.js:198).
- Order ids are not guaranteed unique: they come from a clock and a random number. The ledger invariant is
  therefore proved conditionally: it is kept by `Buy` only when the new id is fresh, and by `Verify` and `Cancel` always.
- A stored order with `qty <= 0` passes the stock check. The allocation loop then runs zero times and an empty
  key list is delivered (`Shop.Allocation`). Such an order comes from `/api/buy` only through the `NaN` case of
  `Number(qty)` listed under "Left out", which the model does not represent.

## Model

| member | source | states |
|---|---|---|
| Catalog.Listing | server.js:69 | one view per product in order, carrying its id, name and price and `stock` = number of keys, a missing key list counting 0 |
| Catalog.InOrder | server.js:69 | the products of the inventory taken in the enumeration order of the inventory object, one per id |
| Catalog.ListingHidesKeys | server.js:69 | two inventories list identically exactly when ids, names, prices and key counts agree: no key value is exposed |
| Catalog.Withdraw | server.js:138-142 | after `n` shifts the key list is the old one minus its first `n` keys, stock drops by exactly `n`, id, name and price are kept, and `n = 0` leaves the product untouched |
| Catalog.WithdrawIssuesOnce | server.js:138-143 | on an inventory without duplicate keys, taking a product's first `n` keys keeps it duplicate-free and leaves none of the taken keys in any product |
| Catalog.SampleKeysDistinct | server.js:29-33 | the seeded inventory has no duplicate key |
| Orders.FindOrder | server.js:126 | -1 exactly when no pending order has the id; otherwise the index of the first order with that id |
| Orders.RemoveAt | server.js:146 | `splice(i, 1)` drops exactly element `i`, keeps the others in their order, and loses no element (multiset) |
| Orders.Tag | server.js:149 | one `{key, productName}` entry per issued key, in allocation order |
| Orders.KeysOfAssigned | server.js:149 | the bare keys of an `assigned` list, entry by entry |
| Orders.TagKeepsKeys | server.js:147-152 | the delivered record's `assigned` list holds exactly the issued keys, in order |
| Orders.RemovedIdGone | server.js:126-127 | once the only order with an id is spliced out, `findIndex` for that id gives -1 and the other ids stay distinct |
| Orders.UnshiftKeepsIdsUnique | server.js:101 | putting an order with a fresh id at the front of `pending` keeps every id in at most one collection, at most once |
| Orders.DeliverKeepsIdsUnique | server.js:146-152 | moving a pending order into `delivered` under its own id keeps the ledger invariant |
| Orders.CancelKeepsIdsUnique | server.js:197-199 | moving a pending order to the end of `canceled` keeps the ledger invariant |
| Notify.KeyListText | server.js:156 | the key-list text is empty exactly when no key was issued, and otherwise starts with the bullet `- ` |
| Notify.KeyListLines | server.js:156 | for a non-empty key list in which no key holds a newline, the key-list text splits into exactly one line `- <key>` per issued key, in allocation order |
| Shop.Reply.HttpStatus | server.js:77-195 | 200 exactly for success, 404 exactly for a missing order, 400 for every other error |
| Shop.Reply.ErrorMessage | server.js:77-195 | the `message` of each error body: the given text for a bad request, "Order not found", "Not enough stock" |
| Shop.ProofPath | server.js:86 | a proof path exactly when a file was uploaded, and then `/uploads/` followed by the stored file name |
| Shop.Allocation | server.js:139 | the number of loop rounds: `qty` when it is positive, otherwise none |
| Shop.DeliverIssuesOnce | server.js:138-152 | filing an order with the first `n` keys of a product while removing them from it keeps every key issued at most once: out of the inventory, in one delivered order only, and once within it |
| Shop.Shop.Seeded | server.js:26-35 | first start: the three sample products with their keys, `pending` empty, `delivered` empty, no `canceled`; keys distinct, no key issued twice, ids consistent |
| Shop.Shop.Load | server.js:38 | a shop holding exactly the given documents |
| Shop.Shop.Products | server.js:66-71 | one entry per product in the inventory object's enumeration order with its own id, name, price and key count; every product of the inventory appears |
| Shop.Shop.Buy | server.js:74-109 | the three 400 errors in the code's order, with state unchanged; otherwise exactly one new pending order at the front, with its qty (default 1), name, email, `total = price × qty` (missing price 0), proof path and status pending; inventory, delivered and canceled untouched; the ledger invariant is kept when the id is fresh, and no key is issued twice as before |
| Shop.Shop.Allocate | server.js:137-143 | the issued keys are the product's first `n` keys in order, the product keeps the rest, other products are unchanged, and no issued key remains in the inventory when keys were distinct |
| Shop.Shop.Deliver | server.js:137-152 | the order at the found index gets its first `qty` keys, leaves `pending` at that index and is filed under its id in `delivered` with status delivered, a time stamp and its tagged keys; the inventory changes by `Withdraw` only; ledger and key invariants are kept |
| Shop.Shop.Verify | server.js:120-154 | 400 without id, 404 when not pending, 400 for a missing product, "Not enough stock" when short, each with no change at all; otherwise the first `qty` keys are issued, stock falls by `qty`, the order leaves `pending` at its index and becomes `delivered[orderId]` with status delivered, a time stamp and one tagged entry per key; the ledger invariant is kept, and so is "no key issued twice" when the inventory had no duplicate key |
| Shop.Shop.Cancel | server.js:188-207 | 400 without id and 404 when not pending, with no change; otherwise the order leaves `pending` and is appended to `canceled` (created if absent) with status canceled and a time stamp; inventory and delivered are untouched, so no key is issued twice as before |
| Scenarios.VerifyTwice | server.js:126-127 | with unique ledger ids, a second verification of an order just delivered answers not-found |

## Left out

- Reading and writing the JSON files (server.js:17-39): each handler works on the fields of `Shop` as a whole-document read and write.
- The upload storage and its random file names (server.js:42-49): the stored file name is an input.
- Generating order ids and ISO timestamps (server.js:85, 98, 151, 199): they are inputs, and ids are not claimed unique.
- Sending the delivery e-mail (server.js:51-61, 157-172): it is an asynchronous foreign call whose failure is only logged.
  Only the key-list text of line 156 is modelled.
- The environment check with `process.exit`, the Express routing, CORS, static files and `listen` (server.js:12-15, 52-57, 210-214).
- The read-only admin endpoints for pending and delivered orders (server.js:114-117, 182-185): they return the fields `pending` and `delivered` as they are.
- The 500 "Server error" branches (server.js:105-107, 175-177, 203-206): they catch runtime faults and do not arise in the model.
  One example is an orders document without `pending` (for buy and verify; cancel answers 404), which the model always has.
- Floating-point prices and the coercion `Number(qty)`, whose `NaN` passes the `<= 0` check: price and qty are integers.
- The inventory is a map of its own keys. In JavaScript, `keysData[productId]` also finds inherited `Object.prototype`
  members such as `toString`, `constructor` or `__proto__`. So `/api/buy` with such a `productId` creates an order with total 0,
  which a later verification answers with "Not enough stock" (for `constructor` with qty 1, whose `Object.keys.length` is 1,
  with a 500 from `product.keys.shift`). The model treats these names as absent, answering "Invalid productId" and "Product not found".
- Concurrent requests and the over-allocation race between them: each handler runs atomically, one after another.
- The browser admin page (public/admin/admin.js): DOM code, `fetch` calls, and a client-side credential comparison.
