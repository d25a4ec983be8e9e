# Gateway routing and order creation, modelled in Dafny

This project models the dynamic routing layer of a microservice API gateway and the
order service's handlers, together with two smaller pieces of the same system.

- **Service discovery.** The gateway's `getServiceAddress` and the order service's
  `createGrpcClient` turn a service name into an address. Each uses a process-wide
  "Consul available" flag, the Consul service catalog, and environment variables with
  defaults.
- **Health-gated routing.** `createProxyMiddleware` takes the address, probes its
  `/health` path with a one-second abort timer, and then either forwards the request or
  answers it from a fixed mock dataset (`mockServices`). The mock table answers the
  collection path, by-id paths, and a 503 for everything else.
- **Gateway endpoints.** `/health` and `/status`. `/status` classifies each service as
  online, error or offline.
- **Order service handlers.** `createOrder` validates every item against the product
  service in order, snapshots prices, sums the total and saves one `pending` order.
  `getOrder`, `updateOrder`, `deleteOrder` and `listOrders` are the keyed operations on
  the order collection.
- **User schema.** The field rules (`trim`, `lowercase`, `required`, `unique`) and the
  `toObject` transform that drops `_id`, `__v` and `password` and adds `id`.
- **Dashboard helpers.** `formatUptime` and the status → CSS class / icon mapping.

Modules:

| module | file | models |
|---|---|---|
| `Results`, `Json` | results.dfy, json.dfy | Option/Result, and JSON bodies as ordered member lists |
| `Registry` | registry.dfy | `process.env` lookups with `||` defaults; catalog replies; the random node pick |
| `GatewayDiscovery` | gateway_discovery.dfy | `getServiceAddress` |
| `MockData`, `Fallback` | mock_data.dfy, fallback.dfy | `mockServices`, and the fallback table of `createProxyMiddleware` |
| `Router` | router.dfy | the probe-then-proxy decision, `/health`, `/status` |
| `OrderDiscovery` | order_discovery.dfy | address selection in `createGrpcClient` |
| `OrderService` | order_service.dfy | the order handlers; `OrderStore` is the order collection, as a class |
| `UserModel` | user_model.dfy | the user schema's setters and validators, and the `toObject` transform |
| `Dashboard` | dashboard.dfy | `formatUptime` and the status class/icon mapping |

## Modelling choices

Inputs that the real system gets from outside are parameters of the model:

- **The Consul flag and the catalog.** A `Discovery` value holds the `consulAvailable`
  flag and what the catalog would answer for each name.
- **The random draw.** `Math.random()` becomes an arbitrary `pick: nat`, used as an
  index modulo the list length.
- **Probes.** The outcome of a health probe is a `ProbeResult` or `StatusProbe`: an
  answer with its status code and elapsed time, or a thrown error.
- **Configuration and time.** The environment is a map. The load time of the mock data
  is one `loadedAt` string. `process.uptime()` and `Date.now()` are inputs.
- **The product service.** It is a `Catalog` from product id to a found product or a
  failure message. An id missing from the catalog gives the `NOT_FOUND` message.

Numbers are represented as follows:

- **Money.** Prices and totals are integer cents. JSON numbers are a mantissa with a
  count of decimals, so `1299.99` is `JNum(129999, 2)` exactly.
- **Uptime.** Uptime is in whole seconds.

Four behaviours of the code are worth stating on their own, because a reader might
expect otherwise:

- **Unknown names with Consul available.** The name is checked only on the static path
  (api-gateway/server.js:224-233 and 251-260). When Consul is available and the catalog
  returns nodes for a name (238-246), that name resolves even if it is none of the three
  known services. `GatewayDiscovery.ServiceAddress` and `OrderDiscovery.GrpcAddress`
  therefore make no name check on the catalog path.
- **The probe's status code.** The probe at api-gateway/server.js:310-312 only awaits the
  fetch. Any answer that arrives within 1000 ms counts as success, whatever its status
  code (306-318). `Router.AnyCompletedProbeForwards` states this.
- **The `/health` body.** Its members are `status`, `consul`, `uptime` and `timestamp`,
  in that order (api-gateway/server.js:395-400).
- **The user check in `createOrder`.** `createOrder` builds a user client
  (services/order-service/server.js:175) but never calls it, so no user is looked up
  before an order is saved.

## Model

| member | source | states |
|---|---|---|
| Registry.EnvOr | api-gateway/server.js:226-230 | an unset or empty variable gives the default; any other value is used as is |
| Registry.PickNode | api-gateway/server.js:244-246 | the chosen node is always one of the listed nodes |
| GatewayDiscovery.StaticUrl | api-gateway/server.js:223-233 | exactly the three known names get an address; it is `http://host:port` with defaults localhost and 3001/3002/3003; any other name fails with `Unknown service: <name>` |
| GatewayDiscovery.ServiceAddress | api-gateway/server.js:221-262 | without Consul, the static URL; with Consul, a failed or empty catalog query falls back to the static URL, and a non-empty reply gives `http://addr:port` of some listed node |
| GatewayDiscovery.NoCatalogWhenUnavailable | api-gateway/server.js:223-234 | without Consul the answer is the static URL, whatever the catalog says and whatever the random draw |
| GatewayDiscovery.KnownServicesResolve | api-gateway/server.js:221-262 | discovery never throws for the three known services, in any registry state |
| MockData.Stamped | api-gateway/server.js:268-288 | the record holds exactly its own members followed by `created_at` and `updated_at`; its own members keep their values, and the two stamps are the load time |
| MockData.Record | api-gateway/server.js:268-288 | a mock record's `id` is the id it was built with |
| MockData.MockUsers | api-gateway/server.js:266-271 | two users, with ids 1 and 2 in that order |
| MockData.MockProducts | api-gateway/server.js:272-277 | two products, with ids 1 and 2 in that order |
| MockData.MockOrders | api-gateway/server.js:278-291 | one order, with id 1 |
| Fallback.LastSegment | api-gateway/server.js:326 | the result has no `/`, is a suffix of the path, and is either the whole path or preceded by `/` |
| Fallback.FindById | api-gateway/server.js:331-336 | a found record has the id and no earlier record has it; a miss means no record has it |
| Fallback.CollectionAnswer | api-gateway/server.js:328-350 | GET on the exact collection path answers 200 with a body of exactly the list member, holding the whole mock list, and `total`, equal to its length |
| Fallback.ByIdAnswer | api-gateway/server.js:331-357 | GET on a by-id path answers 200 with a mock record carrying that id, or 404 with the service's not-found message when no record has it |
| Fallback.OtherRequestsUnavailable | api-gateway/server.js:360-365 | every other request, whatever its method, answers the same 503: exactly the members error, message and note, with `Service <name> unavailable`, the mock notice and the start hint |
| Fallback.FallbackResponse | api-gateway/server.js:324-365 | the fallback answers 200, 404 or 503 only; an unknown service or any method other than GET always gets the 503; a 404 means no mock record has the last path segment as its id |
| Fallback.UserByIdExample | api-gateway/server.js:331-336 | GET `/api/users/2` answers Jane Smith's record |
| Fallback.MissingOrderExample | api-gateway/server.js:351-356 | GET `/api/orders/7` answers 404 `Order not found` |
| Fallback.ProductWriteExample | api-gateway/server.js:338-365 | POST `/api/products` answers the 503 |
| Router.Route | api-gateway/server.js:295-372 | a failed discovery answers 503 `Service <name> unavailable`; a probe that completes forwards to the discovered address; any other probe is answered by the fallback table |
| Router.AnyCompletedProbeForwards | api-gateway/server.js:306-318 | for a known service, an answer within 1000 ms forwards whatever its status code |
| Router.ProbeFailureServedByFallback | api-gateway/server.js:319-324 | for a known service, a thrown or timed-out probe is always served by the fallback, and the error itself does not affect the answer |
| Router.RouteAnswers | api-gateway/server.js:295-372 | the middleware either forwards or answers with 200, 404 or 503 |
| Router.ConsulLabel | api-gateway/server.js:397 | the label is `connected` exactly when Consul is available, and `fallback mode` otherwise |
| Router.HealthBody | api-gateway/server.js:394-401 | the body has the members status, consul, uptime and timestamp in that order; status is `ok`; consul is `connected` with Consul and `fallback mode` without; uptime and timestamp are the given seconds and milliseconds |
| Router.StatusOf | api-gateway/server.js:411-451 | online iff a 2xx answer arrived within 1000 ms; error iff a non-2xx answer arrived in time; offline iff the fetch threw or was aborted |
| Router.DetailsOf | api-gateway/server.js:428-450 | online gives the parsed body, or the invalid-JSON error; error gives the not-responding error; offline gives the members error, note and uptime, with the mock notice and uptime 0; the error is the thrown message, or the abort message after the timeout |
| Router.OfflineDetails | api-gateway/server.js:442-449 | the offline details have exactly the members error, note and uptime: the error's message, the mock notice and 0 |
| Router.ServiceEntry | api-gateway/server.js:435-450 | an entry has exactly the members name, status and details: the service's name, its probe's status and its probe's details |
| Router.StatusProbeUrl | api-gateway/server.js:405-409 | each known service's probe URL exists and is its discovered address followed by `/health` |
| Router.GatewayStatus | api-gateway/server.js:456-460 | the gateway member has status, uptime and consul; the status is `online`, the uptime the given seconds, and consul `connected` with Consul and `fallback mode` without |
| Router.StatusBody | api-gateway/server.js:455-462 | the `/status` body has exactly the members gateway and services; services holds the user, product and order entries, in that order, each built from its own probe |
| Router.StatusReportsGateway | api-gateway/server.js:455-460 | `/status` reports the gateway online, with consul `connected` exactly when the flag is set |
| Router.StatusIsOneOfThree | api-gateway/server.js:435-451 | every reported service status is online, offline or error |
| OrderDiscovery.StaticGrpcAddress | services/order-service/server.js:83-94 | only the user and product services have a static address; it is a bare `host:port` with the same defaults; other names fail with `Unknown service: <name>` |
| OrderDiscovery.GrpcAddress | services/order-service/server.js:72-150 | resolution follows the same rules as the gateway's: static without Consul or after a failed or empty query, otherwise some listed node's `addr:port` |
| OrderDiscovery.NoStaticEntryForOrders | services/order-service/server.js:85-94 | the order service has no static address for itself, although the gateway does |
| OrderDiscovery.SameStaticTargetsAsGateway | services/order-service/server.js:85-91 | for the user and product services, the gateway's static URL is this address with `http://` in front |
| OrderDiscovery.OrderClientsResolve | services/order-service/server.js:175-178 | both clients of `createOrder` can always be built |
| OrderService.Validate | services/order-service/server.js:184-212 | a priced result has one stored item per request item and a total equal to Σ price × quantity over them; a rejection needs at least one item |
| OrderService.LineTotalAppend | services/order-service/server.js:198-199 | appending an item adds its price × quantity to the total |
| OrderService.ValidateAccepts | services/order-service/server.js:184-212 | validation succeeds iff every item's product is found with stock ≥ quantity; then the stored items are the request's items, in order, with their product's price, and the total is Σ price × quantity |
| OrderService.ValidateRejects | services/order-service/server.js:185-196 | a failed validation reports the first rejected item: the product service's error, or `Not enough stock for product <name>` |
| OrderService.RejectionIsFinal | services/order-service/server.js:184-212 | once a prefix of the items is rejected, the later items change nothing |
| OrderService.FindOrder | services/order-service/server.js:155-161 | finds an order iff one with that id is stored, and the found order has that id |
| OrderService.WithStatus | services/order-service/server.js:237-241 | the order with the id gets the new status; every other order is unchanged and the length is kept |
| OrderService.Without | services/order-service/server.js:263 | exactly the orders with a different id remain |
| OrderService.WithoutAppend | services/order-service/server.js:263 | deleting keeps the remaining orders in their original order |
| OrderService.WithoutRemovesOne | services/order-service/server.js:263-269 | with distinct ids, deleting a stored id removes exactly one order and keeps the ids distinct |
| OrderService.WithoutNoMatch | services/order-service/server.js:263-269 | deleting an id that is not stored leaves the collection as it was |
| OrderService.EffectivePage | services/order-service/server.js:283 | an unset page (0) is page 1; any other page is kept |
| OrderService.EffectiveLimit | services/order-service/server.js:284 | an unset limit (0) is 10; any other limit is kept |
| OrderService.Matching | services/order-service/server.js:287-290 | an empty `user_id` does not filter; otherwise exactly that user's orders are kept |
| OrderService.MatchingAppend | services/order-service/server.js:287-292 | the filter keeps the matching orders in their original order |
| OrderService.MatchingCounts | services/order-service/server.js:287-293 | each matching order occurs in the filtered list as often as in the collection, and no other order occurs |
| OrderService.MatchingLength | services/order-service/server.js:293 | the filtered list is as long as the number of positions holding a matching order |
| OrderService.MatchIndicesAppend | services/order-service/server.js:293 | an appended order adds one to the match count exactly when it matches |
| OrderService.Window | services/order-service/server.js:292 | the page holds at most `limit` consecutive matching orders, starting at the skip offset |
| OrderService.ListPage | services/order-service/server.js:281-299 | `total` is the number of positions holding a matching order, and `orders` is the window of the filtered list after skipping `(page − 1) × limit` of them |
| OrderService.WindowExtends | services/order-service/server.js:292 | the orders before a page, followed by the page, are the orders up to the end of the page |
| OrderService.PagesTile | services/order-service/server.js:283-292 | reading pages 1…n in turn yields the first n × limit matching orders, each exactly once and in order |
| OrderService.SecondPageOffset | services/order-service/server.js:283-285 | page 2 of 10 skips 10 orders; the defaults skip none and take 10 |
| OrderService.TwoLaptopsExample | services/order-service/server.js:193-205 | two laptops at 1299.99 with 50 in stock are accepted, for a total of 2599.98 |
| OrderService.OrderStore.CreateOrder | services/order-service/server.js:172-233 | an order is saved iff validation succeeds; the saved order is `pending` and carries the validated items and total, appended to the collection; otherwise INTERNAL with the first rejection's message and nothing saved; ids stay distinct |
| OrderService.OrderStore.GetOrder | services/order-service/server.js:153-170 | NOT_FOUND `Order not found` iff no order has the id; otherwise a stored order with that id |
| OrderService.OrderStore.UpdateOrder | services/order-service/server.js:235-259 | NOT_FOUND with nothing changed iff the id is absent; otherwise only that order's status changes, and the updated order is returned |
| OrderService.OrderStore.DeleteOrder | services/order-service/server.js:261-279 | NOT_FOUND with nothing changed iff the id is absent; otherwise exactly that order is removed and success is reported |
| OrderService.OrderStore.ListOrders | services/order-service/server.js:281-307 | `total` counts the matching orders; the page holds exactly min(limit, total − skip) orders (none once skip reaches total), each the matching order at the skip offset plus its position; with a user filter, every order belongs to that user |
| UserModel.Projected | services/user-service/models/user.js:26-32 | `id` is the hex text of `_id`; `_id`, `__v` and `password` are gone; every other member passes through unchanged |
| UserModel.PlainObject.Transform | services/user-service/models/user.js:26-32 | the mutated object equals the projection of the original one |
| UserModel.ProjectionHidesPassword | services/user-service/models/user.js:27-30 | the password never reaches the result: two documents that differ only in their password give the same object, which has no password |
| UserModel.TrimStart | services/user-service/models/user.js:7 | the result is a suffix of the input; what was dropped is all JavaScript white space, and the result does not start with white space |
| UserModel.TrimEnd | services/user-service/models/user.js:7 | the result is a prefix of the input; what was dropped is all JavaScript white space, and the result does not end with white space |
| UserModel.TrimParts | services/user-service/models/user.js:7 | stripping white space from the front and then from the back leaves the input as white space, the result, white space |
| UserModel.Trim | services/user-service/models/user.js:7 | the input is a run of white space, then the result, then a run of white space, and the result neither starts nor ends with white space |
| UserModel.Lower | services/user-service/models/user.js:14 | the result has the same length, and each character is lower-cased |
| UserModel.TrimStartLower | services/user-service/models/user.js:13-14 | stripping leading white space commutes with lower-casing |
| UserModel.TrimEndLower | services/user-service/models/user.js:13-14 | stripping trailing white space commutes with lower-casing |
| UserModel.TrimLowerCommute | services/user-service/models/user.js:13-14 | the two setters of `email` give the same result in either order |
| UserModel.TrimIdempotent | services/user-service/models/user.js:7 | trimming twice is trimming once |
| UserModel.LowerIdempotent | services/user-service/models/user.js:14 | lower-casing twice is lower-casing once |
| UserModel.FailingPaths | services/user-service/models/user.js:3-19 | the list is empty iff every path passes, it names a path iff that path fails, and it holds only path names |
| UserModel.CastUser | services/user-service/models/user.js:3-19 | a user is accepted iff name, email and password are all non-empty after their setters; the password is stored as given; a rejection names at least one failing path, and only path names |
| UserModel.CastUserFields | services/user-service/models/user.js:3-19 | a user is accepted iff name, email and password are all non-empty after their setters; the stored fields are the trimmed name, the trimmed lower-cased email and the given password; a rejection names exactly the failing paths |
| UserModel.MissingFieldRejected | services/user-service/models/user.js:3-19 | a record missing any field is rejected |
| UserModel.CastUserNormalizes | services/user-service/models/user.js:4-15 | every stored user is normalised: non-empty fields, a trimmed name, and a trimmed lower-case email |
| UserModel.StoredUserRoundTrip | services/user-service/models/user.js:3-19 | casting a normalised user's own fields again gives back the same user |
| UserModel.InsertUser | services/user-service/models/user.js:9-15 | a validation failure names its paths; a normalised email already stored is refused; a valid user with a new email is appended; unique emails stay unique |
| UserModel.CaseVariantCollides | services/user-service/models/user.js:9-15 | `  Ann@Example.com ` collides with a stored `ann@example.com` |
| UserModel.ExampleEmailNormalizes | services/user-service/models/user.js:13-14 | `  Ann@Example.com ` is stored as `ann@example.com` |
| Dashboard.NatToString | api-gateway/public/scripts.js:214 | a number renders as a non-empty run of digits without leading zeros; 0 renders as `0` |
| Dashboard.Decompose | api-gateway/public/scripts.js:208-211 | hours < 24, minutes < 60, seconds < 60, and days·86400 + hours·3600 + minutes·60 + seconds is the uptime |
| Dashboard.FormatUptime | api-gateway/public/scripts.js:207-222 | the text has a `d` iff uptime ≥ 1 day, an `h` iff ≥ 1 hour, an `m` iff ≥ 1 minute, and always ends in `s` |
| Dashboard.FormatUptimeShapes | api-gateway/public/scripts.js:213-221 | the four shapes of the text, chosen by the largest non-zero unit |
| Dashboard.UptimeRoundTrip | api-gateway/public/scripts.js:207-222 | nothing is lost: reading the text back as a sum of numbers × unit seconds gives the uptime |
| Dashboard.StatusClass | api-gateway/public/scripts.js:179-180 | the class is `service-status-` followed by the status for online and offline, and by `error` for anything else |
| Dashboard.StatusIcon | api-gateway/public/scripts.js:181-182 | online, offline and every other status each get their own icon |
| Dashboard.ClassAndIconAgree | api-gateway/public/scripts.js:179-182 | two statuses share a class exactly when they share an icon |
| Dashboard.GatewayStatusesHaveOwnClass | api-gateway/public/scripts.js:179-180 | every status `/status` can report gets the class named after it |

## Left out

- Proxying: the forwarded request and its relayed response are not modelled. `Router.Route` ends at `Forward(url)`.
- Transport: HTTP, gRPC and Consul calls are not modelled. Their outcomes are inputs.
- Startup: the Consul connectivity probe, service registration and shutdown deregistration are not modelled. The flag they set is an input.
- The `consulAvailable` race: the flag can flip while requests are in flight. The model takes one value per call.
- Concurrency: `Promise.all` in `/status` is not modelled; the three probes are independent inputs.
- Middleware: body parsing, logging, Prometheus metrics, rate limiting, Swagger and the static file server are not modelled. Neither is the error handler (api-gateway/server.js:466-469), which answers 500, for instance when `bodyParser.json()` rejects a malformed body before the `/api/*` routes run.
- Mount prefix: Express strips the mount prefix (`/api/users` etc.) from `req.path`, so the path the fallback sees is relative. The model takes `req.path` as given.
- Floating point: prices and totals are integer cents, and uptimes are whole seconds. Fractional uptimes and float rounding are not modelled.
- Timestamps: every mock record's `created_at` and `updated_at` comes from one `loadedAt` input, while the source calls `new Date()` for each. The order and user timestamps are not modelled.
- Dashboard: `statusText`, HTML building and the DOM are not modelled.
- The product and user services: their servers are not part of this model. The product service is the `Catalog` of found products and failure messages.
- OrderService.OrderStore.CreateOrder: reads one catalog snapshot for the whole loop, so the stock cannot change between items. It requires a fresh id in place of ObjectId generation. Persistence failures of `save` are not modelled.
- OrderService.OrderStore.GetOrder: does not model the INTERNAL error for malformed ids (a mongoose CastError) or database failures.
- OrderService.OrderStore.UpdateOrder: does not model the INTERNAL error for malformed ids or database failures.
- OrderService.OrderStore.DeleteOrder: does not model the INTERNAL error for malformed ids or database failures.
- OrderService.OrderStore.ListOrders: takes page and limit as natural numbers, so what negative values do once they reach `skip` and `limit` is not modelled.
- UserModel.Lower: lower-cases ASCII letters only. Other Unicode case mappings are not modelled.
- UserModel.Projected: requires an ObjectId `_id`, which every stored document has. The `created_at` and `updated_at` members pass through as plain values.
- UserModel.InsertUser: models the unique index as an in-memory check. The database's duplicate-key error message and its races are not modelled.
