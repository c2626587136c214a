# Ventia, verified

Ventia is a multi-tenant shop platform: merchants sell through a storefront, shoppers pay by cash on
delivery or through Wompi, Mercado Pago or ePayco, an AI agent answers in a chat window or on WhatsApp,
and every tenant shares one Postgres database. This project models the parts of it whose correctness
does not show in any single function, as Dafny state machines, classes and functions, and proves what
they keep over every run.

| module | what it models |
|---|---|
| `Lifecycle`, `OrderEffects` | orders and stock: checkout, merchant transitions, payment transitions, the expiry sweep, reference hints, tracking switches, stock adjustments, variant replacement |
| `Webhooks`, `WebhookSafety`, `WebhookHistory`, `WebhookDelivery`, `WebhookRetries`, `WebhookOutcomes` | the settle protocol as interleaved database operations with crashes, replays, concurrent handlers and reconciliation |
| `Gateways`, `Wompi`, `MercadoPagoSignature`, `AttemptSearch`, `Money` | the three payment adapters: verification, event ids, attempt selection, cents and pesos |
| `OrderReference` | the base32 reference generator over 32-bit shifts |
| `Sse` | the agent's event stream, written as frames and read back from arbitrary chunks |
| `TenantDb`, `TenantRequests` | argument rewriting, row-level security and the shared connection pool |
| `Budget`, `Throttle` | the agent's monthly budget and its per-conversation throttle |
| `MutationQueue`, `Cart` | the promise-chain queue and the storefront cart on top of it |
| `WhatsApp`, `Phone` | inbound message routing and phone numbers |
| `Shipping`, `BogotaDays`, `Slug` | the admin's shipping form, paid-until days and slugs |
| `Options`, `Decimal`, `Texts`, `JsonValue` | shared values and texts |

Object state that the services change in place is a class (`Budget.AgentBudget`,
`Throttle.AgentThrottle`, `MutationQueue.Queue`, `Sse.Response`) whose methods are tied to the same
functions the state machines step with. Loops are methods with invariants. Concurrency is a state
machine whose steps are single database, Redis or network operations; a theorem about `Run` or
`Execute` is about every interleaving of them.

## What came out

Most of what the repository promises holds as stated. Where it does not, the code is kept as it is and
the exact condition is proved:

- **Tracking switch.** Stock plus held units is conserved if and only if a product's inventory tracking
  is switched only while no order holds units of it (`Lifecycle.TrackingSwitch`).
- **Variant replacement.** Saving a product's variants deletes their stock rows and creates new ones, so
  an order that holds a tracked variant can be neither cancelled nor expired afterwards: giving units back
  succeeds if and only if every tracked line still has its row (`Lifecycle.RestockSucceeds`,
  `Lifecycle.ReplacementStrands`, and the run `Lifecycle.ReplacementStrandsOrder`). The comment in
  orders.service.ts (lines 232-235) says that a restock never fails.
- **False reports.** A payment that has already settled its order is recorded as
  `paid_order_not_settleable` when it is delivered under a key that is not processed yet, and the guidance
  shown for it is to refund a double charge. This happens after a crash between settling and stamping,
  and whenever the reconciliation sweep was faster than the first webhook (`WebhookRetries.CrashRunHappens`,
  `WebhookRetries.SweepRunHappens`). It happens if and only if the order is already paid and its
  payment_confirmed event names the delivered payment; the provider and reference on the order itself tell
  the same unless a late hint has overwritten them (`WebhookRetries.FalseReportExactly`,
  `WebhookRetries.LateHintHides`).
- **Wompi keys.** Wompi's event id holds no status, so a payment reported PENDING and then APPROVED is
  settled if and only if the two reports carry different timestamps
  (`Gateways.WompiNeedsDistinctTimestamps`).
- **Wompi's signed list.** A delivery names the paths it signs, and that list is not itself signed; nor do
  the values carry delimiters. An accepted delivery that reuses the checksum of a documented one is the same
  report if and only if its values are documented too and its list makes up the documented text
  (`Wompi.OneChecksumOneReport`). With one path more, the same payment can come back under a second event id
  (`Wompi.ExtraPathReportsAnotherEvent`). It names the same order if and only if its reference has the
  generator's exact shape (`Wompi.ReferenceSurvivesExactly`): the bare order numbers the webhook still
  accepts let the end of the amount be read as another order's number, and then the amount check is what
  keeps that order from being settled (`Wompi.BareNumberReport`, `Gateways.BareNumberNeedsAmount`).
- **Delimiters.** ePayco's caret-joined text determines its fields if and only if none of them holds a caret
  (`Gateways.CaretAliases`). Mercado Pago's manifest determines its values when the genuine ones hold no
  semicolon, if and only if the request id is not dropped (`MercadoPagoSignature.ManifestDecodes`).
- **Reconciliation fallback.** The repository's README.md (lines 225-253) says the sweep finds Mercado Pago attempts by
  our own order number and binds on it. The worker searches by the order's number but binds on the
  order's reference, which always starts with `vr_`, so the fallback never settles, fails or records
  anything, whatever the gateway answers (`AttemptSearch.FallbackNeverBinds`).
- **Confirm.** The same file (line 137) calls `confirm` COD-only. The code refuses an online order only while
  its payment is awaited; one whose payment failed can be confirmed by hand, and keeps its reservation
  (`Lifecycle.ConfirmGate`).
- **Line separators.** A streamed event is dropped if and only if its JSON carries a raw U+2028 or U+2029
  (`Sse.RoundTrip`).
- **Nested writes.** The argument rewriting isolates a create on its own if and only if no nested record
  names another tenant; the returning form of updateMany is not guarded at all. The row-level-security
  policy closes both, and everything else (`TenantDb.PolicyIsolates`).
- **Year bounds.** The subscription form and the API accept the same days except 2100-12-31 and
  2019-12-31 (`BogotaDays.FormMirrorsServer`).
- **Late increments.** The throttle's 20 per window and 40 per 300 seconds hold of messages whose Redis
  increment runs inside its window. A delayed one can break either bound, and runs that do are given;
  what holds at any delay is 20 per window label in any 300 seconds (`Throttle.AtMostTwentyPerLabel`).

## Model

| member | source | states |
|---|---|---|
| Lifecycle.AdjustEffect | services/api/src/orders/orders.service.ts:180-244 | adjusting the lines of an order moves each tracked stock row by exactly the units asked for, leaves untracked rows alone and never makes a row negative |
| Lifecycle.RestockSucceeds | services/api/src/orders/orders.service.ts:180-244 | with no negative stock, giving units back succeeds if and only if every line of a tracked product still has its stock row |
| Lifecycle.ReplacementStrands | services/api/src/catalog/variants.controller.ts:31-60 | after a product's variants are replaced an order can give its units back if and only if it could before and holds no tracked variant of the product |
| Lifecycle.ReplacementStrandsOrder | services/api/src/payments/stock-reservation.worker.ts:94-145 | a run in which a reserved order can no longer be cancelled or expired |
| Lifecycle.ReplacementKeepsRows | services/api/src/catalog/variants.controller.ts:49-54 | no held unit loses its stock row if and only if no replaced variant is held |
| Lifecycle.ReplaceConserves | services/api/src/catalog/variants.controller.ts:49-54 | the rows a replacement leaves and creates balance against the books with the old variants struck out and the new ones entered |
| Lifecycle.StockAccounting | services/api/src/orders/orders.service.ts:404-446 | in every reachable shop no stock row is negative and each order took, returned and settled at most once, holding units exactly when it took and has not returned them |
| Lifecycle.OrdersStayCoherent | services/api/src/payments/stock-reservation.worker.ts:94-145 | references and numbers stay unique, status and payment always fit together, and no order is expired before its fifteen minutes are over |
| Lifecycle.OrdersEvolve | services/api/src/orders/transitions.ts:7-29 | over any run an order keeps its identity, never goes back, stays paid once paid, and is frozen once delivered or cancelled |
| Lifecycle.OneStepAtATime | services/api/src/orders/transitions.ts:7-29 | an accepted action moves an order one place along the line or cancels it; every open order has one way forward and may be cancelled |
| Lifecycle.FailureIsNotFinal | services/api/src/payments/payments.service.ts:385-438 | a failed payment leaves the order payable, and an applied payment cannot be failed afterwards |
| Lifecycle.NumbersHaveNoGaps | services/api/src/checkout/order-number.ts:18-25 | each tenant's orders are numbered from 1 without a gap, over every run |
| Lifecycle.ConfirmGate | services/api/src/orders/transitions.ts:72-74 | when the gate refuses a confirm of an online order, and that an accepted one does not take stock twice |
| Lifecycle.PaymentsLeaveStockAlone | services/api/src/payments/payments.service.ts:255-319 | markPaid and markFailed never touch stock; markPaid moves an order exactly when it is settleable |
| Lifecycle.Conservation | services/api/src/checkout/checkout.service.ts:449-547 | stock plus units held by orders is what the merchant put on the books, over every interleaving of checkout, actions, payments, expiry, hints, stock adjustments and variant replacements whose tracking switches find nothing held |
| Lifecycle.TrackingSwitch | services/api/src/orders/orders.service.ts:180-244 | switching a product's tracking keeps the books balanced if and only if no order holds any of it |
| Lifecycle.SwitchWhileHeldLosesStock | services/api/src/orders/orders.service.ts:432-446 | a concrete run in which the condition fails and three units are lost |
| OrderEffects.TakingSucceeds | services/api/src/orders/orders.service.ts:180-244 | taking an order's units succeeds if and only if every tracked row has what all its lines ask of it together |
| OrderEffects.CheckoutExactly | services/api/src/checkout/checkout.service.ts:297-547 | when a checkout is accepted, the order it makes, and that exactly an online order takes its units |
| OrderEffects.ActionAccepted | services/api/src/orders/orders.service.ts:368-446 | when a merchant's action is accepted, and which error each refusal has |
| OrderEffects.ActionEffect | services/api/src/orders/orders.service.ts:404-446 | an accepted action moves status and payment as documented, and stock by exactly what the order starts or stops holding |
| OrderEffects.ExpiryReleases | services/api/src/payments/stock-reservation.worker.ts:167-221 | a swept order that is still pending and whose tracked lines have rows is cancelled as expired, its units are back and the return is logged; any other is left alone |
| OrderEffects.SweepReleases | services/api/src/payments/stock-reservation.worker.ts:94-145 | after any run, a sweep releases every order it visits whose reservation is over, whatever else it visits and in whatever order |
| OrderEffects.HintExactly | services/api/src/checkout/checkout.controller.ts:456-523 | when a reference hint is accepted, and that it changes the reference alone |
| Webhooks.FindReference | services/api/src/payments/webhooks.controller.ts:452-509 | the lookup finds an order with the reference, or there is none |
| WebhookOutcomes.ReferencesExactly | services/api/src/payments/webhooks.controller.ts:334-336 | a reference is looked up if and only if it is `vr_` and something after it, or a number of at most 2147483647 in digits |
| WebhookSafety.ResolutionIsUnique | services/api/src/payments/webhooks.controller.ts:452-617 | an event that names an order with its total in COP resolves to that order and no other |
| WebhookOutcomes.ResolutionExactly | services/api/src/payments/webhooks.controller.ts:452-617 | an event is carried on to an order if and only if it binds it, and otherwise refused for a reason that is true |
| WebhookOutcomes.DeliveryApplied | services/api/src/payments/webhooks.controller.ts:670-763 | what a delivery that binds an order and runs to its end does to the order, its row and the ledger, for each of the four statuses and each state of the order |
| WebhookOutcomes.DeliveryRefused | services/api/src/payments/webhooks.controller.ts:452-617 | a delivery that binds no order changes none, and its row says truly why |
| WebhookOutcomes.MalformedReference | services/api/src/payments/webhooks.controller.ts:334-361 | a malformed reference is answered, changes nothing and is recorded unless its key already exists |
| WebhookOutcomes.ReconcileExactly | services/api/src/payments/reconciliation.worker.ts:290-320 | a lookup is applied if and only if it carries an online order's reference and, where it states an amount, its total in COP; an expired payment counts as a failed one |
| WebhookSafety.PaidOrdersAreJustified | services/api/src/payments/webhooks.controller.ts:550-708 | every paid order was settled once, by a verified PAID delivery at its own tenant's endpoint for its own reference, total and currency with the ledger row written first, or by a bound lookup |
| WebhookSafety.RunsStayAccounted | services/api/src/payments/webhooks.controller.ts:670-763 | stock accounting holds under the whole protocol and recorded outcomes never lie about their order |
| WebhookSafety.SystemConservation | services/api/src/payments/webhooks.controller.ts:670-744 | stock plus held units stays what is on the books under deliveries, crashes, retries and reconciliation |
| WebhookSafety.NextKeepsInv | services/api/src/payments/webhooks.controller.ts:387-763 | every database operation of every handler keeps the protocol's invariant |
| WebhookSafety.ReconcileKeepsInv | services/api/src/payments/reconciliation.worker.ts:458-737 | so does a reconciliation of any order with any gateway answer |
| WebhookHistory.SettledByItsEvent | services/api/src/payments/payments.service.ts:255-319 | in every run a paid order was settled by the payment its one payment_confirmed event names, which is also the verified reference it shows |
| WebhookDelivery.NoPaymentLost | services/api/src/payments/webhooks.controller.ts:387-427 | if deliveries of one key agree, any 200 answer under the key of a PAID event means that payment settled its order, which is paid, or is reported to the merchant against that order |
| WebhookDelivery.AdvanceOnTrack | services/api/src/payments/webhooks.controller.ts:452-708 | a handler of a PAID event heads for the order it binds, and what it stamps is the truth about the payment: settled by it, or reported as unapplied |
| WebhookRetries.UninterruptedSettles | services/api/src/payments/webhooks.controller.ts:670-708 | after any history, a PAID delivery that is not recorded as processed and runs to its end settles a settleable order, is recorded and answered |
| WebhookRetries.ProcessedKeySwallows | services/api/src/payments/webhooks.controller.ts:387-427 | once a key is processed, any later delivery under it is answered 200 and changes nothing |
| WebhookRetries.PendingThenPaid | services/api/src/payments/webhooks.controller.ts:745-763 | a payment reported pending and then paid is settled if and only if the two reports have different keys |
| WebhookRetries.FalseReportExactly | services/api/src/payments/webhooks.controller.ts:670-708 | after any run, a PAID delivery run to its end raises a false report if and only if the order is already paid and its payment_confirmed event names that payment; with the reference still verified, if and only if the order shows the event's provider and reference |
| WebhookRetries.CrashRunHappens | services/api/src/payments/webhooks.controller.ts:670-708 | a run from an empty shop that raises it by a crash and a retry |
| WebhookRetries.SettledByLookupMisreports | services/api/src/payments/reconciliation.worker.ts:529-709 | a payment the sweep settles before its first delivery arrives is reported as a double charge when it does arrive |
| WebhookRetries.SweepRunHappens | services/api/src/payments/reconciliation.worker.ts:529-709 | a run from an empty shop that does so, through a hinted Mercado Pago reference |
| WebhookRetries.LateHintHides | services/api/src/checkout/checkout.controller.ts:482-523 | a run in which a hint written after the settlement hides the reference the order was paid with |
| WebhookRetries.CrashAfterSettlingMisreports | apps/admin/lib/payment-alerts-api.ts:203-230 | a crash between settling and stamping makes the retry raise that report, shown as a double charge although one payment was settled |
| Gateways.MercadoPagoEventId | packages/payments/src/mercadopago.ts:485-506 | equal Mercado Pago event ids mean the same payment in the same status, when ids or statuses hold no colon |
| Gateways.MercadoPagoColons | packages/payments/src/mercadopago.ts:503 | a pair of colliding ids with different statuses otherwise |
| Gateways.EpaycoEventId | packages/payments/src/epayco.ts:689-701 | equal ePayco event ids always mean equal normalized statuses |
| Gateways.NoMercadoPagoPaymentLost | packages/payments/src/mercadopago.ts:485-510 | a Mercado Pago payment answered 200 has settled its order or is reported, however many pending deliveries of it came first |
| Gateways.NoEpaycoPaymentLost | packages/payments/src/epayco.ts:689-709 | so has every ePayco payment |
| Gateways.NoWompiPaymentLost | packages/payments/src/wompi.ts:405-420 | so has every Wompi payment, as long as each status change has its own timestamp, over every run |
| Gateways.WompiNeedsDistinctTimestamps | packages/payments/src/wompi.ts:405-420 | a Wompi payment reported pending then approved is settled if and only if the timestamps differ |
| Gateways.BareNumberNeedsAmount | services/api/src/payments/webhooks.controller.ts:452-563 | a report whose last amount digit is read as a bare order number binds that order of the tenant if and only if its total is the remaining amount in COP |
| Gateways.PaidMeansApproved | packages/payments/src/mercadopago.ts:212-231 | an order settled by a webhook was approved in its gateway's own word; no other status text pays |
| Gateways.MercadoPagoWords | packages/payments/src/mercadopago.ts:212-231 | which words of Mercado Pago settle, leave or fail an awaited order |
| Gateways.WompiWords | packages/payments/src/wompi.ts:154-170 | and which of Wompi |
| Gateways.EpaycoWords | packages/payments/src/epayco.ts:287-301 | and which of ePayco |
| Gateways.ConfirmationExactly | packages/payments/src/epayco.ts:575-709 | an ePayco confirmation is accepted if and only if it is complete, signed and not contradicted by the gateway's record, with its own values and the record's status; it is put off exactly when only the record is missing |
| Gateways.SignedTextDecodes | packages/payments/src/epayco.ts:607-612 | when a genuine confirmation's fields hold no caret, no other fields, whatever they hold, sign to the same text |
| Gateways.CaretAliases | packages/payments/src/epayco.ts:607-609 | the signed text determines a confirmation's signed fields if and only if none of them holds a caret |
| Gateways.OneSignatureOneEvent | packages/payments/src/epayco.ts:575-709 | whatever is accepted under the signature of a genuine caret-free confirmation reports the same event |
| Gateways.SameEventExactly | packages/payments/src/epayco.ts:655-709 | any two accepted confirmations report one event if and only if they name one transaction, amount in cents and currency |
| Gateways.HonestConfirmationAccepted | packages/payments/src/epayco.ts:590-709 | a signed confirmation whose gateway record agrees is accepted with that record's status |
| Wompi.AcceptedIsSigned | packages/payments/src/wompi.ts:306-372 | every value an accepted event reports, its currency aside, is covered by the checksum |
| Wompi.HonestEventAccepted | packages/payments/src/wompi.ts:279-422 | the event made from a report, its timestamp sent as a number or as a text, is accepted under its checksum as exactly that report |
| Wompi.AcceptedExactly | packages/payments/src/wompi.ts:279-422 | what is accepted: a complete event whose checksum is that of the text its list signs, that list having the four required paths |
| Wompi.MissingPathSignsNothing | packages/payments/src/wompi.ts:118-123 | a listed path that leads nowhere signs the empty text |
| JsonValue.TextOfArray | packages/payments/src/wompi.ts:322-325 | the signed text of null, booleans, objects and arrays |
| JsonValue.MembersOfArray | packages/payments/src/wompi.ts:118-123 | a path reads an array under its printed indices and its length, and nothing else |
| Wompi.UniqueDecoding | packages/payments/src/wompi.ts:306-326 | the undelimited text determines id, status, amount, reference and timestamp of a documented report |
| Wompi.DecodingWithinPayment | packages/payments/src/wompi.ts:306-326 | for any ids and statuses that agree, the exact reference shape alone makes amount, reference and timestamp decode |
| Wompi.OneChecksumOneReport | packages/payments/src/wompi.ts:279-422 | an accepted delivery that reuses the checksum of a documented one reports the same payment if and only if its report is documented and the text its own signed list makes up is that report's documented text |
| Wompi.DocumentedListExactly | packages/payments/src/wompi.ts:322-357 | with the documented list it reports the same payment if and only if its values are documented |
| Wompi.ExtraPathReportsAnotherEvent | packages/payments/src/wompi.ts:342-372 | signing one path more can move part of the timestamp into a value, and the same payment is accepted under another event id |
| Wompi.ReferenceSurvivesExactly | packages/payments/src/wompi.ts:322-326 | whatever list is signed, a delivery that reuses the checksum names the same order reference if and only if its reference has the generator's exact shape |
| Wompi.BareNumberReport | packages/payments/src/wompi.ts:306-326 | wherever the digits of a documented amount are cut in two, the event that reports the second part as a bare order number is accepted under the genuine checksum and the documented list |
| Wompi.PrefixShapeDecoding | packages/core/src/order-reference.ts:86-88 | under the prefix test alone the amount decodes, and the reference if and only if the lengths agree |
| Wompi.PrefixShapeIsNotEnough | packages/core/src/order-reference.ts:86-88 | two references the prefix test accepts that run into their timestamps |
| Wompi.BareNumberAliases | packages/payments/src/wompi.ts:306-320 | every bare order number of two digits or more aliases with another amount |
| Wompi.DocumentedAliasPair | packages/payments/src/wompi.ts:309-311 | the documented alias pair |
| MercadoPagoSignature.ParseXSignature | packages/payments/src/mercadopago.ts:245-262 | the header loop takes the last value of each key and refuses a missing one |
| MercadoPagoSignature.HeaderRoundTrip | packages/payments/src/mercadopago.ts:239-262 | a header built from its two values parses back, in either order |
| MercadoPagoSignature.ManifestDecodes | packages/payments/src/mercadopago.ts:287-294 | a request that signs to the manifest of a genuine one, whatever its own values hold, carries the same payment, request id and time if and only if it does not drop the request id |
| MercadoPagoSignature.DroppedRequestIdAliases | packages/payments/src/mercadopago.ts:289-292 | dropping it aliases with a payment id that spells out the request segment |
| AttemptSearch.ChoiceIsBest | packages/payments/src/mercadopago.ts:666-703 | the search is null exactly when nothing carries the reference, else the latest approved match, else the latest match |
| AttemptSearch.OrderIndependent | packages/payments/src/mercadopago.ts:677-686 | the choice does not depend on the response order when times differ |
| AttemptSearch.TiesGoFirst | packages/payments/src/mercadopago.ts:677-703 | between attempts of one time the one listed first is chosen |
| AttemptSearch.FallbackNeverBinds | services/api/src/payments/reconciliation.worker.ts:576-607 | the search by order number can never change anything |
| AttemptSearch.ByReferenceSettles | services/api/src/payments/reconciliation.worker.ts:290-320 | a search by the order's reference would settle it, with its latest approved attempt |
| Money.CentsOfPesos | packages/payments/src/mercadopago.ts:507-510 | cents sent as pesos and read back are the same cents, up to 2^50, whatever the two roundings of that amount do |
| Money.AmountCheckIsExact | services/api/src/payments/webhooks.controller.ts:550-563 | the amount check accepts a charge if and only if it is the order's total |
| OrderReference.GenerateOrderReference | packages/core/src/order-reference.ts:48-76 | the loop over wrapping 32-bit shifts computes unpadded base32 of the bytes, for every length |
| OrderReference.OrAfterShiftIsAdd | packages/core/src/order-reference.ts:64 | on real 32-bit words the bitwise or that appends a byte is the addition the loop is written with |
| OrderReference.DrainReadsLiveBits | packages/core/src/order-reference.ts:66-69 | each shift of the unmasked accumulator reads only bits that are still pending |
| OrderReference.DecodeEncode | packages/core/src/order-reference.ts:44-76 | a decoder recovers the bytes |
| OrderReference.DistinctDraws | packages/core/src/order-reference.ts:48-76 | distinct random draws give distinct references |
| OrderReference.GeneratedShape | packages/core/src/order-reference.ts:46-88 | sixteen bytes give the documented shape, which is never all digits |
| Sse.Read | apps/storefront/lib/agent-api.ts:80-107 | under any chunking the reader yields the events of the whole stream split at blank lines and keeps only the unfinished tail |
| Sse.JoinedOfSplit | apps/storefront/lib/agent-api.ts:94-100 | the split loses nothing: frames, blank lines and tail make up the stream |
| Sse.SplitOfJoined | apps/storefront/lib/agent-api.ts:94-100 | and it is the only such decomposition |
| Sse.ParsePrinted | apps/storefront/lib/agent-api.ts:109-120 | one printed frame parses back to its event unless its JSON holds a raw line separator |
| Sse.NoDataNoEvent | apps/storefront/lib/agent-api.ts:109-112 | a frame without data yields no event |
| Sse.RoundTrip | services/api/src/agent/agent.controller.ts:76-78 | any list of events printed, cut anywhere and read back is the same list if and only if no JSON holds U+2028 or U+2029 |
| Sse.Response.Send | services/api/src/agent/agent.controller.ts:76-78 | the response body is the frames of the events sent so far |
| Sse.Response.Stream | services/api/src/agent/agent.controller.ts:76-94 | a turn sends its progress events and then exactly one terminal event |
| TenantDb.PolicyIsolates | packages/db/prisma/migrations/20260723182728_rls/migration.sql:24-42 | any request in an application session returns only the tenant's rows and leaves every other row as it was |
| TenantDb.RewritingAlone | packages/db/src/tenant-client.ts:22-55 | the rewriting alone isolates every fully rewritten operation, without any policy |
| TenantDb.NestedCreateAlone | packages/db/src/tenant-client.ts:24-36 | without the policy a create is isolated if and only if every nested record names the tenant |
| TenantDb.UpdateManyReturningAlone | packages/db/src/tenant-client.ts:37-40 | without the policy a returning updateMany that goes through is isolated if and only if it hands no own row over |
| TenantDb.UniqueDeleteAlone | packages/db/src/tenant-client.ts:45-53 | without the policy a unique-where delete is isolated if and only if the key is not another tenant's |
| TenantDb.UniqueReadAlone | packages/db/src/tenant-client.ts:45-53 | without the policy a unique-where read is isolated if and only if the key is not another tenant's |
| TenantDb.UniqueUpdateAlone | packages/db/src/tenant-client.ts:37-53 | without the policy a guarded unique-where update, nested writes included, that goes through is isolated if and only if the row and every nested record are the tenant's |
| TenantDb.UpsertAlone | packages/db/src/tenant-client.ts:33-53 | an upsert is judged as that update where the key finds a row, and as the create where it does not |
| TenantDb.PoolIsolation | packages/db/src/tenant-client.ts:57-93 | over every interleaving on the pool each query runs in its tenant's session, is isolated, and no role or setting reaches a later transaction |
| TenantDb.PoolIsSequential | packages/db/src/tenant-client.ts:77-84 | a pool run leaves the database, and has answered each tenant, as one sequence of the tenants' statements does |
| TenantDb.NonInterference | packages/db/src/tenant-client.ts:57-93 | a tenant is answered, and keeps, exactly what it would alone, however others interleave, when keys and unique values are per tenant |
| TenantDb.PoolNonInterference | packages/db/src/tenant-client.ts:57-93 | the same of the whole pool: over every interleaving of transactions on shared connections, what a tenant was answered and its rows are those of its own queries alone |
| TenantDb.TakenKeyIsVisible | packages/db/src/tenant-client.ts:31-34 | the channels left: a create fails exactly when its key or one of its globally unique values is taken |
| TenantRequests.ScopeIsTransparent | packages/db/src/tenant-client.ts:22-55 | the rewriting refuses exactly the requests that name another tenant, and changes neither answer nor effect of any other, new records being given to the tenant |
| TenantRequests.FindReturnsAsked | packages/db/src/tenant-client.ts:49-53 | a search returns exactly the tenant's own rows that meet the caller's condition |
| TenantRequests.DeleteRemovesAsked | packages/db/src/tenant-client.ts:49-53 | a deletion removes exactly those |
| TenantRequests.UpdateChangesAsked | packages/db/src/tenant-client.ts:37-53 | an update assigns the caller's fields to exactly those, or changes nothing |
| TenantRequests.UpdateFailsExactly | packages/db/src/tenant-client.ts:37-53 | it fails if and only if it names another tenant or writes a globally unique value twice |
| TenantRequests.CreateStores | packages/db/src/tenant-client.ts:24-36 | a creation stores the record and all that is nested in it with the caller's fields under the tenant, or changes nothing |
| TenantRequests.CreateManyStores | packages/db/src/tenant-client.ts:24-36 | so does a bulk creation |
| TenantRequests.FindUniqueReturnsAsked | packages/db/src/tenant-client.ts:45-53 | a unique read finds the row if and only if it is the tenant's own and meets the condition |
| TenantRequests.DeleteUniqueRemovesAsked | packages/db/src/tenant-client.ts:45-53 | a unique deletion removes that row or fails |
| TenantRequests.UpdateUniqueChangesAsked | packages/db/src/tenant-client.ts:37-53 | a unique update assigns to that row and stores what is nested in it, or changes nothing |
| TenantRequests.UpsertIsEither | packages/db/src/tenant-client.ts:33-53 | an upsert is that update where the tenant's own row is found, and otherwise that creation |
| TenantRequests.TransactionRuns | packages/db/src/tenant-client.ts:75-84 | an uninterrupted transaction runs the rewritten request exactly once and gives the connection back clean |
| TenantRequests.PlatformRunsAsOwner | packages/db/src/tenant-client.ts:75-84 | a platform query on an idle connection runs as the owner with no tenant set |
| Budget.AgentBudget.Check | services/api/src/agent/agent-budget.service.ts:81-108 | admits exactly below the limit, warns exactly from nine tenths of it on, and takes a missing plan row as a zero limit |
| Budget.AgentBudget.Record | services/api/src/agent/agent-budget.service.ts:112-137 | one more message in its own month's row and no other row |
| Budget.TurnIsCheckThenRecord | services/api/src/agent/agent-budget.service.ts:81-137 | an uninterrupted turn of the interleaved system is a check and, if admitted, one record; a dropped one records nothing |
| Budget.TurnAcrossMonths | services/api/src/agent/agent-budget.service.ts:112-137 | a turn admitted in one month and finished in the next is counted in the later one |
| Budget.MonthTextsDiffer | services/api/src/agent/agent-budget.service.ts:73-75 | two months share a usage key only if they are the same month |
| Budget.OverrunBound | services/api/src/agent/agent-budget.service.ts:81-137 | with at most c turns in flight no month exceeds its limit by more than c - 1, across stale checks and month ends |
| Budget.OverrunIsExact | services/api/src/agent/agent-budget.service.ts:20-32 | some run ends exactly on that bound |
| Budget.ZeroLimitNeverAdmits | services/api/src/agent/agent-budget.service.ts:91-98 | no plan, no turn |
| Throttle.AtMostTwentyPerWindow | services/api/src/agent/agent-throttle.service.ts:83-97 | of the messages counted before their own window closed, at most 20 are allowed per window and 40 in any 300 seconds, over every run |
| Throttle.AtMostTwentyPerLabel | services/api/src/agent/agent-throttle.service.ts:83-97 | whatever the delays, in any 300 seconds at most 20 messages are allowed under one window's label, and 20 for each label counted in them |
| Throttle.MoreThanTwentyUnderOneLabel | services/api/src/agent/agent-throttle.service.ts:83-86 | a run that allows 21 messages under one label, one of them counted after its key expired |
| Throttle.MoreThanFortyInASpan | services/api/src/agent/agent-throttle.service.ts:83-97 | a run that allows 41 messages within 300 seconds, one of them counted after its window |
| Throttle.RepeatsAreApart | services/api/src/agent/agent-throttle.service.ts:114-119 | two messages with one text that both pass are at least 30 seconds apart |
| Throttle.RetryAdvancesWindow | services/api/src/agent/agent-throttle.service.ts:89-95 | after the reported wait the window has advanced |
| Throttle.RetryIsLeast | services/api/src/agent/agent-throttle.service.ts:89-95 | the reported wait is the least whole number of seconds, at least one, that does so |
| Throttle.CheckIsARun | services/api/src/agent/agent-throttle.service.ts:75-107 | an uninterrupted check is a run of the interleaved system |
| Throttle.GivenUpLeavesNothing | services/api/src/agent/agent-throttle.service.ts:100-106 | a check given up before it reaches Redis leaves nothing behind |
| Throttle.AgentThrottle.Check | services/api/src/agent/agent-throttle.service.ts:75-107 | the decision and the keys left in Redis, with time passing between the operations |
| MutationQueue.Queue.Enqueue | apps/storefront/lib/mutation-queue.ts:16-27 | a task is chained on the current tail and becomes the tail |
| MutationQueue.Queue.Settle | apps/storefront/lib/mutation-queue.ts:20-25 | a task's outcome reaches its own caller and changes no other task |
| MutationQueue.EarlierAreDone | apps/storefront/lib/mutation-queue.ts:16-27 | tasks start in enqueue order, each after all before it are over |
| MutationQueue.AtMostOneRunning | apps/storefront/lib/mutation-queue.ts:1-9 | one task at a time |
| MutationQueue.NeverStuck | apps/storefront/lib/mutation-queue.ts:21-24 | a rejected task never blocks a later one |
| Cart.QuiescentAgreement | apps/storefront/lib/cart-context.tsx:56-117 | with nothing waiting, the page shows the server's cart, over every schedule without a spoiling event |
| Cart.LandingRestoresAgreement | apps/storefront/lib/cart-context.tsx:80-105 | after any schedule, spoiled or not, the next accepted answer that lands restores agreement for as long as nothing spoils it again |
| Cart.SpoilersExactly | apps/storefront/lib/cart-context.tsx:58-78 | a late initial fetch and a cleared page break agreement exactly when they differ from the server |
| Cart.LostAnswerExactly | apps/storefront/lib/cart-context.tsx:80-105 | a lost answer breaks agreement exactly when the request changed the cart |
| Cart.UnqueuedDisagrees | apps/storefront/lib/cart-context.tsx:45-54 | without the queue any two mutations, the second one effective, can end in disagreement |
| Cart.OpeningShowsCart | apps/storefront/lib/cart-context.tsx:56-78 | a page that is opened and answered shows the server's cart |
| Cart.MutationRuns | apps/storefront/lib/cart-context.tsx:80-105 | an undisturbed mutation is served once and shown if accepted; one lost on its way changes neither cart; either way its task is over |
| Cart.ServedQuantities | services/api/src/checkout/cart.service.ts:94-155 | what each request does to the quantities of the server's cart, and that only a change of an absent item is refused |
| WhatsApp.ParseCloud | packages/whatsapp/src/cloud.ts:31-83 | the three nested loops collect, in order, the well-formed text messages addressed to the number |
| WhatsApp.TextMessageExactly | packages/whatsapp/src/cloud.ts:62-79 | a raw message gives an inbound one if and only if it is a text with a sender, an id and a body that is not blank |
| WhatsApp.BlankExactly | packages/whatsapp/src/cloud.ts:69-70 | a body is blank if and only if it is white space throughout |
| WhatsApp.CloudRoundTrip | packages/whatsapp/src/cloud.ts:48-83 | texts sent to a number come back from their delivery as they were sent, in order, and no other number is given them |
| WhatsApp.ContactNames | packages/whatsapp/src/cloud.ts:167-179 | the name is the trimmed one of the sender's first contact that has one |
| WhatsApp.BatchPartition | packages/whatsapp/src/cloud.ts:50-82 | parsing once per registered number splits a delivery between the numbers, without loss, overlap or reordering |
| WhatsApp.ShapesAgree | packages/whatsapp/src/evolution.ts:60-91 | the flat and nested shapes of one message parse alike, except exactly when the event has no name and the flat content has one of its own |
| WhatsApp.EvolutionRoundTrip | packages/whatsapp/src/evolution.ts:30-108 | an event of either shape comes back as it was sent, or is refused or ignored, exactly as authenticity, event, instance, sender, chat and text decide |
| WhatsApp.NeverOwnNeverGroup | packages/whatsapp/src/evolution.ts:65-79 | no own-sent and no group message is ever returned |
| Phone.NormalizeColombianMobile | packages/core/src/whatsapp-schemas.ts:71-86 | the step-by-step peeling computes the canonical form |
| Phone.SeparatorsDoNotMatter | packages/core/src/whatsapp-schemas.ts:30-36 | a separator typed anywhere changes nothing |
| Phone.AcceptedNotations | packages/core/src/whatsapp-schemas.ts:38-86 | an input gives a number if and only if it is one of its eight notations |
| Phone.AcceptedCharacters | packages/core/src/whatsapp-schemas.ts:30-36 | an accepted input holds digits, a plus sign and the separators, and no other character |
| Phone.CanonicalIsStable | packages/whatsapp/src/phone.ts:16-18 | normalizing is idempotent, and the adapters send the canonical form's digits |
| Phone.SuffixIsDropped | packages/whatsapp/src/phone.ts:16-18 | what follows an at sign is dropped, and digits in front of it are kept |
| Phone.PunctuationIsDropped | packages/whatsapp/src/phone.ts:16-18 | any other character that is no digit changes nothing |
| Shipping.FillRates | apps/admin/components/shipping-tab.tsx:88-93 | the loop over the departamentos fills one text for each |
| Shipping.ReadRates | apps/admin/components/shipping-tab.tsx:138-144 | the loop over the entries keeps exactly the non-blank ones |
| Shipping.PriceRoundTrip | apps/admin/lib/format.ts:53-69 | a price printed in pesos and parsed back is the same cents |
| Shipping.PriceTexts | apps/admin/lib/format.ts:53-59 | a text is a price if and only if it holds a number that is not negative; a blank one is none |
| Shipping.FaithfulNumbersExist | apps/admin/lib/format.ts:53-69 | what is asked of number printing and rounding for these prices can be met |
| Shipping.LoadThenSave | apps/admin/components/shipping-tab.tsx:78-175 | load then save gives the method back if and only if its zone codes are listed and its instructions absent or trimmed |
| BogotaDays.DateOfDayNumber | packages/core/src/platform-schemas.ts:142-145 | calendar dates survive the conversion to day numbers and back |
| BogotaDays.DayNumberOfDate | packages/core/src/platform-schemas.ts:142-145 | and so does every integer day number |
| BogotaDays.RealDaysExist | packages/core/src/platform-schemas.ts:139-145 | the check accepts a day if and only if it exists |
| BogotaDays.DaysThatExist | packages/core/src/platform-schemas.ts:142-145 | which days those are, by month lengths and the leap-year rule |
| BogotaDays.StoredDayRendersBack | apps/admin/lib/format.ts:108-143 | every stored day renders back as the same day |
| BogotaDays.EndOfDayIsLast | packages/core/src/platform-schemas.ts:147-157 | the stored instant is the day's last millisecond in Colombia |
| BogotaDays.FirstOf2020 | packages/core/src/platform-schemas.ts:153 | the Unix time at which one day ends, which fixes the calendar's origin |
| BogotaDays.FormMirrorsServer | apps/admin/lib/platform-api.ts:656-704 | form and API accept the same days except two |
| Slug.SlugifyGivesSlugs | packages/core/src/slug.ts:1-10 | every input gives the empty text or a valid slug of at most 60 characters with no adjacent hyphens |
| Slug.SlugifyIdempotent | packages/core/src/slug.ts:1-10 | slugs are their own slugs |
| Slug.CollapseRuns | packages/core/src/slug.ts:6 | letters and digits are kept, and each run of other characters becomes one hyphen |
| Slug.KeptCharacters | packages/core/src/slug.ts:6 | the characters that are kept are the lower-case letters and the digits |
| Slug.SlugKeepsLetters | packages/core/src/slug.ts:1-10 | a slug's letters and digits are the folded input's own, in order, and all of them unless sixty characters run out |

## Left out

- Hashes and HMACs are function parameters, injective where a lemma says so; timing-safe comparison is equality.
- JSON text, UTF-8 decoding and Unicode normalization: the models start from parsed values and decoded characters; `Slug` takes the folding as a parameter that leaves plain text alone, and `Sse` states what a JSON printer guarantees.
- JavaScript's inherited object properties (a signed path such as `constructor`) are not readable through `JsonValue.Member`.
- Floating point beyond a relative rounding error of 2^-53 per operation: no overflow, subnormals or negative zero; amounts go up to 2^50 cents.
- Database errors inside one operation, deadlocks and lock timeouts: a transaction is one atomic step, and a crash may fall between any two.
- Webhook rate limiting, body parsing, credential storage and the sweep's choice of orders and lookups: a reconciliation is any bound or unbound gateway answer for any order at any time.
- Stock rows written by the CSV import, and rows of deleted products; new variant ids are taken to be unused.
- ePayco's confirmation body parsing and numeric response codes; refunds.
- A webhook whose reference is malformed and whose key already exists unprocessed is answered 200 and leaves that row unprocessed; the answered-means-processed part of the invariant is stated for well-formed references.
- The argument rewriting of `packages/db` is modelled on values: `scopeArgs` copies its arguments and `TenantDb.Scope` returns the copy. The model does not capture relation filters, `createManyAndReturn`, composite unique constraints or isolation levels; each statement is atomic.
- `Cart` and the settle protocol are state machines on values rather than classes, because their callbacks and handlers interleave.
- Other tabs and the agent changing the same cart, and server-side stock checks on cart lines.
- Human handoff, token costs and the model call itself in the agent; `Budget` counts turns, and takes 90% of the limit exactly.
- Full ISO-8601 timestamps as `paidUntil`; `BogotaDays` covers the date-only form.
- React components, HTTP plumbing, sessions, framework wiring, Zod length and enum bounds, plan tables and departamento lists.
