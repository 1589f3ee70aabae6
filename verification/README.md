# RVM token ledger — a Dafny model

The recycling-rewards app keeps a token ledger. Reverse-vending machines
issue single-use QR codes. Scanning a code credits the scanning user with
the code's token value. Users spend tokens on rewards from a catalog, and
an admin area is guarded by a role check. This project models that ledger
as a sequential state machine over an immutable store. The store has
users, rewards, QR transactions keyed by their code, and the append-only
redemption table. The project proves what each handler promises and what
holds along any sequence of requests.

Modules: two shared ones, then one per source component.

- `Wrappers`: `Option` and `Result`.
- `Entities`: the rows, the `Store`, the global invariant `Valid`, and two
  relations between successive stores. `CodesSettled` says consumed codes
  are frozen. `AccountsKept` says no account appears or vanishes and
  redemptions are only appended.
- `QrGenerate`: the item-type token table, the code string format, and the
  creation of an unscanned transaction (src/app/api/qr/generate/route.ts).
- `QrScan`: the lookup, the single-use check and the two separate writes,
  mark-scanned then credit-user (src/app/api/qr/scan/route.ts).
- `RewardRedeem`: the ordered validations and the all-or-nothing triple
  write (src/app/api/rewards/redeem/route.ts).
- `AdminGuard`: the admin-path decision and the path matcher it is
  registered for (src/middleware.ts).
- `LedgerRuns`: the handlers as steps of one machine. It proves that the
  invariant is kept along runs, that codes are single-use, and that tokens
  are conserved.

The scan handler makes two separate store updates: it marks the code
scanned, then credits the user. `Scan` therefore returns the store it
leaves behind even when it fails. `ScanUnknownUserLosesCode` and
`ScanFaultLosesCredit` show the consequence. When the second write fails,
the code stays consumed, nobody is credited, and the code can never be
claimed again. A fault on the lookup or on the first write is different:
it answers 500 before anything is written, and the code can still be
claimed (`ScanEarlyFaultKeepsCode`).

Inputs that the handlers take from the environment are parameters. The
random hex suffix of a code is `nonce`. The clock reading stored as
`scannedAt` is `now`. A store fault met by the scan handler is the
`ScanFault` input, which names the failing step: the lookup, the first
write or the second write. The session returned by the auth provider is an
`Option<Session>`.

## Model

| member | source | states |
|---|---|---|
| QrGenerate.TokensFor | src/app/api/qr/generate/route.ts:14-21 | Every item type earns a positive token value, one of 5, 10, 15 or 20. |
| QrGenerate.TokenTable | src/app/api/qr/generate/route.ts:14-21 | PLASTIC_BOTTLE earns 10, ALUMINUM_CAN 15, GLASS_BOTTLE 20, PAPER 5, and any other item type the default of 10. |
| QrGenerate.QrCodeFor | src/app/api/qr/generate/route.ts:11 | The code is "RVM-", then the machine id, then a hyphen, then the random suffix. The contract gives each piece at its position. |
| QrGenerate.ParseQrCodeFor | src/app/api/qr/generate/route.ts:11 | A code built with a hyphen-free suffix, as every hex suffix is, splits back into its machine id and suffix. This holds for any machine id, including hyphenated ones such as "RVM-3". |
| QrGenerate.QrCodeForParse | src/app/api/qr/generate/route.ts:11 | Conversely, every string that splits that way is the code built from the parsed machine id and a hyphen-free suffix. |
| QrGenerate.QrCodeForInjective | src/app/api/qr/generate/route.ts:11 | For hyphen-free suffixes, equal codes come from the same machine and the same suffix, for any machine ids. |
| QrGenerate.Generate | src/app/api/qr/generate/route.ts:6-43 | A new code yields an unscanned, unstamped transaction. It stores the given user, machine, location and item type and the table's token value, and nothing else in the store changes. A code that already exists fails with 500 and leaves the store unchanged. |
| QrScan.MarkScanned | src/app/api/qr/scan/route.ts:28-35 | The first write marks the code scanned, stamps it and reassigns it to the scanning user. The code's value and origin stay as they were, and no other row changes. |
| QrScan.CreditUser | src/app/api/qr/scan/route.ts:38-45 | The second write fails exactly when the user row is missing or the store faults. Otherwise the user's row gains the code's value in tokens and one bottle and one carbon step, and nothing else changes. |
| QrScan.Scan | src/app/api/qr/scan/route.ts:4-59 | A fault on the lookup gives 500 and changes nothing. Otherwise an unknown code gives 404 "Invalid QR code" and an already-scanned code gives 400 "QR code already used", whoever scans it; neither changes the store. A fault on the first write gives 500 and changes nothing. Otherwise the code's row becomes scanned, stamped and assigned to the scanner, and rewards, redemptions, other codes and other users stay unchanged. The reply succeeds exactly when the user exists and the second write meets no fault. The scanner's row then gains the code's value, one bottle and one carbon step, and the reply gives tokensEarned equal to the code's value and newBalance equal to the new balance. Otherwise the reply is 500 and no user row changes. |
| QrScan.ScanTwice | src/app/api/qr/scan/route.ts:20-45 | After a code has been consumed, every later scan of it, by any user, changes nothing, and unless its own lookup faults it fails as already used. |
| QrScan.ScanEarlyFaultKeepsCode | src/app/api/qr/scan/route.ts:9-35 | A fault on the lookup or the first write gives 500 and leaves the store as it was, so a later fault-free scan by an existing user is credited the code's full value. |
| QrScan.ScanFaultLosesCredit | src/app/api/qr/scan/route.ts:38-58 | When the second write faults for an existing user, the reply is 500 and the code is left consumed and assigned to that user. The user's balance has not moved, and every retry fails as already used. |
| QrScan.ScanUnknownUserLosesCode | src/app/api/qr/scan/route.ts:28-58 | When the scanning user does not exist, the reply is 500, the code is left consumed, no balance moves, and every retry fails as already used. |
| RewardRedeem.Redeem | src/app/api/rewards/redeem/route.ts:4-86 | The checks run in this order: missing id (400), unknown user or reward (404), insufficient tokens (400), inactive or out of stock (400). Each failure leaves the store unchanged. Success happens exactly when the balance covers the cost and the reward is active with stock. It then appends one PENDING redemption at the reward's cost. The user row changes only in its tokens, debited by the cost and still non-negative. The reward row changes only in its stock, one lower and still non-negative. The reply's balance is the new balance. Other users, other rewards and all QR transactions stay unchanged. |
| RewardRedeem.InsufficientBeforeUnavailable | src/app/api/rewards/redeem/route.ts:32-45 | An unaffordable reward is reported as "Insufficient tokens" even when it is also inactive or out of stock. |
| RewardRedeem.RedeemTwice | src/app/api/rewards/redeem/route.ts:32-72 | A user who can pay for a reward only once, or who takes its last unit, cannot redeem it a second time. |
| RewardRedeem.LastUnitOnce | src/app/api/rewards/redeem/route.ts:40-71 | Two users who can both afford the last unit: the first gets it and the stock drops to zero. The second is told the reward is not available. |
| AdminGuard.Guard | src/middleware.ts:5-22 | The guard only ever lets the request through, redirects to /login, or redirects to /dashboard. It redirects to /login exactly for an admin path without a session. |
| AdminGuard.GuardDecision | src/middleware.ts:9-21 | A request goes through exactly when its path is outside the admin area or its session has role ADMIN. It is sent to /dashboard exactly when an admin path carries a non-ADMIN session. |
| AdminGuard.SessionIgnoredOutsideAdmin | src/middleware.ts:9-21 | Outside the admin prefix the result is always next, whatever the session. |
| AdminGuard.PrefixIsTextual | src/middleware.ts:9-18 | Any text after "/dashboard/admin", even one not starting with a slash, still makes the path guarded. |
| AdminGuard.MatchedIsAdminPath | src/middleware.ts:24-26 | Every path the guard is registered for passes its prefix test. |
| AdminGuard.Route | src/middleware.ts:24-26 | Paths outside the registration always go through. On registered paths, only an ADMIN session goes through. |
| LedgerRuns.GenerateThenScanOnce | src/app/api/qr/generate/route.ts:24-34 | A freshly generated code, scanned by an existing user without a fault, credits exactly the item's table value and is assigned to that user. Any later scan of it changes nothing and, unless its lookup faults, fails as already used. |
| LedgerRuns.StepPreservesValid | src/app/api/rewards/redeem/route.ts:32-71 | Each request keeps balances, bottle counts and stock non-negative and every code's value positive. |
| LedgerRuns.StepSettles | src/app/api/qr/scan/route.ts:20-35 | Each request leaves consumed codes exactly as they were, keeps every account, and only appends redemptions. |
| LedgerRuns.RunPreservesValid | src/app/api/rewards/redeem/route.ts:32-71 | The invariant holds after any sequence of requests. |
| LedgerRuns.RunSettles | src/app/api/qr/scan/route.ts:20-35 | Along any sequence of requests, a consumed code is never unconsumed, reassigned or re-valued. No account appears or disappears, and the redemption table only grows at its end. |
| LedgerRuns.StepConservation | src/app/api/qr/scan/route.ts:38-45 | Unless a scan's second write faults, one request changes an existing user's balance by the value of the codes consumed and assigned to them, minus the cost of the redemptions recorded for them. From a valid store, with any faults, the balance never exceeds that amount. |
| LedgerRuns.Conservation | src/app/api/rewards/redeem/route.ts:48-72 | Along any run in which no scan's second write faults, an existing user's balance changes by exactly the value of the codes consumed and assigned to them during the run, minus the costs in the redemption rows appended for them. Each code counts once. Along any run from a valid store, faults included, the balance never exceeds that amount. |

## Left out

- The floating-point `carbonSaved` column. Each scan adds 0.05 to it. The model keeps it as `carbonUnits`, a count of 0.05 kg steps that goes up by one per credited scan.
- The random hex suffix of the code, generated by `crypto.randomBytes`. It is the `nonce` parameter. Codes are unique because a collision is rejected with 500, as the unique `qrCode` column would reject it.
- Concurrency. Redeem writes absolute values computed from an earlier read, and scan checks the flag before it updates. The model serves one request at a time, so these race windows cannot be expressed.
- JSON parsing, the HTTP response objects, the `auth()` session provider, password hashing and the ORM itself. These are foreign code. The store is a set of immutable maps, the session is an input, and a response is a typed error or a reply value. A store fault in redeem is not modelled: the three writes run in one store transaction, which rolls back, so a fault there changes nothing. The same holds for a malformed request body in any handler. Faults in the scan handler are modelled, because a fault on its second write leaves the first write in place.
- QrGenerate.TokensFor: `tokenMap[itemType] || 10` on a plain object. A name inherited from the object prototype, such as "constructor", looks up a function rather than nothing, and the store would then reject the row. The model gives such names the default of 10.
- QrScan.Scan: both request fields are taken as present strings. A missing `userId` or `qrCode` reaches the ORM as undefined, and what the ORM then does is not part of this model.
- QrScan.MarkScanned: the model lets the first write succeed for any user id. The database schema is not part of this model. Under a foreign-key constraint, the first write with an unknown user id would fail instead, giving 500 with nothing written. The model reaches that outcome only through the `MarkFault` input, not as a consequence of the id.
- QrGenerate.Generate: the model fails only on a code that already exists. The create call can also fail on a store fault, or under a foreign key on `userId` when the id names no user. Either would give 500 with nothing written. Neither is modelled: the store does not fault in this handler, and the schema is not part of this model.
- AdminGuard.Route: the framework's matcher pattern `/dashboard/admin/:path*` is approximated as the admin root plus every path under "/dashboard/admin/". Locale prefixes and trailing-slash handling are not modelled. Redirect targets are kept as paths; the source resolves them against the request URL.
- The read-only projections: leaderboard ordering, the active-reward listing, and the admin analytics sums. The admin reward deletion route is also left out. None of them keeps a ledger invariant.
- Page components, layout and the seed script. They render or insert demonstration data.
