# Setu cloud, modelled and proved in Dafny

The server is a set of Go handlers over Postgres and Redis. This project models its stateful core
statement by statement and proves what that core promises, over every run and every interleaving.

How the model is built:

- A table is a map or a sequence, and an `UPDATE … WHERE` or an `INSERT … ON CONFLICT` is one function
  from tables to tables. Unique indexes are maps that an invariant keeps exact.
- A request is a step `Step(state, now, request)` with a reply. A run is any sequence of timed requests
  from the empty tables. Main results are stated over runs, mostly as "it answers yes exactly when the
  history of requests and replies says so", without mention of the tables.
- The key service, the LAN key, the BLE claim and the WebSocket hub are modelled finer: every database
  statement, cache access, channel operation and clock tick of every concurrent call is a step of its own.
- What the Go code does by assignment is a class with the tables as fields, and every loop has its
  invariants. A handler's method is proved to be the step that the run theorems speak of. The methods of the
  fine-grained parts are proved to be paths of their systems. Those of the LAN key, the BLE claim and the hub
  carry the history of everything ever done to their tables as a ghost field, and keep it a path from the
  start; in the first two, the other callers take whatever steps they like between any two statements.
- Random draws (ids, tokens, nonces) are inputs that a run must not repeat. SHA-256 is injective and AES-GCM
  opens under the sealing key only. bcrypt compares the first 72 bytes and refuses to hash more. A password
  or a code is its bytes, none of them NUL.

| file | models |
|---|---|
| `Keystore`, `Gcm` | tenant keys: N processes with a five-minute cache each over one table |
| `Sessions`, `Lockout`, `Auth`, `SignUp`, `AuthServer` | refresh-token families, login lockout, sign-up by code, and the handlers over all their tables |
| `OAuth`, `CodeExchange`, `PairIssue` | authorization codes and token pairs; exchange and issue statement by statement |
| `Schedule` | a caller's statements with the steps of others in between |
| `WriteOnce`, `LocalKey`, `BleClaim` | select, insert-if-absent, re-select, and its two uses |
| `Hub`, `HubServer` | WebSocket clients, bounded channels, fan-out and writers, as a system and as objects |
| `Hex`, `Mac`, `Text`, `WorkList` | hexadecimal, 48-bit MAC arithmetic, the work list of a batch |
| `Inventory`, `Lifecycle`, `InventoryServer` | the device inventory under claims, provisioning, resets, deletes and seeding |
| `Decimal`, `ShadowRows`, `Shadow` | decimal ids, the shadow table and its cached documents |
| `Topic` | MQTT topics |
| `Color` | RGB, HSB and colour temperature over the reals |
| `Schema`, `Google`, `GoogleHandler`, `ProductToGoogle` | product artifact to capabilities, capabilities and commands to Google state |

What the proofs found, where the code does not do what one would expect of it:

- `Lifecycle.ByHandReadsInventory`: a device provisioned in the portal keeps status `inventory`; only a
  factory claim writes `provisioned`.
- `SignUp.LongPasswordExactly`: a sign-up in order but for a password over 72 bytes meets a server error, makes
  no account, and has used its verification token up.
- `SignUp.LoginExactly`: an account whose password has exactly 72 bytes opens for every extension of it.
- `Lifecycle.AdoptLookupExactly`: the lookup by Wi-Fi or BLE address matches two devices exactly when the MAC
  looked up and the one two below it are both provisioned and the lower one has its BLE address on record.
  `Lifecycle.AdoptLookupMayFindTwo` reaches that for every MAC.
- `ShadowRows.OrderUnseenExactly`: the order in which Go walks a report shows exactly when two of its keys
  name one id with different values. `ShadowRows.AliasesClash`: every id has such a second key, with a zero in
  front, and then the last entry of Go's map decides, whatever the table held.
- `Shadow.BypassShows`: a `/shd` snapshot always leaves a wrong document. A desired value written by the command
  handlers does unless nothing is cached, it is refused, or that wish stands already; the removal of a device
  does unless nothing is cached or it had no values. `Shadow.StaleAnswer`: from any run with the device present,
  a wish through the service and another past it make GetShadow answer the first.
- `Google.ExecuteShowsExactly`: an EXECUTE shows the last value aimed at a kind, or the report, for all reports and
  commands exactly when the other colour kind is absent (for the colour field) and no command of another kind
  writes a datapoint of this one. `ProductToGoogle.ProductShowsExactly` says it of artifacts, and
  `ProductToGoogle.TwoFacedMisleads` has a panel with two kinds for one datapoint, which is accepted.
- `GoogleHandler.SuccessTrueExactly`: the state in an EXECUTE answer is that of the last reached device alone. It is
  true of another device exactly when both or neither have the kind aimed at or, when nothing was aimed at it,
  both reported the same. `GoogleHandler.SuccessMisstates` has two lamps of different brightness switched on.
- `GoogleHandler.EntriesExactly`: a device that was reached and refused something, even everything, is listed as a
  success and as an error.
- `Color.RGBSurvivesExactly`: the RGB round trip fails exactly on a zero maximum with a negative channel.
- `Mac.CopiesAgreeExactly`: the two copies of `macPlusN` agree on valid MACs only.
- `Keystore.StaleKeyCanBeReturned`, `Lockout.BoundIsTight`: the five-minute window and the comparison
  bound are attained, so neither can be stated tighter.
- `CodeExchange.BothSucceedExactly`: `ExchangeAuthCode` is called atomic (`internal/oauth/store.go:113`) but
  selects, checks and then updates without a lock. Two calls exchange one code exactly when both selects
  precede whatever ends it. `CodeExchange.TwoAtOnce` and `CodeExchange.TwiceAfterFailure` are such runs.
- `PairIssue.BothLiveExactly`: `IssueTokenPair` revokes older pairs and inserts in two statements. Two pairs of one
  client and user, otherwise left alone, both live exactly when the later one's revoke came before the earlier
  insert or took no effect (`PairIssue.TwoIssuedAtOnce`). `PairIssue.BothRotateExactly`: one refresh token is
  rotated by two calls exactly when both selects precede whatever ends its pair (`PairIssue.RotatedTwice`).

## Model

| member | source | states |
|---|---|---|
| `Keystore.StepKeepsInv` | internal/keystore/keystore.go:66-139 | every single step of every process keeps: one unretired row per tenant, spans of a tenant's rows disjoint and in order, every cache entry and pending result justified by a span; rows are only appended or retired |
| `Keystore.CommitKeepsRows` | internal/keystore/keystore.go:97-112 | a committed rotation, whatever rows its UPDATE had locked, leaves the table consistent with the new key active at that instant |
| `Keystore.ReturnedKeysAreRecent` | internal/keystore/keystore.go:125-139 | in every interleaving, a key returned at t belongs to the asking tenant and was its active key at some instant of (t - 5 min - lag, t] |
| `Keystore.AllInstancesConverge` | internal/keystore/keystore.go:66-139 | once 5 min + lag have passed since the last rotation, any process returns exactly the new key |
| `Keystore.RetiredKeysStayRetired` | internal/keystore/keystore.go:97-108 | a retired key is the active key of no tenant at any later instant |
| `Keystore.StaleKeyCanBeReturned` | internal/keystore/keystore.go:125-131 | a run in which a process serves a key 299 s after another process retired it |
| `Keystore.Service.LoadFromDB` | internal/keystore/keystore.go:192-223 | the method is a path of system steps from Loading; no row, a row sealed under another key and a good row end as the three outcomes |
| `Keystore.Service.Generate` | internal/keystore/keystore.go:66-120 | the method is a path of system steps: old row retired, new row and cache entry in place, or all unchanged on a constraint violation |
| `Keystore.Service.ActiveKey` | internal/keystore/keystore.go:125-139 | the method is a path of the system whose runs are proved safe: cache hit within the TTL, reload, or first-use generation |
| `Keystore.Service.Invalidate` | internal/keystore/keystore.go:152-156 | exactly the tenant's entry leaves the cache |
| `Sessions.RefreshAcceptsExactly` | internal/app/auth.go:373-440 | over every run, a token is accepted exactly when it was issued at most 60 days ago, is the newest of its family, no exchanged token of the family was presented again, it was not logged out and its owner not deleted since |
| `Sessions.LiveIffGood` | internal/app/auth.go:388-414 | the row of a token is unused and unrevoked exactly when the history of its family is clean |
| `Sessions.FamiliesStep` | internal/app/auth.go:403-433 | every request keeps: a family has one owner, one revocation state and at most one live token |
| `Sessions.OneLiveTokenPerFamily` | internal/app/auth.go:417-433 | two live tokens of one family are the same token, in every reachable table |
| `Sessions.DeadFamilyStaysDead` | internal/app/auth.go:397-409 | once a token's row is revoked, no token of its family is ever live again |
| `Lockout.ComparisonsBounded` | internal/app/auth.go:323-344 | without a successful login, attempts within a span T reach the password comparison at most 5 + T / 5 min times |
| `Lockout.BoundIsTight` | internal/app/auth.go:328-337 | for every k, a guesser who waits for each lock to expire makes exactly 5 + k comparisons in k × 5 min |
| `Auth.SessionsProject` | internal/app/auth.go:67-95 | in every run of all nine handlers, the refresh-token table is what the session events alone would have made it |
| `Auth.RefreshExactly` | internal/app/auth.go:373-440 | after any run of all handlers, Refresh answers with a new pair exactly for a token of clean history and at most 60 days |
| `Auth.LoginComparisonsBounded` | internal/app/auth.go:311-344 | in any stretch of any run of the nine handlers without a successful login to an account, Login compares at most 5 + T / 5 min passwords for it |
| `Auth.RegistrationBacked` | internal/app/auth.go:234-283 | every created account rests on an earlier VerifyOTP that handed out its token for the same email, and token and code are both consumed ever after |
| `Auth.OneAccountPerToken` | internal/app/auth.go:238-260 | two registrations never used one verification token |
| `Auth.OneTokenPerCode` | internal/app/auth.go:169-201 | two verification tokens never came from one code |
| `Auth.AccountsRestOnDistinctCodes` | internal/app/auth.go:152-292 | different accounts of a reachable state rest on different tokens and different codes: the injection from accounts to codes |
| `Auth.FiveGuessesPerCode` | internal/app/auth.go:182-187 | VerifyOTP compares no code more than five times in any run, and the attempts column is that count |
| `Auth.LatestIsNewest` | internal/app/auth.go:169-173 | the code picked as most recent is newer by at least 30 s than every other open code of the address |
| `Auth.CodesSpaced` | internal/app/auth.go:117-125 | in every run, two open codes of one address are created at least 30 s apart |
| `SignUp.CodesMirror` | internal/app/auth.go:98-605 | the unconsumed codes of an address are those that the history of requests and replies leaves open: a request sends one unless the newest is younger than 30 s, a comparison counts on the newest, and a success uses it up |
| `SignUp.VerifyExactly` | internal/app/auth.go:152-207 | after any run, VerifyOTP hands out a token exactly for the newest code that the history leaves open, submitted as some request sent it, before it expires and before five comparisons of it |
| `SignUp.RegisterExactly` | internal/app/auth.go:211-292 | after any run, Register opens a session exactly for a filled-in form with a password of at most 72 bytes, an email that no standing registration has, and a token that VerifyOTP handed out for that email within ten minutes and no registration used up |
| `SignUp.LongPasswordExactly` | internal/app/auth.go:260-273 | after any run, Register answers with the server error exactly when only the 72 bytes are exceeded; no user is added and the token is spent |
| `SignUp.LongPasswordRun` | internal/app/auth.go:253-273 | for every password over 72 bytes, a run from the empty tables in which sign-up fails on it and a short password is then refused for its token |
| `SignUp.LoginExactly` | internal/app/auth.go:295-353 | after any run, Login opens a session for a user exactly when a standing registration of that user has this email and this password, or one of 72 bytes that this one extends, and the logins since that named the email have not locked it |
| `SignUp.DeleteExactly` | internal/app/auth.go:467-547 | after any run, an account is deleted exactly on the newest code that the history leaves open for the address of its standing registration, as it was sent and before it expires |
| `SignUp.OneAccountPerEmail` | internal/app/auth.go:262-283 | no two standing registrations share an email |
| `SignUp.TokensMirror` | internal/app/auth.go:191-273 | the unconsumed verification tokens are those handed out and not used up by a registration, be it answered with a session, a taken email or a server error; each has the email and time of the request that gave it |
| `SignUp.AccountsMirror` | internal/app/auth.go:276-537 | the accounts are the registrations that no deletion followed, each with the email and password of the registration and the counter and lock that the logins since have left |
| `SignUp.CodeOrigin` | internal/app/auth.go:127-132 | every stored code was stored by one code request of the run, and holds that request's code and expiry |
| `AuthServer.Server.RequestOTP` | internal/app/auth.go:98-148 | new tables and reply are the step's: refused when blank or registered, no second code within 30 s, else one more code |
| `AuthServer.Server.VerifyOTP` | internal/app/auth.go:152-207 | new tables and reply are the step's: attempt counted before the comparison, code consumed and token stored only on a match |
| `AuthServer.Server.Register` | internal/app/auth.go:211-292 | new tables and reply are the step's: the token is consumed even when the email turns out taken or the password too long to hash |
| `AuthServer.Server.Login` | internal/app/auth.go:295-353 | new tables and reply are the step's: locked, wrong with counter and perhaps lock, or correct with both cleared and a session |
| `AuthServer.Server.Guest` | internal/app/auth.go:356-368 | new tables and reply are the step's: a user without email and no refresh token |
| `AuthServer.Server.Refresh` | internal/app/auth.go:373-440 | new tables and reply are the step's: revoked and used are told apart before expiry is looked at |
| `AuthServer.Server.Logout` | internal/app/auth.go:444-461 | new tables and reply are the step's: a live token takes its whole family with it, any other text changes nothing |
| `AuthServer.Server.DeleteAccount` | internal/app/auth.go:467-547 | new tables and reply are the step's: the code is consumed, the user's tokens revoked, the user and the email freed |
| `AuthServer.Server.RequestDeleteOTP` | internal/app/auth.go:551-605 | new tables and reply are the step's: not found, a guest, or one more code for the stored address |
| `OAuth.LookupExactly` | internal/oauth/store.go:211-231 | an access token is accepted exactly when some request issued it at most an hour ago and no newer pair of its client and user, no revocation by either token and no deletion followed; it then names that pair's client, user and scope |
| `OAuth.RotateExactly` | internal/oauth/store.go:178-208 | a rotation succeeds exactly for the client's own pair of at most 30 days that nothing has ended, and issues the new pair for its user and scope |
| `OAuth.OneLivePair` | internal/oauth/store.go:157-170 | in every run of undivided calls two accepted access tokens of one client and user are the same |
| `OAuth.RevocationKillsBoth` | internal/oauth/store.go:234-237 | once either token of a pair was revoked, the access token is never accepted and the refresh token never rotated again |
| `OAuth.OneGrantPerToken` | internal/oauth/store.go:147-175 | no token is ever part of two issued pairs |
| `OAuth.RunKeepsSound` | internal/oauth/store.go:147-208 | in every such run the refresh-hash index is exact, live pairs have living users and each client and user has one at most |
| `PairIssue.LiveExactly` | internal/oauth/store.go:157-170 | in every interleaving of single statements, any of which may fail, an inserted pair lives exactly until an effective revoke of its client and user, a revoke of itself or the deletion of its user |
| `PairIssue.BothLiveExactly` | internal/oauth/store.go:156-170 | two pairs of one client and user that nothing else ends both live on exactly when the later call did not effectively revoke after the earlier one had inserted |
| `PairIssue.OneLiveWhenUndivided` | internal/oauth/store.go:147-170 | were each revoke effective and followed at once by its insert, the earlier pair would never live on |
| `PairIssue.RotatesExactly` | internal/oauth/store.go:178-202 | a rotation with the right client and in time is let through exactly when nothing has ended the pair before its select |
| `PairIssue.BothRotateExactly` | internal/oauth/store.go:178-208 | one refresh token is rotated by both of two such calls exactly when both selects precede whatever ends its pair |
| `PairIssue.TwoIssuedAtOnce` | internal/oauth/store.go:156-170 | for every client and user, two calls at once that leave two live pairs |
| `PairIssue.RotatedTwice` | internal/oauth/store.go:178-208 | one refresh token, presented twice at once, leaves two live pairs |
| `OAuth.ExchangeExactly` | internal/oauth/store.go:114-141 | were its two statements one, a code would be exchanged exactly for the client and redirect URI it was made for, within ten minutes, and while no exchange of it succeeded before and its user exists; it then names the user and scope it was made for |
| `CodeExchange.SelectExactly` | internal/oauth/store.go:119-136 | in every interleaving of single statements, a select lets its call through exactly when client, redirect URI and time are right and nothing ended the code before: no effective update of it and no deletion of its user |
| `CodeExchange.BothSucceedExactly` | internal/oauth/store.go:119-140 | two such calls both exchange one code exactly when both selects come before whatever ends it |
| `CodeExchange.OnceWhenUndivided` | internal/oauth/store.go:113-140 | were each approving select followed at once by an update that succeeds, no code would be exchanged twice |
| `CodeExchange.TwoAtOnce` | internal/oauth/store.go:119-140 | for every fresh code, two calls at once that both exchange it |
| `CodeExchange.TwiceAfterFailure` | internal/oauth/store.go:139-140 | for every fresh code, two calls one after the other that both exchange it, the first update's error being dropped |
| `OAuth.Store.CreateCode` | internal/oauth/store.go:97-110 | new tables and reply are the step's |
| `OAuth.Store.Exchange` | internal/oauth/store.go:114-141 | new tables and reply are the step's, in the source's order of refusals, when no other call comes between its statements |
| `OAuth.Store.Issue` | internal/oauth/store.go:147-175 | new tables and reply are the step's: older pairs are revoked even when the insert fails |
| `OAuth.Store.Rotate` | internal/oauth/store.go:178-208 | new tables and reply are the step's |
| `OAuth.Store.Lookup` | internal/oauth/store.go:211-231 | the reply is the lookup that LookupExactly characterises |
| `OAuth.Store.Revoke` | internal/oauth/store.go:234-237 | new tables are the step's |
| `WriteOnce.RowsNeverChange` | internal/localkey/localkey.go:72-74 | under every interleaving of single statements of N callers, any of which may fail, a stored row never changes |
| `WriteOnce.AllCallersAgree` | internal/localkey/localkey.go:53-83 | all calls for one key that succeed, at whatever two instants, return one value |
| `WriteOnce.LoserHonoursWinner` | internal/localkey/localkey.go:77-82 | a run in which both callers insert and the loser returns the winner's value |
| `LocalKey.DeviceAndAppGetTheSameKey` | internal/localkey/localkey.go:87-118 | however adopts, resends, boots and reads interleave, every klk command ever recorded for a device carries the 32 lower-case hex digits that every read of its key answers |
| `LocalKey.AllCommandsAgree` | internal/localkey/localkey.go:100-118 | all klk commands of one device carry one key |
| `LocalKey.StepKeepsInv` | internal/localkey/localkey.go:53-118 | every statement keeps: rows openable and sixteen bytes long, and every recorded payload the text of its device's row |
| `LocalKey.SameKeyEver` | internal/localkey/localkey.go:53-118 | a klk command recorded at any time and a key read at any other, before or after it, in whatever happened to one database, are the same key |
| `LocalKey.Database.Meanwhile` | internal/localkey/localkey.go:53-118 | whatever the other callers do keeps the history a path, every key row as it is, and the waiting call where it stands |
| `LocalKey.Database.InsertKey` | internal/localkey/localkey.go:72-74 | the insert is the system's step: the row is added if absent and otherwise untouched |
| `LocalKey.Service.GetOrCreateRaw` | internal/localkey/localkey.go:53-83 | with others at work between its statements the call is a path of the system, ends having read the row that is there, and answers what that row opens to |
| `LocalKey.Service.Create` | internal/localkey/localkey.go:70-83 | a call that found no row inserts and re-reads, and answers the row that won, be it another's |
| `LocalKey.Service.GetHex` | internal/localkey/localkey.go:87-93 | likewise a path; the answer decodes to the key of the stored row and is what the theorems say every read shows |
| `LocalKey.Service.Provision` | internal/localkey/localkey.go:100-118 | likewise a path; when the device has its row and the key opens, its last step records a pending command with the key that every read shows, and it succeeds exactly when also the publish does |
| `LocalKey.Router.EnsureLocalKeyOnline` | internal/mqtt/router.go:68-91 | with others at work between its lookups, a path that resends exactly for an adopted device, known by its row, that had not confirmed when the commands were looked up, always with the one key; otherwise no call is begun |
| `BleClaim.OnlyOneUserPasses` | internal/app/ble.go:94-120 | however concurrent calls for one device interleave or fail, at most one user passes the ownership check |
| `BleClaim.PassedUserStaysOwner` | internal/app/ble.go:106-120 | that user is the recorded owner from then on |
| `BleClaim.PassesIffOwner` | internal/app/ble.go:98-104 | a call that read the owner passes exactly when its user is the recorded owner at any later time |
| `BleClaim.SignedForOneUser` | internal/app/ble.go:94-120 | two calls that passed for one device, at whatever two times of one handler's history, were made by one user |
| `BleClaim.Handler.CheckOwner` | internal/app/ble.go:94-120 | with other calls at work between its statements the check is a path of the system, ends having read the recorded owner, and passes exactly when that is the caller, be it the loser of the insert |
| `BleClaim.Handler.SignBLENonce` | internal/app/ble.go:57-142 | a path; signs exactly for a non-guest, known role, found device whose recorded owner is the caller once checked and whose tenant has a key; every request that fails before the ownership check leaves the tables alone, and the message has no separators |
| `Hub.NeverPanics` | internal/ws/hub.go:35-110 | in every interleaving no frame is sent on a closed channel and no channel closed twice |
| `Hub.FramesAccounted` | internal/ws/hub.go:52-96 | frames written, lost in a failed write and queued are in this order an increasing, duplicate-free list of the tenant's broadcasts since registration; with the dropped ones they are all of them, and the counts add up |
| `Hub.DrainedClientsGotEverything` | internal/ws/hub.go:87-96 | a drained client without a failed write was written an addressed frame exactly when it was not dropped |
| `Hub.DropsMetFullBuffers` | internal/ws/hub.go:55-61 | every dropped frame met a buffer of exactly 256 frames when its turn came |
| `Hub.FanOutIsOneStroke` | internal/ws/hub.go:55-61 | whatever order Go's map gives the clients in, every send is possible and the loop ends as if all had been offered the frame at one stroke |
| `Hub.PathAccounted` | internal/ws/hub.go:35-110 | whatever path led to a state, nothing panicked and every client's frames are accounted for, so this holds of the objects below after any calls |
| `Hub.StepKeepsInv` | internal/ws/hub.go:35-110 | each step keeps: channel closed exactly when the reader is gone and the client is out of the map, frames in order and accounted for |
| `HubServer.Registry.Register` | internal/ws/hub.go:35-42 | the call is the system's Connect: exactly this client joins its tenant's set, and the objects remain the picture of a system reached by the recorded path |
| `HubServer.Registry.Unregister` | internal/ws/hub.go:44-49 | the call is the system's Leave: exactly this client leaves and is closed, which it was not before, and the picture remains |
| `HubServer.Registry.WriteNext` | internal/ws/hub.go:87-96 | one round of the write loop is the system's Write or failed Write: the first frame leaves the channel, and a failure ends the loop |
| `HubServer.Registry.Broadcast` | internal/ws/hub.go:52-62 | the loop is the path Begin, one SendTo per client of the tenant in the order met, End; every one of them is offered the frame exactly once, none is closed, nobody else is touched |
| `Hex.DecodeEncode` | internal/localkey/localkey.go:92 | encoding is lower-case and decoding undoes it |
| `Hex.EncodeDecode` | internal/api/handlers/admin.go:553-563 | lower-case text of even length decodes, and encoding gives it back |
| `Hex.DecodesExactly` | internal/api/handlers/admin.go:554-557 | exactly the even-length digit strings, in either case, decode |
| `Mac.PlusNAdds` | internal/api/handlers/admin.go:553-563 | on a valid MAC the result is twelve lower-case digits that denote (value + n) mod 2^48, for every n |
| `Mac.PlusNComposes` | internal/api/handlers/admin.go:553-563 | adding a and then b is adding their uint64 sum, wrapped or not |
| `Mac.PlusNInjective` | internal/api/handlers/admin.go:553-563 | for fixed n different MACs stay different |
| `Mac.DenotesInjective` | internal/api/handlers/admin.go:553-563 | lower-case MACs that denote one number are one text |
| `Mac.PlusNInPlace` | internal/api/handlers/admin.go:553-563 | the eight-byte buffer algorithm computes the function the laws above are about |
| `Mac.Pad` | internal/api/handlers/admin.go:558-559 | two zero bytes and then the six of the MAC |
| `Mac.ReadUint64` | internal/api/handlers/admin.go:560 | the big-endian value of the buffer |
| `Mac.WriteUint64` | internal/api/handlers/admin.go:561 | the buffer holds the eight low bytes of the value |
| `Mac.CopiesAgreeExactly` | cmd/seedinventory/main.go:247-255 | the second copy of the function gives the same answer exactly on valid MACs |
| `WorkList.WorkOfExactly` | internal/api/handlers/admin.go:222-235 | the list is refused exactly when some normalised text is not a MAC; otherwise it has the same MACs, each once, in order of first occurrence |
| `WorkList.RefusesTheFirst` | internal/api/handlers/admin.go:226-230 | the refused text is the first that is not a MAC |
| `WorkList.WorkListIsUnique` | internal/api/handlers/admin.go:222-235 | those three promises determine the list |
| `WorkList.Build` | internal/api/handlers/admin.go:222-235 | the loop with its seen set computes that list |
| `WorkList.NormKeepsValid` | internal/api/handlers/admin.go:542-544 | a stored MAC is its own normal form |
| `Inventory.BatchExactly` | internal/api/handlers/admin.go:187-314 | a batch is created exactly when its product is released and parses, all texts are MACs, all are free and there is a quantity; then exactly its rows are added, as many as distinct MACs or else the asked quantity, all bound to the product; otherwise no row of any table changes but the tenant's |
| `Inventory.InsertRowsExactly` | internal/api/handlers/admin.go:283-309 | the insert loop succeeds exactly when every MAC of the list is free and then adds exactly those rows |
| `Lifecycle.RunKeepsInv` | admin/main.go:611-727 | in every run of claims, provisions, resets, deletes and seeding: MACs, BLE MACs and ids unique, a provisioned row has its devices row, status provisioned implies a provision time and the bound schema, batches within quantity |
| `Lifecycle.InUseExactly` | admin/main.go:624-694 | a MAC is provisioned exactly while some successful provision of it has not been reset, by answers alone |
| `Lifecycle.StatusExactly` | internal/ztp/inventory.go:42-51 | the status column says provisioned exactly when the provision in force was a factory claim |
| `Lifecycle.ResetBetween` | admin/main.go:663-694 | between two successful provisions of one MAC there is a reset of it |
| `Lifecycle.ByHandReadsInventory` | admin/main.go:634-655 | after a provision by hand the row is in use with status inventory, for every MAC |
| `Lifecycle.ClaimExactly` | internal/ztp/inventory.go:42-63 | "not found" and "already provisioned" are answered exactly when they are true of the inventory; the tenant join hides no row |
| `Lifecycle.ClaimedRowIsBound` | internal/ztp/inventory.go:68-75 | while a claim is in force, the devices row carries the product and schema the unit was manufactured with |
| `Lifecycle.BatchesStayBounded` | internal/api/handlers/admin.go:275-309 | in every reachable state the rows of a batch number at most its quantity and are bound to its released product |
| `Lifecycle.ResetLeavesNothing` | admin/main.go:672-694 | a reset removes every trace of the device outside the inventory and touches no other inventory device, although it deletes by did alone |
| `Lifecycle.AdoptLookupExactly` | internal/app/ble.go:35-43 | after any run, the lookup of m matches two devices exactly when m is provisioned and so is the MAC two below it, with its BLE address on record |
| `Lifecycle.AdoptLookupMayFindTwo` | internal/app/ble.go:35-43 | for every valid MAC, a run of seeding and claims after which the lookup of the MAC two above it matches two devices |
| `InventoryServer.Server.InsertRow` | admin/main.go:460-471 | inserts exactly when no unique constraint is violated, and otherwise changes nothing |
| `InventoryServer.Server.AddDevice` | admin/main.go:415-487 | new tables and reply are the step's; the tenant stays when the insert conflicts |
| `InventoryServer.Server.Seed` | cmd/seedinventory/main.go:150-170 | new tables and reply are the step's: a known MAC only gets its BLE address and keeps its device id, whatever tenant was named; an unknown tenant is refused for a new MAC |
| `InventoryServer.Server.InsertBatchRow` | internal/api/handlers/admin.go:284-307 | inserts row i of the batch with the BLE address two above its MAC, or none of both past the list |
| `InventoryServer.Server.SeedRows` | internal/api/handlers/admin.go:283-309 | the loop inserts the first qty rows or fails at a violated constraint |
| `InventoryServer.Server.CreateBatch` | internal/api/handlers/admin.go:187-314 | new tables and reply are the step's, with the transaction rolled back on the first violation |
| `InventoryServer.Server.ClaimDevice` | internal/ztp/inventory.go:32-81 | new tables and reply are the step's |
| `InventoryServer.Server.UpdateDeviceStatus` | admin/main.go:611-702 | new tables and reply are the step's, for provision and reset |
| `InventoryServer.Server.DeleteDevice` | admin/main.go:704-727 | new tables and reply are the step's: a provisioned row is kept |
| `Decimal.ValueOfPrint` | internal/shadow/shadow.go:130 | printing a number and reading its digits gives the number; no leading zero |
| `Decimal.PrintOfValue` | internal/shadow/shadow.go:130 | digits without a leading zero are the text of their value |
| `Decimal.ItoaInjective` | internal/shadow/shadow.go:130 | different ints print differently |
| `Decimal.ScanOfItoa` | internal/shadow/shadow.go:49-50 | every int of 64 bits is read back from its text, whatever non-digit follows |
| `Decimal.PrintsExactly` | internal/shadow/shadow.go:130 | a text is that of some number exactly when it is digits without a leading zero: the keys that a report can hold without aliases |
| `ShadowRows.ProjectionIsFaithful` | internal/shadow/shadow.go:124-142 | two tables have one document exactly when both columns agree |
| `ShadowRows.BatchIsMerge` | internal/shadow/shadow.go:48-61 | the batch of upserts is one right-biased merge of the report, taken in its order |
| `ShadowRows.OrderUnseenExactly` | internal/shadow/shadow.go:48-61 | every order of the map gives the same table, from every table, exactly when no two keys name one id with two values |
| `ShadowRows.CanonicalIsUnambiguous` | internal/shadow/shadow.go:49-53 | reports whose keys are texts of numbers never clash, and each key is read as the number it prints |
| `ShadowRows.AliasesClash` | internal/shadow/shadow.go:48-61 | for every table and every id of 64 bits, a report with the id's text and the same with a zero in front, valued differently, reports the value of the entry that came last: both outcomes occur |
| `Shadow.ColumnsAreMerges` | internal/shadow/shadow.go:38-112 | in every run each column is the right-biased merge of its own stored writes since the device row was last removed, whatever the other column was told |
| `Shadow.ReportedIsLastHeard` | internal/shadow/shadow.go:55-59 | a value is reported exactly when the last stored report naming its id said it and no removal followed |
| `Shadow.RunsUnordered` | internal/shadow/shadow.go:48-74 | runs that differ only in map orders end in the same table and the same cached documents when no report is ambiguous |
| `Shadow.CacheAgrees` | internal/shadow/shadow.go:74-155 | from the start or from any rebuild up to the next write past the cache, the cached document is absent or the projection of the table |
| `Shadow.GetShadowAnswersTheMerges` | internal/shadow/shadow.go:92-98 | over such stretches GetShadow answers the projection of the two merges of the run |
| `Shadow.BypassShows` | internal/iot/service.go:160-170 | after any stretch that GetShadowAnswersTheMerges covers, a write past the cache keeps agreement exactly when it is no snapshot and, if a document is cached: a removal finds no values, and a wish is refused or already stands among the wishes of the run |
| `Shadow.StaleAnswer` | internal/iot/service.go:160-170 | after every run with the device present, a wish through the service and another value past it make GetShadow answer the first, which is not the table's |
| `Shadow.Service.QueueUpserts` | internal/shadow/shadow.go:47-61 | every entry is visited once in some order, and entries with an id below 1 queue nothing |
| `Shadow.Service.UpdateReported` | internal/shadow/shadow.go:38-75 | new table, cache and reply are the step's for some order of the map |
| `Shadow.Service.SetDesired` | internal/shadow/shadow.go:101-112 | new table, cache and reply are the step's |
| `Shadow.Service.HandleShadow` | internal/shadow/shadow.go:78-89 | only the cached document changes |
| `Shadow.Service.GetShadow` | internal/shadow/shadow.go:92-98 | the reply is the cached document, rebuilt when there was none |
| `Shadow.Service.RefreshCache` | internal/shadow/shadow.go:114-144 | the cached document becomes the table's projection and nothing else changes |
| `Shadow.Objects` | internal/shadow/shadow.go:124-137 | the row loop, in any row order, fills both objects with exactly the non-null columns |
| `Topic.PrintedParsesExactly` | internal/mqtt/publisher.go:33 | a printed topic parses to exactly its parts when none holds a slash, and does not parse otherwise |
| `Topic.ParsedPrintsBack` | internal/mqtt/router.go:125-131 | whatever parses is what its parts print, and the parts are slash-free |
| `Topic.TopicsAreUnambiguous` | internal/mqtt/router.go:125-131 | a topic parses to p exactly when p is slash-free and prints the topic |
| `Topic.MovedSlash` | internal/mqtt/publisher.go:33 | parts that share a text by a moved slash print a topic that does not parse |
| `Topic.SplitOfJoin` | internal/mqtt/router.go:126 | splitting undoes the joining of slash-free pieces |
| `Topic.JoinOfSplit` | internal/mqtt/router.go:126 | joining undoes splitting, and the pieces are slash-free |
| `Color.RGBSurvivesExactly` | internal/capability/mapper.go:24-86 | RGB to HSB to RGB is the identity exactly unless the largest channel is zero and another negative, over all integers, hue sectors and ties |
| `Color.CanonicalSurvives` | internal/capability/mapper.go:24-86 | channels of 0 to 255 give hue below 360, saturation and brightness in 0 to 1, and come back |
| `Color.LightRoundTrip` | internal/capability/mapper.go:24-86 | the same round trip before rounding, on every real triple |
| `Color.HSBSurvivesExactly` | internal/capability/mapper.go:24-86 | for hue 0 to 360, HSB to RGB (before rounding) to HSB gives the same saturation and brightness and the hue modulo 360 exactly when both are positive, or saturation and hue are zero |
| `Color.ChannelsInRange` | internal/capability/mapper.go:57-86 | hue 0 to 360 with saturation and brightness in 0 to 1 gives channels of 0 to 255 |
| `Color.ColorTempSurvivesExactly` | internal/capability/mapper.go:89-103 | a setting of 0 to 100 survives Kelvin; others are clamped to the nearer end |
| `Color.KelvinWithinHalfAStep` | internal/capability/mapper.go:89-103 | kelvins of 2700 to 6500 come back within 19 K, and unchanged exactly at whole steps of 38 K above 2700 |
| `Google.ExecuteShowsExactly` | internal/google/handler.go:196-203 | for every capability list: whatever is reported and executed, a field shows what the last execution aimed at its kind meant, if the list has the kind, and otherwise the report, exactly when no other kind of the list shows in that field and no command of another kind writes a datapoint of this one |
| `Google.ExecuteShowsTheLastOfEachKind` | internal/google/handler.go:196-203 | so it does for every list with distinct datapoints and at most one colour kind |
| `Google.MergedAt` | internal/google/handler.go:197-202 | after the merge the datapoint of a kind that is not crossed holds the last value aimed at it, and the kind's other datapoints keep their report |
| `Google.CommandWrites` | internal/google/mapper.go:248-314 | a command writes a capability of such a kind exactly when it aims at the kind and the datapoint is that of its last capability |
| `Google.StateShowsLast` | internal/google/mapper.go:176-243 | a field shows the last capability of its kind whose value decodes |
| `Google.SensorsShowTheReport` | internal/google/mapper.go:230-239 | ambient humidity and temperature show the report, whatever is executed, unless a command writes their datapoint |
| `Google.CommandsMeanTheirParameters` | internal/google/mapper.go:256-311 | on/off, brightness, setpoint, mode and lock commands show the parameter they carry |
| `Google.SpeedNames` | internal/google/mapper.go:297-305 | every speed name of a 64-bit number is read back as that number |
| `Google.FanCommandsMeanTheirSpeed` | internal/google/mapper.go:297-305 | a fan command with such a name shows that name |
| `Google.ColourCommandsMeanTheirParameters` | internal/google/mapper.go:268-285 | a colour command shows its integer modulo 2^24 and its kelvins within half a step |
| `Google.SharedDatapointMisleads` | internal/google/mapper.go:178-229 | a crossed list: with one datapoint for power and lock, an on/off command shows as a lock |
| `GoogleHandler.DPSToState` | internal/google/mapper.go:176-243 | the loop builds the state that StateShowsLast describes |
| `GoogleHandler.ExecuteCommandToDPS` | internal/google/mapper.go:248-314 | the loop and lookup give the datapoints that CommandWrites describes |
| `GoogleHandler.SendAll` | internal/google/handler.go:184-195 | the device is listed as an error once per send that was refused, and sends that write nothing are skipped |
| `GoogleHandler.BuildState` | internal/google/handler.go:196-203 | the state answered is the one ExecuteShowsTheLastOfEachKind describes |
| `GoogleHandler.AnswerDevice` | internal/google/handler.go:172-205 | which of the three lists a device joins, and what it leaves as last state and last error |
| `GoogleHandler.AnswerOne` | internal/google/handler.go:166-215 | the entries of one command: reached, offline and failed devices, each only when there are any |
| `GoogleHandler.HandleExecute` | internal/google/handler.go:153-228 | at most three entries per command, in request order: reached, offline, failed; none for a command without devices |
| `GoogleHandler.SuccessSpeaksForTheLastDevice` | internal/google/handler.go:196-209 | the success entry lists every reached device, and its state is, kind by kind, that of the last reached one |
| `GoogleHandler.SuccessTrueExactly` | internal/google/handler.go:196-209 | what the success entry shows of a kind is what the listed device shows exactly when both it and the last reached device have the kind aimed at, or neither, or nothing was aimed at it and their reports agree |
| `GoogleHandler.SuccessMisstates` | internal/google/handler.go:196-209 | for any two brightnesses, an on/off command to two lamps answers the second's for both |
| `GoogleHandler.EntriesExactly` | internal/google/handler.go:172-215 | a device is in the success entry exactly when it was reached, and in the error entry exactly when it was not found or refused something it was sent |
| `GoogleHandler.TargetsAccounted` | internal/google/handler.go:172-215 | every target is listed once, and refused sends list theirs once more each |
| `GoogleHandler.ErrorsHaveACode` | internal/google/handler.go:174-214 | there is an error code exactly when there is an error entry |
| `Schema.AppProfile` | internal/schema/schema.go:192-403 | the loops compute the profile that the lemmas below are about |
| `Schema.FromControls` | internal/schema/schema.go:244-293 | one capability per shown control in panel order, and the ids the panel has dealt with |
| `Schema.FromDps` | internal/schema/schema.go:295-302 | one capability per remaining datapoint that suggests one, in artifact order |
| `Schema.SilentPanelIsNoPanel` | internal/schema/schema.go:236-403 | a panel without controls, display or tile metric changes nothing but theme, groups and assistants |
| `Schema.CapabilitiesExactly` | internal/schema/schema.go:242-302 | the capability ids are the shown controls in panel order and then the unmentioned datapoints of their own right in artifact order |
| `Schema.ShowsExactly` | internal/schema/schema.go:242-302 | an id has a capability exactly when a visible control of an existing datapoint shows it, or no control mentions it and it suggests one |
| `Schema.OnceExactly` | internal/schema/schema.go:242-302 | each id appears once exactly when no two shown controls and no two unmentioned datapoints share one |
| `Schema.DistinctArtifactsHaveDistinctCapabilities` | internal/schema/schema.go:242-375 | with distinct ids in artifact and panel each id appears once, panel or none |
| `Schema.CapabilityFromExactly` | internal/schema/schema.go:242-375 | a profile has a capability, all its fields included, exactly when a visible control of an existing datapoint or an unmentioned datapoint gives it |
| `Schema.FirstOfExactly` | internal/schema/schema.go:339-347 | the default tile is the first brightness capability, if there is one |
| `Schema.NormalizeSettles` | internal/schema/schema.go:22-35 | a normalised assistant is enabled exactly when some platform is, normalising is idempotent, and explicit choices are kept |
| `Schema.FirmwareConfig` | internal/schema/schema.go:104-144 | an id is configured exactly when some datapoint with it drives hardware, with the pins of the last such one |
| `Schema.ActuatedExactly` | internal/schema/schema.go:106-110 | "some datapoint drives hardware" is what the configuration's lookup means |
| `Schema.ScaledRange` | internal/schema/schema.go:472-487 | both bounds divided by ten scale times and truncated, absent ones left absent |
| `Schema.ScaledBack` | internal/schema/schema.go:478-482 | dividing scale times is dividing by 10^scale |
| `ProductToGoogle.ProductShowsExactly` | internal/app/profiles.go:156-182 | for every artifact and panel: a field shows the last value aimed at its kind, or the report, for all reports and executions, exactly when the artifact does not give the other colour kind (for the colour field) and does not give the datapoint that commands of another kind write this kind too |
| `ProductToGoogle.ProductShowsTheLastOfEachKind` | internal/app/profiles.go:156-182 | so it does for every artifact with distinct ids whose visible controls agree on the kind of a datapoint |
| `ProductToGoogle.TwoFacedMisleads` | internal/schema/schema.go:244-293 | an artifact whose panel shows one datapoint as lock and as switch, with a report and executions that are answered wrongly |

## Left out

- AuthServer.Server.Register: a request is one step, as are all requests of Auth, OAuth, Inventory and Shadow, so two that interleave between statements are not modelled but in CodeExchange and PairIssue; the source has no transaction there but in CreateBatch, claimDevice and the portal's provision and reset.
- OAuth.LookupExactly: takes each call as one step, as module OAuth does; what concurrent calls add is PairIssue.
- OAuth.RotateExactly: likewise; PairIssue.RotatesExactly has the statements apart.
- OAuth.OneLivePair: likewise; PairIssue.BothLiveExactly says when two pairs live.
- OAuth.ExchangeExactly: takes the call as one step, as module OAuth does; what concurrent calls add is CodeExchange.
- OAuth.Store.Exchange: likewise runs undivided, and its update succeeds.
- Keystore.Service.ActiveKey: the method runs alone; the interleavings with other processes are the system it is proved to be a path of.
- LocalKey.Service.GetOrCreateRaw: the method's own statements succeed; the system lets any statement of any call fail.
- LocalKey.Service.Provision: the devices table, which no step of the system changes, stays put while it runs; how the MQTT publish went is a parameter.
- BleClaim.Handler.CheckOwner: the method's own statements succeed; the system lets any statement of any call fail.
- BleClaim.Handler.SignBLENonce: ends where the message is formed; the signature itself is not modelled, and the device lookup and whether there is a key are parameters.
- BleClaim.OnlyOneUserPasses: speaks of runs without adopt, device deletion or reset, each of which changes owners on purpose.
- Lockout.ComparisonsBounded: bounds Login only; the OAuth login page compares the same password hash without the counter (`internal/oauth/handler.go:261`).
- Auth.LoginComparisonsBounded: likewise counts Login's comparisons only.
- Schema.CapabilityFor: its contract states the id only; which kind a code suggests is its definition.
- InventoryServer.Server.CreateBatch: MQTT credentials, notes and the EMQX call are left out; `hw_config` is not stored.
- HubServer.Registry.Broadcast: runs without writers taking frames between two sends, which the system in Hub allows; the Redis subscription that calls it and the unused `did` filter are left out.
- Cryptography: AES-GCM, SHA-256, bcrypt, ECDSA and JWT are opaque with the laws named above.
- Floating point: reals with the source's truncation and rounding; 64-bit overflow of a converted float is not modelled.
- JSON text: values are datatypes; HTTP decoding, status codes, SMTP, EMQX, the admin pages and metrics are plumbing.
- Failures: database statements of single-step requests succeed but for constraints, and Redis succeeds; the shadow cache is keyed by device, which holds for tenant ids without a colon.
- Unicode: lower case is exact where it lands in ASCII; other letters are kept.
- Device ids are globally fresh; two devices of different tenants under one id are not modelled.
- Rooms, scenes, automations, groups, OTA, the Alexa handler, tenant MQTT credentials and the worker semaphore of the MQTT router would only add easy members.
