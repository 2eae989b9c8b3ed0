# Verification of the connector's stateful and structural core

A Dafny model of four parts of the SENERGY platform connector, with proofs about all their inputs and runs.

**Health reports** (`HubCheckCache`, `HubAccess`, `HealthHandler`, `HealthMessage`, `Json`, `JsonStrings`, `Timestamp`).
A cache of positive access checks expires its entries, prunes them at most once per duration and is cleared when full.
`HubCheckCache.Cache` has the fields of the original; its ghost history of additions ties it to a plain map. `HubAccess`
lets any number of checks interleave. Accepted reports are spliced verbatim into a JSON envelope; `Json` is a parser with
a concrete syntax tree for RFC 8259, shown to accept exactly the grammar. `Timestamp` converts instants to calendar times.

**wM-Bus devices** (`DeviceAttributes`, `WmbusSync`, `WmbusMigration`, `WmbusRuns`, `WmbusOverlaps`, `DeviceTypes`,
`DeviceIdentity`, `Telegram`). The connector writes decryption statuses and receiving gateways to a device-manager that
merges attributes by origin, from device views that may be old. `WmbusSync.Connector` follows the original step by step,
with every remote call free to fail and failing updates free to be applied. `WmbusRuns` puts its calls into arbitrary
sequences with edits of others and passing time; `WmbusOverlaps` lets status calls interleave remote call by remote call.
`DeviceTypes.Registry` keeps the run of each device type as a ghost field.

**Commands** (`CommandQueue`, `Topics`). The bounded queue is a transition system of senders, workers and the close.

**Topics and dispatch** (`Topics`, `Dispatch`, `Handlers`). `Lists`, `Sets`, `Strings`, `Characters` and
`Options` hold what several modules need.

Names and times: times are nanoseconds. Strings are sequences of Unicode characters. `Filter` keeps order, so "filter of
the list" reads as "subsequence". A class method is proved against a function of the old state; what that function
promises is proved by lemmas over all states and runs.

Where the code differs from its comments or from a plain reading:

- The comment that the cache never holds more than `maxEntries` is false below 1: one entry is held then
  (`HubCheckCache.SizeBound`).
- The stored decryption status can be another than the one requested last while old views live (`WmbusRuns.StatusCanLag`)
  or after a set that failed (`WmbusRuns.StatusCanBeForgotten`). `WmbusRuns.ConsistentStep` says exactly which step makes
  memory and store disagree, `WmbusRuns.Convergence` from when on a successful call leaves the right status in any case.
- Two status calls for a device that overlap can leave memory and store different (`WmbusOverlaps.OverlapCanDisagree`);
  `WmbusOverlaps.OverlapConvergence` says what it takes to converge nevertheless.
- Writes of a gateway are an interval apart when remembered, not when requested (`WmbusRuns.RequestsAreSpaced`).
- A report nested 10000 levels deep is accepted, but its message is too deep for the same decoder
  (`HealthMessage.MessageDepth`, `HealthHandler.AcceptedTooDeep`).
- A fog prefix or health topic that overlaps another guard makes the order of the handlers matter
  (`Dispatch.ConnectorOrder`, `Dispatch.EventPrefixOverlaps`).
- The loop over keys does not stop at the first good one. A wrong last key publishes `null` although the status is good
  (`Telegram.PayloadIsLastKey`).
- An origin with a comma is not replaced but its pieces are (`WmbusMigration.MigrationRemovesLegacy`,
  `WmbusMigration.MigrationConserves`, `WmbusMigration.CommaLosesAttribute`, `WmbusRuns.ReceiverStored`).
- Sorting by name is not stable; with one name of two types the decision to update equal lists depends on it
  (`DeviceTypes.DecisionIsFixed`, `DeviceTypes.AmbiguousExample`), and a repeated telegram can update more than once
  (`DeviceTypes.RepeatedTelegram`).

## Model

| member | source | states |
|---|---|---|
| HubCheckCache.Cache.constructor | lib/handler/health/cache.go:38-44 | A new cache is empty and has seen no addition. |
| HubCheckCache.Cache.Contains | lib/handler/health/cache.go:46-54 | With a non-decreasing clock a key is found exactly if its last addition since the last overflow clear is less than the duration ago; with a duration of at most 0 never. |
| HubCheckCache.Cache.Prune | lib/handler/health/cache.go:64-68 | The loop removes exactly the entries that have expired, in one iteration per entry. |
| HubCheckCache.Cache.Insert | lib/handler/health/cache.go:56-75 | The new entries and prune time are those of the specification, the ghost history grows by this addition, and the invariant tying the fields to that history is kept. |
| HubCheckCache.RefinesPlainMap | lib/handler/health/cache.go:56-75 | Every entry is the last addition of its key in a map that never prunes, plus the duration; every key of that map without entry has expired. |
| HubCheckCache.LastAdditionsAreAdditions | lib/handler/health/cache.go:56-75 | What that map records happened, since the last clear. |
| HubCheckCache.LastAdditionsAreLast | lib/handler/health/cache.go:56-75 | It records no addition older than another one of the same key. |
| HubCheckCache.HasMeansRecentAddition | lib/handler/health/cache.go:46-75 | Pruning is unobservable: found if and only if some addition since the last clear is less than the duration ago. |
| HubCheckCache.SizeAtMost | lib/handler/health/cache.go:71-74 | After any additions there are at most maxEntries entries, or one if maxEntries is below 1. |
| HubCheckCache.SizeBound | lib/handler/health/cache.go:29-29 | The documented bound holds after an addition if and only if maxEntries is at least 1. |
| HubCheckCache.InWindow | lib/handler/health/cache.go:56-75 | Every entry expires after the previous prune and at most one duration after the last reading. |
| HubCheckCache.ClearNeedsRecentKeys | lib/handler/health/cache.go:71-73 | An addition clears the cache only if at least maxEntries distinct other keys were added within the last two durations. |
| HubCheckCache.PrunePays | lib/handler/health/cache.go:62-70 | A prune is paid by the potential it releases. |
| HubCheckCache.AddPays | lib/handler/health/cache.go:56-75 | One addition, prune included, costs at most 2 in amortised terms. |
| HubCheckCache.WorkPaid | lib/handler/health/cache.go:56-75 | Over a whole run the iterations so far and the potential left are at most twice the additions. |
| HubCheckCache.AmortisedPruning | lib/handler/health/cache.go:62-70 | Over any run with a non-decreasing clock the pruning loop iterates at most twice per addition, the documented amortised O(1). |
| HubCheckCache.Cache.WorkIsAmortised | lib/handler/health/cache.go:62-70 | The same for the iterations counted in a cache object. |
| HubAccess.StepSafe | lib/handler/health/handler.go:177-197 | In any interleaving of calls, each step keeps: cached keys rest on an add that followed a positive answer, and every granted call is justified. |
| HubAccess.SafeHolds | lib/handler/health/handler.go:177-197 | Hence every run keeps it. |
| HubAccess.AccessSafety | lib/handler/health/handler.go:133-197 | Every granted call got a positive answer itself or hit the cache less than the duration after an add that followed a positive answer for the same user and hub; nothing is ever added after an error or a negative answer. |
| HubAccess.CheckIsRun | lib/handler/health/handler.go:177-197 | A check that is not interrupted is one of these runs, with the same result and cache. |
| HealthHandler.Handler.IsAccessibleHub | lib/handler/health/handler.go:177-197 | The result and the cache afterwards are those of an uninterrupted check; an empty or dot-segment id is refused without touching cache or service. |
| HealthHandler.Handler.Publish | lib/handler/health/handler.go:133-175 | The reply, the cache and the messages sent are those of the specification Publishing, whose meaning is AcceptedReports. |
| HealthHandler.Publishing | lib/handler/health/handler.go:132-175 | Exactly rejections and errors carry an error, so that the webhook never reads a missing one. |
| HealthHandler.AcceptedReports | lib/handler/health/handler.go:133-175 | Accepted if and only if topic, size and form fit, the hub is accessible and the services work; then exactly one message, keyed by the hub, with the four fields, ids and time meaning the inputs, report byte for byte; else nothing is sent; an unfit report does not reach the cache. |
| HealthHandler.ServedCache | lib/handler/health/handler.go:143-196 | A call adds to the cache at most the key it asked for and got confirmed. |
| HealthHandler.GrantIsConfirmed | lib/handler/health/handler.go:177-197 | In every run of publish calls each cached grant goes back to a call that asked the service and got a positive answer; its expiry is that call's add plus the duration. |
| HealthHandler.AcceptedIsConfirmed | lib/handler/health/handler.go:133-197 | In every run of publish calls an accepted report is confirmed in its own call, or by an earlier one for the same user and hub whose add plus the duration exceeds the reading at the cache hit. |
| HealthHandler.AcceptedIsJustified | lib/handler/health/handler.go:133-197 | In any interleaving of calls a report forwarded with the outcome of its access check and accepted rests on a positive answer to that check, or on a hit of the cache less than the duration after an add that followed a positive answer. |
| HealthMessage.EncodeMessage | lib/handler/health/handler.go:207-221 | The bytes built by cutting and appending; for a JSON report they are a JSON text with exactly the four fields. |
| HealthMessage.Splice | lib/handler/health/handler.go:207-221 | The spliced bytes are a JSON text with exactly hub_id, user_id, time and report in this order, the report byte for byte, if and only if the report is a JSON text. |
| HealthMessage.MessageDepth | lib/handler/health/handler.go:207-221 | The message is nested one level deeper than its report, so the decoder accepts it if and only if the report is nested less than 10000 levels deep. |
| HealthHandler.AcceptedTooDeep | lib/handler/health/handler.go:199-221 | A report within the default size limit that passes the test, while the decoder refuses its message. |
| HealthMessage.FieldMeanings | lib/handler/health/handler.go:210-210 | Hub id, user id and time decode to the inputs. |
| HealthMessage.JsonObjects | lib/handler/health/handler.go:199-205 | The test accepts exactly the texts of one JSON object with blanks around it, nested at most 10000 levels deep. |
| HealthMessage.FieldsAreJson | lib/handler/health/handler.go:207-221 | Every member text of an object text is a JSON text itself. |
| Json.ElementSound | lib/handler/health/handler.go:199-202 | What the parser accepts is the text of a valid tree, which it returns, and the unread rest. |
| Json.ElementComplete | lib/handler/health/handler.go:199-202 | The parser finds the tree of every valid text, whatever delimiter follows. |
| Json.TextAndTree | lib/handler/health/handler.go:199-202 | The parser accepts exactly the texts of valid trees of RFC 8259, and each text has one tree. |
| JsonStrings.DecodeStep | lib/handler/health/handler.go:210-210 | An escaped character stands for that character in front of any raw string. |
| JsonStrings.DecodeEscape | lib/handler/health/handler.go:210-210 | Quoting is lossless for every string. |
| JsonStrings.QuoteMeaning | lib/handler/health/handler.go:210-210 | A quoted string is a JSON text whose meaning is that string. |
| Timestamp.CivilOf | lib/handler/health/handler.go:210-210 | Every instant of the years 0 to 9999 has a valid calendar time that names it. |
| Timestamp.CivilOfInstant | lib/handler/health/handler.go:210-210 | And each calendar time is the only one of its instant. |
| Timestamp.InstantOrder | lib/handler/health/handler.go:36-37 | Time order is the field by field order of calendar times. |
| Timestamp.TextOrder | lib/handler/health/handler.go:36-37 | Fixed-width texts of the same shape are ordered like their values. |
| Timestamp.StringOrderIsTimeOrder | lib/handler/health/handler.go:36-37 | String order of timestamps if and only if time order, and equal only for equal instants, for all instants of the years 0 to 9999. |
| Timestamp.Layout | lib/handler/health/handler.go:37-37 | The timestamp has 30 characters, and each column holds its field of the instant's calendar time. |
| DeviceAttributes.DeviceManager.PublishDeviceAttributesUpdate | test/server/mock/iot/iot.go:174-197 | Fails exactly for an unknown device and then changes nothing; else only that device changes, to its attributes of other origins followed by the request's attributes of the named ones. |
| DeviceAttributes.UpdateFrame | test/server/mock/iot/iot.go:182-194 | The attributes of an origin that is not named are unchanged, in order. |
| DeviceAttributes.UpdateReplaces | test/server/mock/iot/iot.go:182-194 | Of the named origins exactly the request's attributes are stored afterwards. |
| DeviceAttributes.OriginsSurvive | lib/handler/event/nimbus.go:318-318 | The origin list arrives as sent if and only if it is not empty and no origin holds a comma. |
| Strings.SplitJoin | lib/handler/event/nimbus.go:318-318 | A list survives joining and splitting if and only if it is not empty and no element holds the separator. |
| WmbusSync.CurrentIndex | lib/handler/event/nimbus.go:325-327 | The index of the first status of the connector's origin, -1 exactly if there is none. |
| WmbusSync.LegacyOrigins | lib/handler/event/nimbus.go:365-370 | The connector's origin first, then exactly the origins of the legacy statuses; never the default origin. |
| WmbusSync.Connector.SetSameOriginAttributes | lib/handler/event/nimbus.go:317-320 | Store and outcome after a request for comma-joined origins that is acknowledged, applied without an answer, or not applied. |
| WmbusSync.Connector.RecordWmbusReceiver | lib/handler/event/nimbus.go:290-313 | Store, cache, tried writes and outcome are those of the specification RecordReceiver, for every combination of failing calls. |
| WmbusSync.Connector.CollectOrigins | lib/handler/event/nimbus.go:365-370 | The loop collects the connector's origin and each legacy origin once. |
| WmbusSync.Connector.CollectAttributes | lib/handler/event/nimbus.go:371-376 | The loop collects the new status and all else of the replaced origins. |
| WmbusSync.Connector.ReplaceLegacyKeyOk | lib/handler/event/nimbus.go:359-378 | Store and outcome after the migration request; a failing read changes nothing. |
| WmbusSync.Connector.UpdateDeviceDecryptionStatus | lib/handler/event/nimbus.go:324-354 | Store, cache and outcome are those of the specification UpdateStatus, for every view and every combination of failing calls. |
| WmbusMigration.NoDefaultIsSent | lib/handler/event/nimbus.go:356-383 | No attribute of the default origin is ever sent, whatever was read. |
| WmbusMigration.MigrationWritesStatus | lib/handler/event/nimbus.go:359-378 | Whatever was read or stored, afterwards exactly one status has the connector's origin, the new one. |
| WmbusMigration.MigrationRemovesLegacy | lib/handler/event/nimbus.go:359-383 | If the store did not change in between, no legacy status remains if and only if no legacy origin holds a comma. |
| WmbusMigration.MigrationConserves | lib/handler/event/nimbus.go:359-378 | If the store did not change in between, the multiset of attributes with other keys is unchanged if and only if none is stored under an origin that is only a piece of a replaced origin with commas. |
| WmbusMigration.FreeOriginsConserve | lib/handler/event/nimbus.go:359-378 | Without commas in legacy origins every other attribute is conserved. |
| WmbusMigration.MigrationKeepsOrigin | lib/handler/event/nimbus.go:359-378 | If the store did not change in between, the attributes of one origin with other keys stay as they are, in order, if and only if there are none or the origin is not just a piece of a replaced one. |
| WmbusMigration.CommaLosesAttribute | lib/handler/event/nimbus.go:359-378 | With commas it goes wrong: a stored list of two attributes whose migration keeps the legacy status and loses the other attribute. |
| WmbusMigration.MigratedOthers | lib/handler/event/nimbus.go:371-377 | The other attributes afterwards: the untouched ones, then those sent back. |
| WmbusMigration.CarriedIsStored | lib/handler/event/nimbus.go:371-376 | The request carries exactly what is stored with the replaced origins. |
| WmbusRuns.StepFrame | lib/handler/event/nimbus.go:287-354 | A step of the connector, from however old a view and whatever fails or is applied without an answer, leaves the attributes of every origin it does not name for a device unchanged on that device. |
| WmbusRuns.EditsStand | lib/handler/event/nimbus.go:287-354 | In every interleaving with edits of others, the stored attributes of an origin the connector never names for the device are those its owner stored last. |
| WmbusRuns.StepKeepsOthers | lib/handler/event/nimbus.go:287-378 | A migration that read the current list keeps, besides, the attributes with other keys of every origin it replaces as a whole, in order. |
| WmbusRuns.OtherEditsStand | lib/handler/event/nimbus.go:287-378 | With migrations among the steps, the attributes of an origin with other keys than the status, such as wmbus/key, are those its owner stored last, as long as each migration of the device that names the origin read the current list and replaces the origin as a whole. |
| WmbusRuns.CleanDisturbsNothing | lib/handler/event/nimbus.go:356-378 | A migration that read the current list of a device without commas in its legacy origins meets that condition for every origin. |
| WmbusRuns.LegacyStep | lib/handler/event/nimbus.go:287-383 | A device without legacy status gets one in a step if and only if an edit stores one. |
| WmbusRuns.LegacyStaysAway | lib/handler/event/nimbus.go:287-383 | So none appears in any run without such an edit. |
| WmbusRuns.NoLateMigration | lib/handler/event/nimbus.go:322-341 | A status call at least one expiration after the device had no legacy status, with a view that lags less, does not migrate. |
| WmbusRuns.MigratedOnce | lib/handler/event/nimbus.go:322-341 | A migration from the current list without commas, once applied, is the last one of its device but for views that do not show it yet. |
| WmbusRuns.StatusStep | lib/handler/event/nimbus.go:324-354 | Only a status call changes a device's stored status, to the requested value, and only one that succeeds in all changes its memory, to that value; whatever fails. |
| WmbusRuns.ConsistentStep | lib/handler/event/nimbus.go:332-353 | A step keeps the live memory equal to the stored status if and only if it does not store a status unremembered while another value stays alive in the memory. |
| WmbusRuns.MemoryIsStored | lib/handler/event/nimbus.go:332-353 | In every run without such a step a remembered status is the stored one, and no device has two, in every state. |
| WmbusRuns.StatusStays | lib/handler/event/nimbus.go:324-354 | A stored status stays as long as no other one is requested, whatever fails. |
| WmbusRuns.MemoryIsOldOrTrue | lib/handler/event/nimbus.go:332-353 | Since any point from which one status is requested, the memory is either at most the expiration younger than that point, or holds that status and it is stored; whatever fails. |
| WmbusRuns.CallSettles | lib/handler/event/nimbus.go:329-337 | A call leaves the requested status stored if and only if it stores or that status is stored already; a successful one from a consistent state if and only if its view does not stop it or that status is stored already. |
| WmbusRuns.Convergence | lib/handler/event/nimbus.go:324-354 | Views lag less than the expiration: once the requested status has been the same for that time, every further call that succeeds leaves exactly one status of the connector stored, with that value, whatever reads, updates and sets failed before. |
| WmbusRuns.StatusCanLag | lib/handler/event/nimbus.go:329-337 | Before that time it need not: three calls that all work, with fresh enough views, after which the stored status is not the one requested last. |
| WmbusRuns.StatusCanBeForgotten | lib/handler/event/nimbus.go:347-352 | The same with a failing set: the last of three successful calls trusts a memory older than the store. |
| WmbusRuns.ThrottleStep | lib/handler/event/nimbus.go:295-307 | A step keeps: every tried write is remembered for the interval, writes of one gateway and device are spaced, and none is without a gateway id. |
| WmbusRuns.WritesAreThrottled | lib/handler/event/nimbus.go:287-313 | In every run, failing writes included, a write for a gateway and device is remembered and sent at least the interval after the one before was remembered, and after that one was sent; none is tried with an empty gateway id. |
| WmbusRuns.RequestsCanBeCloser | lib/handler/event/nimbus.go:303-308 | Between requests the interval is shortened by the time from set to request of the first one, and for every such time some run reaches that bound. |
| WmbusRuns.RequestsAreSpaced | lib/handler/event/nimbus.go:303-308 | In every run the requests after one with a given time from set to request follow it at least an interval later if and only if that time is 0. |
| WmbusRuns.ReceiverStored | lib/handler/event/nimbus.go:308-312 | After a write exactly one attribute has the gateway's origin, the new one, if and only if the id holds no comma or that was stored already. |
| WmbusOverlaps.AloneIsCall | lib/handler/event/nimbus.go:324-354 | A status call that nothing interrupts is one of the runs of overlapping calls, with the same store, memory and outcome as the sequential call. |
| WmbusOverlaps.ActionStep | lib/handler/event/nimbus.go:324-354 | Each remote call a step of its own: only an applied request for a device changes its stored status, only a set for it its memory. |
| WmbusOverlaps.StoredStays | lib/handler/event/nimbus.go:324-354 | The stored status stays while every call in flight requests it. |
| WmbusOverlaps.SentIsStored | lib/handler/event/nimbus.go:338-346 | A call that began after all others agreed finds its status stored between request and set. |
| WmbusOverlaps.MemoryIsOldOrStored | lib/handler/event/nimbus.go:332-353 | From a point at which every call in flight began after all agreed, the memory is older than that point or holds the requested status and it is stored. |
| WmbusOverlaps.OverlapConvergence | lib/handler/event/nimbus.go:324-354 | With overlapping calls: if all calls in flight since p request one status and all in flight at q began after p, each call that begins one expiration after q with a view that lags less and finishes without error leaves exactly that status stored, whatever fails and comes in between. |
| WmbusOverlaps.OverlapCanDisagree | lib/handler/event/nimbus.go:332-353 | Without such a point: a call that runs between request and set of another one leaves memory and store different though nothing fails. |
| DeviceIdentity.ScannerMeetsExpression | lib/handler/event/nimbus.go:52-52 | The scanner finds a code if and only if it is the longest run of digits behind the leftmost 0x that has any. |
| DeviceIdentity.IdExists | lib/handler/event/nimbus.go:446-472 | An id exists if and only if manufacturer, version and type each hold a code. |
| DeviceIdentity.JoinedSplit | lib/handler/event/nimbus.go:447-469 | The three codes can be read off the id, whatever the meter id. |
| DeviceIdentity.JoinedInjective | lib/handler/event/nimbus.go:447-469 | Joined ids agree if and only if all four parts agree. |
| DeviceIdentity.SameDevice | lib/handler/event/nimbus.go:446-472 | Two messages get the same id if and only if padded manufacturer code, version code, type code and meter id agree, underscores in the meter id included. |
| Telegram.NextClose | lib/handler/event/nimbus.go:388-388 | The first closing brace line from a position on. |
| Telegram.Blocks | lib/handler/event/nimbus.go:388-388 | The blocks are disjoint and ordered, each from an opening brace line to the first closing one behind it. |
| Telegram.OpeningsAreCovered | lib/handler/event/nimbus.go:388-388 | Every opening line with a closing line behind it lies in a block. |
| Telegram.OpeningStartsBlock | lib/handler/event/nimbus.go:388-388 | An opening line without an earlier one still open starts a block. |
| Telegram.AlternatingBraces | lib/handler/event/nimbus.go:385-388 | If opening lines are closed before the next one opens, the blocks are exactly the pairs of brace lines. |
| Telegram.LastPairIsDecoded | lib/handler/event/nimbus.go:434-439 | A pair of brace lines is the block decoded if and only if no earlier opening line is still open and no later one is closed, whatever surrounds it. |
| Telegram.NothingDecoded | lib/handler/event/nimbus.go:434-437 | Nothing is decoded if and only if no opening brace line is followed by a closing one. |
| Telegram.CollectKeys | lib/handler/event/nimbus.go:166-171 | The non-empty stored keys, in order. |
| Telegram.TryKeys | lib/handler/event/nimbus.go:165-183 | Status and decode result after trying every key, or the error that ends the handling. |
| Telegram.StatusMeansSomeKey | lib/handler/event/nimbus.go:173-183 | The handling goes on if and only if no attempt faults; the status is good if and only if some key decodes. |
| Telegram.WrongKeyLast | lib/handler/event/nimbus.go:174-183 | A right key followed by a wrong one gives a good status and an empty payload. |
| DeviceTypes.SortByName | lib/handler/event/nimbus.go:499-503 | Sorts in place by name: ordered, and a permutation. |
| DeviceTypes.ComparisonIsFixed | lib/handler/event/nimbus.go:499-511 | Two sorted versions of one list always compare equal if and only if variables of one name have one type. |
| DeviceTypes.DecisionIsFixed | lib/handler/event/nimbus.go:499-511 | The comparison of two lists gives the same for every sort of either if and only if their bags of names and types differ or variables of one name have one type. |
| DeviceTypes.AmbiguousExample | lib/handler/event/nimbus.go:499-511 | Two variables of one name and different types: compared to themselves the decision is ambiguous, and two sorts of the list give different answers. |
| DeviceTypes.SortedSignatures | lib/handler/event/nimbus.go:502-511 | Sorted lists with one type for each name and equal bags of names and types agree position by position. |
| DeviceTypes.VariablesDiffer | lib/handler/event/nimbus.go:491-512 | True for more variables, or as many with another bag of names and types; otherwise only if the bags are equal and some name has two types. Both lists are only permuted. |
| DeviceTypes.NeedsUpdate | lib/handler/event/nimbus.go:474-513 | True whenever the specification ShapeNeedsUpdate asks for an update, and only then or if the decision is ambiguous; all variable lists are only permuted. |
| DeviceTypes.MergeAndDecide | lib/handler/event/nimbus.go:229-232 | The generated type with the unmanaged attributes of the existing one, and the decision. |
| DeviceTypes.DecisionIgnoresOrder | lib/handler/event/nimbus.go:499-512 | Whether an update must happen and whether it is ambiguous is the same for every permutation of either variable list. |
| DeviceTypes.KeepUnmanagedAttributes | lib/handler/event/nimbus.go:277-285 | The generated list followed by the existing attributes whose keys are not generated. |
| DeviceTypes.KeptIsStable | lib/handler/event/nimbus.go:274-285 | The generated list is a prefix of the merged one, and merging again changes nothing. |
| DeviceTypes.UnmanagedSurvive | lib/handler/event/nimbus.go:274-285 | The attributes with a key that is not generated survive in order. |
| DeviceTypes.WmbusDriver | lib/handler/event/nimbus.go:260-272 | The first driver forced on the device, else the first on its type, else none. |
| DeviceTypes.Registry.EnsureWmbusDeviceType | lib/handler/event/nimbus.go:218-240 | The call is a step of the type's run: it updates if it must and the services work, only if it may, merges unmanaged attributes, fails only if a service does; other types are only permuted in their variables and their runs go on. |
| DeviceTypes.Registry.UpdateIfNeeded | lib/handler/event/nimbus.go:218-240 | The stored types, the result and when it fails. |
| DeviceTypes.StepsIgnoreOrder | lib/handler/event/nimbus.go:218-240 | Steps do not depend on the order of variables, so calls that sort in place form one run. |
| DeviceTypes.Registry.DriverStays | lib/handler/event/nimbus.go:229-272 | Over everything a registry did for a type, the driver chosen for a fixed device stays the same, if no generated list contains its key. |
| DeviceTypes.UnmanagedSurviveRuns | lib/handler/event/nimbus.go:229-237 | Over any run of telegrams, whatever the sort decides and whichever updates fail, the attributes with never generated keys stay as they are. |
| DeviceTypes.DriverSurvivesRuns | lib/handler/event/nimbus.go:229-272 | So the driver chosen for a fixed device never changes, if no generated list contains its key. |
| DeviceTypes.RepeatedTelegram | lib/handler/event/nimbus.go:218-240 | Repeating a telegram causes at most one update in every run if and only if its type compared to itself is not ambiguous. |
| DeviceTypes.AlternatingTelegrams | lib/handler/event/nimbus.go:115-119 | Telegrams that generate two types in any order cause at most two updates in every run if and only if neither type is ambiguous and not each updates the other. |
| DeviceTypes.RepeatedEncryptedTelegram | lib/handler/event/nimbus.go:115-119 | A telegram that generates fewer outputs before it is decrypted causes at most two. |
| DeviceTypes.TypeNeverShrinks | lib/handler/event/nimbus.go:474-513 | With a constant number of services, outputs and then variables of the first output never decrease lexicographically, whatever the sort decides and whichever updates fail. |
| CommandQueue.InvariantStep | lib/command.go:38-68 | Every step of a sender, a worker or the close keeps: each accepted call has exactly one place, FIFO, bounds, and calls are sending, refused or accepted. |
| CommandQueue.InvariantHolds | lib/command.go:38-68 | Hence every run keeps it. |
| CommandQueue.Conservation | lib/command.go:38-68 | In every interleaving a call that returned nil is in exactly one of buffer, worker and handled, any other in none; buffer and busy workers are at most the worker count; receives happen in the order of the sends; a refused call is never handled. |
| CommandQueue.RemainingAfter | lib/command.go:51-54 | After the close a worker's receive or finish reduces the measure by one, and nothing else changes it. |
| CommandQueue.WorkerCanStep | lib/command.go:43-48 | A worker can receive or finish if and only if the measure is positive. |
| CommandQueue.DrainedMeansHandled | lib/command.go:43-48 | At measure 0 the handled calls are exactly the accepted ones, each once. |
| CommandQueue.Drain | lib/command.go:43-54 | After the close, in every interleaving, nothing more is accepted, and worker steps go on exactly until the measure at the close is used up and every accepted call is handled once. |
| CommandQueue.SendersAreServed | lib/command.go:55-67 | With a worker, a sender can always go on, or some worker can make room. |
| Topics.HandleCommand | lib/command.go:78-103 | Published are the topics in order up to the first refusal; success exactly if all are; nothing after a failed save or encoding. |
| Topics.OwnerCommandRoundTrip | lib/handler/helper.go:28-39 | Parsing a command topic with owner gives its parts back if and only if none holds a slash. |
| Topics.CommandRoundTrip | lib/command.go:96-96 | The same for the topic without owner, with the empty owner. |
| Strings.JoinSplit | lib/webhooks/vernemqtt/webhooks.go:235-235 | Joining a split text gives it back. |
| Strings.SplitConcat | lib/webhooks/vernemqtt/webhooks.go:231-231 | Texts around a separator split independently. |
| Topics.SharedSubscription | lib/webhooks/vernemqtt/webhooks.go:229-240 | A shared subscription is checked against its filter, for every filter, if and only if the group holds no slash. |
| Dispatch.SendSubscriptionResult | lib/webhooks/vernemqtt/webhooks.go:100-118 | The granted topics as they are, then the others with 128, in order. |
| Dispatch.HandleTopicSubscribe | lib/handler/helper.go:73-91 | The reply of the specification Subscribing, always a decisive one. |
| Dispatch.FirstStep | lib/handler/helper.go:73-91 | Asking handlers in turn is taking the first decisive reply. |
| Dispatch.OrderFree | lib/handler/helper.go:73-91 | The outcome is the same for every permutation of the handlers if and only if all decisive replies agree. |
| Dispatch.CommonTopic | lib/lib.go:198-209 | Some topic passes two guards, each a prefix or an exact topic, if and only if the texts of the guards say so. |
| Dispatch.FixedGuardsApart | lib/lib.go:198-206 | No topic passes the guards of two of the fixed handlers. |
| Dispatch.ConfiguredGuards | lib/lib.go:198-217 | With the configured fog prefix and health topic, if enabled, no topic passes two guards if and only if these two meet no fixed guard and not each other. |
| Dispatch.GuardsExclude | lib/lib.go:198-217 | With such guards at most one handler does not leave a topic to others, for every topic. |
| Dispatch.GuardsDecide | lib/lib.go:198-217 | Handlers behind guards answer publish and subscribe requests the same in every order, whatever they do, if and only if no two guards meet. |
| Dispatch.ConnectorOrder | lib/lib.go:198-217 | For the connector's list of handlers that is so if and only if the configured fog prefix and health topic are compatible with it. |
| Dispatch.EventPrefixOverlaps | lib/lib.go:198-209 | A fog prefix of event is not compatible: every event topic passes two guards, and handlers behind the guards whose order matters exist. |
| Dispatch.Subscribe | lib/webhooks/vernemqtt/subscribe.go:56-82 | The answer of the specification Subscribed. |
| Dispatch.SubscriptionAnswer | lib/webhooks/vernemqtt/subscribe.go:56-82 | Fails if and only if some topic fails; otherwise a permutation of the requested names: the granted topics as requested, then the others with 128, each part in the order of the request. |
| Dispatch.NamesOfPartition | lib/webhooks/vernemqtt/subscribe.go:62-80 | Granted and other topics together name each requested topic as often as requested. |
| Dispatch.Publish | lib/webhooks/vernemqtt/publish.go:86-114 | The answer of the specification Publishing; a rejection or error without error text fails. |

## Left out

- Invalid UTF-8: texts are Unicode characters; their bytes are only counted for the size limit, and the test for valid UTF-8 has nothing to refuse.
- Json.TextAndTree: is the grammar without limit on nesting; the limit of the Go decoder is added by `Json.IsAccepted`, which the handler uses.
- Json: the escapes of the encoder and the grammar of its parser are those of Go 1.26, named in go.mod; the library itself is not part of this model.
- Timestamp.Format: is defined for the years 0 to 9999 only; outside them the layout has no fixed width.
- HealthHandler.Publishing: the text of the size error carries neither the size nor the limit.
- Construction of the health handler: any configuration and cache size is allowed; the checks for a missing topic or a size limit of 0 and the constant 100000 are not modelled.
- HealthHandler.AcceptedIsConfirmed: is about calls that follow each other; interleaved calls are the subject of HealthHandler.AcceptedIsJustified.
- HealthHandler.GrantIsConfirmed: is about calls that follow each other; interleaved calls are the subject of HubAccess.AccessSafety.
- Kafka, MQTT, HTTP, memcached and Keycloak: their answers are arbitrary inputs of each call. Token parsing and admin checks are among them.
- URL escaping of device ids and origins: the device-manager is taken to read what was sent.
- Overlapping records of one gateway: reading and setting a memory is not atomic in the original, so in `WmbusRuns` these calls follow each other. Each call there may take any time, during which nobody else changes the store; overlapping status calls are the subject of `WmbusOverlaps`.
- WmbusRuns.WritesAreThrottled: needs the external cache to keep entries for their time.
- WmbusRuns.Convergence: assumes a positive expiration; devices are neither created nor deleted by others in such runs.
- WmbusRuns.EditsStand: an edit of others is one step that stores a whole attribute list.
- DeviceTypes.SortByName: is one algorithm that sorts in place; Go's library sort is another one, and the contracts promise only what every such sort gives.
- DeviceTypes.RepeatedEncryptedTelegram: takes the type generated before decryption to have fewer outputs; the generator is not part of this model. DeviceTypes.AlternatingTelegrams has no such assumption.
- The decoder program itself: its output and the outcome of each key are arbitrary. So are generated device types.
- handleWmbusEvent as a whole: duplicate detection, the waiting room and the publishing of the decoded message are straight calls.
- Telegram.TryKeys: a decode with an empty result and one with fields are told apart only by their encoding.
- CommandQueue: a panic of a command ends the process and is not a step. With a worker count of 0 an unbuffered send blocks for ever, as in the model; process exit after shutdown ends a run early.
- Topics.HandleCommand: the trace entry and the contents of the envelope are not modelled.
- Dispatch.Subscribe and Dispatch.Publish: the requests of the connector's own client, decoding of requests and the text formats of answers are not modelled, and handlers are functions of the topic alone.
- Handlers of events, responses, notifications, exports, processes and fog beyond their topic guards; connection webhooks; login and connection limits.
- Removal of secrets from log lines, configuration, metrics, statistics and generated interface descriptions.
