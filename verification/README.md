# Verified model of a Blank server: locks, configuration compiler, session store

A Blank server keeps three pieces of shared state that everything else depends on, and this project models all three
and proves what they promise: named locks with owners (`sync/mutex.go`), the compiler that turns a configuration file
into the stores a server runs with (`config/process.go`), and the session store that keeps sessions in memory and in a
database (`sessionstore/sessionstore.go`). Three small cores come with them: the once-per-minute gate (`sync/once.go`),
the token lifetime setting (`config/settings.go`) and the key scan by prefix (`bdb/bdb.go`).

`dafny verify dfyconfig.toml` checks everything.

## How the model is built

* **Locks.** `LockProtocol` is a step system. A `Lock` call is two steps, since registering is done under the mutex and
  the send on the channel is not; `Unlock` and `UnlockForOwner` are split where another caller's send can come in
  between. Channels are numbered by creation, so that successive lockers of one id are told apart. A call that would
  never come back is not an enabled step. `LockService` holds the maps as they are updated in place, with the backward
  scan that deletes from the list it walks. `LockProtocol` proves token accounting for callers of any kind;
  `LockExclusion` and `LockDrain` prove mutual exclusion and draining for owners that keep three rules: ask for an id
  only without a live request for it; unlock only what you hold or, while its channel is empty, what only you want;
  disconnect only when nobody else wants an id you still wait for. `LockDisconnect` shows that the rules are not stricter
  than need be: an `Unlock` or a disconnect that the second or third rule refuses either has a run that breaks exclusion
  or, for an `Unlock`, is of an id nobody is counted for and waits for good; and a second request, which the first rule
  refuses, is what an `Unlock` takes off the list while it is still live.
  The methods of `LockService` are for callers of any kind; a call that would wait for good says so in its result.
  `Requests` has the counting lemmas.
* **Configuration.** `ConfigProps` has the prop validation with its normal form, and `ConfigRules` its rules written out
  type by type; `ConfigDefaults` has the layering of defaults, `Migrations` the sort and the in-place pruning.
  `ConfigCompile` says in one function what compiling computes, and `ConfigOutput` what that is in terms of the
  configuration that was read: which stores are kept, of what type, with which props, filters, access and references.
  `ConfigShape` says when layering keeps props in shape. `ConfigValidate` has the two loops, which pick any remaining
  key and update prop and filter tables that several holders share, and proves that they compute that function.
* **Sessions.** `SessionSpec` is the store on values with one step for each handler, and the properties over runs;
  `SessionEffects` says field by field what each step does to memory, database and waiting deletions.
  `SessionStore` is the store on objects: its methods are proved to take the steps of `SessionSpec`, and every snapshot
  handed to the update handlers keeps showing what it showed when it was made. Finding a session and operating on it is
  one step; a background deletion is a later step of its own. The operations of `SessionStore` also take a session that
  was deleted or replaced since it was found, and `SessionSpec` says what such late updates and late deletions do, and
  what a deletion does whose two parts are apart.
* **Small cores.** `OnceGate` is a timed state machine, `JwtTtl` a parser on 64-bit durations with its memo,
  `PrefixScan` a cursor over keys in byte order. `Wrappers` has the value that may be missing.

Clocks, generated ids and signed tokens are parameters; database writes succeed.

## Where the code does less than one might expect

The model follows the code. Each of these is stated and proved, except the four marked as notes.

* `Unlock` ignores who holds the lock. One call by a stranger makes two holders (`StrangerUnlockBreaksExclusion`). No run
  of an `Unlock` does so exactly when the caller holds the id or, with the channel empty, is alone to want it
  (`UnlockSafeExactly`; `ReleaseSafeExactlyForHolder` for the moment the token is taken).
* A stranger's `Unlock` can also leave the real holder's disconnect with a locker that is gone, a nil dereference
  (`StrangerUnlockLeavesMissingLocker`). A disconnect comes back, in all runs or in none, exactly when each id of the
  owner's list is counted at least as often as it is listed (`DisconnectReturnsExactlyWhenCounted`). Otherwise it ends at
  the first place of the list that is short, with the nil dereference if that id has no locker and a wait for good if it
  has one (`UnlockForOwner`).
* `UnlockForOwner` walks requests that are still waiting: it can take another owner's token
  (`DisconnectWhileWaitingBreaksExclusion`). It cannot, in any run, exactly when nobody else wants an id the owner still
  waits for (`DisconnectSafeExactlyWhenAlone`; `SweepSafeExactlyForHolder` for one turn).
* `Unlock` removes every copy of an id from the owner's list, so a second request for a held id escapes the disconnect
  (`SecondRequestEscapesDisconnect`). The list stays the owner's live ids exactly when it had asked once
  (`ListExactlyWhenAskedOnce`), and every surplus request survives every disconnect (`SurplusSurvivesDisconnect`).
* `UnlockForOwner` leaves lockers with counter zero behind. A later `Unlock` of such an id waits for a token that
  nobody will send, and holds the mutex for good (`StrayUnlockBlocksForGood`); some run completes a waiting `Unlock`
  exactly when its counter is positive (`UnlockReturnsExactlyWhenCounted`).
* References are checked once against the stores that passed prop validation: a store may keep a reference to one that
  the same check drops (`ReferenceToDroppedStoreStays`; `OutputClosedExactly` is the exact condition). A `_default` store
  with a dangling reference is dropped but has lent the reference to the others (`UnsoundDefaultLeaks`;
  `OutputSoundExactlyWithoutLeaks` is the exact condition).
* Layering can take a prop out of the shape validation gave it: a maximum of 2 under a default of 3 to 9 has crossed
  bounds (`BoundsCross`), and a second layer can repair it (`SecondLayerRepairs`). `OutputShapesExactly` says when the
  props of an output store are in shape.
* A configurable default replaces a store's nested props, query and foreign key (`TwoLayers`). `disabled` is compared with
  the empty text, so nil counts as set. Clearing sets pattern and mask to the empty text, which is not nil and so counts
  as set as well.
* Note: a positive minimum without a maximum is refused, since the missing bound reads as zero (`MinMaxOk`).
* The scan over migrations starts from version -99, so a last migration with that version is lost (`KeptExactly`).
* With an empty prefix the key scan never ends: the nil key behind the last one has the empty prefix
  (`ScanEndsExactlyForNonEmptyPrefix`).
* A lifetime beyond 2562047:47 wraps around (`PrintedTtlReadsBack`); text after a second colon is ignored
  (`ParseIgnoresRest`).
* A background deletion goes by key, and removes a session created under that key in the meantime
  (`LateDeleteTakesNewSession`). It removes the session it was started for exactly when nobody called `New` with the key
  in between (`DeletionTakesItsOwnExactly`).
* An update of a session that was deleted or replaced since it was looked up writes its record all the same. Memory and
  database agree afterwards exactly when the session is still the stored one, unless another session got the same token
  (`LateUpdateAgreesExactly`); a deleted session is back at the next restart (`LateUpdateRevivesExactly`).
* `Delete` and `Session.Delete` remove the record before they take the lock. A `New` in between leaves a record without a
  session (`NewInGapLeavesRecord`). Memory and database agree after the deletion exactly when the record was not written
  in the gap, or was erased again since (`DeletionAgreesExactly`).
* Note: a copy does not carry the time of creation, so it is lost at a restart.
* Note: `getByUserID` blanks the access token of one copy and returns another.
* Note: `JWTTTL` writes its memo under the read lock.

## Model

| member | source | states |
|---|---|---|
| LockProtocol.StepAccounted | sync/mutex.go:21-93 | Every micro-step of any caller keeps the accounting: lockers and counters have the same keys, channels hold at most one token, and each counter is the requests waiting on that channel plus its tokens |
| LockProtocol.RunAccounted | sync/mutex.go:21-93 | The accounting holds after every run, whatever the callers do |
| LockProtocol.RegisterAccounted | sync/mutex.go:23-35 | Registering a request, on a new or an existing locker, keeps the accounting |
| LockProtocol.GrantAccounted | sync/mutex.go:84-86 | A send turns one waiting request into one token and keeps the accounting for every id |
| LockProtocol.UnlockAccounted | sync/mutex.go:51-65 | Unlocking keeps the accounting; in particular no locker is dropped while a request waits on its channel |
| LockProtocol.SweepAccounted | sync/mutex.go:75-78 | One turn of the disconnect loop keeps the accounting |
| LockProtocol.WaitersShareChannel | sync/mutex.go:24-37 | In every reachable state all waiters for one id wait on one channel, that of the id's current locker |
| LockProtocol.BlockedUnlockProceedsExactlyWhenCounted | sync/mutex.go:46-56 | An `Unlock` that meets an empty channel can go on if and only if the counter is positive: then some waiter's send, which needs no mutex, is enabled |
| LockProtocol.UnlockReturnsExactlyWhenCounted | sync/mutex.go:46-56 | From every accounted state in which an `Unlock` waits for its token, some run completes it if and only if the counter is positive |
| LockProtocol.StuckForGood | sync/mutex.go:74-93 | A call that holds the mutex and has reached an id with counter zero, or none, keeps the mutex in every continuation; only sends are left |
| LockExclusion.StepGood | sync/mutex.go:21-93 | Every disciplined step keeps token, holder and list invariants together |
| LockExclusion.RunGood | sync/mutex.go:21-93 | The invariants hold after every disciplined run, with waiters' sends inside the disconnect loop |
| LockExclusion.MutualExclusion | sync/mutex.go:21-93 | After every disciplined run an id has at most one holder, and its channel is full exactly when it has one |
| LockExclusion.ReleaseNeverBlocks | sync/mutex.go:42-93 | In every disciplined run a pending `Unlock` of a held id and a pending disconnect of an owner that holds all it asked for find their token, any other finds one or waits for the owner's own enabled send, and the only holder of that id is the releasing owner |
| LockExclusion.ReleaseSafeExactlyForHolder | sync/mutex.go:51-65 | Once a token is there, taking it keeps channels and holders in agreement if and only if the caller holds the id |
| LockDisconnect.UnlockSafeExactly | sync/mutex.go:42-67 | For callers of any kind: all runs of sends and of the end of an `Unlock` keep channels and holders in agreement if and only if, with a token in the channel, the caller holds the id and, with none, every live request for the id is the caller's |
| LockDisconnect.UnlockBreaks | sync/mutex.go:42-67 | Otherwise there is such a run that breaks the agreement |
| LockExclusion.ReleaseIds | sync/mutex.go:57-65 | A holder's release takes exactly the id out of its own list of live ids and leaves every other owner's list alone |
| LockExclusion.SweepReady | sync/mutex.go:74-78 | In a disciplined sweep the next id has a locker; a token in it is the owner's own, and without one the owner's own send is enabled |
| LockExclusion.SweepSafeExactlyForHolder | sync/mutex.go:75-78 | For callers of any kind, one turn of a disconnect keeps channels and holders in agreement if and only if the owner holds the id |
| LockExclusion.GoodNotStuck | sync/mutex.go:42-82 | No call of a disciplined run waits for good or meets a missing locker |
| LockDisconnect.DisconnectSafeExactlyWhenAlone | sync/mutex.go:70-82 | From every disciplined state: all runs of sends and loop turns of a disconnect keep channels and holders in agreement if and only if nobody else has a request for an id the owner still waits for |
| LockDisconnect.BreakingRun | sync/mutex.go:70-82 | Otherwise there is a run of sends and loop turns that breaks the agreement |
| LockDisconnect.DisconnectReturnsExactlyWhenCounted | sync/mutex.go:70-82 | For callers of any kind, decided before the call: some run of sends and loop turns completes a disconnect if and only if each id of the owner's list is counted at least as often as it is listed, and no such run is stuck if and only if that holds |
| LockDisconnect.EndsByTheList | sync/mutex.go:74-80 | Every run that is stuck is at the first place where the list is short, with the lockers as they were before the call |
| LockDisconnect.ListExactlyWhenAskedOnce | sync/mutex.go:57-65 | After a holder's `Unlock` its list is still the list of its live ids if and only if it had exactly one live request for the id |
| LockDisconnect.UnlockForgetsId | sync/mutex.go:57-65 | For callers of any kind, holding or not: the caller's list loses every copy of the id and nothing else, in order, its key goes when empty, and no other list changes |
| LockDisconnect.SurplusSurvivesDisconnect | sync/mutex.go:57-79 | After a holder's `Unlock` and any disconnect all its requests for the id but one are left, so none is exactly when it had asked once |
| LockDisconnect.PassedOver | sync/mutex.go:74-80 | A disconnect never releases a request for an id that is not on the owner's list |
| LockDrain.MapsRefineRequests | sync/mutex.go:30-34 | After every disciplined run the maps are one relation of live (owner, id) requests: each list duplicate-free and in request order, its key absent when empty, each counter the number of owners listing the id |
| LockDrain.StepMeasure | sync/mutex.go:37-79 | Without new requests each send and each release lowers 2 x waiting + held by exactly one |
| LockDrain.RunMeasure | sync/mutex.go:37-79 | Over a whole run the measure falls by the number of sends and releases in it |
| LockDrain.NextStep | sync/mutex.go:42-82 | Until everything is drained a disciplined step that is no new request is enabled, and it makes progress |
| LockDrain.Drain | sync/mutex.go:42-82 | Every disciplined state can be drained, in exactly as many sends and releases as the measure says, to no owner lists, empty channels and zero counters |
| LockDrain.UnlocksLeaveNothing | sync/mutex.go:52-56 | If every release went through `Unlock`, a drained service has no lockers and no counters left |
| LockDrain.StrangerUnlockBreaksExclusion | sync/mutex.go:42-67 | From a reachable state an `Unlock` by an owner that holds nothing leads to two holders |
| LockDrain.DisconnectWhileWaitingBreaksExclusion | sync/mutex.go:70-82 | From a reachable state the disconnect of a waiting owner leads to two holders |
| LockDrain.StrangerUnlockLeavesMissingLocker | sync/mutex.go:75-76 | A run in which the disconnect loop meets an id whose locker is gone |
| LockDrain.SecondRequestEscapesDisconnect | sync/mutex.go:57-60 | A run in which an owner's second request for the id it holds survives its disconnect |
| LockDrain.StrayUnlockBlocksForGood | sync/mutex.go:75-79 | A run in which a disconnect leaves a locker with counter zero, after which an `Unlock` of the id by anybody keeps the mutex for good |
| LockDrain.ReachContended | sync/mutex.go:21-39 | A disciplined run reaches the contended state those runs start from |
| LockService.Service.Lock | sync/mutex.go:21-37 | The maps after registering are those of the register step, and the channel to send on is the id's current one |
| LockService.Service.Unlock | sync/mutex.go:42-67 | For callers of any kind, with waiters' sends let in while it waits: a run of the protocol that comes back unless the id has a locker with counter zero; a missing locker changes nothing; by the rules it always comes back and keeps the invariants |
| LockService.Service.Receive | sync/mutex.go:51-65 | The maps after the token was received are those of the unlock step |
| LockService.Service.AwaitToken | sync/mutex.go:88-93 | The wait ends with a token in the channel exactly when the counter is positive |
| LockService.Service.ForgetInList | sync/mutex.go:57-65 | The backward delete-while-scanning loop never indexes out of range, removes every copy of the id, keeps the order, drops an emptied key and touches no other owner |
| LockService.Service.Send | sync/mutex.go:84-86 | The send is the grant step |
| LockService.Service.SweepOne | sync/mutex.go:75-78 | One loop turn is the sweep step, for callers of any kind |
| LockService.Service.UnlockForOwner | sync/mutex.go:70-82 | For callers of any kind, with waiters' sends in between: a run of the protocol that comes back if and only if each id of the list is counted at least as often as it is listed, and then lists nothing for the owner; otherwise it ends at the first place that is short, at a missing locker if and only if that id had none before the call; by the rules it always comes back, keeps the invariants and leaves nothing of the owner |
| LockService.ScannedIs | sync/mutex.go:57-65 | What the backward scan has passed has lost the id, what it has not reached is untouched |
| ConfigValidate.Validate | config/process.go:178-322 | For every order in which the maps are walked the output is the compiled configuration, up to which of several migrations of one version is sorted last |
| ConfigValidate.KeepValid | config/process.go:184-232 | The first loop keeps exactly the stores whose props are valid, normalised, and lets no two of them share a table |
| ConfigValidate.MergeAll | config/process.go:234-319 | The second loop outputs exactly the stores with resolved references, each merged with defaults as they were before the loop |
| ConfigValidate.ValidateOne | config/process.go:185-231 | One store: nil props made, unknown type read as directory, maps and workspaces stripped, single stores given `_id`, props validated in place |
| ConfigValidate.MergeOne | config/process.go:258-291 | One store gets the general layer and then its type's layer, though tables are updated in place |
| ConfigValidate.MergeTurn | config/process.go:236-319 | One turn adds exactly one finished store and disturbs no pending store, no default and no finished one |
| ConfigCompile.OutputSoundExactlyWithoutLeaks | config/process.go:234-291 | The references of an output store all name validated stores if and only if no layered default lends one that does not, decided key by key on the inputs |
| ConfigCompile.OutputClosedExactly | config/process.go:234-319 | The references of an output store all name output stores if and only if no key of the store or of its layers lends a reference to a store that is missing, invalid or dropped by the reference check |
| ConfigCompile.OutputRefsExactly | config/process.go:234-291 | The same for any set of names |
| ConfigCompile.LeadsOutExactly | config/process.go:602-689 | For any set of names one merged prop refers outside it if and only if the input prop that lends the reference does, through both layers |
| ConfigCompile.ReferencesSurviveMerging | config/process.go:234-291 | If every validated default store passes the reference check, every ref, refList and virtualRefList prop of every output store, top level or one level nested, names a validated store |
| ConfigOutput.OutputExactly | config/process.go:236-256 | A store is in the output if and only if it passed the first loop and each of its ref, refList and virtualRefList props, top level or nested, names a store that did |
| ConfigOutput.SurvivesExactly | config/process.go:184-232 | A store passes the first loop if and only if its props keep the rules of their types, those of maps and workspaces and the `_id` of a single store aside |
| ConfigOutput.SurvivorExactly | config/process.go:184-232 | What it becomes: unknown types are directories, known ones stay; maps and workspaces lose their props; a single store gets the fixed `_id`; every other prop is stored under its key; filters, access and migrations stay |
| ConfigOutput.OutputByType | config/process.go:258-291 | Which layers an output store has, by type and default name: process and single stores take props and filters of `_default` and then of their own default; notification stores the props and, if they have none, the access of theirs, never its filters; all others only `_default`; the five default stores none |
| ConfigOutput.UntypedStoreIsDirectory | config/process.go:214-216 | A store of unknown type is output as a directory with the `_default` layer and no other, its keys those of both |
| ConfigOutput.MapsTakeDefaultProps | config/process.go:198-203 | A map or workspace is output with exactly the props of `_default` |
| ConfigOutput.OutputMigrations | config/process.go:293-318 | An output store differs from the compiled one only in its migrations, which increase strictly, have scripts, come from the store and keep each unproblematic one |
| ConfigCompile.UnsoundDefaultLeaks | config/process.go:240-267 | A configuration whose dropped `_default` lends a dangling reference |
| ConfigCompile.ReferenceToDroppedStoreStays | config/process.go:240-245 | A configuration whose output refers to a store that the same check dropped |
| ConfigCompile.SurvivorsTyped | config/process.go:184-232 | After the first loop every prop has a type, every reference names a store, and each store carries its own name |
| ConfigShape.OverrideShapeExactly | config/process.go:602-689 | A validated prop under a configurable default is still in shape, so that validation would accept it unchanged, if and only if the default lends it nothing its type does not use and what it lends fits |
| ConfigShape.LayerShapesExactly | config/process.go:264-266 | A whole layer keeps a table in shape if and only if each configurable default under an existing prop fits |
| ConfigShape.OutputShapesExactly | config/process.go:258-291 | All props of an output store are in shape if and only if at every key of the store and its layers the configurable defaults, combined, fit what they lie over; decided on the validated stores |
| ConfigShape.TwoLayerShapeExactly | config/process.go:602-689 | The same for one key of any three tables in shape |
| ConfigShape.OverrideAssociates | config/process.go:617-688 | Two configurable defaults over a prop act as the second completed from the first |
| ConfigShape.SecondLayerRepairs | config/process.go:258-291 | Tables whose first layer breaks the shape and whose second restores it |
| ConfigShape.BoundsCross | config/process.go:648-653 | Two validated props whose merge validation refuses |
| ConfigProps.ValidateProps | config/process.go:324-535 | In any walking order: success if and only if every prop passes, then exactly the normalised table, and never another key set |
| ConfigRules.TableAcceptedExactly | config/process.go:324-577 | A table is accepted if and only if each prop keeps the rule of its type: default nil, an expression or of the right sort; bounds with one, both or none given; lengths; store and foreign key; objects one level deep |
| ConfigRules.AcceptedExactly | config/process.go:332-531 | The same for one prop that is not an object |
| ConfigRules.BoundsDecided | config/process.go:554-577 | Bounds pass if and only if there are none, they are numbers in order, or the only one is on the right side of zero |
| ConfigRules.TableStoredExactly | config/process.go:325-531 | What an accepted table becomes: same keys, each prop with exactly the settings of its type's unused groups reset and all others as they were, an untyped one a string |
| ConfigRules.TopStoredExactly | config/process.go:482-510 | The same for one prop, an object keeping its own props as stored |
| ConfigProps.ShapeIsFixpoint | config/process.go:324-535 | A prop is in the shape of its type if and only if validation accepts it unchanged, and whatever validation stores is in shape |
| ConfigProps.NormalisedIsNormal | config/process.go:324-535 | A validated table keeps its keys, has every prop in shape, objects one level deep, and validates again to itself |
| ConfigProps.FlatFixpoint | config/process.go:332-520 | For props that are not objects: shape, fixpoint and result of validation coincide |
| ConfigProps.ClearedTwice | config/process.go:579-600 | Clearing the unused groups of settings is finished after one pass |
| ConfigDefaults.LoadDefaultIntoProp | config/process.go:602-689 | One default loaded in place: a non-configurable or new one as it is, a configurable one under the store's settings |
| ConfigDefaults.LoadDefaults | config/process.go:264-266 | The loop over a default store, in any order, gives the layer key by key and leaves the defaults alone |
| ConfigDefaults.TwoLayers | config/process.go:262-291 | The exact value of every field of every prop after the general and the type-specific layer |
| ConfigDefaults.LayerTwice | config/process.go:602-689 | Applying one layer again changes nothing |
| ConfigDefaults.MergeFilters | config/process.go:699-741 | Filters are merged in place, or into a new table when there are none, key by key; the default's are only read |
| ConfigDefaults.TwoFilterLayers | config/process.go:699-741 | The exact value of every field of every filter after two layers, the first set one winning |
| ConfigDefaults.FilterLayers | config/process.go:699-741 | Two layers equal one layer of the two defaults merged |
| ConfigDefaults.FilterLayerTwice | config/process.go:699-741 | Applying one filter layer again changes nothing |
| ConfigDefaults.MergeAccess | config/process.go:691-697 | Access rules come from the default exactly when the store has none |
| Migrations.PruneInPlace | config/process.go:297-316 | The backward in-place scan leaves exactly the pruned list |
| Migrations.SortAndPrune | config/process.go:293-317 | For any sort of equal versions the array ends as the pruning of that sorted list |
| Migrations.PrunedResult | config/process.go:293-317 | Whatever the sort does with equal versions: versions strictly increase, no script is empty, nothing is invented, and every unique non-empty version other than -99 survives |
| Migrations.KeptExactly | config/process.go:297-316 | A sorted entry survives if and only if its script is not empty, no later entry has its version, and it is not -99 in the last place |
| Migrations.SortUnique | config/process.go:294-296 | With distinct versions every sort gives the same list |
| SessionSpec.RunAgreed | sessionstore/sessionstore.go:74-272 | After every run memory and database have the same keys, each session under its own key, equal in what a copy carries, stored V <= memory V <= stored V + 1, connection ids unique |
| SessionSpec.StepAgreed | sessionstore/sessionstore.go:74-272 | Each operation, late deletions, sweeps and restarts included, keeps that agreement |
| SessionEffects.RecordFields | sessionstore/sessionstore.go:387-435 | After every run the record of each session has its key, token, user, connections with all subscriptions, last request and expiry, and its version or the one before |
| SessionEffects.CreateEffect | sessionstore/sessionstore.go:108-123 | `New` puts the session with token, user, times and no connections under its key, in memory and database, and nothing anywhere else |
| SessionEffects.SubscribeEffect | sessionstore/sessionstore.go:192-213 | A subscription sets the address in the connection's map, makes the connection if need be, writes a record with the new connections, then counts up; no other field or key changes |
| SessionEffects.UnsubscribeEffect | sessionstore/sessionstore.go:231-249 | The same for a removed subscription; without the connection nothing changes |
| SessionEffects.DisconnectEffect | sessionstore/sessionstore.go:216-228 | The same for a removed connection, saved even when it was not there |
| SessionEffects.MissingEffect | sessionstore/sessionstore.go:304-313 | Under a key that is not in memory no operation on connections changes anything |
| SessionEffects.DeleteForUserEffect | sessionstore/sessionstore.go:180-189 | Exactly one deletion is started for each session of the user, none for others |
| SessionEffects.DeleteEffect | sessionstore/sessionstore.go:163-177 | A deletion removes session and record of its key and nothing else; a pending one is used up |
| SessionEffects.DropConnectionsEffect | sessionstore/sessionstore.go:127-135 | Every session and record loses its connections and keeps every other field, versions included |
| SessionEffects.SweepEffect | sessionstore/sessionstore.go:331-344 | At each key: session and record stay, unchanged, if and only if they have not expired |
| SessionEffects.RestartEffect | sessionstore/sessionstore.go:346-377 | At each key: a record comes back if and only if it has not expired, with every field but its connections |
| SessionSpec.RestartRestores | sessionstore/sessionstore.go:346-377 | From any reachable state a restart yields exactly the sessions not expired, with key, token, user, expiry kept and no connections, deletes the other records and re-establishes agreement |
| SessionSpec.SweepRemovesExactlyExpired | sessionstore/sessionstore.go:331-344 | A sweep removes exactly the sessions whose expiry is before now, from both sides, and changes no other |
| SessionSpec.OnlyCreateMakesKeys | sessionstore/sessionstore.go:74-272 | A key that is gone stays gone in memory and database until it is created again |
| SessionSpec.DeletionTakesItsOwnExactly | sessionstore/sessionstore.go:180-189 | Over every run without a restart between request and execution, with a session under the key: the background deletion takes the session it was started for if and only if nobody called `New` with the key; otherwise it takes a later session exactly when the request is still pending |
| SessionSpec.Origin | sessionstore/sessionstore.go:74-124 | Over every such run the session under a key is the one of the last `New` with the key, with its token, or the one that was there |
| SessionSpec.LateDeleteTakesNewSession | sessionstore/sessionstore.go:252-263 | A run in which a background deletion removes a session created under its key in the meantime |
| SessionSpec.LateUpdateAgreesExactly | sessionstore/sessionstore.go:192-249 | A handler operates on a session it found, any run without a restart later. It is still the stored one if and only if its key is in memory and nobody called `New` with it, and then memory and database agree afterwards; otherwise they agree only with a session that could have written the same record, so never if its token was not given out again |
| SessionSpec.OtherTokenNeverAgrees | sessionstore/sessionstore.go:265-272 | A late update never keeps agreement once its key is gone or belongs to a session with another token |
| SessionSpec.LateUpdateRevivesExactly | sessionstore/sessionstore.go:346-377 | A late update of a session that is gone brings it back at the next restart if and only if it has not expired by then |
| SessionSpec.DeletionAgreesExactly | sessionstore/sessionstore.go:163-177 | With any run of other steps between its two parts, short of a restart, a deletion leaves memory and database in agreement if and only if the last of those steps to write or erase the key's record, if any, erased it |
| SessionSpec.GapRun | sessionstore/sessionstore.go:252-263 | In the gap all other keys stay in agreement |
| SessionSpec.UnwrittenGap | sessionstore/sessionstore.go:163-177 | A gap without a step that may write the key does no harm |
| SessionSpec.NewInGapLeavesRecord | sessionstore/sessionstore.go:163-177 | A `New` in the gap leaves a record without a session, which is back at the next restart unless expired |
| SessionSpec.SubscribedIsInsert | sessionstore/sessionstore.go:192-213 | On the list, first match or append is map insertion, and ids stay unique |
| SessionSpec.UnsubscribedIsRemove | sessionstore/sessionstore.go:231-249 | On the list, first match is removal of one subscription from the map |
| SessionSpec.DisconnectedIsForget | sessionstore/sessionstore.go:216-228 | Removing the first match forgets the connection, and ids stay unique |
| SessionSpec.AsMapAt | sessionstore/sessionstore.go:197-202 | The first connection with an id is what the map holds under it, and there is none exactly when the map has no such key |
| SessionSpec.ReloadingTurn | sessionstore/sessionstore.go:357-376 | One record of the load loop: memory holds the live records looked at so far, the database those and the ones still to come |
| SessionStore.CopySession | sessionstore/sessionstore.go:413-435 | The copy is made of new objects only and has every field, connection and subscription of the session but the time of creation |
| SessionStore.Session.AddSubscription | sessionstore/sessionstore.go:192-211 | In place: the session's value afterwards is the insertion, its connections its own objects |
| SessionStore.Session.DeleteConnection | sessionstore/sessionstore.go:216-225 | In place: the value afterwards is the removal |
| SessionStore.Store.SessionUpdated | sessionstore/sessionstore.go:387-404 | The record is the copy before V goes up, and the handlers get a new object that shows the same |
| SessionStore.Store.Publish | sessionstore/sessionstore.go:387-404 | The store takes the update or the late update, whichever the session is in for, and hands out one snapshot |
| SessionStore.Store.New | sessionstore/sessionstore.go:108-123 | The store takes the create step; the session returned is the one under the key |
| SessionStore.Store.AddSubscription | sessionstore/sessionstore.go:192-213 | For a session found at any time: one that is still stored takes the subscribe step, any other only has its record written; one fresh snapshot equal to the record is handed out, and older ones show what they showed |
| SessionStore.Store.DeleteConnection | sessionstore/sessionstore.go:216-228 | The same for the disconnect step |
| SessionStore.Store.DeleteSubscription | sessionstore/sessionstore.go:231-249 | The same for the unsubscribe step; without the connection nothing changes and no snapshot is made |
| SessionStore.Store.Delete | sessionstore/sessionstore.go:163-177 | Both parts of a deletion, with nothing in between, are the delete step, though the live session's version goes up |
| SessionStore.Store.EraseRecord | sessionstore/sessionstore.go:164-167 | The part before the lock |
| SessionStore.Store.Evict | sessionstore/sessionstore.go:169-173 | The part under the lock |
| SessionStore.Store.DeleteAllForUser | sessionstore/sessionstore.go:180-189 | For any walking order exactly the user's sessions get a background deletion |
| SessionStore.Store.RunDelete | sessionstore/sessionstore.go:252-263 | A background deletion, however late, takes the step that deletes by key when nothing comes between its parts |
| SessionStore.Store.DeleteAllConnections | sessionstore/sessionstore.go:127-135 | For any walking order every session and its record lose their connections, and nothing else changes |
| SessionStore.Store.ClearRottenSessions | sessionstore/sessionstore.go:331-344 | For any walking order the store takes the sweep step |
| SessionStore.Store.LoadSessions | sessionstore/sessionstore.go:346-377 | For any walking order an empty store on a database takes the restart step |
| OnceGate.GateSafety | sync/once.go:22-39 | Over every timed run an id is present exactly when one timer for it is outstanding, never more, and its successes are at least a period apart |
| OnceGate.WindowedSuccesses | sync/once.go:16-39 | Any closed window of length L holds at most L / ttl + 1 successes for an id |
| OnceGate.WindowBoundReached | sync/once.go:22-39 | The bound is reached: for every ttl and n there is a run with n + 1 successes of one id in a closed window of length n * ttl |
| OnceGate.BusySucceeds | sync/once.go:22-39 | One id asked again as each timer fires succeeds now and after each of n periods |
| OnceGate.RunGood | sync/once.go:22-39 | The invariant behind both holds after every run |
| OnceGate.SpacedTimes | sync/once.go:22-30 | Successes apart in the log are apart for each id |
| OnceGate.WindowBound | sync/once.go:22-39 | Between n moments that lie apart there are n - 1 whole periods |
| OnceGate.Gate.Once | sync/once.go:22-30 | The caller is let through if and only if the id is absent, and then its last success is at least a period old |
| OnceGate.Gate.Expire | sync/once.go:33-37 | The timer's callback frees the id and keeps the invariant |
| PrefixScan.GetAllKeysByPrefix | bdb/bdb.go:319-335 | With a non-empty prefix the seek and next loop terminates and returns exactly the matching keys; with an empty one it never comes back; a missing bucket is an error |
| PrefixScan.MatchingMeans | bdb/bdb.go:319-335 | Those are all keys with the prefix, in the bucket's order, once each |
| PrefixScan.BlockIsComplete | bdb/bdb.go:329-331 | The keys with a prefix are one contiguous block from the lower bound on |
| PrefixScan.PrefixConvex | bdb/bdb.go:329-331 | Between the prefix and a key that has it lie only keys that have it |
| PrefixScan.LessMeans | bdb/bdb.go:329-331 | Byte order: where two keys first differ the smaller one has ended or has the smaller byte |
| PrefixScan.Seek | bdb/bdb.go:329 | The seek lands on the lower bound |
| PrefixScan.ScanEndsExactlyForNonEmptyPrefix | bdb/bdb.go:329-331 | The loop ends if and only if the prefix is not empty |
| JwtTtl.ParseExactlyWhenItFits | config/settings.go:32-50 | For all digit texts the parse is 60h + m minutes if and only if that many nanoseconds fit in 64 bits |
| JwtTtl.PrintedTtlReadsBack | config/settings.go:32-50 | Parsing the printed "h:m" gives the duration back if and only if it is at most 2562047:47 |
| JwtTtl.ParseIgnoresRest | config/settings.go:32-48 | Whatever follows a second colon is ignored, for any two fields |
| JwtTtl.ParseHours | config/settings.go:36-40 | A text without a colon is hours alone, and what is no number is reported |
| JwtTtl.ParseHoursAndMinutes | config/settings.go:36-48 | Any two numbers, signs included, add up to hours and minutes while they fit; the first that is no number is reported |
| JwtTtl.AtoiOfSigned | config/settings.go:36 | Numbers are decimal with an optional sign and must fit in 64 bits |
| JwtTtl.AtoiOnlyOfSigned | config/settings.go:36 | Nothing else is a number |
| JwtTtl.DefaultIsADay | config/settings.go:26-28 | Without settings and with the built-in ones a token lives a day |
| JwtTtl.PrintReadsBack | config/settings.go:36-43 | Printed numbers read back |
| JwtTtl.WrapSum | config/settings.go:40-47 | Wrapping in between does not change the wrapped sum |
| JwtTtl.MemoIsFresh | config/settings.go:22-51 | In every run of reads and reloads a memo equals a fresh parse of the current text, and reads answer as if there were none |
| JwtTtl.ReadAfterReload | config/process.go:171-175 | After a reload and any number of reads, a read answers the parse of the text the reload brought, or of the old one if it brought none |
| JwtTtl.ServerSettings.JWTTTL | config/settings.go:22-51 | The read answers the parse of the current text, or a day without settings, and leaves the memo fresh |
| JwtTtl.ServerSettings.LoadServerSettings | config/process.go:158-176 | A reload takes the new text and drops the memo; without the section nothing changes |

## Left out

- LockService.Service.Lock: a channel is a number and its content a token count, not a heap object.
- PrefixScan.Seek: BoltDB's own search is not modelled, only where it lands.
- ConfigValidate.Validate: distinct stores have distinct prop and filter tables, as stores decoded from a file have; the nested prop maps and the migration slices that copies of a store share are values.
- ConfigProps.ValidateProps: nil and empty maps are the same; numbers are reals, so NaN and float rounding are not modelled; which error is reported first depends on the order and is not modelled.
- JwtTtl.ServerSettings.LoadServerSettings: JSON decoding of the section is a parameter; a reload before the defaults exist is excluded, where `loadServerSettings` dereferences nil.
- SessionSpec.RunAgreed: a deletion is one step; `SessionSpec.DeletionAgreesExactly` says what a run between its two parts does.
- SessionSpec.DeletionTakesItsOwnExactly: a restart in between is not covered, since it forgets all pending deletions.
- SessionStore.Store.LoadSessions: records lie under their own keys, as `SessionSpec.RunAgreed` shows they do; records that cannot be decoded, which `loadSessions` skips, do not occur here.
- SessionStore.Store.New: signing, claims and generated ids are parameters; the database write succeeds.
- Time of creation: a copy does not carry it, so agreement does not cover it.
- `GetAll`, `GetByAPIKey`, `getByUserID` and the handler registration: reads that would only add easy members.
- `loadFromProviders`, `mergeWith`, providers, file reading and update callbacks: I/O and appending of stores.
- The rest of BoltDB access (`Save`, `Delete`, `Get`, nested buckets, `Inc`): behaviour of a library; the database is a map.
- `main.go` and `handlers.go`: transport and argument casts; they only fix that the owner of a lock is the connection.
- `registry`, `localstorage`, `utils`, `berror`: thin wrappers and list helpers.
- Fields of stores, props and filters that no modelled function reads: one `rest` field carries them.
