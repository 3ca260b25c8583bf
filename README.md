# backend.ai manager core in Dafny

This project models the core logic of the backend.ai manager and proves
properties of the model. It covers the following parts:

- **Instance registry** (`sorna/manager/registry.py`, module `Registry`).
  - The agents, kernels and keypairs tables are sequences and a map.
  - `create_kernel` scans the ALIVE agents' free slots and keeps those that fit the requested slot.
  - It picks the first agent with the largest free mem+cpu+gpu and reserves the slots.
  - It inserts a PREPARING master kernel and marks it RUNNING after the agent call; a failure rolls the transaction back.
  - Also modelled: termination (giving the slots back), the heartbeat state machine, `forget_instance` and `mark_session_terminated`.
  - Also modelled: the exception mapping of `handle_kernel_exception` and `RPCContext`.
- **Scheduler selection rules** (`tests/test_scheduler.py`, module `Scheduler`).
  - The scheduler name map.
  - The FIFO/LIFO `pick_session` rules, including the head-of-line-blocking skip rule.
  - The test helper that finds and pops the picked session.
  - "No agent fits gives None" in agent assignment.
  - The reserved-batch start-time predicate across UTC offsets.
- **Web-app plugin context** (`src/ai/backend/gateway/plugin.py`, module `GatewayPlugin`).
  - `add_plugin`.
  - `init`, which validates each plugin's `(prefix, app, middlewares)` triple in registration order.
  - `enumerate_apps`.
  - The hook plugin context, whose methods do nothing.
- **Hook vocabulary** (`src/ai/backend/manager/plugin/types.py`, module `HookTypes`). The event and result enumerations with their integer codes.
- **Groups and domains** (`models/group.py` and `models/domain.py`).
  - Modules `Slug` (the name validator), `OrderedDict` (the order-preserving batch loaders), `ResourcePolicy` (the legacy-field resolvers), `Groups` and `Domains`.
  - The tables become classes whose fields are the table contents.
  - Each GraphQL mutation becomes a method whose contract spells out every outcome.
- **Resource-policy migration d858d54c361c** (module `Migration`).
  - The upgrade folds legacy per-domain and per-group resource columns into auto-named keypair resource policies.
  - The downgrade copies them back and deletes the auto-generated policies by a LIKE prefix.
  - Both are loops proved against recursive specifications.
  - The round trip is proved under stated conditions.
- **Batch user fixture script** (`scripts/create-users-batch.py`, module `UsersBatch`).
  - The loop that builds parallel lists of users, group associations and keypairs.
  - The credentials CSV.

Behaviours that look surprising are modelled as the code behaves and are exhibited by lemmas:

- The slug regex accepts one trailing newline, because Python's `$` matches before a final `"\n"`.
- The middleware check of `WebAppPluginContext.init` tests the sub-app, so once the sub-app is an Application the check can never fire.
- In LIKE, the leading `_` of the policy prefixes is a one-character wildcard.
- The downgrade writes group values back by group *name*, so groups sharing a name all get the last one's values.
- The downgrade never reads a row's own `resource_policy` beyond testing that it is set. It looks up the conventional auto-generated name instead, `_auto_generated_group_policy_{name}_{id}` or `_auto_generated_domain_policy_{name}`. A row with a policy set whose conventional auto policy is absent makes the downgrade fail with an AttributeError. A group renamed after the upgrade, or re-pointed at an existing policy such as "default", is such a row.

Unbounded integers are used throughout. The source does no fixed-width arithmetic on these values.

## Model

| member | source | states |
|---|---|---|
| Common.ArgMaxFirst | sorna/manager/registry.py:335-336 | Python `max` with a key: the index returned holds a maximal key and every earlier element has a strictly smaller key (the first maximum wins) |
| Common.FirstMaximalUnique | sorna/manager/registry.py:335-336 | the first maximal position is unique: any index with those two properties is the one `max` returns |
| HookTypes.EventCode | src/ai/backend/manager/plugin/types.py:4-10 | every event code lies strictly between 0x1000 and 0x4000 |
| HookTypes.EventFromCode | src/ai/backend/manager/plugin/types.py:4-10 | enum value lookup: a found member has that code; no member found means no member has it |
| HookTypes.EventCodeRoundTrip | src/ai/backend/manager/plugin/types.py:4-10 | looking up the code of any event gives that event back |
| HookTypes.EventCodeInjective | src/ai/backend/manager/plugin/types.py:4-10 | distinct events have distinct codes |
| HookTypes.EventCodesAreSix | src/ai/backend/manager/plugin/types.py:4-10 | the set of codes is exactly {0x1001, 0x1002, 0x2001, 0x2002, 0x3001, 0x3002} |
| HookTypes.EventCodeGroupsBySubsystem | src/ai/backend/manager/plugin/types.py:5-10 | code / 0x1000 is 1 for USER_*, 2 for KERNEL_* and 3 for VFOLDER_*; code % 0x1000 is 1 or 2 |
| HookTypes.ResultCode | src/ai/backend/manager/plugin/types.py:13-16 | result codes are 0, 1 or 2 |
| HookTypes.ResultFromCode | src/ai/backend/manager/plugin/types.py:13-16 | lookup by code succeeds exactly for the codes some member has |
| HookTypes.ResultCodeRoundTrip | src/ai/backend/manager/plugin/types.py:13-16 | BYPASS, REJECTED and MODIFIED round-trip through their codes |
| GatewayPlugin.Unpack3 | src/ai/backend/gateway/plugin.py:52-56 | unpacking into three names: a non-iterable fails, an iterable of length 3 yields its items in order, any other length fails |
| GatewayPlugin.CheckPluginCharacterised | src/ai/backend/gateway/plugin.py:52-67 | a plugin's init result is accepted iff it is a 3-tuple whose prefix is a non-empty string and whose sub-app is an Application; the accepted entry is that triple; non-iterables give a TypeError and wrong lengths the protocol error |
| GatewayPlugin.MiddlewareCheckNeverFires | src/ai/backend/gateway/plugin.py:64-67 | the middleware protocol error is never raised, because the check tests the sub-app, which has already passed as an Application |
| GatewayPlugin.NonIterableMiddlewaresAccepted | src/ai/backend/gateway/plugin.py:64-67 | a triple whose middlewares are not iterable is still accepted |
| GatewayPlugin.RunInit | src/ai/backend/gateway/plugin.py:50-69 | the accepted entries are the checked results of a prefix of the plugins; with no failure every plugin contributed, in order; on failure the failing plugin is the one after the accepted prefix |
| GatewayPlugin.RunInitSucceedsIff | src/ai/backend/gateway/plugin.py:50-69 | init succeeds iff every registered plugin's result is accepted |
| GatewayPlugin.AcceptedPrefix | src/ai/backend/gateway/plugin.py:51-69 | if plugin i is the first to fail, exactly plugins 0..i-1 stay appended and the failure is plugin i's error |
| GatewayPlugin.RunInitFromChecks | src/ai/backend/gateway/plugin.py:51-69 | entries accepted one per plugin up to the first rejection (or the end) are exactly the accepted list, and the failure is that rejection's error or none |
| GatewayPlugin.WebAppPluginContext.constructor | src/ai/backend/gateway/plugin.py:44-48 | starts with no plugins, no web apps, not initialised |
| GatewayPlugin.WebAppPluginContext.AddPlugin | src/ai/backend/gateway/plugin.py:74-75 | appends the module to the plugin list and changes nothing else |
| GatewayPlugin.WebAppPluginContext.Init | src/ai/backend/gateway/plugin.py:50-69 | appends the accepted entries to `webapps`, returns the failure if any, and sets the initialised flag only on success |
| GatewayPlugin.WebAppPluginContext.EnumerateApps | src/ai/backend/gateway/plugin.py:77-80 | refuses iff uninitialised; otherwise yields `webapps` in order |
| GatewayPlugin.HookPluginContext.DispatchEvent | src/ai/backend/gateway/plugin.py:91-92 | returns None whatever the event |
| Registry.OpExceptionClass | sorna/manager/registry.py:125-132 | an exception class is defined exactly for create_kernel, restart_kernel, destroy_kernel, execute and upload_file |
| Registry.HandleKernelExceptionMapping | sorna/manager/registry.py:121-162 | a timeout becomes the op's class with TIMEOUT and an agent error becomes it with FAILURE; anything else is re-raised; the error status is set iff requested and not cancelled; the error callback runs iff given and not cancelled; the cancellation callback runs iff given and cancelled |
| Registry.UnknownOpIsKeyError | sorna/manager/registry.py:132 | an op missing from the table raises KeyError, with no status update and no callback |
| Registry.RpcContextError | sorna/manager/registry.py:35-61 | an error escaping the RPC becomes an AgentError with its detail iff it is not one of the preserved kinds, and each preserved kind comes out as the same exception |
| Registry.ScanAvailable | sorna/manager/registry.py:316-326 | the scan loop lists the free slots (total minus used) of exactly the ALIVE agents, in table order |
| Registry.AliveFreeMembers | sorna/manager/registry.py:316-326 | every scanned slot belongs to an ALIVE agent and every ALIVE agent is scanned; agents in other states are never candidates |
| Registry.FittingMembers | sorna/manager/registry.py:329-332 | the filter keeps exactly the scanned slots that cover the request in mem, cpu and gpu |
| Registry.SurvivorIndices | sorna/manager/registry.py:316-332 | the indices of the surviving agents, increasing, and complete |
| Registry.FittingIsSurvivors | sorna/manager/registry.py:316-332 | the filtered list is exactly the free slots of the surviving agents, in scan order |
| Registry.ChosenSlot | sorna/manager/registry.py:334-338 | a chosen slot always carries an agent id |
| Registry.NoChoiceIffNoRoom | sorna/manager/registry.py:334-338 | no agent is chosen iff no ALIVE agent fits the request |
| Registry.ChosenSlotIsFirstBestFit | sorna/manager/registry.py:334-338 | the chosen agent survives the filter and has maximal free mem+cpu+gpu; every surviving agent before it has strictly less |
| Registry.ChosenPosition | sorna/manager/registry.py:334-338 | the same best-fit facts, with the chosen agent's scan position returned |
| Registry.CountWithId | sorna/manager/registry.py:351-352 | the row count of an update by agent id is zero iff no row has that id |
| Registry.FirstAgentAddr | sorna/manager/registry.py:355-358 | the address lookup is None iff no agent has that id, and otherwise is the address of a row with that id |
| Registry.FirstKernel | sorna/manager/registry.py:554-562 | the kernel lookup finds a row with that id, or None iff there is none |
| Registry.FirstAgentStatus | sorna/manager/registry.py:506-509 | the status lookup is None iff the agent is unknown, and otherwise some row's status |
| Registry.CreateKernelFailure | sorna/manager/registry.py:384-392 | the agent call raises nothing iff it returned a record for the new kernel id; None becomes KernelCreationFailed('ooops') and the other outcomes go through RPCContext and the create_kernel handler |
| Registry.InstanceRegistry.constructor | sorna/manager/registry.py:86-88 | holds the given tables |
| Registry.CreateKernelRun | sorna/manager/registry.py:306-414 | create_kernel on given tables: no fitting agent gives InstanceNotAvailable; success happens iff an agent fits, the reservation hits exactly one row and the agent returns a record for the new id; every failure leaves both tables as they were; success reserves the request on the chosen agent's rows only and appends one RUNNING master kernel with the new id, session, owner key, the reserved slots and the address of the chosen agent |
| Registry.InstanceRegistry.CreateKernel | sorna/manager/registry.py:306-414 | the result and both new tables are those of `CreateKernelRun` on the old tables |
| Registry.InstanceRegistry.GetOrCreateKernel | sorna/manager/registry.py:286-298 | an empty access key fails the assertion; an existing session kernel is returned with created=false and nothing changed; otherwise the new tables are those of `CreateKernelRun`, its error passes through unchanged, and a created kernel comes back with created=true |
| Registry.InstanceRegistry.MarkKernelTerminated | sorna/manager/registry.py:542-575 | the kernel becomes TERMINATED and its recorded slots are given back to its agent; a missing kernel leaves the agents alone |
| Registry.ReserveThenTerminateRestores | sorna/manager/registry.py:542-575 | reserving a kernel's slots and then terminating that kernel restores the agent table exactly |
| Registry.TerminateTwiceReleasesTwice | sorna/manager/registry.py:542-575 | termination is not idempotent: terminating twice subtracts the slots twice |
| Registry.InstanceRegistry.HandleHeartbeat | sorna/manager/registry.py:503-540 | the agent table becomes the heartbeat transition of the old one |
| Registry.HeartbeatMakesAlive | sorna/manager/registry.py:503-540 | after a heartbeat the agent is present and ALIVE. An unknown agent is appended with nothing used and no `lost_at`. An ALIVE row is untouched. A LOST or TERMINATED row is revived with `lost_at` cleared. Other rows are unchanged and ids stay unique |
| Registry.HeartbeatIdempotent | sorna/manager/registry.py:503-540 | a second heartbeat of the same agent changes nothing |
| Registry.InstanceRegistry.ForgetInstance | sorna/manager/registry.py:632-638 | the agent's rows become TERMINATED |
| Registry.ForgottenAgentNotCandidate | sorna/manager/registry.py:632-638 | a forgotten agent offers no slots to later kernel creation |
| Registry.SessionKernels | sorna/manager/registry.py:614-620 | exactly the kernels of the session, no more rows than the table |
| Registry.InstanceRegistry.MarkSessionTerminated | sorna/manager/registry.py:611-630 | the owner key's `concurrency_used` is lowered by the session's kernel count |
| Registry.SessionTerminationCounts | sorna/manager/registry.py:611-630 | the key set is unchanged, only a key owning a kernel of the session can change, and a session with no kernels changes nothing |
| Registry.SessionTerminationSingleOwner | sorna/manager/registry.py:611-630 | when every kernel of the session has the same access key, that key's counter drops by the number of kernels |
| Scheduler.LoadScheduler | tests/test_scheduler.py:40-44 | a loaded scheduler has the requested name; an unknown name loads none |
| Scheduler.LoadSchedulerRoundTrip | tests/test_scheduler.py:40-44 | 'fifo', 'lifo', 'drf' and 'mof' load the FIFO, LIFO, DRF and MOF schedulers |
| Scheduler.FirstUnskipped | tests/test_scheduler.py:694-733 | the first session whose retries are below `num_retries_to_skip`: everything before it is skipped; None means every session is skipped |
| Scheduler.FifoPickRule | tests/test_scheduler.py:660-769 | FIFO picks the first session not skipped, or the head when every session is skipped |
| Scheduler.FifoWithoutSkippingPicksHead | tests/test_scheduler.py:660-692 | with `num_retries_to_skip` 0 or a head without retry data, FIFO picks the head |
| Scheduler.FifoIgnoresTail | tests/test_scheduler.py:754-769 | sessions behind the first non-skipped one do not affect the pick |
| Scheduler.FirstUnskippedUnique | tests/test_scheduler.py:694-733 | any position that is not skipped and has only skipped sessions before it is the one picked |
| Scheduler.HolBlockingScenarios | tests/test_scheduler.py:660-769 | the picks asserted by the head-of-line-blocking tests |
| Scheduler.LifoPick | tests/test_scheduler.py:772-784 | LIFO picks the last pending session, and nothing from an empty list |
| Scheduler.IndexOf | tests/test_scheduler.py:579-586 | the first index holding the picked id, or None if no session has it |
| Scheduler.Popped | tests/test_scheduler.py:579-586 | popping a present id removes exactly one session |
| Scheduler.PendingQueue.constructor | tests/test_scheduler.py:579-586 | holds the given pending sessions |
| Scheduler.PendingQueue.FindAndPop | tests/test_scheduler.py:579-586 | the scan loop returns the first session with the picked id and removes it, keeping the others in order; a missing id changes nothing |
| Scheduler.Ids | tests/test_scheduler.py:579-586 | the session ids, position by position |
| Scheduler.Reverse | tests/test_scheduler.py:603-609 | the reversed id list, position by position |
| Scheduler.FifoDrainsInOrder | tests/test_scheduler.py:589-600 | re-picking and popping with FIFO and no skipping drains the queue in order |
| Scheduler.LifoDrainsReversed | tests/test_scheduler.py:603-614 | re-picking and popping with LIFO drains a queue with unique ids in reverse order |
| Scheduler.LifoPopWithDuplicateIds | tests/test_scheduler.py:579-586 | with duplicate ids, popping the LIFO pick removes the first session with that id, not the picked last one |
| Scheduler.Candidates | tests/test_scheduler.py:617-639 | exactly the agents whose free slots cover every requested slot |
| Scheduler.AssignAgentNoneIffNoRoom | tests/test_scheduler.py:844-856 | assignment returns None iff no agent has room; any assigned agent has room |
| Scheduler.MissingDeviceGetsNoAgent | tests/test_scheduler.py:617-639 | a request for a device no agent has (ROCm) gets no agent |
| Scheduler.FullAgentsGetNoAgent | tests/test_scheduler.py:844-856 | when every agent is fully occupied in a requested slot, no agent is assigned |
| Scheduler.ReservedBatchAcrossOffsets | tests/test_scheduler.py:861-902 | for offsets of 1 to 11 hours, the same local time is in the future west of UTC and in the past east of it; a later start fails, an earlier start passes and an absent start passes |
| Scheduler.ReservedBatchZoneIndependent | tests/test_scheduler.py:861-902 | two start times denoting the same instant give the same verdict |
| Scheduler.ReservedBatchMonotone | tests/test_scheduler.py:861-902 | once a reserved session may start, it still may later |
| Slug.BodyMatchesIsShape | src/ai/backend/manager/models/group.py:32 | the regex body matches iff the name is non-empty, starts and ends with an ASCII letter or digit, and has only letters, digits, `.`, `_` or `-` inside |
| Slug.SearchSlugCharacterised | src/ai/backend/manager/models/group.py:32 | `search` succeeds iff the name has slug shape or is a slug followed by one newline |
| Slug.NewlineFreeSearchIsShape | src/ai/backend/manager/models/group.py:32 | for names without a newline, `search` accepts exactly the slugs |
| Slug.SlugAccepted | src/ai/backend/manager/models/domain.py:27 | single characters and typical names are slugs |
| Slug.TrailingNewlineAccepted | src/ai/backend/manager/models/group.py:32 | one trailing newline is accepted, two are not |
| Slug.SlugRejected | src/ai/backend/manager/models/group.py:32 | empty names, names with a leading or trailing `-`, and spaces are rejected |
| Slug.TailMatchesShape | src/ai/backend/manager/models/group.py:32 | the optional group `[a-zA-Z0-9._-]*[a-zA-Z0-9]` matches iff every character is a slug character and the last is alphanumeric |
| OrderedDict.Dedup | src/ai/backend/manager/models/group.py:183-189 | the keys of an OrderedDict: the same members, distinct, no more than given |
| OrderedDict.DedupOfDistinct | src/ai/backend/manager/models/domain.py:123-124 | distinct keys keep their order and positions |
| OrderedDict.DedupAbsorbs | src/ai/backend/manager/models/domain.py:125-127 | assigning keys already present adds no position |
| OrderedDict.KeysOfMembers | src/ai/backend/manager/models/domain.py:125-127 | every key listed comes from a returned row |
| OrderedDict.LastWith | src/ai/backend/manager/models/domain.py:125-127 | the value left under a key is a returned row with that key, or None iff no returned row has it |
| OrderedDict.RegisterKeys | src/ai/backend/manager/models/domain.py:123-124 | registering the requested keys with None gives their first-occurrence order and a None for each |
| OrderedDict.AssignRows | src/ai/backend/manager/models/domain.py:125-127 | after the row loop each key holds the last row with that key; new keys are appended in row order |
| OrderedDict.Collect | src/ai/backend/manager/models/domain.py:120-128 | the values read back equal the collected specification |
| OrderedDict.BatchShape | src/ai/backend/manager/models/group.py:183-189 | when the query returns only requested keys, there is one value per distinct requested key, in first-request order, holding the matching row or None |
| OrderedDict.BatchShapeDistinct | src/ai/backend/manager/models/domain.py:115-128 | with distinct requested keys, one value per request, in request order |
| OrderedDict.RowsOnlyShape | src/ai/backend/manager/models/domain.py:102-112 | without registered keys, one value per distinct returned key, each a row with that key |
| ResourcePolicy.FindPolicy | src/ai/backend/manager/models/domain.py:68-69 | a loaded policy is in the table with the requested name; None means no such policy |
| ResourcePolicy.BatchLoadPolicies | src/ai/backend/manager/models/domain.py:68-69 | one lookup result per requested name, in order |
| ResourcePolicy.ResolveLegacyCases | src/ai/backend/manager/models/domain.py:66-85 | with no policy the resolver gives the empty default; with a found policy, that policy's field; with a dangling name, an AttributeError |
| Groups.IdByName | src/ai/backend/manager/models/group.py:70-80 | a found id belongs to a group with that name in the domain; None means there is none |
| Groups.IdById | src/ai/backend/manager/models/group.py:81-89 | a found id is the given id of a group in the domain; None means there is none |
| Groups.ResolveGroupNameOrId | src/ai/backend/manager/models/group.py:67-91 | only a value that is neither a string nor a UUID raises (TypeError) |
| Groups.ResolveByNameThenById | src/ai/backend/manager/models/group.py:67-91 | an id resolved by name resolves to itself by id |
| Groups.ResolveStaysInDomain | src/ai/backend/manager/models/group.py:67-91 | resolution never finds a group of another domain |
| Groups.FilteredMembers | src/ai/backend/manager/models/group.py:154-170 | the filtered rows are exactly the groups passing the optional domain and active filters |
| Groups.LoadAll | src/ai/backend/manager/models/group.py:154-170 | the loop returns exactly the rows passing the filters, in table order |
| Groups.BatchLoadById | src/ai/backend/manager/models/group.py:173-189 | one slot per distinct requested id, in first-request order: the group with that id (and domain, when given), or None |
| Groups.BatchLoadByIdInRequestOrder | src/ai/backend/manager/models/group.py:183-189 | with distinct requested ids, one slot per request, in request order |
| Groups.GroupLegacyFields | src/ai/backend/manager/models/group.py:132-151 | with no policy the three legacy fields are empty; otherwise they are the policy's slots, vfolder hosts and docker registries |
| Groups.DuplicateGroupRefused | src/ai/backend/manager/models/group.py:46-64 | inserting a group with an existing id, or an existing name in the same domain, breaks the table constraints |
| Groups.PatchedFieldwise | src/ai/backend/manager/models/group.py:289-295 | set-only fields: a set field takes the new value, an unset one keeps the old; the id never changes; the empty patch is the identity; patching is idempotent |
| Groups.FirstById | src/ai/backend/manager/models/group.py:321-325 | the re-read finds a row with that id, or None iff there is none |
| Groups.SoftDeleteKeepsRows | src/ai/backend/manager/models/group.py:350-366 | the rows stay with their ids, names and domains; the deleted rows are inactive with no integration id; deleting again changes nothing |
| Groups.SoftDeleteKeepsConstraints | src/ai/backend/manager/models/group.py:350-366 | a soft delete keeps the table constraints |
| Groups.MembershipUpdates | src/ai/backend/manager/models/group.py:307-316 | 'add' yields exactly the old pairs plus (uuid, gid) for the listed users; 'remove' yields exactly the old pairs minus those |
| Groups.AddThenRemoveRestores | src/ai/backend/manager/models/group.py:307-316 | an addition that violates no constraint is undone by removing the same users |
| Groups.AddKeepsMembershipConstraints | src/ai/backend/manager/models/group.py:34-43 | an addition that violates nothing keeps the association constraints (unique pairs, existing users and groups) |
| Groups.UpdateKeepsGroupIds | src/ai/backend/manager/models/group.py:318-322 | an update never changes the set of group ids |
| Groups.ByNameInDomain | src/ai/backend/manager/models/group.py:256-259 | the row re-read by name and domain has that name and domain; with unique names it is the row just inserted |
| Groups.GroupDb.constructor | src/ai/backend/manager/models/group.py:34-64 | empty tables over the given domains, policies and users |
| Groups.GroupDb.CreateGroup | src/ai/backend/manager/models/group.py:242-269 | a non-slug name fails the assertion with nothing inserted; an insert breaking the constraints gives the integrity error with nothing inserted; otherwise the row is appended and returned |
| Groups.GroupDb.ModifyGroup | src/ai/backend/manager/models/group.py:287-334 | with `user_update_mode` declared, case by case in the code's order: slug assertion; mode assertion; an empty user list forces the mode off; nothing to update; a violating addition gives the integrity error with everything rolled back; an empty patch gives success with the membership change; a constraint-breaking update gives the integrity error with everything rolled back; a missing group gives 'no such group' with the membership change kept; otherwise success with the re-read row |
| Groups.UserUpdateModeUndeclared | src/ai/backend/manager/models/group.py:216-224 | the input type declares every field the mutation copies or reads as the user list, but not `user_update_mode` |
| Groups.ModifyGroupAsWritten | src/ai/backend/manager/models/group.py:287-300 | as written, the mutation always fails: with the slug assertion iff a new name is not a slug, and with AttributeError otherwise |
| Groups.RenameFailsAsWritten | src/ai/backend/manager/models/group.py:296-300 | a rename to the valid slug "team" fails with AttributeError as written |
| Groups.GroupDb.DeleteGroup | src/ai/backend/manager/models/group.py:350-366 | the table becomes the soft delete of the old one; success iff the group existed, otherwise 'no such group' |
| Domains.FindDomain | src/ai/backend/manager/models/domain.py:29-42 | a found row has that name; None iff no row has it |
| Domains.LoadAll | src/ai/backend/manager/models/domain.py:101-112 | one object per distinct name of the rows passing the optional active filter, each a row of the table, in first-occurrence order |
| Domains.UniqueNamesListedOnce | src/ai/backend/manager/models/domain.py:101-112 | since the name is the primary key, the loaded names are distinct |
| Domains.BatchLoadByName | src/ai/backend/manager/models/domain.py:114-128 | one element per distinct requested name, in first-request order: the row with that name, or None |
| Domains.DomainLegacyFields | src/ai/backend/manager/models/domain.py:66-85 | with no policy the resolvers give `{}`, `[]` and `[]`; with a found policy its fields; with a dangling policy name an AttributeError |
| Domains.DuplicateNameRefused | src/ai/backend/manager/models/domain.py:31 | a second domain with the same name breaks the primary key |
| Domains.PatchedDomainFieldwise | src/ai/backend/manager/models/domain.py:190-204 | set-only fields: each set field takes the new value and each unset one keeps the old; the row's name is the re-read name; the empty patch is the identity; patching is idempotent |
| Domains.ModifiedRowReRead | src/ai/backend/manager/models/domain.py:206-211 | after a successful update, the re-read under the new name finds the patched row |
| Domains.DeactivateKeepsRows | src/ai/backend/manager/models/domain.py:224-230 | names and policies are kept, the named rows are inactive, and deleting again changes nothing |
| Domains.CascadeKeepsGroupNamesUnique | src/ai/backend/manager/models/group.py:58-63 | renaming to an unused domain name keeps group names unique within each domain |
| Domains.DomainDb.constructor | src/ai/backend/manager/models/domain.py:29-42 | an empty table over the given policies |
| Domains.DomainDb.CreateDomain | src/ai/backend/manager/models/domain.py:158-175 | a non-slug name gives (false, invalid name format, none) with the table unchanged; a duplicate gives the integrity error unchanged; otherwise the row is appended and returned |
| Domains.DomainDb.ModifyDomain | src/ai/backend/manager/models/domain.py:190-211 | a non-slug new name fails the assertion; a constraint-breaking update gives the integrity error with nothing changed; an unknown name gives 'no matching record'; otherwise the patched row is written and returned |
| Domains.DomainDb.DeleteDomain | src/ai/backend/manager/models/domain.py:224-230 | the table becomes the deactivation of the old one; success iff the domain existed |
| Migration.AutoPoliciesCopyFields | src/ai/backend/manager/models/alembic/versions/d858d54c361c_generalize_resource_policies.py:92-148 | auto policies carry the prefixed name and the legacy fields, with UNLIMITED, 30 sessions, 1 container, 10 vfolders, size 0 and idle timeout 0; group policies have no docker registries |
| Migration.PercentMatchesAll | src/ai/backend/manager/models/alembic/versions/d858d54c361c_generalize_resource_policies.py:207 | `%` matches every string |
| Migration.LikePrefix | src/ai/backend/manager/models/alembic/versions/d858d54c361c_generalize_resource_policies.py:207 | a pattern of literals and `_` followed by `%` matches iff the string is at least as long and agrees with every literal |
| Migration.DomainNameLike | src/ai/backend/manager/models/alembic/versions/d858d54c361c_generalize_resource_policies.py:261 | every auto domain policy name matches the domain pattern and not the group pattern |
| Migration.GroupNameLike | src/ai/backend/manager/models/alembic/versions/d858d54c361c_generalize_resource_policies.py:207 | every auto group policy name matches the group pattern and not the domain pattern |
| Migration.LeadingUnderscoreIsWildcard | src/ai/backend/manager/models/alembic/versions/d858d54c361c_generalize_resource_policies.py:204-209 | the leading `_` matches any character, so names not starting with `_` are deleted too |
| Migration.DeleteLikeMembers | src/ai/backend/manager/models/alembic/versions/d858d54c361c_generalize_resource_policies.py:204-209 | the LIKE delete keeps exactly the policies whose names do not match |
| Migration.DeleteLikeConcat | src/ai/backend/manager/models/alembic/versions/d858d54c361c_generalize_resource_policies.py:204-209 | the delete distributes over concatenation |
| Migration.DeleteLikeKeepsAll | src/ai/backend/manager/models/alembic/versions/d858d54c361c_generalize_resource_policies.py:258-263 | a table with no matching name is unchanged |
| Migration.DeleteLikeDropsAll | src/ai/backend/manager/models/alembic/versions/d858d54c361c_generalize_resource_policies.py:258-263 | a table whose every name matches is emptied |
| Migration.Upgrade | src/ai/backend/manager/models/alembic/versions/d858d54c361c_generalize_resource_policies.py:61-159 | the upgrade equals its specification: registries added, then the domain loop, then the group loop |
| Migration.UpgradeDomains | src/ai/backend/manager/models/alembic/versions/d858d54c361c_generalize_resource_policies.py:88-110 | the domain loop, stopping at the first failed insert, equals its prefix-recursive specification |
| Migration.UpgradeGroups | src/ai/backend/manager/models/alembic/versions/d858d54c361c_generalize_resource_policies.py:133-154 | the group loop equals its prefix-recursive specification |
| Migration.UpgradeDomainsErrStays | src/ai/backend/manager/models/alembic/versions/d858d54c361c_generalize_resource_policies.py:88-110 | once an insert fails, the later domains do not change the outcome |
| Migration.UpgradeGroupsErrStays | src/ai/backend/manager/models/alembic/versions/d858d54c361c_generalize_resource_policies.py:133-154 | once an insert fails, the later groups do not change the outcome |
| Migration.UpgradeDomainsExact | src/ai/backend/manager/models/alembic/versions/d858d54c361c_generalize_resource_policies.py:88-110 | a successful domain loop sets each row's policy iff it has data and appends the auto policies in row order |
| Migration.UpgradeGroupsExact | src/ai/backend/manager/models/alembic/versions/d858d54c361c_generalize_resource_policies.py:133-154 | the same for groups, keyed by id |
| Migration.UpgradeDomainsKeepUnique | src/ai/backend/manager/models/alembic/versions/d858d54c361c_generalize_resource_policies.py:105 | the policy names stay unique through the domain loop |
| Migration.UpgradeGroupsKeepUnique | src/ai/backend/manager/models/alembic/versions/d858d54c361c_generalize_resource_policies.py:149 | the policy names stay unique through the group loop |
| Migration.UpgradeShape | src/ai/backend/manager/models/alembic/versions/d858d54c361c_generalize_resource_policies.py:61-159 | the upgraded database: the old policies with the default registry, then the domain and group auto policies; names stay unique |
| Migration.UpgradeRowFacts | src/ai/backend/manager/models/alembic/versions/d858d54c361c_generalize_resource_policies.py:65-154 | per row: a domain gets `_auto_generated_domain_policy_{name}` iff it has slots, hosts or registries; a group gets `_auto_generated_group_policy_{name}_{id}` iff it has slots or hosts; that policy exists; existing policies get `{index.docker.io}` |
| Migration.DomainAutosFacts | src/ai/backend/manager/models/alembic/versions/d858d54c361c_generalize_resource_policies.py:88-105 | every domain with data has its auto policy added, and every added name carries the domain prefix |
| Migration.GroupAutosFacts | src/ai/backend/manager/models/alembic/versions/d858d54c361c_generalize_resource_policies.py:133-149 | every group with data has its auto policy added, and every added name carries the group prefix |
| Migration.Downgrade | src/ai/backend/manager/models/alembic/versions/d858d54c361c_generalize_resource_policies.py:163-270 | the downgrade equals its specification: groups copied back, group auto policies deleted, domains copied back, domain auto policies deleted, registries dropped |
| Migration.GroupsBack | src/ai/backend/manager/models/alembic/versions/d858d54c361c_generalize_resource_policies.py:171-201 | the group back-copy loop equals its prefix-recursive specification |
| Migration.DomainsBack | src/ai/backend/manager/models/alembic/versions/d858d54c361c_generalize_resource_policies.py:222-254 | the domain back-copy loop equals its prefix-recursive specification |
| Migration.GroupsBackErrIsAttribute | src/ai/backend/manager/models/alembic/versions/d858d54c361c_generalize_resource_policies.py:193-197 | the only error the group loop raises is the AttributeError of reading a field of a missing policy row |
| Migration.DomainsBackErrIsAttribute | src/ai/backend/manager/models/alembic/versions/d858d54c361c_generalize_resource_policies.py:244-249 | the only error the domain loop raises is that same AttributeError |
| Migration.GroupMissingAutoPolicyFails | src/ai/backend/manager/models/alembic/versions/d858d54c361c_generalize_resource_policies.py:184-193 | any group with a policy set whose `_auto_generated_group_policy_{name}_{id}` policy is absent makes the group loop fail with AttributeError, whatever policy the row names |
| Migration.DomainMissingAutoPolicyFails | src/ai/backend/manager/models/alembic/versions/d858d54c361c_generalize_resource_policies.py:235-245 | any domain with a policy set whose `_auto_generated_domain_policy_{name}` policy is absent makes the domain loop fail with AttributeError |
| Migration.RepointedRowsFailDowngrade | src/ai/backend/manager/models/alembic/versions/d858d54c361c_generalize_resource_policies.py:171-254 | a group pointing at an existing policy "gold" and a domain pointing at an existing policy "default" both make their loop fail with AttributeError |
| Migration.GroupsBackErrStays | src/ai/backend/manager/models/alembic/versions/d858d54c361c_generalize_resource_policies.py:171-201 | after a failed policy lookup, the later groups do not change the outcome |
| Migration.DomainsBackErrStays | src/ai/backend/manager/models/alembic/versions/d858d54c361c_generalize_resource_policies.py:222-254 | after a failed policy lookup, the later domains do not change the outcome |
| Migration.GroupsBackExact | src/ai/backend/manager/models/alembic/versions/d858d54c361c_generalize_resource_policies.py:171-201 | with distinct names and successful lookups, each group gets its own policy's fields |
| Migration.DomainsBackExact | src/ai/backend/manager/models/alembic/versions/d858d54c361c_generalize_resource_policies.py:222-254 | with distinct names and successful lookups, each domain gets its own policy's fields |
| Migration.LastNamed | src/ai/backend/manager/models/alembic/versions/d858d54c361c_generalize_resource_policies.py:176-200 | the last processed group with a given name, or None iff none has it |
| Migration.GroupsBackLastWins | src/ai/backend/manager/models/alembic/versions/d858d54c361c_generalize_resource_policies.py:199-200 | because the update is by name, every group ends up with the values of the last processed group sharing its name |
| Migration.FindUniquePolicy | src/ai/backend/manager/models/alembic/versions/d858d54c361c_generalize_resource_policies.py:184-190 | with unique names, looking up a policy's name finds that policy |
| Migration.GroupsRoundTrip | src/ai/backend/manager/models/alembic/versions/d858d54c361c_generalize_resource_policies.py:133-201 | with unique group names, copying back from the auto policies restores every group |
| Migration.DomainsRoundTrip | src/ai/backend/manager/models/alembic/versions/d858d54c361c_generalize_resource_policies.py:222-254 | copying back from the auto policies restores every domain |
| Migration.PoliciesRoundTrip | src/ai/backend/manager/models/alembic/versions/d858d54c361c_generalize_resource_policies.py:204-270 | when no original policy name matches either pattern, deleting the auto policies and dropping the registries restores the original policy table |
| Migration.RoundTrip | src/ai/backend/manager/models/alembic/versions/d858d54c361c_generalize_resource_policies.py:61-270 | upgrade then downgrade gives back the original database, given unique domain names, group ids and group names, unique policy names none of which match the LIKE patterns, and a successful upgrade |
| Migration.UpgradedGroupsBack | src/ai/backend/manager/models/alembic/versions/d858d54c361c_generalize_resource_policies.py:171-201 | after a successful upgrade, the group loop of the downgrade gives back the legacy groups |
| Migration.UpgradedDomainsMissGroupPattern | src/ai/backend/manager/models/alembic/versions/d858d54c361c_generalize_resource_policies.py:204-213 | no upgraded domain refers to a policy matching the group pattern, so deleting those policies breaks no domain reference |
| Migration.UpgradedDomainsBack | src/ai/backend/manager/models/alembic/versions/d858d54c361c_generalize_resource_policies.py:222-254 | the domain loop of the downgrade, run on the policies left after the group delete, gives back the legacy domains |
| UsersBatch.Digits | scripts/create-users-batch.py:65 | the decimal digits of an index: at least one, all digits |
| UsersBatch.Zeros | scripts/create-users-batch.py:65 | the padding zeros |
| UsersBatch.DigitsValue | scripts/create-users-batch.py:65 | the digits denote the index |
| UsersBatch.ZerosValue | scripts/create-users-batch.py:65 | leading zeros do not change the value |
| UsersBatch.Pad3Facts | scripts/create-users-batch.py:65 | `{idx:03d}` is at least three digits wide (exactly the digit count beyond 999) and denotes the index |
| UsersBatch.Pad3Examples | scripts/create-users-batch.py:65 | 7, 42 and 123 format as "007", "042" and "123" |
| UsersBatch.EmailInjective | scripts/create-users-batch.py:65 | two indices giving the same email are equal |
| UsersBatch.FixtureEmailsDistinct | scripts/create-users-batch.py:63-79 | the generated emails are pairwise distinct |
| UsersBatch.BuildFixture | scripts/create-users-batch.py:44-97 | the group list exists iff a group is created, with exactly that group; the users, associations and keypairs each have one entry per user. User i gets the padded email as username and email, `full_name` prefix + padded index, role USER, active, password change needed. Association i links user i to the group. Keypair i belongs to user i's email and uuid, is active and non-admin, and has zero counters and the rate limit |
| UsersBatch.CredentialsCsv | scripts/create-users-batch.py:114-118 | the header line, then one `username,password,access_key,secret_key` line per zipped user and keypair, in order |

## Left out

- `ResourcePolicy.BatchLoadPolicies`: `KeyPairResourcePolicy.batch_load_by_name` is defined in resource_policy.py, which is not part of this model. The model assumes one result per requested name, None where no policy has that name. `ResourcePolicy.ResolveLegacyCases` inherits this assumption, including its AttributeError for a dangling name.
- I/O and plumbing are parameters or absent: database pools and transactions, the aiozmq RPC, GraphQL contexts, logging, file writing, JSON, `subprocess` and the dry-run path of the script.
- Clocks become explicit `now` parameters. Random tokens, `uuid4()` values and the run id also become parameters.
- `Registry.InstanceRegistry.CreateKernel` takes the new kernel id as a fresh parameter standing for `uuid4()`. The agent call's outcome is an input: a record, None, or a raised error.
- The `get_kernel*`, `get_kernels`, `update_kernel` and `set_kernel_status` queries are not modelled. They combine SQL expressions with Python `and`. `GetOrCreateKernel` takes the session lookup's result as an input.
- `handle_stats`, `increment_session_usage`, `destroy_kernel`, `restart_kernel`, `execute` and `upload_file` are RPC wrappers or inert code. Only their exception table entries are modelled.
- `Registry.HeartbeatMakesAlive`: the "should not reach here" branch is absent, because the model's agent status has only ALIVE, LOST and TERMINATED.
- The DRF and MOF rankings and the agent tie-breaking of `assign_agent_for_session` are not derivable from the tests. `Scheduler.AssignAgent` takes the ranking as a parameter, and only "None iff no agent has room" is proved.
- `Scheduler.FifoPick`: the pick from an empty list is None, which the tests do not pin down.
- `Scheduler.LifoPick` does not skip sessions, since no test sets `num_retries_to_skip` for LIFO.
- `Scheduler.ReservedBatchPasses`: a start time exactly equal to now passes. The tests leave equality open.
- `Scheduler.ReservedBatchPasses` covers only the reserved-batch case, not non-batch sessions.
- Entry-point discovery in `load_webapp_plugins` and `load_hook_plugins` is package-resource I/O and is not modelled. `load_webapp_plugins` calls the async `add_plugin` without awaiting it (plugin.py:22), so as written no webapp plugin is ever registered. `HookPluginContext` (plugin.py:83-92) has no `add_plugin` at all, so `load_hook_plugins` raises an AttributeError at plugin.py:31 as soon as one hook entry point is present.
- `WebAppPluginContext.shutdown` has no body to model. The aiohttp CORS options are kept as an opaque map.
- The hook plugin context's `init`, `shutdown` and `dispatch_event` have empty bodies. No hook fan-out or result aggregation exists in this code, so none is modelled.
- `resolve_scaling_groups` of groups and domains, and `get_groups_for_user`, are not modelled. They delegate to loaders that are not part of this model.
- `created_at` and `modified_at` columns are timestamps and are not modelled. UUIDs are modelled as their canonical string form.
- NULL legacy columns in the migration are modelled as empty values.
- The 'unexpected error' branches of the mutations are not modelled. Those catch arbitrary exceptions.
- The 'failed to create group' branch is not modelled either. It would need the inserted row to be missing on re-read.
- `set_if_set`, `simple_db_mutate` and `simple_db_mutate_returning_item` are not part of this model. Their effect is modelled as observed from the callers:
  - the integrity error rolls the statement back;
  - an update that matches no row gives 'no matching record';
  - otherwise the re-read row is returned.
- `Domains.DomainDb.ModifyDomain` does not update the groups table. The `ON UPDATE CASCADE` of a renamed domain is modelled separately by the function `Domains.CascadeRename`; `Domains.CascadeKeepsGroupNamesUnique` is proved about it.
- `Groups.GroupDb.ModifyGroup` assumes that the input type declares `user_update_mode`. The source's type does not, so as written every call gets past the slug check only to fail with AttributeError (see Findings and `Groups.ModifyGroupAsWritten`).
- `Groups.GroupDb.ModifyGroup` models the `allowed_vfolder_hosts` input field. That field is never copied into the update, as in the source.
- The migration's DDL (adding and dropping columns, foreign keys, type changes) is not modelled. Only the row transformations are, over the columns the migration reads and writes.
- `Migration.Downgrade` does not model the keypairs table's foreign key to policies.
- The `print` progress messages of the migration and the script are not modelled.
- `UsersBatch.CredentialsCsv` does not quote fields, as in the source. A comma inside a value is not escaped.
- The `fixture populate` command the script suggests running is outside this model.

## Findings

| source | as written | input that shows it | evidently intended | confidence | as-written member | corrected member |
|---|---|---|---|---|---|---|
| src/ai/backend/manager/models/group.py:300 | the mutation reads `props.user_update_mode`, a field the input type at lines 216-224 does not declare, before any `try`; an input object carries only its declared fields, so the read raises AttributeError | any modification that passes the slug check, e.g. renaming a group to "team" | a declared optional `user_update_mode` string field, read as add, remove or None | not executed | Groups.ModifyGroupAsWritten, Groups.RenameFailsAsWritten | Groups.GroupDb.ModifyGroup, Groups.MembershipUpdates, Groups.AddThenRemoveRestores |
