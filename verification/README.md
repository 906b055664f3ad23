# FlawHunt dashboard logic in Dafny

FlawHunt's web site has a customer dashboard. Most of it is presentation or
calls to the hosted Supabase backend. This project models the pure, in-memory
logic buried in its components and stores, and proves properties of it:

- **Usage analytics** (`Analytics`): the `analytics` summary of the Analytics
  page. It filters chat backups by a time window, groups them by session key
  and credits each group's messages to a model, a device and the days. It then
  computes `totalChats`, `totalMessages`, the average per chat and the three
  "most used" picks.
- **Conversation threads** (`Threads`): `processConversationThreads`,
  `handleSearch` and `uniqueDevices` of the chat-backups screen. It applies the
  device filter and groups each backup's turns by session. It turns sorted turns
  into user and assistant messages, builds the 60-character preview, orders
  threads newest first and runs the case-insensitive search.
- **Backup statistics** (`ChatStore`): the chat store's `fetchStats` and
  `fetchDeviceStats` aggregations after the rows arrive, and its synchronous
  state updates.
- **Licenses** (`License`, `LicenseStore`, `LicenseView`): the plan limits, the
  license store's actions and the random key layout. The license page's
  `activeLicenses`, `canCreateMore`, badge, key display and button-visibility
  rules are modelled too.
- **Sign-up** (`Signup`): the OTP-resend rate limiter with its escalating
  cooldowns, the countdown and wait-message formatting, the password check, and
  the reset when the form enters the OTP step.
- **Payment form** (`Payment`): the card-number and expiry-date input
  normalisers.

Supporting modules:

- `Wrappers`: optional values and JavaScript's `s || fallback`. An empty string
  counts as absent.
- `Seqs`: filter, de-duplication (`[...new Set(s)]`) and sums over sequences.
- `Sorting`: a stable sort, as `Array.prototype.sort` is.
- `Grouping`: insertion-ordered maps as sequences of (key, value) pairs,
  group-by, and the "most used" reduction.
- `Text`: digits, number-to-string, ASCII lower-casing and substring search.
- `ChatTypes`: the `chat_backups` row and its JSON payload.

How the model represents the program:

- **Remote calls.** Every call to Supabase (auth, table reads and writes, RPCs)
  becomes a parameter that describes how the call ended. For example,
  `LicensesFetch` is either "no user", "failed with a message" or "fetched these
  rows". The action is a pure function from the store and that outcome to the
  new store.
- **Time.** Timestamps are integers in milliseconds. `Date.now()` is a
  parameter. "The UTC date of `created_at`" is a function parameter `dateOf`.
- **Maps.** JavaScript `Map`s and the plain objects the code uses as maps
  become sequences of (key, value) pairs in insertion order. A `Map` iterates
  in that order. Plain objects differ in two ways that the model leaves out
  (see "## Left out"): integer-like keys come first, and keys naming
  `Object.prototype` properties misbehave.

Two behaviours of the code are easy to misread, and the model follows the code
in both:

- **Narrowing the window can raise `totalMessages`.** A group's messages are
  counted from its earliest record in the window. Dropping that record can
  therefore raise the count. `Analytics.TotalMessagesCanGrow` and
  `Analytics.GrowingExample` show this. Only `totalChats` and the
  `dailyActivity` total are monotone (`Analytics.NarrowerWindowCounts`).
- **The page and the store disagree on capacity.** The page's `canCreateMore`
  counts only active licenses. The store's guard counts all licenses, revoked
  ones included. So the page can offer "Generate" while the store refuses
  (`LicenseView.CanCreateButGuardRefuses`). The converse never happens
  (`LicenseView.GuardImpliesCanCreate`).

## Model

| member | source | states |
|---|---|---|
| Wrappers.OrElse | src/components/AnalyticsPage.tsx:118 | `s \|\| fallback`: the string when present and non-empty, else the fallback; never empty when the fallback is not |
| Seqs.Filter | src/store/chatStore.ts:84-86 | `filter` keeps exactly the elements satisfying the predicate, with their multiplicity, as a subsequence of the input |
| Seqs.Dedup | src/components/ChatBackupsManager.tsx:193 | `[...new Set(s)]`: no repeats, the same elements as the input, as a subsequence of it, and ordered by first occurrence: of any two results, the earlier one first occurs in the input before the later one does |
| Seqs.FilterAppend | src/store/chatStore.ts:84 | filtering a concatenation is the concatenation of the filtered parts |
| Seqs.NoDupCardinality | src/store/chatStore.ts:87 | a repeat-free sequence has as many elements as its set, so `Set.size` is its length |
| Seqs.SumByAppend | src/store/chatStore.ts:82-83 | a `reduce` sum over a concatenation is the sum of the two sums |
| Sorting.SortBy | src/components/AnalyticsPage.tsx:94 | the sort is a permutation of its input, ordered by the key, and keeps the input order of equal keys (stable) |
| Sorting.SortBySumBy | src/components/ChatBackupsManager.tsx:100-102 | sorting does not change any sum over the elements |
| Sorting.SortByHead | src/components/ChatBackupsManager.tsx:133-134 | the first element after sorting is the first element, in input order, that has the least key |
| Grouping.GroupBy | src/components/AnalyticsPage.tsx:77-85 | one group per distinct key in first-appearance order; each group holds exactly the elements with its key, in input order, and is non-empty |
| Grouping.GroupBySizes | src/components/AnalyticsPage.tsx:77-85 | the group sizes add up to the number of elements |
| Grouping.GroupBySum | src/components/ChatBackupsManager.tsx:89-97 | a sum over all groups' members equals the sum over the input: nothing is lost or duplicated |
| Grouping.GroupByOneKey | src/components/AnalyticsPage.tsx:77-85 | when every element has the same key there is exactly one group, holding everything |
| Grouping.AddCount | src/components/AnalyticsPage.tsx:121 | `m[k] = (m[k] \|\| 0) + d` raises the total by `d`, keeps keys distinct and appends a new key at the end |
| Grouping.Upsert | src/components/AnalyticsPage.tsx:81-84 | `Map.set` replaces the value of an existing key in place, or appends the new key at the end |
| Grouping.MostUsedSpec | src/components/AnalyticsPage.tsx:137-149 | the `reduce` pick is `''` exactly for an empty map; otherwise it is a key with the greatest count, and every key after it counts strictly less (ties go to the later key) |
| Text.NatToString | src/store/licenseStore.ts:39 | `String(n)`: a non-empty digit string without a leading zero whose decimal value is `n` |
| Text.Lower | src/components/ChatBackupsManager.tsx:150-151 | `toLowerCase` keeps the length, leaves no capital A-Z, turns each capital into its small letter and keeps every other character |
| Text.LowerIdempotent | src/components/ChatBackupsManager.tsx:150-151 | lower-casing an already lower-cased string changes nothing |
| ChatTypes.DeviceNames | src/components/ChatBackupsManager.tsx:193 | the non-null device names of the rows: a name occurs exactly when some row has it |
| Analytics.Cutoff | src/components/AnalyticsPage.tsx:52-70 | the window starts 7, 30 or 90 days before now, or at the year-2000 instant for "all" |
| Analytics.InWindow | src/components/AnalyticsPage.tsx:72-74 | exactly the backups created at or after the cutoff, in their order |
| Analytics.WindowNested | src/components/AnalyticsPage.tsx:72-74 | filtering by a cutoff and then by a later one is filtering by the later one |
| Analytics.AnalyzeOnlyWindow | src/components/AnalyticsPage.tsx:72-74 | the summary depends only on the backups in the window |
| Analytics.AnalyzeEmptyWindow | src/components/AnalyticsPage.tsx:38-50 | with no backup in the window (in particular with none at all) every count is 0, every map empty and every pick `''` |
| Analytics.Chronological | src/components/AnalyticsPage.tsx:94 | a group's records ordered by creation time, as a permutation of the group: none lost or duplicated |
| Analytics.GroupMessages | src/components/AnalyticsPage.tsx:97-102 | a group's messages: 2 per entry of its earliest record's `conversations` when that exists, else 2 per record |
| Analytics.ModelOf | src/components/AnalyticsPage.tsx:106-119 | a real model on the first turn wins; otherwise `chat_data.model`, then `metadata.model`; never empty, and any name but "Unknown" comes from one of those three fields |
| Analytics.DeviceOf | src/components/AnalyticsPage.tsx:124 | the device credited to a group is never empty, so the device map has no empty key |
| Analytics.AddDays | src/components/AnalyticsPage.tsx:128-131 | the daily map grows by 2 per record and keeps its keys distinct |
| Analytics.AddDaysCount | src/components/AnalyticsPage.tsx:128-131 | each day's count grows by 2 per record created on that day |
| Analytics.TallyGroups | src/components/AnalyticsPage.tsx:92-132 | folding the groups keeps the model and device totals equal to `totalMessages` and the daily total at 2 per record; each model key counts the messages of exactly the groups whose earliest record resolves to that model (ModelOf), and each device key those whose earliest record's `device_name \|\| 'Unknown'` is that device |
| Analytics.TallyGroupMessages | src/components/AnalyticsPage.tsx:103-125 | one group adds its messages to `totalMessages`, and adds them in the model map to its earliest record's model and in the device map to its device, leaving every other key's count unchanged |
| Analytics.TallyGroupsExchanges | src/components/AnalyticsPage.tsx:97-103 | `totalMessages` is twice the sum of the groups' exchange counts, so it is even |
| Analytics.AnalyzeChats | src/components/AnalyticsPage.tsx:77-134 | `totalChats` is the number of distinct session keys in the window, hence at most the number of backups in it |
| Analytics.AnalyzeTotals | src/components/AnalyticsPage.tsx:103-131 | the model map and the device map each add up to `totalMessages`; the daily map adds up to twice the backups in the window |
| Analytics.AnalyzeKeys | src/components/AnalyticsPage.tsx:106-125 | the model and device maps never have an empty key, and no map repeats a key |
| Analytics.RoundDiv | src/components/AnalyticsPage.tsx:135 | `Math.round(a / b)`: the nearest integer to the quotient, halves rounding up |
| Analytics.AnalyzeAverage | src/components/AnalyticsPage.tsx:135 | the average is `totalMessages / totalChats` rounded half up, and 0 with no chats |
| Analytics.AnalyzeDailyActivity | src/components/AnalyticsPage.tsx:128-131 | each day's activity is 2 per backup in the window created that day |
| Analytics.AnalyzeUsage | src/components/AnalyticsPage.tsx:103-125 | `modelUsage[m]` is the sum of the messages of the window's sessions whose earliest record resolves to model `m`, and `deviceUsage[d]` likewise by device; other keys count 0 |
| Analytics.AnalyzeMostUsed | src/components/AnalyticsPage.tsx:137-149 | each pick is `''` exactly when its map is empty, else a key with the greatest count where the later key wins a tie |
| Analytics.NarrowerWindowCounts | src/components/AnalyticsPage.tsx:72-134 | a later cutoff never increases `totalChats` or the daily-activity total |
| Analytics.OneSessionMessages | src/components/AnalyticsPage.tsx:94-102 | with one session in the window, `totalMessages` is counted from the earliest backup only |
| Analytics.TotalMessagesCanGrow | src/components/AnalyticsPage.tsx:94-102 | a later cutoff can raise `totalMessages` (from 0 to 2) when it drops a session's earliest record |
| Analytics.GrowingExample | src/components/AnalyticsPage.tsx:94-102 | two concrete backups and cutoffs that show that growth |
| Threads.ForDevice | src/components/ChatBackupsManager.tsx:81-83 | with a device selected, exactly that device's backups in order; with none, all backups |
| Threads.Expand | src/components/ChatBackupsManager.tsx:110-125 | one message per non-empty input or response, none with empty content |
| Threads.ExpandAppend | src/components/ChatBackupsManager.tsx:110-125 | the messages of two lists of turns are the messages of the first, then of the second |
| Threads.ExpandSingle | src/components/ChatBackupsManager.tsx:111-124 | one turn gives a user message with its `user_input`, then an assistant message with its `ai_response`, each only when non-empty and with the turn's timestamp |
| Threads.ExpandContents | src/components/ChatBackupsManager.tsx:110-125 | the user messages carry exactly the non-empty user inputs, and the assistant messages exactly the non-empty AI responses, in turn order |
| Threads.ExpandFindUser | src/components/ChatBackupsManager.tsx:110-127 | the first user message exists exactly when some turn has an input, and carries the input of the first such turn |
| Threads.ExpandSorted | src/components/ChatBackupsManager.tsx:100-125 | turns in timestamp order give messages in timestamp order |
| Threads.ExpandUser | src/components/ChatBackupsManager.tsx:110-117 | the messages contain a user message exactly when some turn has a non-empty input |
| Threads.FindUser | src/components/ChatBackupsManager.tsx:127 | `find`: the first user message, or none exactly when there is no user message |
| Threads.Preview | src/components/ChatBackupsManager.tsx:127-128 | the preview is "No messages" without a user message, else that message's content, cut to its first 60 characters plus "..." when longer, so never more than 63 characters (counted as Unicode scalar values; see Left out) |
| Threads.BuildThread | src/components/ChatBackupsManager.tsx:130-136 | a thread keeps its session id, its preview is bounded and its model is never empty |
| Threads.ThreadStart | src/components/ChatBackupsManager.tsx:133-134 | the start time is the least turn timestamp; the model is that of the first such turn, or "Unknown" |
| Threads.ThreadMessages | src/components/ChatBackupsManager.tsx:100-125 | a thread's messages are in timestamp order, one per non-empty field of its turns; its user and assistant texts are the inputs and responses of its turns, earliest turn first |
| Threads.ThreadPreview | src/components/ChatBackupsManager.tsx:127-128 | the preview is the `user_input` of the earliest turn that has one, cut to 60 characters (Unicode scalar values; see Left out) plus "..." when longer, or "No messages" when no turn has a user input |
| Threads.BackupThreadsShape | src/components/ChatBackupsManager.tsx:87-99 | a backup gives one thread per distinct `session_id \|\| 'default'` of its turns, in first-appearance order (integer-like ids are not moved first; see Left out), each from exactly its session's turns |
| Threads.BackupThreadsMessages | src/components/ChatBackupsManager.tsx:87-137 | a backup's threads hold exactly one message per non-empty field of its turns; a backup without `conversations` gives none |
| Threads.AllThreads | src/components/ChatBackupsManager.tsx:87-139 | the thread count is the sum of the per-backup counts |
| Threads.AllThreadsSingle | src/components/ChatBackupsManager.tsx:87-139 | one backup contributes exactly its own threads |
| Threads.AllThreadsAppend | src/components/ChatBackupsManager.tsx:87-139 | collecting over two lists of backups is collecting over each in order, so every backup's threads are present once per backup |
| Threads.AllThreadsFrom | src/components/ChatBackupsManager.tsx:87-139 | every thread comes from a single backup, so sessions are never merged across backups |
| Threads.Process | src/components/ChatBackupsManager.tsx:80-144 | the selected device's threads, all of them once each, ordered newest first; threads with equal start times keep their collection order (the sort is stable) |
| Threads.Search | src/components/ChatBackupsManager.tsx:149-152 | exactly the threads whose preview or some message contains the query, ignoring case, in their order and with their multiplicity |
| Threads.MatchesIgnoresCase | src/components/ChatBackupsManager.tsx:149-152 | a query matches exactly when its lower-cased form does, so the search ignores ASCII case |
| Threads.SearchIdempotent | src/components/ChatBackupsManager.tsx:149-152 | repeating the same search changes nothing |
| Threads.SearchKeepsOrder | src/components/ChatBackupsManager.tsx:141-152 | a search result of newest-first threads is still newest first |
| Threads.HandleSearch | src/components/ChatBackupsManager.tsx:146-157 | a blank query recomputes the threads from the backups; any other query filters the shown threads |
| Threads.UniqueDevices | src/components/ChatBackupsManager.tsx:193 | each non-null device name exactly once |
| ChatStore.StatusPartition | src/store/chatStore.ts:84-86 | the active, archived and deleted counts add up to the number of rows |
| ChatStore.TruthyDeviceNames | src/store/chatStore.ts:87 | the device names that are neither null nor empty |
| ChatStore.Average | src/store/chatStore.ts:88-90 | the exact quotient of total and count |
| ChatStore.ComputeStats | src/store/chatStore.ts:80-91 | the row count, the status counts adding up to it, at most that many devices, the average conversations per row, and all zeros with no rows; with ChatStore.StatsSingle and ChatStore.StatsAppend this fixes every sum and count |
| ChatStore.DeviceCountDistinct | src/store/chatStore.ts:87 | `deviceCount` counts each distinct non-empty device name once |
| ChatStore.StatsAppend | src/store/chatStore.ts:80-86 | the row count, the conversation and size totals and each of the three status counts of two batches of rows add up |
| ChatStore.StatsSingle | src/store/chatStore.ts:80-91 | one row's statistics are its own `conversation_count \|\| 0` and `backup_size \|\| 0`, 1 for its own status and 0 for the other two, 1 device exactly when its name is non-empty, and an average equal to its conversation count |
| ChatStore.LatestBackup | src/store/chatStore.ts:122-124 | the latest timestamp of a device's rows is one of them and at least every other |
| ChatStore.SummaryAppend | src/store/chatStore.ts:118-124 | adding a row to a device's summary equals summarising the longer row list |
| ChatStore.DeviceFoldGroups | src/store/chatStore.ts:112-134 | the `forEach` over the rows equals summarising each device's rows, grouped in first-appearance order |
| ChatStore.DeviceFoldShape | src/store/chatStore.ts:112-134 | one entry per distinct device name, in first-appearance order, each summarising exactly that device's rows |
| ChatStore.DeviceFoldCount | src/store/chatStore.ts:119-128 | the backup counts add up to the number of rows |
| ChatStore.DeviceRowKeys | src/store/chatStore.ts:104-115 | the names of the rows the query returns are the non-null device names |
| ChatStore.DeviceStatsSpec | src/store/chatStore.ts:112-136 | one entry per distinct non-null device name, in order, each the summary of its rows, with counts adding up to the rows with a device |
| ChatStore.DeviceLastBackup | src/store/chatStore.ts:119-124 | a device's `last_backup` is the latest timestamp among its rows, and `backup_count` is the number of those rows |
| ChatStore.SelectBackup | src/store/chatStore.ts:142-144 | changes the selection and nothing else |
| ChatStore.ClearError | src/store/chatStore.ts:230-232 | clears the error and nothing else |
| ChatStore.BeginFetch | src/store/chatStore.ts:41 | starts loading with no error, nothing else changed |
| ChatStore.FinishFetch | src/store/chatStore.ts:42-64 | loading ends; on success the rows replace the backups, otherwise the backups stay and an error is set |
| ChatStore.SetSorting | src/store/chatStore.ts:224-228 | the sort settings change and the refetch starts; nothing else changes |
| ChatStore.SetSortingSettles | src/store/chatStore.ts:224-228 | whatever the refetch's outcome, loading ends and the new sort settings are kept |
| ChatStore.FinishStats | src/store/chatStore.ts:67-97 | on success the statistics of the rows are stored; on failure the store is unchanged |
| ChatStore.FinishDeviceStats | src/store/chatStore.ts:99-140 | on success the per-device statistics are stored; on failure the store is unchanged |
| License.PlanName | src/types/license.ts:35-46 | the plan type's text is "basic" exactly for the basic plan |
| License.Limits | src/types/license.ts:35-46 | both plans last 30 days and allow more than one license; only premium allows 5 |
| LicenseStore.Begin | src/store/licenseStore.ts:27 | starts loading with no error, nothing else changed |
| LicenseStore.FromRow | src/store/licenseStore.ts:220-224 | `key` takes `license_key`, `is_active` says whether the status is "active", and nothing else changes |
| LicenseStore.TransformRows | src/store/licenseStore.ts:220-224 | one transformed license per row, in row order; no data gives none |
| LicenseStore.TransformRowsIdempotent | src/store/licenseStore.ts:220-224 | transforming transformed rows changes nothing |
| LicenseStore.FetchUserLicenses | src/store/licenseStore.ts:201-236 | loading ends with the plan untouched; success replaces the licenses with the transformed rows, failure keeps them and sets an error |
| LicenseStore.GuardError | src/store/licenseStore.ts:30-43 | generation may proceed exactly when there is a plan and fewer licenses (revoked ones included) than its limit; otherwise the message is "No active plan found" or names the plan and limit |
| LicenseStore.NullLimitBlocks | src/store/licenseStore.ts:37 | a null limit compares as 0, so no license can ever be generated |
| LicenseStore.RpcDeviceName | src/store/licenseStore.ts:58 | the RPC's device name is never empty and is the given name when there is one |
| LicenseStore.GenerateLicenseKey | src/store/licenseStore.ts:26-86 | loading always ends; a failing guard decides before any remote call; success exactly when the RPC replies without declining, then the licenses are refetched; failures keep the licenses and set an error |
| LicenseStore.Revoked | src/store/licenseStore.ts:103 | a revoked license is inactive with status "revoked", nothing else changed |
| LicenseStore.RevokeLocal | src/store/licenseStore.ts:99-105 | the licenses with the id are revoked, every other is untouched, the length is kept |
| LicenseStore.RevokeLocalIdempotent | src/store/licenseStore.ts:99-105 | revoking twice is revoking once |
| LicenseStore.RevokeLocalEffect | src/store/licenseStore.ts:99-105 | afterwards no license with the id is active, and every license with another id is still there |
| LicenseStore.RevokeLicenseKey | src/store/licenseStore.ts:88-120 | success exactly when the write succeeds, with the local update applied; failure keeps the licenses and sets an error |
| LicenseStore.RevokeKeepsGuard | src/store/licenseStore.ts:99-110 | revoking never changes whether the store's capacity guard (which counts every license) lets a generation through |
| LicenseStore.RepairPlan | src/store/licenseStore.ts:298-326 | a null, 0 or 1 limit becomes 5 for premium and 10 otherwise; any other plan is unchanged |
| LicenseStore.RepairPlanIdempotent | src/store/licenseStore.ts:298-326 | a repaired plan needs no further repair |
| LicenseStore.NewBasicPlan | src/store/licenseStore.ts:261-287 | the plan created for a user with none is an active basic plan allowing 10 licenses |
| LicenseStore.FetchUserPlan | src/store/licenseStore.ts:238-334 | a created plan allows 10 licenses, a repaired plan is valid, a valid plan or one whose repair failed is kept as read; the error is set exactly when the query fails, the insert fails or the call throws, with the insert's exact message; on those paths and without a user the plan the store had is kept |
| LicenseStore.UpgradedPlan | src/store/licenseStore.ts:164-172 | the upgrade makes the plan premium with 5 licenses, expiring a year from now, nothing else changed |
| LicenseStore.UpgradedNeedsNoRepair | src/store/licenseStore.ts:164-172 | reading back an upgraded plan never triggers the repair |
| LicenseStore.UpgradeToPremium | src/store/licenseStore.ts:150-199 | success exactly when the update succeeds, leaving a premium plan with 5 licenses for a year; failure keeps the plan and sets an error |
| LicenseStore.KeyCharIndexInverse | src/store/licenseStore.ts:339-345 | each alphabet position gives a distinct character that maps back to it |
| LicenseStore.FormatKey | src/store/licenseStore.ts:338-351 | 19 characters, dashes at 4, 9 and 14, and the 16 drawn characters in order between them |
| LicenseStore.FormatKeyRoundTrip | src/store/licenseStore.ts:338-351 | the draws can be read back from the key |
| LicenseStore.FormatKeyInjective | src/store/licenseStore.ts:338-351 | different draws give different keys |
| LicenseStore.GenerateRandomKey | src/store/licenseStore.ts:338-351 | the nested loops build exactly that layout |
| LicenseView.ActiveLicenses | src/components/LicenseKeyManager.tsx:73 | exactly the licenses with `is_active` |
| LicenseView.GuardImpliesCanCreate | src/components/LicenseKeyManager.tsx:74 | when the store's guard passes, the page offers generation (unless loading) |
| LicenseView.CanCreateButGuardRefuses | src/components/LicenseKeyManager.tsx:74 | with one revoked license on a one-license plan the button is enabled yet the store refuses |
| LicenseView.Badge | src/components/LicenseKeyManager.tsx:209-213 | "Active" exactly when the license is active and not yet expired, else "Inactive" |
| LicenseView.LoadedBadge | src/components/LicenseKeyManager.tsx:209-213 | once rows are loaded, "Active" only for status "active" and not expired |
| LicenseView.DisplayedKey | src/components/LicenseKeyManager.tsx:189 | the key, else `license_key`, else "No key available"; never empty |
| LicenseView.LoadedKey | src/components/LicenseKeyManager.tsx:189 | for a loaded row the shown key is its `license_key`, or "No key available" |
| LicenseView.RevokeHidesControl | src/components/LicenseKeyManager.tsx:227-235 | after a revoke no license with the id offers Revoke, and the active ones are the former active ones with another id |
| LicenseView.RevokeKeepsCanCreate | src/components/LicenseKeyManager.tsx:74 | revoking never takes away `canCreateMore` |
| LicenseView.RevokeActiveCount | src/components/LicenseKeyManager.tsx:73 | revoking never makes a license active, so the active list can only shrink |
| LicenseView.DeviceArgument | src/components/LicenseKeyManager.tsx:30 | an empty input is passed as undefined, any other input as is |
| LicenseView.TypedDeviceName | src/components/LicenseKeyManager.tsx:30 | the RPC receives the typed name, or "Unknown Device" for an empty input |
| LicenseView.InputAfterGenerate | src/components/LicenseKeyManager.tsx:31-33 | the input is cleared on success and kept otherwise |
| LicenseView.HandleGenerateKey | src/components/LicenseKeyManager.tsx:29-34 | the input is cleared only by a successful generation, never when the guard refuses; the RPC gets the typed name or "Unknown Device" |
| LicenseView.UpgradeHidesButton | src/components/LicenseKeyManager.tsx:97-105 | after a successful upgrade the upgrade button is gone |
| Signup.Cooldown | src/pages/SignupPage.tsx:167-170 | the n-th resend waits 30 seconds, then 5 minutes, then 12 hours from the third on |
| Signup.CooldownMonotone | src/pages/SignupPage.tsx:28-32 | later resends never wait less |
| Signup.CeilSeconds | src/pages/SignupPage.tsx:65 | `Math.ceil(ms / 1000)`: the least whole number of seconds covering the time |
| Signup.Breakdown | src/pages/SignupPage.tsx:72-83 | more than 60 minutes shows hours and minutes, 1 to 60 minutes shows minutes and seconds, less shows seconds; each split adds back to the total |
| Signup.RemainingSeconds | src/pages/SignupPage.tsx:65 | zero exactly when the cooldown is over, else the time left rounded up to whole seconds |
| Signup.Tick | src/pages/SignupPage.tsx:61-89 | a tick runs only while blocked with a cooldown set; it re-enables resending and clears the countdown text exactly when the cooldown is over, otherwise shows the whole seconds left (rounded up) in the h/m/s layout, and touches nothing else |
| Signup.TicksBeforeEnd | src/pages/SignupPage.tsx:61-89 | ticks before the cooldown's end keep resending blocked and leave the attempts and cooldown alone |
| Signup.HandleResendOtp | src/pages/SignupPage.tsx:132-183 | a resend in cooldown sets the wait message and, through the `finally`, clears loading, changing nothing else; a sent one counts an attempt and blocks until now plus the next cooldown; a failed one leaves the limiter alone |
| Signup.WaitMatchesCountdown | src/pages/SignupPage.tsx:138-150 | the wait message shows the same time text as the countdown at the same instant |
| Signup.ResendBlocksUntilEnd | src/pages/SignupPage.tsx:137-174 | after a sent resend, every resend before the new cooldown's end is refused, whatever ticks happen in between |
| Signup.CheckUserExists | src/pages/SignupPage.tsx:35-58 | "exists" exactly for an error containing "Email not confirmed" or "User already registered", and "needs verification" exactly for the former; no error means no user |
| Signup.EnterOtpStep | src/pages/SignupPage.tsx:113-120 | the OTP step starts with no error, no attempts, resending allowed, no cooldown and no countdown |
| Signup.RegisterStep | src/pages/SignupPage.tsx:102-120 | the address is probed; the OTP step is entered, with the limiter reset, exactly when the probe finds no user, since the auth store's `signUp` resolves even when it fails and its result is not read; otherwise the already-registered message is shown |
| Signup.HandleSubmit | src/pages/SignupPage.tsx:91-130 | mismatched passwords fail first, before any remote call; the OTP step is entered exactly when the passwords match and no user exists, with the limiter reset; every submission in the OTP step navigates to the login page, a wrong code included, because `verifyOTP` resolves even when it fails |
| Signup.FirstResendAfterSignUp | src/pages/SignupPage.tsx:113-120 | the first resend after entering the OTP step is never refused and waits 30 seconds |
| Payment.DigitsOf | src/components/PaymentModal.tsx:30 | only the digits of the input remain, never more characters than the input |
| Payment.DigitsOfDigits | src/components/PaymentModal.tsx:30 | a string of digits is kept whole |
| Payment.Group | src/components/PaymentModal.tsx:33-38 | four-digit parts joined by spaces: a space exactly at every fifth position, digits elsewhere |
| Payment.GroupDigits | src/components/PaymentModal.tsx:33-38 | removing the spaces gives the digits back |
| Payment.FormatCardNumber | src/components/PaymentModal.tsx:29-42 | only digits and spaces; fewer than 4 digits are returned as they are; otherwise at most 19 characters with a space at every fifth position |
| Payment.CardNumberDigits | src/components/PaymentModal.tsx:29-42 | the digits kept are the input's digits, cut to 16 when there are at least 4 |
| Payment.CardNumberIdempotent | src/components/PaymentModal.tsx:29-42 | formatting a formatted card number changes nothing |
| Payment.ExpiryLayout | src/components/PaymentModal.tsx:46-49 | two digits, a slash and up to two more; fewer than two digits alone |
| Payment.ExpiryLayoutDigits | src/components/PaymentModal.tsx:46-49 | the layout keeps the first four digits |
| Payment.FormatExpiryDate | src/components/PaymentModal.tsx:44-50 | at most 5 characters; with two or more digits a slash at position 2 and digits elsewhere; fewer than two digits are returned as they are |
| Payment.ExpiryIdempotent | src/components/PaymentModal.tsx:44-50 | formatting a formatted expiry date changes nothing |

## Left out

- Supabase calls (auth, table selects, inserts and updates, RPCs): each becomes
  an outcome parameter. Their server-side behaviour is not modelled. This
  includes the ordering by `sortBy`, the `not null` device filter of the
  device-statistics query (taken as a filter on the rows), and
  `searchBackups`/`filterBackups`, which are queries only.
- `validateLicenseKey` in the license store: a single RPC with no local logic.
- The payment record that `upgradeToPremium` inserts (amount 99.99, while the
  premium price in the plan limits is 29.99) is a remote write. Its result is
  ignored, so the model leaves it out.
- LicenseStore.UpgradeToPremium: assumes the plan refetch after the upgrade
  reads back the updated row. The refetch's own failure paths are not composed
  in.
- LicenseStore.FetchUserPlan: takes the plan the repair's update returns to be
  the repaired plan, as the database would return it.
- Timers: `setInterval`, `setTimeout`, the mock two-second payment delay and
  React effect wiring. Signup.Tick is one interval callback at a given instant.
  When the callbacks fire is not modelled. The thread recompute that the effect
  skips when the backups become empty is left out too.
- `Math.random` in `generateRandomKey`: the sixteen draws are an input sequence
  over the 36-character alphabet.
- Dates: `new Date(...)` parsing and `toISOString().split('T')[0]` become
  integer timestamps and the `dateOf` parameter. Invalid dates (`NaN`) are not
  modelled.
- Analytics.Cutoff: `setDate(now.getDate() - N)` moves by calendar days in local
  time. The model subtracts exactly N × 24 hours, ignoring daylight-saving
  shifts. The "all" cutoff's year-2000 instant is a clock field.
- Analytics.Analyze: JavaScript orders integer-like object keys (such as a
  model named "4") before other keys. The model keeps every key in insertion
  order, which can change which key wins a tie in the "most used" picks.
- Grouping.AddCount: the analytics counters `modelUsage` and `deviceUsage` are
  plain objects (src/components/AnalyticsPage.tsx:87-88), so a key naming an
  `Object.prototype` property is not a fresh key there. For a model or device
  named "constructor" or "toString", `(m[k] || 0) + n` reads the inherited
  function and stores a string. For one named "__proto__" the assignment sets the
  prototype and no key appears. The model treats every key as a fresh map key
  and adds `n`. The daily map's keys are ISO dates, which never name such a
  property, so Analytics.AddDays is unaffected.
- Analytics.TallyGroups: inherits the Grouping.AddCount gap. Its per-key model
  and device counts hold in the program only when no model or device name is
  an `Object.prototype` property name.
- Analytics.TallyGroupMessages: inherits the Grouping.AddCount gap. Its "every
  other key unchanged" and its credited amounts hold only for names that are
  not `Object.prototype` property names.
- Analytics.AnalyzeTotals: inherits the Grouping.AddCount gap. With a model or
  device named "constructor" or "__proto__", the program's map values are not
  numbers summing to `totalMessages`.
- Analytics.AnalyzeUsage: inherits the Grouping.AddCount gap. The per-key sums
  hold only for names that are not `Object.prototype` property names.
- Analytics.AnalyzeMostUsed: inherits the Grouping.AddCount gap. The most-used
  picks are stated over the model's clean counters. The integer-like key order
  is the Analytics.Analyze line below.
- Threads.BackupThreadsShape: the session groups are a plain object read with
  `Object.entries`, which lists integer-like session ids (such as "42") first,
  in numeric order, before the others. The model keeps every session id in
  first-appearance order, as Threads.BackupThreads builds them. This changes
  the thread order only when ids are integer-like; after the newest-first sort
  it shows only among threads with the same start time. A session id naming an
  `Object.prototype` property ("constructor", "toString", "__proto__") finds
  an inherited value instead of an empty group, so `.push` fails and
  `processConversationThreads` throws. The model builds a thread for such an
  id as for any other; Threads.BackupThreads, Threads.AllThreads and
  Threads.Process inherit this.
- Threads.Preview: JavaScript's `length` and `substring` count UTF-16 code
  units, while a Dafny string counts Unicode scalar values. A message with
  characters outside the Basic Multilingual Plane (emoji, for example) is
  longer in the program than in the model, so the program can cut a message
  the model keeps whole, and can cut through a surrogate pair, which a Dafny
  string cannot hold. Threads.ThreadPreview and Threads.BuildThread inherit
  this: their 60-character bound is in scalar values.
- Threads.BuildThread: the `start_time` fallback to `''` for a turn without a
  timestamp is not modelled, since every turn has an integer timestamp.
- Text.Lower: `toLowerCase` is modelled on the ASCII letters only. Full Unicode
  case mapping (accented and non-Latin letters, and mappings that change the
  length) is not modelled, so Threads.Search is case-insensitive for ASCII
  only.
- ChatStore.Average: the floating-point division is modelled as an exact
  `real` quotient, without rounding.
- Signup.HandleResendOtp: a thrown value without a `message` sets the error to
  `undefined` in the code. The model records `""`; both display as no error.
- Error objects: a caught value is modelled by its optional `message`. The
  `instanceof Error` test becomes "a message is present".
- `window.confirm` before a revoke, clipboard copying, locale date formatting,
  percentages and bar widths: presentation only.
- The payment form's other fields and its submit handler: the submit waits two
  seconds and reports success to the license page, whose handler runs the
  upgrade action, which is modelled.
- The authentication store's actions: each is a remote call. Its `signUp` and
  `verifyOTP` catch every failure and resolve with it, so the sign-up page,
  which does not read the result, never sees them fail; Signup.RegisterStep
  and Signup.HandleSubmit therefore take no outcome for them.
- The rest of the site (landing pages, layout, documentation): presentation.
