/** The chat-backup store (src/store/chatStore.ts): the statistics computed
    from the fetched rows, the per-device statistics, and the state updates
    that do not depend on the remote service. */
module ChatStore {
  import opened Wrappers
  import opened Seqs
  import opened Grouping
  import opened ChatTypes

  /** `x || 0` on a nullable number. */
  function OrZero(o: Option<int>): int {
    match o
    case Some(n) => n
    case None => 0
  }

  function ConversationsOf(b: Backup): int { OrZero(b.conversationCount) }

  function SizeOf(b: Backup): int { OrZero(b.backupSize) }

  // ---------------------------------------------------------------------------
  // Statistics

  datatype Stats = Stats(
    totalBackups: nat,
    totalConversations: int,
    totalSize: int,
    activeBackups: nat,
    archivedBackups: nat,
    deletedBackups: nat,
    deviceCount: nat,
    averageConversationsPerBackup: real)

  function HasStatus(st: BackupStatus): Backup -> bool {
    (b: Backup) => b.status == st
  }

  /** The number of rows with status `st`. */
  function StatusCount(backups: seq<Backup>, st: BackupStatus): nat {
    |Filter(backups, HasStatus(st))|
  }

  /** The three statuses partition the rows. */
  lemma {:induction false} StatusPartition(backups: seq<Backup>)
    ensures StatusCount(backups, Active) + StatusCount(backups, Archived) + StatusCount(backups, Deleted)
         == |backups|
    decreases |backups|
  {
    if |backups| > 0 {
      StatusPartition(backups[..|backups| - 1]);
    }
  }

  /** The device names that are neither null nor empty, with repeats. */
  function TruthyDeviceNames(backups: seq<Backup>): (r: seq<string>)
    ensures forall x :: x in r <==>
      x != "" && exists i :: 0 <= i < |backups| && backups[i].deviceName == Some(x)
    ensures |r| <= |backups|
    decreases |backups|
  {
    if |backups| == 0 then []
    else
      var init := backups[..|backups| - 1];
      var last := backups[|backups| - 1];
      assert forall i :: 0 <= i < |init| ==> init[i] == backups[i];
      TruthyDeviceNames(init) + (if Present(last.deviceName) then [last.deviceName.value] else [])
  }

  /** `a` is the exact quotient `total / n`. */
  predicate IsAverage(a: real, total: int, n: nat) {
    a * (n as real) == total as real
  }

  /** `total / n` in floating point, taken as exact. */
  function Average(total: int, n: nat): (a: real)
    requires n > 0
    ensures IsAverage(a, total, n)
  {
    (total as real) / (n as real)
  }

  /** `fetchStats` once the rows have arrived. */
  function ComputeStats(backups: seq<Backup>): (r: Stats)
    ensures r.totalBackups == |backups|
    ensures r.activeBackups + r.archivedBackups + r.deletedBackups == r.totalBackups
    ensures r.deviceCount <= r.totalBackups
    ensures r.totalBackups > 0 ==>
      IsAverage(r.averageConversationsPerBackup, r.totalConversations, r.totalBackups)
    ensures r.totalBackups == 0 ==>
      r.totalConversations == 0 && r.totalSize == 0 && r.deviceCount == 0
      && r.averageConversationsPerBackup == 0.0
  {
    StatusPartition(backups);
    var total := SumBy(backups, ConversationsOf);
    Stats(
      |backups|,
      total,
      SumBy(backups, SizeOf),
      StatusCount(backups, Active),
      StatusCount(backups, Archived),
      StatusCount(backups, Deleted),
      |Dedup(TruthyDeviceNames(backups))|,
      if |backups| > 0 then Average(total, |backups|) else 0.0)
  }

  /** `deviceCount` counts each distinct non-empty device name once. */
  lemma DeviceCountDistinct(backups: seq<Backup>)
    ensures var names := Dedup(TruthyDeviceNames(backups));
      && ComputeStats(backups).deviceCount == |names|
      && NoDup(names)
      && forall x :: x in names <==>
           x != "" && exists i :: 0 <= i < |backups| && backups[i].deviceName == Some(x)
  {
  }

  /** The statistics of one row: its own conversation count and size, null
      read as 0, and one for its own status. Together with `StatsAppend` and
      the empty case of `ComputeStats` this fixes every sum and count. */
  lemma StatsSingle(b: Backup)
    ensures var s := ComputeStats([b]);
      && s.totalBackups == 1
      && s.totalConversations == OrZero(b.conversationCount)
      && s.totalSize == OrZero(b.backupSize)
      && s.activeBackups == (if b.status == Active then 1 else 0)
      && s.archivedBackups == (if b.status == Archived then 1 else 0)
      && s.deletedBackups == (if b.status == Deleted then 1 else 0)
      && s.deviceCount == (if Present(b.deviceName) then 1 else 0)
      && s.averageConversationsPerBackup == OrZero(b.conversationCount) as real
  {
    SingleSums(b);
    SingleStatus(b, Active);
    SingleStatus(b, Archived);
    SingleStatus(b, Deleted);
    SingleDevice(b);
  }

  lemma SingleSums(b: Backup)
    ensures SumBy([b], ConversationsOf) == OrZero(b.conversationCount)
    ensures SumBy([b], SizeOf) == OrZero(b.backupSize)
  {
    assert [b][..0] == [];
  }

  lemma SingleDevice(b: Backup)
    ensures |Dedup(TruthyDeviceNames([b]))| == if Present(b.deviceName) then 1 else 0
  {
    assert [b][..0] == [];
    var names := TruthyDeviceNames([b]);
    assert names == if Present(b.deviceName) then [b.deviceName.value] else [];
    if Present(b.deviceName) {
      assert names[..0] == [];
    }
  }

  lemma SingleStatus(b: Backup, st: BackupStatus)
    ensures StatusCount([b], st) == if b.status == st then 1 else 0
  {
    assert [b][..0] == [];
  }

  /** The sums and counts of two batches of rows add up. */
  lemma StatsAppend(a: seq<Backup>, b: seq<Backup>)
    ensures var s := ComputeStats(a + b);
      && s.totalBackups == ComputeStats(a).totalBackups + ComputeStats(b).totalBackups
      && s.totalConversations == ComputeStats(a).totalConversations + ComputeStats(b).totalConversations
      && s.totalSize == ComputeStats(a).totalSize + ComputeStats(b).totalSize
      && s.activeBackups == ComputeStats(a).activeBackups + ComputeStats(b).activeBackups
      && s.archivedBackups == ComputeStats(a).archivedBackups + ComputeStats(b).archivedBackups
      && s.deletedBackups == ComputeStats(a).deletedBackups + ComputeStats(b).deletedBackups
  {
    SumByAppend(a, b, ConversationsOf);
    SumByAppend(a, b, SizeOf);
    FilterAppend(a, b, HasStatus(Active));
    FilterAppend(a, b, HasStatus(Archived));
    FilterAppend(a, b, HasStatus(Deleted));
  }

  // ---------------------------------------------------------------------------
  // Device statistics

  datatype DeviceStat = DeviceStat(
    deviceName: string,
    backupCount: int,
    totalConversations: int,
    totalSize: int,
    lastBackup: int)

  /** The rows `fetchDeviceStats` asks for: those with a non-null device name. */
  function HasDevice(b: Backup): bool { b.deviceName.Some? }

  /** `backup.device_name!` */
  function DeviceKey(b: Backup): string { b.deviceName.GetOr("") }

  function NewStat(name: string, b: Backup): DeviceStat {
    DeviceStat(name, 1, ConversationsOf(b), SizeOf(b), b.backupTimestamp)
  }

  /** Adds a row to an existing entry; a strictly later timestamp replaces
      `last_backup`. */
  function Merge(e: DeviceStat, b: Backup): DeviceStat {
    e.(backupCount := e.backupCount + 1,
       totalConversations := e.totalConversations + ConversationsOf(b),
       totalSize := e.totalSize + SizeOf(b),
       lastBackup := if b.backupTimestamp > e.lastBackup then b.backupTimestamp else e.lastBackup)
  }

  /** The `deviceMap` built by the `forEach` over the rows. */
  function DeviceFold(rows: seq<Backup>): seq<(string, DeviceStat)>
    decreases |rows|
  {
    if |rows| == 0 then []
    else
      var m := DeviceFold(rows[..|rows| - 1]);
      var x := rows[|rows| - 1];
      var k := DeviceKey(x);
      match Lookup(m, k)
      case Some(e) => Upsert(m, k, Merge(e, x))
      case None => Upsert(m, k, NewStat(k, x))
  }

  /** `fetchDeviceStats` once the rows have arrived: `Array.from(deviceMap.values())`. */
  function DeviceStats(backups: seq<Backup>): seq<DeviceStat> {
    Values(DeviceFold(Filter(backups, HasDevice)))
  }

  /** The latest timestamp of a group of rows (0 for no rows). */
  function LatestBackup(g: seq<Backup>): (t: int)
    ensures forall i :: 0 <= i < |g| ==> g[i].backupTimestamp <= t
    ensures |g| > 0 ==> exists i :: 0 <= i < |g| && g[i].backupTimestamp == t
    decreases |g|
  {
    if |g| == 0 then 0
    else if |g| == 1 then g[0].backupTimestamp
    else
      var before := LatestBackup(g[..|g| - 1]);
      var last := g[|g| - 1].backupTimestamp;
      assert forall i :: 0 <= i < |g| - 1 ==> g[..|g| - 1][i] == g[i];
      if last > before then last else before
  }

  /** The statistics of one device, computed directly from its rows. */
  function Summary(name: string, g: seq<Backup>): DeviceStat {
    DeviceStat(name, |g|, SumBy(g, ConversationsOf), SumBy(g, SizeOf), LatestBackup(g))
  }

  function Summaries(groups: seq<(string, seq<Backup>)>): (r: seq<(string, DeviceStat)>)
    ensures Keys(r) == Keys(groups)
  {
    seq(|groups|, i requires 0 <= i < |groups| => (groups[i].0, Summary(groups[i].0, groups[i].1)))
  }

  lemma SummaryAppend(name: string, g: seq<Backup>, x: Backup)
    requires |g| > 0
    ensures Summary(name, g + [x]) == Merge(Summary(name, g), x)
  {
    assert (g + [x])[..|g|] == g;
  }

  lemma SummarySingle(name: string, x: Backup)
    ensures Summary(name, [x]) == NewStat(name, x)
  {
    assert [x][..0] == [];
    assert SumBy([x], ConversationsOf) == ConversationsOf(x);
    assert SumBy([x], SizeOf) == SizeOf(x);
  }

  lemma LookupSummaries(groups: seq<(string, seq<Backup>)>, k: string)
    ensures Lookup(Summaries(groups), k)
         == match Lookup(groups, k) case Some(g) => Some(Summary(k, g)) case None => None
  {
    SameKeysIndex(Summaries(groups), groups, k);
  }

  lemma UpsertSummaries(groups: seq<(string, seq<Backup>)>, k: string, v: seq<Backup>)
    ensures Upsert(Summaries(groups), k, Summary(k, v)) == Summaries(Upsert(groups, k, v))
  {
    SameKeysIndex(Summaries(groups), groups, k);
  }

  /** The fold equals the direct per-device summary of the groups of rows by
      device name. */
  lemma FoldStepPresent(g: seq<(string, seq<Backup>)>, x: Backup)
    requires forall i :: 0 <= i < |g| ==> |g[i].1| > 0
    requires Lookup(g, DeviceKey(x)).Some?
    ensures var k := DeviceKey(x);
      var members := Lookup(g, k).value;
      Lookup(Summaries(g), k) == Some(Summary(k, members))
      && Upsert(Summaries(g), k, Merge(Summary(k, members), x)) == Summaries(Upsert(g, k, members + [x]))
  {
    var k := DeviceKey(x);
    var members := Lookup(g, k).value;
    assert members == g[IndexOfKey(g, k).value].1;
    LookupSummaries(g, k);
    SummaryAppend(k, members, x);
    UpsertSummaries(g, k, members + [x]);
  }

  lemma FoldStepAbsent(g: seq<(string, seq<Backup>)>, x: Backup)
    requires Lookup(g, DeviceKey(x)).None?
    ensures var k := DeviceKey(x);
      Lookup(Summaries(g), k).None?
      && Upsert(Summaries(g), k, NewStat(k, x)) == Summaries(Upsert(g, k, Lookup(g, k).GetOr([]) + [x]))
  {
    var k := DeviceKey(x);
    LookupSummaries(g, k);
    assert Lookup(g, k).GetOr([]) + [x] == [x];
    SummarySingle(k, x);
    UpsertSummaries(g, k, [x]);
  }

  /** The fold equals the direct per-device summary of the groups of rows by
      device name. */
  lemma {:induction false} DeviceFoldGroups(rows: seq<Backup>)
    ensures DeviceFold(rows) == Summaries(GroupBy(rows, DeviceKey))
    decreases |rows|
  {
    if |rows| > 0 {
      var init := rows[..|rows| - 1];
      var x := rows[|rows| - 1];
      var g := GroupBy(init, DeviceKey);
      DeviceFoldGroups(init);
      if Lookup(g, DeviceKey(x)).Some? {
        FoldStepPresent(g, x);
      } else {
        FoldStepAbsent(g, x);
      }
    }
  }

  function BackupCount(d: DeviceStat): int { d.backupCount }

  lemma {:induction false} SummariesCount(groups: seq<(string, seq<Backup>)>)
    ensures SumBy(Values(Summaries(groups)), BackupCount) == GroupSum(groups, One)
    decreases |groups|
  {
    if |groups| > 0 {
      var init := groups[..|groups| - 1];
      var last := groups[|groups| - 1];
      SummariesCount(init);
      var v := Values(Summaries(groups));
      assert v[..|v| - 1] == Values(Summaries(init));
      SumByOne(last.1);
    }
  }

  /** The device names of the rows with a device are the non-null device names. */
  lemma {:induction false} DeviceRowKeys(backups: seq<Backup>)
    ensures KeysOf(Filter(backups, HasDevice), DeviceKey) == DeviceNames(backups)
    decreases |backups|
  {
    if |backups| > 0 {
      var init := backups[..|backups| - 1];
      var last := backups[|backups| - 1];
      DeviceRowKeys(init);
      var rows := Filter(init, HasDevice);
      if HasDevice(last) {
        assert (rows + [last])[..|rows|] == rows;
      }
    }
  }

  /** One entry per distinct key, in first-appearance order; each entry
      summarises exactly the rows with its key. */
  lemma DeviceFoldShape(rows: seq<Backup>)
    ensures var names := Dedup(KeysOf(rows, DeviceKey));
      var r := Values(DeviceFold(rows));
      && |r| == |names|
      && (forall i :: 0 <= i < |r| ==> r[i].deviceName == names[i])
      && (forall i :: 0 <= i < |r| ==>
            r[i] == Summary(r[i].deviceName, Members(rows, DeviceKey, r[i].deviceName)))
  {
    var g := GroupBy(rows, DeviceKey);
    var names := Dedup(KeysOf(rows, DeviceKey));
    DeviceFoldGroups(rows);
    var sm := Summaries(g);
    var r := Values(sm);
    assert |Keys(g)| == |g| == |names|;
    forall i | 0 <= i < |r|
      ensures r[i].deviceName == names[i]
      ensures r[i] == Summary(r[i].deviceName, Members(rows, DeviceKey, r[i].deviceName))
    {
      assert r[i] == sm[i].1 == Summary(g[i].0, g[i].1);
      assert g[i].0 == Keys(g)[i];
    }
  }

  /** The backup counts add up to the number of rows. */
  lemma DeviceFoldCount(rows: seq<Backup>)
    ensures SumBy(Values(DeviceFold(rows)), BackupCount) == |rows|
  {
    DeviceFoldGroups(rows);
    SummariesCount(GroupBy(rows, DeviceKey));
    GroupBySizes(rows, DeviceKey);
  }

  /** One entry per distinct non-null device name, in first-appearance order;
      each entry summarises exactly that device's rows, so the backup counts
      add up to the number of rows with a device name. */
  lemma DeviceStatsSpec(backups: seq<Backup>)
    ensures var rows := Filter(backups, HasDevice);
      var r := DeviceStats(backups);
      && Dedup(KeysOf(rows, DeviceKey)) == Dedup(DeviceNames(backups))
      && |r| == |Dedup(DeviceNames(backups))|
      && (forall i :: 0 <= i < |r| ==> r[i].deviceName == Dedup(DeviceNames(backups))[i])
      && (forall i :: 0 <= i < |r| ==>
            r[i] == Summary(r[i].deviceName, Members(rows, DeviceKey, r[i].deviceName)))
      && SumBy(r, BackupCount) == |rows|
  {
    var rows := Filter(backups, HasDevice);
    DeviceFoldShape(rows);
    DeviceFoldCount(rows);
    DeviceRowKeys(backups);
  }

  lemma DeviceFoldLatest(rows: seq<Backup>, i: nat)
    requires i < |DeviceFold(rows)|
    ensures var d := Values(DeviceFold(rows))[i];
      var own := Members(rows, DeviceKey, d.deviceName);
      && |own| > 0
      && (forall j :: 0 <= j < |own| ==> own[j].backupTimestamp <= d.lastBackup)
      && (exists j :: 0 <= j < |own| && own[j].backupTimestamp == d.lastBackup)
      && d.backupCount == |own|
  {
    DeviceFoldAt(rows, i);
  }

  /** The `i`-th entry of the fold summarises a non-empty group of rows. */
  lemma DeviceFoldAt(rows: seq<Backup>, i: nat)
    requires i < |DeviceFold(rows)|
    ensures var d := Values(DeviceFold(rows))[i];
      var own := Members(rows, DeviceKey, d.deviceName);
      |own| > 0 && d == Summary(d.deviceName, own)
  {
    DeviceFoldShape(rows);
    var d := Values(DeviceFold(rows))[i];
    var names := Dedup(KeysOf(rows, DeviceKey));
    assert d.deviceName == names[i];
    assert d.deviceName in KeysOf(rows, DeviceKey);
    MembersEmpty(rows, DeviceKey, d.deviceName);
  }

  /** A device's `last_backup` is the latest timestamp among its rows, and its
      `backup_count` is the number of its rows. */
  lemma DeviceLastBackup(backups: seq<Backup>, i: nat)
    requires i < |DeviceStats(backups)|
    ensures var d := DeviceStats(backups)[i];
      var own := Members(Filter(backups, HasDevice), DeviceKey, d.deviceName);
      && |own| > 0
      && (forall j :: 0 <= j < |own| ==> own[j].backupTimestamp <= d.lastBackup)
      && (exists j :: 0 <= j < |own| && own[j].backupTimestamp == d.lastBackup)
      && d.backupCount == |own|
  {
    DeviceFoldLatest(Filter(backups, HasDevice), i);
  }

  // ---------------------------------------------------------------------------
  // Store state

  datatype SortKey = ByBackupTimestamp | ByConversationCount | ByDeviceName

  datatype SortOrder = Asc | Desc

  datatype ChatState = ChatState(
    chatBackups: seq<Backup>,
    stats: Option<Stats>,
    deviceStats: seq<DeviceStat>,
    loading: bool,
    error: Option<string>,
    selectedBackup: Option<Backup>,
    sortBy: SortKey,
    sortOrder: SortOrder)

  const InitialState := ChatState([], None, [], false, None, None, ByBackupTimestamp, Desc)

  /** `selectBackup`: changes the selection and nothing else. */
  function SelectBackup(s: ChatState, b: Option<Backup>): (r: ChatState)
    ensures r.selectedBackup == b
    ensures r.(selectedBackup := s.selectedBackup) == s
  {
    s.(selectedBackup := b)
  }

  /** `clearError`: clears the error and nothing else. */
  function ClearError(s: ChatState): (r: ChatState)
    ensures r.error == None
    ensures r.(error := s.error) == s
  {
    s.(error := None)
  }

  /** The synchronous start of `fetchChatBackups`. */
  function BeginFetch(s: ChatState): (r: ChatState)
    ensures r.loading && r.error == None
    ensures r.(loading := s.loading, error := s.error) == s
  {
    s.(loading := true, error := None)
  }

  /** How the remote part of `fetchChatBackups` ended. A failure carries the
      thrown value's message when it is an `Error`. */
  datatype FetchOutcome =
    | NotAuthenticated
    | QueryFailed(message: Option<string>)
    | Fetched(data: Option<seq<Backup>>)

  /** The end of `fetchChatBackups`: on success the rows replace the backups
      (null counts as no rows); on failure the backups are kept and the error
      is set. */
  function FinishFetch(s: ChatState, outcome: FetchOutcome): (r: ChatState)
    ensures !r.loading
    ensures outcome.Fetched? ==> r.chatBackups == outcome.data.GetOr([]) && r.error == s.error
    ensures !outcome.Fetched? ==> r.chatBackups == s.chatBackups && r.error.Some?
    ensures r.(chatBackups := s.chatBackups, loading := s.loading, error := s.error) == s
  {
    match outcome
    case NotAuthenticated => s.(error := Some("User not authenticated"), loading := false)
    case QueryFailed(message) =>
      s.(error := Some(if message.Some? then message.value else "Failed to fetch chat backups"), loading := false)
    case Fetched(data) => s.(chatBackups := data.GetOr([]), loading := false)
  }

  /** `setSorting` up to the refetch's first await: the sort settings change,
      and the refetch marks the store as loading with no error. */
  function SetSorting(s: ChatState, sortBy: SortKey, sortOrder: SortOrder): (r: ChatState)
    ensures r.sortBy == sortBy && r.sortOrder == sortOrder
    ensures r.loading && r.error == None
    ensures r.(sortBy := s.sortBy, sortOrder := s.sortOrder, loading := s.loading, error := s.error) == s
  {
    BeginFetch(s.(sortBy := sortBy, sortOrder := sortOrder))
  }

  /** Whatever the refetch's outcome, the store ends not loading, with the new
      sort settings and the same selection. */
  lemma SetSortingSettles(s: ChatState, sortBy: SortKey, sortOrder: SortOrder, outcome: FetchOutcome)
    ensures var r := FinishFetch(SetSorting(s, sortBy, sortOrder), outcome);
      && !r.loading
      && r.sortBy == sortBy && r.sortOrder == sortOrder
      && r.selectedBackup == s.selectedBackup
      && r.stats == s.stats && r.deviceStats == s.deviceStats
      && (outcome.Fetched? ==> r.error == None)
  {
  }

  /** The end of `fetchStats`: the statistics of the rows on success; any
      failure is only logged. */
  function FinishStats(s: ChatState, outcome: FetchOutcome): (r: ChatState)
    ensures outcome.Fetched? ==> r.stats == Some(ComputeStats(outcome.data.GetOr([])))
    ensures !outcome.Fetched? ==> r == s
    ensures r.(stats := s.stats) == s
  {
    match outcome
    case Fetched(data) => s.(stats := Some(ComputeStats(data.GetOr([]))))
    case _ => s
  }

  /** The end of `fetchDeviceStats`: the per-device statistics on success; any
      failure is only logged. */
  function FinishDeviceStats(s: ChatState, outcome: FetchOutcome): (r: ChatState)
    ensures outcome.Fetched? ==> r.deviceStats == DeviceStats(outcome.data.GetOr([]))
    ensures !outcome.Fetched? ==> r == s
    ensures r.(deviceStats := s.deviceStats) == s
  {
    match outcome
    case Fetched(data) => s.(deviceStats := DeviceStats(data.GetOr([])))
    case _ => s
  }
}
