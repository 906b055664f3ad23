/** The usage-analytics summary of the Analytics page (the `analytics` memo in
    src/components/AnalyticsPage.tsx): a time-window filter over the backups,
    record-level session grouping, per-group message counts, model, device and
    daily usage maps, an average, and three "most used" picks. */
module Analytics {
  import opened Wrappers
  import opened Seqs
  import opened Sorting
  import opened Grouping
  import opened ChatTypes

  datatype TimeRange = Last7Days | Last30Days | Last90Days | AllTime

  /** The wall clock when the summary is computed: `now`, and the same instant
      with its year set to 2000 (`cutoffDate.setFullYear(2000)`). */
  datatype Clock = Clock(now: int, inYear2000: int)

  const DayMs: int := 24 * 60 * 60 * 1000

  /** The earliest creation time a backup may have to be counted. */
  function Cutoff(range: TimeRange, clock: Clock): (c: int)
    ensures range == Last7Days ==> c == clock.now - 7 * DayMs
    ensures range == Last30Days ==> c == clock.now - 30 * DayMs
    ensures range == Last90Days ==> c == clock.now - 90 * DayMs
    ensures range == AllTime ==> c == clock.inYear2000
  {
    match range
    case Last7Days => clock.now - 7 * DayMs
    case Last30Days => clock.now - 30 * DayMs
    case Last90Days => clock.now - 90 * DayMs
    case AllTime => clock.inYear2000
  }

  function CreatedAt(b: Backup): int { b.createdAt }

  /** The backups created at or after `cutoff`, in their original order. */
  function InWindow(backups: seq<Backup>, cutoff: int): (r: seq<Backup>)
    ensures forall b :: b in r <==> b in backups && b.createdAt >= cutoff
    ensures IsSubsequence(r, backups)
    ensures |r| <= |backups|
  {
    Filter(backups, (b: Backup) => b.createdAt >= cutoff)
  }

  /** `backup.chat_data?.session_id || backup.id` */
  function SessionKey(b: Backup): string {
    OrElse(ChatSessionId(b), b.id)
  }

  /** The exchanges credited to a group whose earliest record is `first`: one
      per entry of its `conversations` array, or one per record of the group
      when that array is missing. */
  function GroupExchanges(first: Backup, size: nat): nat {
    match Conversations(first)
    case Some(turns) => |turns|
    case None => size
  }

  /** The messages credited to a group (`threadMessages`): a user input and an
      AI response per exchange, whether or not either is actually filled in. */
  function GroupMessages(first: Backup, size: nat): (n: nat)
    ensures Conversations(first).Some? ==> n == 2 * |Conversations(first).value|
    ensures Conversations(first).None? ==> n == 2 * size
  {
    2 * GroupExchanges(first, size)
  }

  /** The model credited to a group whose earliest record is `first`: the first
      turn's `metadata.model`, then `chat_data.model`, then `metadata.model`,
      then `"Unknown"`. A first-turn model that is literally `"Unknown"` is
      treated like a missing one. */
  function ModelOf(first: Backup): (m: string)
    ensures m != ""
    // a real model on the first turn wins
    ensures Present(FirstTurnModel(first)) && FirstTurnModel(first).value != "Unknown" ==>
      m == FirstTurnModel(first).value
    // otherwise the record's own fields are tried, `chat_data` first
    ensures !(Present(FirstTurnModel(first)) && FirstTurnModel(first).value != "Unknown") ==>
      (Present(ChatModel(first)) ==> m == ChatModel(first).value)
      && (!Present(ChatModel(first)) && Present(MetadataModel(first)) ==> m == MetadataModel(first).value)
    // a name other than "Unknown" always comes from one of the three places
    ensures m == "Unknown" || ComesFrom(m, FirstTurnModel(first)) || ComesFrom(m, ChatModel(first))
            || ComesFrom(m, MetadataModel(first))
  {
    var fromTurn := if Present(FirstTurnModel(first)) then FirstTurnModel(first).value else "Unknown";
    if fromTurn == "Unknown" then OrElse(ChatModel(first), OrElse(MetadataModel(first), "Unknown"))
    else fromTurn
  }

  /** `thread[0].chat_data.conversations[0]?.metadata?.model`, absent when
      there is no `conversations` array or it is empty. */
  function FirstTurnModel(first: Backup): Option<string> {
    match Conversations(first)
    case Some(turns) => if |turns| > 0 then TurnMetadataModel(turns[0]) else None
    case None => None
  }

  /** `m` is the non-empty value of the field `o`. */
  predicate ComesFrom(m: string, o: Option<string>) {
    Present(o) && o.value == m
  }

  /** `thread[0]?.device_name || 'Unknown'` */
  function DeviceOf(first: Backup): (d: string)
    ensures d != ""
  {
    OrElse(first.deviceName, "Unknown")
  }

  /** The running totals of the aggregation. */
  datatype Tally = Tally(
    totalMessages: int,
    modelUsage: seq<(string, int)>,
    deviceUsage: seq<(string, int)>,
    dailyActivity: seq<(string, int)>)

  /** Adds 2 to the day of every record, in order. */
  function AddDays(daily: seq<(string, int)>, records: seq<Backup>, dateOf: int -> string): (r: seq<(string, int)>)
    ensures Total(r) == Total(daily) + 2 * |records|
    ensures DistinctKeys(daily) ==> DistinctKeys(r)
    decreases |records|
  {
    if |records| == 0 then daily
    else
      var before := AddDays(daily, records[..|records| - 1], dateOf);
      AddCount(before, dateOf(records[|records| - 1].createdAt), 2)
  }

  ghost predicate TallyInvariant(t: Tally) {
    && Total(t.modelUsage) == t.totalMessages
    && Total(t.deviceUsage) == t.totalMessages
    && DistinctKeys(t.modelUsage) && DistinctKeys(t.deviceUsage) && DistinctKeys(t.dailyActivity)
    && "" !in Keys(t.modelUsage) && "" !in Keys(t.deviceUsage)
  }

  /** The records of one group, earliest first. */
  function Chronological(group: seq<Backup>): (r: seq<Backup>)
    ensures multiset(r) == multiset(group)
    ensures |r| == |group|
    ensures SortedBy(r, CreatedAt)
  {
    SortBy(group, CreatedAt)
  }

  /** The count of key `k` in a usage map, 0 when absent (`m[k] || 0`). */
  function CountOf(m: seq<(string, int)>, k: string): int {
    Lookup(m, k).GetOr(0)
  }

  /** The messages one session group credits to key `k` of the map whose key
      is `owner` of the group's earliest record (ModelOf or DeviceOf): all of
      its messages when that key is `k`, none otherwise. */
  function GroupCredit(owner: Backup -> string, k: string): ((string, seq<Backup>)) -> int {
    (e: (string, seq<Backup>)) =>
      if |e.1| > 0 && owner(Chronological(e.1)[0]) == k then GroupMessages(Chronological(e.1)[0], |e.1|) else 0
  }

  /** Folds one session group into the totals. */
  function TallyGroup(t: Tally, group: seq<Backup>, dateOf: int -> string): Tally
    requires |group| > 0
  {
    var sorted := Chronological(group);
    var first := sorted[0];
    var n := GroupMessages(first, |sorted|);
    Tally(t.totalMessages + n,
          AddCount(t.modelUsage, ModelOf(first), n),
          AddCount(t.deviceUsage, DeviceOf(first), n),
          AddDays(t.dailyActivity, sorted, dateOf))
  }

  lemma TallyGroupMessages(t: Tally, group: seq<Backup>, dateOf: int -> string)
    requires |group| > 0
    requires Total(t.modelUsage) == t.totalMessages && Total(t.deviceUsage) == t.totalMessages
    ensures Total(TallyGroup(t, group, dateOf).modelUsage) == TallyGroup(t, group, dateOf).totalMessages
    ensures Total(TallyGroup(t, group, dateOf).deviceUsage) == TallyGroup(t, group, dateOf).totalMessages
    // the group's messages go to the model and the device of its earliest record
    ensures forall k ::
      CountOf(TallyGroup(t, group, dateOf).modelUsage, k) == CountOf(t.modelUsage, k) + GroupCredit(ModelOf, k)(("", group))
    ensures forall k ::
      CountOf(TallyGroup(t, group, dateOf).deviceUsage, k) == CountOf(t.deviceUsage, k) + GroupCredit(DeviceOf, k)(("", group))
  {
    var first := Chronological(group)[0];
    var n := GroupMessages(first, |group|);
    var t' := TallyGroup(t, group, dateOf);
    assert t'.totalMessages == t.totalMessages + n;
    assert t'.modelUsage == AddCount(t.modelUsage, ModelOf(first), n);
    assert t'.deviceUsage == AddCount(t.deviceUsage, DeviceOf(first), n);
    CreditAdd(t.modelUsage, ModelOf, group);
    CreditAdd(t.deviceUsage, DeviceOf, group);
  }

  /** Folding one more group into per-key counts that already match the
      earlier groups' credits gives counts matching all groups' credits. */
  lemma CreditFold(before: seq<(string, int)>, after: seq<(string, int)>,
                   groups: seq<(string, seq<Backup>)>, owner: Backup -> string)
    requires |groups| > 0
    requires forall k :: CountOf(before, k) == SumBy(groups[..|groups| - 1], GroupCredit(owner, k))
    requires forall k ::
      CountOf(after, k) == CountOf(before, k) + GroupCredit(owner, k)(("", groups[|groups| - 1].1))
    ensures forall k :: CountOf(after, k) == SumBy(groups, GroupCredit(owner, k))
  {
    forall k
      ensures CountOf(after, k) == SumBy(groups, GroupCredit(owner, k))
    {
      var e := groups[|groups| - 1];
      assert GroupCredit(owner, k)(e) == GroupCredit(owner, k)(("", e.1));
    }
  }

  /** Adding `d` at `key` raises that key's count by `d` and no other. */
  lemma AddCountAt(m: seq<(string, int)>, key: string, d: int)
    ensures forall k :: CountOf(AddCount(m, key, d), k) == CountOf(m, k) + (if k == key then d else 0)
  {
  }

  /** Crediting a group's messages to its owner's key is adding its credit
      at every key. */
  lemma CreditAdd(m: seq<(string, int)>, owner: Backup -> string, group: seq<Backup>)
    requires |group| > 0
    ensures var first := Chronological(group)[0];
      forall k :: CountOf(AddCount(m, owner(first), GroupMessages(first, |group|)), k)
        == CountOf(m, k) + GroupCredit(owner, k)(("", group))
  {
    var first := Chronological(group)[0];
    AddCountAt(m, owner(first), GroupMessages(first, |group|));
    GroupCreditOf(owner, group);
  }

  lemma GroupCreditOf(owner: Backup -> string, group: seq<Backup>)
    requires |group| > 0
    ensures forall k ::
      GroupCredit(owner, k)(("", group)) == if owner(Chronological(group)[0]) == k then GroupMessages(Chronological(group)[0], |group|) else 0
  {
  }

  lemma TallyGroupKeys(t: Tally, group: seq<Backup>, dateOf: int -> string)
    requires |group| > 0
    requires DistinctKeys(t.modelUsage) && DistinctKeys(t.deviceUsage) && DistinctKeys(t.dailyActivity)
    requires "" !in Keys(t.modelUsage) && "" !in Keys(t.deviceUsage)
    ensures var t' := TallyGroup(t, group, dateOf);
      DistinctKeys(t'.modelUsage) && DistinctKeys(t'.deviceUsage) && DistinctKeys(t'.dailyActivity)
      && "" !in Keys(t'.modelUsage) && "" !in Keys(t'.deviceUsage)
  {
    var first := Chronological(group)[0];
    var n := GroupMessages(first, |group|);
    var t' := TallyGroup(t, group, dateOf);
    assert t'.modelUsage == AddCount(t.modelUsage, ModelOf(first), n);
    assert t'.deviceUsage == AddCount(t.deviceUsage, DeviceOf(first), n);
    assert t'.dailyActivity == AddDays(t.dailyActivity, Chronological(group), dateOf);
    AddCountNonEmptyKeys(t.modelUsage, ModelOf(first), n);
    AddCountNonEmptyKeys(t.deviceUsage, DeviceOf(first), n);
  }

  lemma AddCountNonEmptyKeys(m: seq<(string, int)>, k: string, d: int)
    requires DistinctKeys(m) && "" !in Keys(m) && k != ""
    ensures DistinctKeys(AddCount(m, k, d)) && "" !in Keys(AddCount(m, k, d))
  {
  }

  lemma TallyGroupDays(t: Tally, group: seq<Backup>, dateOf: int -> string)
    requires |group| > 0
    ensures Total(TallyGroup(t, group, dateOf).dailyActivity) == Total(t.dailyActivity) + 2 * |group|
  {
  }

  /** Folds the session groups, in insertion order, into the totals. The daily
      map receives two per record of every group. */
  function TallyGroups(groups: seq<(string, seq<Backup>)>, dateOf: int -> string): (t: Tally)
    requires forall i :: 0 <= i < |groups| ==> |groups[i].1| > 0
    ensures TallyInvariant(t)
    ensures Total(t.dailyActivity) == 2 * GroupSum(groups, One)
    // each model and each device counts the messages of the groups credited to it
    ensures forall k :: CountOf(t.modelUsage, k) == SumBy(groups, GroupCredit(ModelOf, k))
    ensures forall k :: CountOf(t.deviceUsage, k) == SumBy(groups, GroupCredit(DeviceOf, k))
    decreases |groups|
  {
    if |groups| == 0 then Tally(0, [], [], [])
    else
      var t := TallyGroups(groups[..|groups| - 1], dateOf);
      TallyStep(groups, t, dateOf);
      TallyGroup(t, groups[|groups| - 1].1, dateOf)
  }

  /** What the totals of all but the last group keep when the last is folded in. */
  lemma TallyStep(groups: seq<(string, seq<Backup>)>, t: Tally, dateOf: int -> string)
    requires |groups| > 0 && |groups[|groups| - 1].1| > 0
    requires TallyInvariant(t)
    requires Total(t.dailyActivity) == 2 * GroupSum(groups[..|groups| - 1], One)
    requires forall k :: CountOf(t.modelUsage, k) == SumBy(groups[..|groups| - 1], GroupCredit(ModelOf, k))
    requires forall k :: CountOf(t.deviceUsage, k) == SumBy(groups[..|groups| - 1], GroupCredit(DeviceOf, k))
    ensures var t' := TallyGroup(t, groups[|groups| - 1].1, dateOf);
      && TallyInvariant(t')
      && Total(t'.dailyActivity) == 2 * GroupSum(groups, One)
      && (forall k :: CountOf(t'.modelUsage, k) == SumBy(groups, GroupCredit(ModelOf, k)))
      && (forall k :: CountOf(t'.deviceUsage, k) == SumBy(groups, GroupCredit(DeviceOf, k)))
  {
    var g := groups[|groups| - 1].1;
    var t' := TallyGroup(t, g, dateOf);
    assert TallyInvariant(t') by {
      TallyGroupMessages(t, g, dateOf);
      TallyGroupKeys(t, g, dateOf);
    }
    assert Total(t'.dailyActivity) == 2 * GroupSum(groups, One) by {
      SumByOne(g);
      TallyGroupDays(t, g, dateOf);
    }
    assert forall k :: CountOf(t'.modelUsage, k) == SumBy(groups, GroupCredit(ModelOf, k)) by {
      TallyGroupMessages(t, g, dateOf);
      CreditFold(t.modelUsage, t'.modelUsage, groups, ModelOf);
    }
    assert forall k :: CountOf(t'.deviceUsage, k) == SumBy(groups, GroupCredit(DeviceOf, k)) by {
      TallyGroupMessages(t, g, dateOf);
      CreditFold(t.deviceUsage, t'.deviceUsage, groups, DeviceOf);
    }
  }

  /** The summary shown on the Analytics page. */
  datatype ChatAnalytics = ChatAnalytics(
    totalChats: nat,
    totalMessages: int,
    modelUsage: seq<(string, int)>,
    deviceUsage: seq<(string, int)>,
    dailyActivity: seq<(string, int)>,
    averageMessagesPerChat: int,
    mostActiveDay: string,
    mostUsedModel: string,
    mostUsedDevice: string)

  const EmptyAnalytics := ChatAnalytics(0, 0, [], [], [], 0, "", "", "")

  /** `q` is `a / b` rounded to the nearest integer, halves upward. */
  predicate RoundsTo(a: int, b: int, q: int) {
    2 * q * b <= 2 * a + b < 2 * (q + 1) * b
  }

  /** `Math.round(a / b)`: halves round up. */
  function RoundDiv(a: int, b: int): (q: int)
    requires b > 0
    ensures RoundsTo(a, b, q)
  {
    (2 * a + b) / (2 * b)
  }

  /** The session groups of the backups in the window. */
  function Sessions(backups: seq<Backup>, cutoff: int): seq<(string, seq<Backup>)> {
    GroupBy(InWindow(backups, cutoff), SessionKey)
  }

  /** The summary of a non-empty backup list, from its session groups. */
  function Summarize(groups: seq<(string, seq<Backup>)>, dateOf: int -> string): ChatAnalytics
    requires forall i :: 0 <= i < |groups| ==> |groups[i].1| > 0
  {
    var t := TallyGroups(groups, dateOf);
    var totalChats := |groups|;
    ChatAnalytics(
      totalChats,
      t.totalMessages,
      t.modelUsage,
      t.deviceUsage,
      t.dailyActivity,
      if totalChats > 0 then RoundDiv(t.totalMessages, totalChats) else 0,
      MostUsed(t.dailyActivity),
      MostUsed(t.modelUsage),
      MostUsed(t.deviceUsage))
  }

  /** The summary for the backups created at or after `cutoff`. */
  function AnalyzeFrom(backups: seq<Backup>, cutoff: int, dateOf: int -> string): ChatAnalytics {
    if |backups| == 0 then EmptyAnalytics else Summarize(Sessions(backups, cutoff), dateOf)
  }

  /** The summary for a time-range selector. */
  function Analyze(backups: seq<Backup>, range: TimeRange, clock: Clock, dateOf: int -> string): ChatAnalytics {
    AnalyzeFrom(backups, Cutoff(range, clock), dateOf)
  }

  // ---------------------------------------------------------------------------
  // Properties of the summary

  /** With no backup in the window (in particular with no backups at all) the
      summary is all zeros, empty maps and empty picks. */
  lemma AnalyzeEmptyWindow(backups: seq<Backup>, cutoff: int, dateOf: int -> string)
    requires |InWindow(backups, cutoff)| == 0
    ensures AnalyzeFrom(backups, cutoff, dateOf) == EmptyAnalytics
  {
    assert Sessions(backups, cutoff) == [];
  }

  lemma {:induction false} WindowNested(backups: seq<Backup>, c1: int, c2: int)
    requires c1 <= c2
    ensures InWindow(InWindow(backups, c1), c2) == InWindow(backups, c2)
    decreases |backups|
  {
    if |backups| > 0 {
      var init := backups[..|backups| - 1];
      WindowNested(init, c1, c2);
      var w := InWindow(init, c1);
      var last := backups[|backups| - 1];
      if last.createdAt >= c1 {
        assert InWindow(backups, c1) == w + [last];
        assert (w + [last])[..|w|] == w;
      }
    }
  }

  /** Only backups created at or after the cutoff are counted: the summary is
      the one computed from those backups alone. */
  lemma AnalyzeOnlyWindow(backups: seq<Backup>, cutoff: int, dateOf: int -> string)
    ensures AnalyzeFrom(backups, cutoff, dateOf) == AnalyzeFrom(InWindow(backups, cutoff), cutoff, dateOf)
  {
    WindowNested(backups, cutoff, cutoff);
    if |InWindow(backups, cutoff)| == 0 {
      AnalyzeEmptyWindow(backups, cutoff, dateOf);
      AnalyzeEmptyWindow(InWindow(backups, cutoff), cutoff, dateOf);
    }
  }

  /** `totalChats` is the number of distinct session keys in the window, so it
      never exceeds the number of backups in the window. */
  lemma AnalyzeChats(backups: seq<Backup>, cutoff: int, dateOf: int -> string)
    ensures AnalyzeFrom(backups, cutoff, dateOf).totalChats == |Dedup(KeysOf(InWindow(backups, cutoff), SessionKey))|
    ensures AnalyzeFrom(backups, cutoff, dateOf).totalChats <= |InWindow(backups, cutoff)|
  {
    assert |Sessions(backups, cutoff)| == |Keys(Sessions(backups, cutoff))|;
  }

  /** The exchanges credited to each group, summed over the groups. */
  function ExchangeTotal(groups: seq<(string, seq<Backup>)>): nat
    requires forall i :: 0 <= i < |groups| ==> |groups[i].1| > 0
    decreases |groups|
  {
    if |groups| == 0 then 0
    else
      var g := groups[|groups| - 1].1;
      ExchangeTotal(groups[..|groups| - 1]) + GroupExchanges(Chronological(g)[0], |g|)
  }

  lemma {:induction false} TallyGroupsExchanges(groups: seq<(string, seq<Backup>)>, dateOf: int -> string)
    requires forall i :: 0 <= i < |groups| ==> |groups[i].1| > 0
    ensures TallyGroups(groups, dateOf).totalMessages == 2 * ExchangeTotal(groups)
    decreases |groups|
  {
    if |groups| > 0 {
      var init := groups[..|groups| - 1];
      var g := groups[|groups| - 1].1;
      TallyGroupsExchanges(init, dateOf);
      TallyGroupTotal(TallyGroups(init, dateOf), g, dateOf);
      assert TallyGroups(groups, dateOf) == TallyGroup(TallyGroups(init, dateOf), g, dateOf);
      assert ExchangeTotal(groups) == ExchangeTotal(init) + GroupExchanges(Chronological(g)[0], |g|);
    }
  }

  /** One group adds its credited messages to `totalMessages`. */
  lemma TallyGroupTotal(t: Tally, group: seq<Backup>, dateOf: int -> string)
    requires |group| > 0
    ensures TallyGroup(t, group, dateOf).totalMessages
         == t.totalMessages + 2 * GroupExchanges(Chronological(group)[0], |group|)
  {
  }

  lemma SummarizeTotals(groups: seq<(string, seq<Backup>)>, dateOf: int -> string)
    requires forall i :: 0 <= i < |groups| ==> |groups[i].1| > 0
    ensures var r := Summarize(groups, dateOf);
      && r.totalMessages == 2 * ExchangeTotal(groups)
      && Total(r.modelUsage) == r.totalMessages
      && Total(r.deviceUsage) == r.totalMessages
      && Total(r.dailyActivity) == 2 * GroupSum(groups, One)
  {
    TallyGroupsExchanges(groups, dateOf);
  }

  /** Every group contributes an even number of messages, the model and device
      maps each add up to `totalMessages`, and the daily map adds up to two per
      backup in the window. */
  lemma AnalyzeTotals(backups: seq<Backup>, cutoff: int, dateOf: int -> string)
    ensures var r := AnalyzeFrom(backups, cutoff, dateOf);
      && r.totalMessages == 2 * ExchangeTotal(Sessions(backups, cutoff))
      && Total(r.modelUsage) == r.totalMessages
      && Total(r.deviceUsage) == r.totalMessages
      && Total(r.dailyActivity) == 2 * |InWindow(backups, cutoff)|
  {
    if |backups| > 0 {
      var w := InWindow(backups, cutoff);
      var groups := Sessions(backups, cutoff);
      SummarizeTotals(groups, dateOf);
      GroupBySizes(w, SessionKey);
    }
  }

  /** The model and device maps never have an empty key, and no map repeats a key. */
  lemma AnalyzeKeys(backups: seq<Backup>, cutoff: int, dateOf: int -> string)
    ensures var r := AnalyzeFrom(backups, cutoff, dateOf);
      && "" !in Keys(r.modelUsage) && "" !in Keys(r.deviceUsage)
      && DistinctKeys(r.modelUsage) && DistinctKeys(r.deviceUsage) && DistinctKeys(r.dailyActivity)
  {
  }

  lemma SummarizeAverage(groups: seq<(string, seq<Backup>)>, dateOf: int -> string)
    requires forall i :: 0 <= i < |groups| ==> |groups[i].1| > 0
    ensures var r := Summarize(groups, dateOf);
      && r.totalChats == |groups|
      && (r.totalChats == 0 ==> r.averageMessagesPerChat == 0)
      && (r.totalChats > 0 ==> RoundsTo(r.totalMessages, r.totalChats, r.averageMessagesPerChat))
  {
  }

  /** `averageMessagesPerChat` is `totalMessages / totalChats` rounded half up,
      and 0 when there are no chats. */
  lemma AnalyzeAverage(backups: seq<Backup>, cutoff: int, dateOf: int -> string)
    ensures var r := AnalyzeFrom(backups, cutoff, dateOf);
      && (r.totalChats == 0 ==> r.averageMessagesPerChat == 0)
      && (r.totalChats > 0 ==> RoundsTo(r.totalMessages, r.totalChats, r.averageMessagesPerChat))
  {
    if |backups| > 0 {
      SummarizeAverage(Sessions(backups, cutoff), dateOf);
    }
  }

  lemma {:induction false} AddDaysNoEmptyKey(daily: seq<(string, int)>, records: seq<Backup>, dateOf: int -> string)
    requires forall t :: dateOf(t) != ""
    requires "" !in Keys(daily)
    ensures "" !in Keys(AddDays(daily, records, dateOf))
    decreases |records|
  {
    if |records| > 0 {
      AddDaysNoEmptyKey(daily, records[..|records| - 1], dateOf);
    }
  }

  lemma {:induction false} TallyGroupsNoEmptyDay(groups: seq<(string, seq<Backup>)>, dateOf: int -> string)
    requires forall i :: 0 <= i < |groups| ==> |groups[i].1| > 0
    requires forall t :: dateOf(t) != ""
    ensures "" !in Keys(TallyGroups(groups, dateOf).dailyActivity)
    decreases |groups|
  {
    if |groups| > 0 {
      var t := TallyGroups(groups[..|groups| - 1], dateOf);
      var g := groups[|groups| - 1].1;
      TallyGroupsNoEmptyDay(groups[..|groups| - 1], dateOf);
      AddDaysNoEmptyKey(t.dailyActivity, Chronological(g), dateOf);
    }
  }

  /** 1 for a backup created on day `day`, 0 otherwise. */
  function OnDay(dateOf: int -> string, day: string): Backup -> int {
    (b: Backup) => if dateOf(b.createdAt) == day then 1 else 0
  }

  lemma {:induction false} AddDaysCount(daily: seq<(string, int)>, records: seq<Backup>, dateOf: int -> string, day: string)
    ensures CountOf(AddDays(daily, records, dateOf), day) == CountOf(daily, day) + 2 * SumBy(records, OnDay(dateOf, day))
    decreases |records|
  {
    if |records| > 0 {
      AddDaysCount(daily, records[..|records| - 1], dateOf, day);
    }
  }

  lemma {:induction false} TallyGroupsCountOf(groups: seq<(string, seq<Backup>)>, dateOf: int -> string, day: string)
    requires forall i :: 0 <= i < |groups| ==> |groups[i].1| > 0
    ensures CountOf(TallyGroups(groups, dateOf).dailyActivity, day) == 2 * GroupSum(groups, OnDay(dateOf, day))
    decreases |groups|
  {
    if |groups| > 0 {
      var t := TallyGroups(groups[..|groups| - 1], dateOf);
      var g := groups[|groups| - 1].1;
      TallyGroupsCountOf(groups[..|groups| - 1], dateOf, day);
      assert TallyGroups(groups, dateOf).dailyActivity == AddDays(t.dailyActivity, Chronological(g), dateOf);
      AddDaysCount(t.dailyActivity, Chronological(g), dateOf, day);
      SortBySumBy(g, CreatedAt, OnDay(dateOf, day));
      assert GroupSum(groups, OnDay(dateOf, day))
          == GroupSum(groups[..|groups| - 1], OnDay(dateOf, day)) + SumBy(g, OnDay(dateOf, day));
    }
  }

  /** Each day's entry in `dailyActivity` is two per backup in the window
      created on that day (0, i.e. absent, when there is none). */
  lemma AnalyzeDailyActivity(backups: seq<Backup>, cutoff: int, dateOf: int -> string, day: string)
    ensures CountOf(AnalyzeFrom(backups, cutoff, dateOf).dailyActivity, day)
         == 2 * SumBy(InWindow(backups, cutoff), OnDay(dateOf, day))
  {
    var w := InWindow(backups, cutoff);
    if |backups| > 0 {
      TallyGroupsCountOf(Sessions(backups, cutoff), dateOf, day);
      GroupBySum(w, SessionKey, OnDay(dateOf, day));
    } else {
      assert w == [];
    }
  }

  /** `modelUsage[m]` counts the messages of exactly those sessions whose
      earliest record in the window resolves to model `m` (ModelOf), and
      `deviceUsage[d]` those whose earliest record's device is `d` (DeviceOf). */
  lemma AnalyzeUsage(backups: seq<Backup>, cutoff: int, dateOf: int -> string, k: string)
    ensures var r := AnalyzeFrom(backups, cutoff, dateOf);
      && CountOf(r.modelUsage, k) == SumBy(Sessions(backups, cutoff), GroupCredit(ModelOf, k))
      && CountOf(r.deviceUsage, k) == SumBy(Sessions(backups, cutoff), GroupCredit(DeviceOf, k))
  {
    if |backups| == 0 {
      assert Sessions(backups, cutoff) == [];
    }
  }

  /** Each "most used" pick is `""` exactly when its map is empty; otherwise it
      is a key with the greatest count, and on a tie the key later in
      iteration order wins (every key after it counts strictly less). */
  lemma AnalyzeMostUsed(backups: seq<Backup>, cutoff: int, dateOf: int -> string)
    requires forall t :: dateOf(t) != ""
    ensures var r := AnalyzeFrom(backups, cutoff, dateOf);
      && (r.mostUsedModel == "" <==> |r.modelUsage| == 0)
      && (r.mostUsedDevice == "" <==> |r.deviceUsage| == 0)
      && (r.mostActiveDay == "" <==> |r.dailyActivity| == 0)
      && (|r.modelUsage| > 0 ==> exists j :: IsLastMax(r.modelUsage, j) && r.mostUsedModel == r.modelUsage[j].0)
      && (|r.deviceUsage| > 0 ==> exists j :: IsLastMax(r.deviceUsage, j) && r.mostUsedDevice == r.deviceUsage[j].0)
      && (|r.dailyActivity| > 0 ==> exists j :: IsLastMax(r.dailyActivity, j) && r.mostActiveDay == r.dailyActivity[j].0)
  {
    var r := AnalyzeFrom(backups, cutoff, dateOf);
    if |backups| > 0 {
      TallyGroupsNoEmptyDay(Sessions(backups, cutoff), dateOf);
      AnalyzeKeys(backups, cutoff, dateOf);
      MostUsedSpec(r.modelUsage);
      MostUsedSpec(r.deviceUsage);
      MostUsedSpec(r.dailyActivity);
    }
  }

  lemma NarrowerWindowChats(backups: seq<Backup>, c1: int, c2: int, dateOf: int -> string)
    requires c1 <= c2
    ensures AnalyzeFrom(backups, c2, dateOf).totalChats <= AnalyzeFrom(backups, c1, dateOf).totalChats
  {
    AnalyzeChats(backups, c1, dateOf);
    AnalyzeChats(backups, c2, dateOf);
    var w1 := InWindow(backups, c1);
    WindowNested(backups, c1, c2);
    assert InWindow(w1, c2) == InWindow(backups, c2);
    DistinctKeysSubset(InWindow(backups, c2), w1, SessionKey);
  }

  lemma NarrowerWindowDaily(backups: seq<Backup>, c1: int, c2: int, dateOf: int -> string)
    requires c1 <= c2
    ensures Total(AnalyzeFrom(backups, c2, dateOf).dailyActivity) <= Total(AnalyzeFrom(backups, c1, dateOf).dailyActivity)
  {
    AnalyzeTotals(backups, c1, dateOf);
    AnalyzeTotals(backups, c2, dateOf);
    WindowNested(backups, c1, c2);
    assert |InWindow(InWindow(backups, c1), c2)| <= |InWindow(backups, c1)|;
  }

  /** Narrowing the window (raising the cutoff) never increases `totalChats` or
      the total of the daily map. */
  lemma NarrowerWindowCounts(backups: seq<Backup>, c1: int, c2: int, dateOf: int -> string)
    requires c1 <= c2
    ensures AnalyzeFrom(backups, c2, dateOf).totalChats <= AnalyzeFrom(backups, c1, dateOf).totalChats
    ensures Total(AnalyzeFrom(backups, c2, dateOf).dailyActivity) <= Total(AnalyzeFrom(backups, c1, dateOf).dailyActivity)
  {
    NarrowerWindowChats(backups, c1, c2, dateOf);
    NarrowerWindowDaily(backups, c1, c2, dateOf);
  }

  /** When every backup in the window belongs to one session, the message
      count is the one that session's earliest backup determines. */
  lemma OneSessionMessages(backups: seq<Backup>, cutoff: int, dateOf: int -> string, w: seq<Backup>, k: string)
    requires w == InWindow(backups, cutoff) && |w| > 0
    requires forall i :: 0 <= i < |w| ==> SessionKey(w[i]) == k
    ensures AnalyzeFrom(backups, cutoff, dateOf).totalMessages == GroupMessages(Chronological(w)[0], |w|)
  {
    GroupByOneKey(w, SessionKey, k);
    var groups := [(k, w)];
    assert groups[..0] == [];
    assert TallyGroups(groups, dateOf).totalMessages == GroupMessages(Chronological(w)[0], |w|);
  }

  /** With two backups `e` and `l` of one session, `e` the earlier and both in
      the window, the count is the one `e` determines: none when its
      `conversations` array is empty. */
  lemma EarlyWindowMessages(e: Backup, l: Backup, cutoff: int, dateOf: int -> string)
    requires SessionKey(e) == SessionKey(l)
    requires cutoff <= e.createdAt < l.createdAt
    requires Conversations(e) == Some([])
    ensures AnalyzeFrom([e, l], cutoff, dateOf).totalMessages == 0
  {
    var backups := [e, l];
    InWindowBoth(e, l, cutoff);
    var w := InWindow(backups, cutoff);
    EarlierFirst(e, l);
    assert Chronological(w)[0] == e;
    OneSessionMessages(backups, cutoff, dateOf, w, SessionKey(e));
  }

  lemma InWindowBoth(e: Backup, l: Backup, cutoff: int)
    requires e.createdAt >= cutoff && l.createdAt >= cutoff
    ensures InWindow([e, l], cutoff) == [e, l]
  {
    assert [e, l][..1] == [e];
  }

  lemma InWindowLater(e: Backup, l: Backup, cutoff: int)
    requires e.createdAt < cutoff <= l.createdAt
    ensures InWindow([e, l], cutoff) == [l]
  {
    assert [e, l][..1] == [e];
  }

  lemma EarlierFirst(e: Backup, l: Backup)
    requires e.createdAt < l.createdAt
    ensures Chronological([e, l])[0] == e
  {
    SortByHead([e, l], CreatedAt);
    assert CreatedAt(Chronological([e, l])[0]) <= CreatedAt(e);
  }

  /** With the cutoff between them, only `l` is in the window and its one
      exchange counts two messages. */
  lemma LateWindowMessages(e: Backup, l: Backup, cutoff: int, dateOf: int -> string)
    requires e.createdAt < cutoff <= l.createdAt
    requires Conversations(l).Some? && |Conversations(l).value| == 1
    ensures AnalyzeFrom([e, l], cutoff, dateOf).totalMessages == 2
  {
    var backups := [e, l];
    InWindowLater(e, l, cutoff);
    var w := InWindow(backups, cutoff);
    OneSessionMessages(backups, cutoff, dateOf, w, SessionKey(l));
    SortByHead(w, CreatedAt);
  }

  /** `totalMessages` is not monotone in the window. A session whose earliest
      backup has an empty `conversations` array counts 0 messages; raising the
      cutoff past that backup makes a later backup of the same session the
      earliest one, and its one exchange counts 2. */
  lemma TotalMessagesCanGrow(e: Backup, l: Backup, c1: int, c2: int, dateOf: int -> string)
    requires SessionKey(e) == SessionKey(l)
    requires c1 <= e.createdAt < c2 <= l.createdAt
    requires Conversations(e) == Some([])
    requires Conversations(l).Some? && |Conversations(l).value| == 1
    ensures AnalyzeFrom([e, l], c1, dateOf).totalMessages == 0
    ensures AnalyzeFrom([e, l], c2, dateOf).totalMessages == 2
  {
    EarlyWindowMessages(e, l, c1, dateOf);
    LateWindowMessages(e, l, c2, dateOf);
  }

  /** A backup of session "s" created at `createdAt` whose `conversations`
      array holds `turns`. */
  function SessionBackup(id: string, createdAt: int, turns: seq<Turn>): Backup {
    Backup(id, "user", None, None, None, createdAt,
           Some(ChatData(Some("s"), Some(turns), None)), None, None, None,
           Active, createdAt, createdAt)
  }

  /** Two such backups exist: an earlier one with an empty `conversations`
      array and a later one holding one exchange. */
  lemma GrowingExample()
    ensures var e := SessionBackup("a", 0, []);
      var l := SessionBackup("b", 10, [Turn(Some("s"), Some("hi"), Some("hello"), 10, None, None)]);
      && SessionKey(e) == SessionKey(l)
      && Conversations(e) == Some([])
      && Conversations(l).Some? && |Conversations(l).value| == 1
      && e.createdAt < l.createdAt
  {
  }
}
