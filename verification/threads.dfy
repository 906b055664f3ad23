/** Conversation threads of the chat-backups screen
    (src/components/ChatBackupsManager.tsx): the device filter, per-backup
    grouping of turns by session, the chronological message list of a thread,
    its preview, the newest-first ordering, the text search and the device
    list. */
module Threads {
  import opened Wrappers
  import opened Seqs
  import opened Sorting
  import opened Grouping
  import opened Text
  import opened ChatTypes

  datatype Role = User | Assistant

  datatype Message = Message(role: Role, content: string, timestamp: int)

  datatype Thread = Thread(
    sessionId: string,
    messages: seq<Message>,
    model: string,
    startTime: int,
    preview: string)

  /** `conv.session_id || 'default'` */
  function TurnKey(t: Turn): string {
    OrElse(t.sessionId, "default")
  }

  function TurnTime(t: Turn): int { t.timestamp }

  // ---------------------------------------------------------------------------
  // Messages of a thread

  /** The number of messages a turn produces: one per non-empty field. */
  function FieldCount(t: Turn): int {
    (if Present(t.userInput) then 1 else 0) + (if Present(t.aiResponse) then 1 else 0)
  }

  /** The messages of one turn: the user input, then the AI response, each
      only when non-empty. */
  function TurnMessages(t: Turn): seq<Message> {
    (if Present(t.userInput) then [Message(User, t.userInput.value, t.timestamp)] else [])
    + (if Present(t.aiResponse) then [Message(Assistant, t.aiResponse.value, t.timestamp)] else [])
  }

  /** The messages of a list of turns, in turn order. */
  function Expand(turns: seq<Turn>): (r: seq<Message>)
    ensures |r| == SumBy(turns, FieldCount)
    ensures forall i :: 0 <= i < |r| ==> r[i].content != ""
    decreases |turns|
  {
    if |turns| == 0 then []
    else Expand(turns[..|turns| - 1]) + TurnMessages(turns[|turns| - 1])
  }

  ghost predicate NonDecreasing(ms: seq<Message>) {
    forall i, j :: 0 <= i < j < |ms| ==> ms[i].timestamp <= ms[j].timestamp
  }

  lemma {:induction false} ExpandBounded(turns: seq<Turn>, bound: int)
    requires forall i :: 0 <= i < |turns| ==> turns[i].timestamp <= bound
    ensures forall j :: 0 <= j < |Expand(turns)| ==> Expand(turns)[j].timestamp <= bound
    decreases |turns|
  {
    if |turns| > 0 {
      ExpandBounded(turns[..|turns| - 1], bound);
    }
  }

  /** Turns in timestamp order give messages in timestamp order. */
  lemma {:induction false} ExpandSorted(turns: seq<Turn>)
    requires SortedBy(turns, TurnTime)
    ensures NonDecreasing(Expand(turns))
    decreases |turns|
  {
    if |turns| > 0 {
      var init := turns[..|turns| - 1];
      var last := turns[|turns| - 1];
      ExpandSorted(init);
      assert forall i :: 0 <= i < |init| ==> init[i].timestamp <= last.timestamp by {
        forall i | 0 <= i < |init|
          ensures init[i].timestamp <= last.timestamp
        {
          assert TurnTime(turns[i]) <= TurnTime(turns[|turns| - 1]);
        }
      }
      ExpandBounded(init, last.timestamp);
    }
  }

  predicate HasUserInput(turns: seq<Turn>) {
    exists i :: 0 <= i < |turns| && Present(turns[i].userInput)
  }

  predicate HasUserMessage(ms: seq<Message>) {
    exists i :: 0 <= i < |ms| && ms[i].role == User
  }

  lemma HasUserMessageAppend(a: seq<Message>, b: seq<Message>)
    ensures HasUserMessage(a + b) <==> HasUserMessage(a) || HasUserMessage(b)
  {
    if HasUserMessage(a) {
      var i :| 0 <= i < |a| && a[i].role == User;
      assert (a + b)[i] == a[i];
    }
    if HasUserMessage(b) {
      var i :| 0 <= i < |b| && b[i].role == User;
      assert (a + b)[|a| + i] == b[i];
    }
    if HasUserMessage(a + b) {
      var i :| 0 <= i < |a + b| && (a + b)[i].role == User;
      if i >= |a| {
        assert b[i - |a|].role == User;
      }
    }
  }

  lemma HasUserInputSnoc(turns: seq<Turn>)
    requires |turns| > 0
    ensures HasUserInput(turns)
        <==> HasUserInput(turns[..|turns| - 1]) || Present(turns[|turns| - 1].userInput)
  {
    var init := turns[..|turns| - 1];
    if HasUserInput(init) {
      var i :| 0 <= i < |init| && Present(init[i].userInput);
      assert turns[i] == init[i];
    }
  }

  /** The messages contain a user message exactly when some turn has a
      non-empty user input. */
  lemma {:induction false} ExpandUser(turns: seq<Turn>)
    ensures HasUserMessage(Expand(turns)) <==> HasUserInput(turns)
    decreases |turns|
  {
    if |turns| > 0 {
      var init := turns[..|turns| - 1];
      var last := turns[|turns| - 1];
      ExpandUser(init);
      var tm := TurnMessages(last);
      HasUserMessageAppend(Expand(init), tm);
      if Present(last.userInput) {
        assert tm[0].role == User;
      }
      HasUserInputSnoc(turns);
    }
  }

  /** Expanding two lists of turns is expanding each, in order. */
  lemma {:induction false} ExpandAppend(a: seq<Turn>, b: seq<Turn>)
    ensures Expand(a + b) == Expand(a) + Expand(b)
    decreases |b|
  {
    if |b| == 0 {
      assert a + b == a;
    } else {
      var b' := b[..|b| - 1];
      var ab := a + b;
      assert ab[..|ab| - 1] == a + b';
      assert ab[|ab| - 1] == b[|b| - 1];
      ExpandAppend(a, b');
      assert Expand(ab) == Expand(a + b') + TurnMessages(b[|b| - 1]);
      assert Expand(b) == Expand(b') + TurnMessages(b[|b| - 1]);
    }
  }

  /** One turn gives its user input as a user message, then its AI response
      as an assistant message, each only when non-empty, both stamped with the
      turn's timestamp. With `ExpandAppend` this fixes every expansion. */
  lemma ExpandSingle(t: Turn)
    ensures Present(t.userInput) && Present(t.aiResponse) ==>
      Expand([t]) == [Message(User, t.userInput.value, t.timestamp), Message(Assistant, t.aiResponse.value, t.timestamp)]
    ensures Present(t.userInput) && !Present(t.aiResponse) ==>
      Expand([t]) == [Message(User, t.userInput.value, t.timestamp)]
    ensures !Present(t.userInput) && Present(t.aiResponse) ==>
      Expand([t]) == [Message(Assistant, t.aiResponse.value, t.timestamp)]
    ensures !Present(t.userInput) && !Present(t.aiResponse) ==> Expand([t]) == []
  {
    assert [t][..0] == [];
  }

  /** The contents of the messages with role `role`, in order. */
  function ContentsOf(ms: seq<Message>, role: Role): seq<string>
    decreases |ms|
  {
    if |ms| == 0 then []
    else
      ContentsOf(ms[..|ms| - 1], role)
      + (if ms[|ms| - 1].role == role then [ms[|ms| - 1].content] else [])
  }

  lemma {:induction false} ContentsOfAppend(a: seq<Message>, b: seq<Message>, role: Role)
    ensures ContentsOf(a + b, role) == ContentsOf(a, role) + ContentsOf(b, role)
    decreases |b|
  {
    if |b| == 0 {
      assert a + b == a;
    } else {
      var b' := b[..|b| - 1];
      assert (a + b)[..|a + b| - 1] == a + b';
      ContentsOfAppend(a, b', role);
    }
  }

  /** The non-empty user inputs of the turns, in turn order. */
  function Inputs(turns: seq<Turn>): seq<string>
    decreases |turns|
  {
    if |turns| == 0 then []
    else
      var t := turns[|turns| - 1];
      Inputs(turns[..|turns| - 1]) + (if Present(t.userInput) then [t.userInput.value] else [])
  }

  /** The non-empty AI responses of the turns, in turn order. */
  function Responses(turns: seq<Turn>): seq<string>
    decreases |turns|
  {
    if |turns| == 0 then []
    else
      var t := turns[|turns| - 1];
      Responses(turns[..|turns| - 1]) + (if Present(t.aiResponse) then [t.aiResponse.value] else [])
  }

  /** The user messages carry exactly the non-empty user inputs, and the
      assistant messages exactly the non-empty AI responses, each in turn
      order. */
  lemma {:induction false} ExpandContents(turns: seq<Turn>)
    ensures ContentsOf(Expand(turns), User) == Inputs(turns)
    ensures ContentsOf(Expand(turns), Assistant) == Responses(turns)
    decreases |turns|
  {
    if |turns| > 0 {
      var init := turns[..|turns| - 1];
      var t := turns[|turns| - 1];
      ExpandContents(init);
      var tm := TurnMessages(t);
      ContentsOfAppend(Expand(init), tm, User);
      ContentsOfAppend(Expand(init), tm, Assistant);
      TurnContents(t);
    }
  }

  lemma TurnContents(t: Turn)
    ensures ContentsOf(TurnMessages(t), User) == if Present(t.userInput) then [t.userInput.value] else []
    ensures ContentsOf(TurnMessages(t), Assistant) == if Present(t.aiResponse) then [t.aiResponse.value] else []
  {
    var u: seq<Message> := if Present(t.userInput) then [Message(User, t.userInput.value, t.timestamp)] else [];
    var r: seq<Message> := if Present(t.aiResponse) then [Message(Assistant, t.aiResponse.value, t.timestamp)] else [];
    assert TurnMessages(t) == u + r;
    ContentsOfAppend(u, r, User);
    ContentsOfAppend(u, r, Assistant);
    if |u| == 1 { ContentsOfSingle(u[0], User); ContentsOfSingle(u[0], Assistant); }
    if |r| == 1 { ContentsOfSingle(r[0], User); ContentsOfSingle(r[0], Assistant); }
  }

  lemma ContentsOfSingle(m: Message, role: Role)
    ensures ContentsOf([m], role) == if m.role == role then [m.content] else []
  {
    assert [m][..0] == [];
  }

  /** The position of the first turn with a non-empty user input. */
  function FirstInputTurn(turns: seq<Turn>): (r: Option<nat>)
    ensures r.Some? ==> r.value < |turns| && Present(turns[r.value].userInput)
    ensures r.Some? ==> forall j :: 0 <= j < r.value ==> !Present(turns[j].userInput)
    ensures r.None? <==> !HasUserInput(turns)
    decreases |turns|
  {
    if |turns| == 0 then None
    else
      var init := turns[..|turns| - 1];
      HasUserInputSnoc(turns);
      match FirstInputTurn(init)
      case Some(k) => assert turns[k] == init[k]; Some(k)
      case None =>
        assert forall j :: 0 <= j < |init| ==> turns[j] == init[j];
        if Present(turns[|turns| - 1].userInput) then Some(|turns| - 1) else None
  }

  // ---------------------------------------------------------------------------
  // Preview

  const PreviewLimit: nat := 60

  /** `messages.find(m => m.role === 'user')`, as a position. */
  function FindUser(ms: seq<Message>): (r: Option<nat>)
    ensures r.Some? ==> r.value < |ms| && ms[r.value].role == User
    ensures r.Some? ==> forall j :: 0 <= j < r.value ==> ms[j].role != User
    ensures r.None? <==> !HasUserMessage(ms)
    decreases |ms|
  {
    if |ms| == 0 then None
    else if ms[0].role == User then Some(0)
    else
      match FindUser(ms[1..])
      case Some(i) =>
        assert ms[1..][i] == ms[i + 1];
        Some(i + 1)
      case None =>
        assert forall i :: 1 <= i < |ms| ==> ms[i] == ms[1..][i - 1];
        None
  }

  /** A user message with none before it is the one `FindUser` finds. */
  lemma FindUserAt(ms: seq<Message>, i: nat)
    requires i < |ms| && ms[i].role == User
    requires forall j :: 0 <= j < i ==> ms[j].role != User
    ensures FindUser(ms) == Some(i)
  {
    assert HasUserMessage(ms);
  }

  /** The first user message of two lists is that of the first list, or else
      that of the second, shifted. */
  lemma FindUserAppend(a: seq<Message>, b: seq<Message>)
    ensures FindUser(a).Some? ==> FindUser(a + b) == FindUser(a)
    ensures FindUser(a).None? && FindUser(b).Some? ==> FindUser(a + b) == Some(|a| + FindUser(b).value)
    ensures FindUser(a).None? && FindUser(b).None? ==> FindUser(a + b).None?
  {
    HasUserMessageAppend(a, b);
    if FindUser(a).Some? {
      FindUserInFirst(a, b, FindUser(a).value);
    } else if FindUser(b).Some? {
      FindUserInSecond(a, b, FindUser(b).value);
    }
  }

  lemma FindUserInFirst(a: seq<Message>, b: seq<Message>, i: nat)
    requires FindUser(a) == Some(i)
    ensures FindUser(a + b) == Some(i)
  {
    var ab := a + b;
    assert forall j :: 0 <= j <= i ==> ab[j] == a[j];
    FindUserAt(ab, i);
  }

  lemma FindUserInSecond(a: seq<Message>, b: seq<Message>, i: nat)
    requires !HasUserMessage(a) && FindUser(b) == Some(i)
    ensures FindUser(a + b) == Some(|a| + i)
  {
    var ab := a + b;
    forall j | 0 <= j < |a| + i
      ensures ab[j].role != User
    {
      if j < |a| {
        assert ab[j] == a[j];
      } else {
        assert ab[j] == b[j - |a|];
      }
    }
    assert ab[|a| + i] == b[i];
    FindUserAt(ab, |a| + i);
  }

  /** The first user message carries the user input of the first turn that
      has one. */
  lemma {:induction false} ExpandFindUser(turns: seq<Turn>)
    ensures FindUser(Expand(turns)).Some? <==> FirstInputTurn(turns).Some?
    ensures FirstInputTurn(turns).Some? ==>
      Expand(turns)[FindUser(Expand(turns)).value].content == turns[FirstInputTurn(turns).value].userInput.value
    decreases |turns|
  {
    ExpandUser(turns);
    if |turns| > 0 {
      var init := turns[..|turns| - 1];
      var t := turns[|turns| - 1];
      ExpandFindUser(init);
      var tm := TurnMessages(t);
      FindUserAppend(Expand(init), tm);
      assert Expand(turns) == Expand(init) + tm;
      match FirstInputTurn(init)
      case Some(k) =>
        assert turns[k] == init[k];
      case None =>
        if Present(t.userInput) {
          assert FindUser(tm) == Some(0);
        } else {
          assert !HasUserMessage(tm);
        }
    }
  }

  /** The first user message's content (or "No messages"), cut to 60
      characters followed by "..." when longer. */
  function Preview(ms: seq<Message>): (p: string)
    ensures |p| <= PreviewLimit + 3
    ensures FindUser(ms).None? ==> p == "No messages"
    ensures FindUser(ms).Some? && ms[FindUser(ms).value].content != "" ==>
      var c := ms[FindUser(ms).value].content;
      && (|c| <= PreviewLimit ==> p == c)
      && (|c| > PreviewLimit ==> p == c[..PreviewLimit] + "...")
  {
    var first := match FindUser(ms)
      case Some(i) => OrElse(Some(ms[i].content), "No messages")
      case None => "No messages";
    if |first| > PreviewLimit then first[..PreviewLimit] + "..." else first
  }

  // ---------------------------------------------------------------------------
  // Threads

  /** The thread of one session of one backup: its turns sorted by timestamp
      and expanded into messages; model and start time come from the earliest
      turn. */
  function BuildThread(sessionId: string, turns: seq<Turn>): (t: Thread)
    requires |turns| > 0
    ensures t.sessionId == sessionId
    ensures |t.preview| <= PreviewLimit + 3
    ensures t.model != ""
  {
    var sorted := SortBy(turns, TurnTime);
    var messages := Expand(sorted);
    Thread(sessionId, messages, OrElse(sorted[0].model, "Unknown"), sorted[0].timestamp, Preview(messages))
  }

  /** A thread's start time is the least turn timestamp, and its model is that
      of the first turn (in input order) carrying it. */
  lemma ThreadStart(sessionId: string, turns: seq<Turn>)
    requires |turns| > 0
    ensures var t := BuildThread(sessionId, turns);
      && (exists i :: 0 <= i < |turns| && turns[i].timestamp == t.startTime)
      && (forall i :: 0 <= i < |turns| ==> t.startTime <= turns[i].timestamp)
      && |WithKey(turns, TurnTime, t.startTime)| > 0
      && t.model == OrElse(WithKey(turns, TurnTime, t.startTime)[0].model, "Unknown")
  {
    SortByHead(turns, TurnTime);
    var h := SortBy(turns, TurnTime)[0];
    var i :| 0 <= i < |turns| && turns[i] == h;
    forall j | 0 <= j < |turns|
      ensures h.timestamp <= turns[j].timestamp
    {
      assert turns[j] in turns;
    }
  }

  /** A thread's messages are in timestamp order, one per non-empty input or
      response of its turns. */
  lemma ThreadMessages(sessionId: string, turns: seq<Turn>)
    requires |turns| > 0
    ensures var t := BuildThread(sessionId, turns);
      && NonDecreasing(t.messages)
      && |t.messages| == SumBy(turns, FieldCount)
      && (forall i :: 0 <= i < |t.messages| ==> t.messages[i].content != "")
    // the texts are the turns' inputs and responses, earliest turn first
    ensures var t := BuildThread(sessionId, turns);
      && ContentsOf(t.messages, User) == Inputs(SortBy(turns, TurnTime))
      && ContentsOf(t.messages, Assistant) == Responses(SortBy(turns, TurnTime))
  {
    ExpandSorted(SortBy(turns, TurnTime));
    SortBySumBy(turns, TurnTime, FieldCount);
    ExpandContents(SortBy(turns, TurnTime));
  }

  /** Sorting the turns does not change whether one has a user input. */
  lemma SortedHasUser(turns: seq<Turn>)
    ensures HasUserInput(SortBy(turns, TurnTime)) <==> HasUserInput(turns)
  {
    var sorted := SortBy(turns, TurnTime);
    if HasUserInput(turns) {
      var i :| 0 <= i < |turns| && Present(turns[i].userInput);
      assert turns[i] in multiset(sorted);
      var j :| 0 <= j < |sorted| && sorted[j] == turns[i];
    }
    if HasUserInput(sorted) {
      var i :| 0 <= i < |sorted| && Present(sorted[i].userInput);
      assert sorted[i] in multiset(turns);
      var j :| 0 <= j < |turns| && turns[j] == sorted[i];
    }
  }

  /** The preview is "No messages" when no turn has a user input; otherwise it
      is the first user message's content, cut to 60 characters plus "..."
      when longer. */
  lemma ThreadPreview(sessionId: string, turns: seq<Turn>)
    requires |turns| > 0
    ensures var t := BuildThread(sessionId, turns);
      && (!HasUserInput(turns) ==> t.preview == "No messages")
      && (HasUserInput(turns) <==> FindUser(t.messages).Some?)
      && (FindUser(t.messages).Some? ==>
            var c := t.messages[FindUser(t.messages).value].content;
            && (|c| <= PreviewLimit ==> t.preview == c)
            && (|c| > PreviewLimit ==> t.preview == c[..PreviewLimit] + "..."))
    // that content is the user input of the earliest turn that has one
    ensures var t := BuildThread(sessionId, turns);
      var sorted := SortBy(turns, TurnTime);
      FirstInputTurn(sorted).Some? ==>
        var c := sorted[FirstInputTurn(sorted).value].userInput.value;
        && (|c| <= PreviewLimit ==> t.preview == c)
        && (|c| > PreviewLimit ==> t.preview == c[..PreviewLimit] + "...")
  {
    var sorted := SortBy(turns, TurnTime);
    var t := BuildThread(sessionId, turns);
    assert t.messages == Expand(sorted) && t.preview == Preview(t.messages);
    ExpandUser(sorted);
    SortedHasUser(turns);
    ExpandFindUser(sorted);
  }

  /** One thread per session group, in group order. */
  function ThreadsOf(groups: seq<(string, seq<Turn>)>): (r: seq<Thread>)
    requires forall i :: 0 <= i < |groups| ==> |groups[i].1| > 0
  {
    seq(|groups|, i requires 0 <= i < |groups| => BuildThread(groups[i].0, groups[i].1))
  }

  function MessageCount(t: Thread): int { |t.messages| }

  /** The session ids of a list of threads, in order. */
  function SessionIds(ts: seq<Thread>): (ids: seq<string>)
    ensures |ids| == |ts|
  {
    seq(|ts|, i requires 0 <= i < |ts| => ts[i].sessionId)
  }

  /** The threads of one backup: none without a `conversations` array,
      otherwise one per distinct session key of its turns. */
  function BackupThreads(b: Backup): seq<Thread> {
    match Conversations(b)
    case Some(turns) => ThreadsOf(GroupBy(turns, TurnKey))
    case None => []
  }

  /** A backup yields one thread per distinct session key of its turns, in
      first-appearance order, and each thread holds exactly the turns with its
      key. */
  lemma BackupThreadsShape(b: Backup, turns: seq<Turn>)
    requires Conversations(b) == Some(turns)
    ensures SessionIds(BackupThreads(b)) == Dedup(KeysOf(turns, TurnKey))
    ensures var r := BackupThreads(b);
      forall i :: 0 <= i < |r| ==>
        && |Members(turns, TurnKey, r[i].sessionId)| > 0
        && r[i] == BuildThread(r[i].sessionId, Members(turns, TurnKey, r[i].sessionId))
  {
    var g := GroupBy(turns, TurnKey);
    assert BackupThreads(b) == ThreadsOf(g);
    ThreadsOfShape(g);
  }

  /** Thread `i` is built from group `i` under its key. */
  lemma ThreadsOfShape(groups: seq<(string, seq<Turn>)>)
    requires forall i :: 0 <= i < |groups| ==> |groups[i].1| > 0
    ensures SessionIds(ThreadsOf(groups)) == Keys(groups)
    ensures forall i :: 0 <= i < |groups| ==>
      ThreadsOf(groups)[i] == BuildThread(groups[i].0, groups[i].1)
  {
  }

  lemma {:induction false} ThreadsOfMessages(groups: seq<(string, seq<Turn>)>)
    requires forall i :: 0 <= i < |groups| ==> |groups[i].1| > 0
    ensures SumBy(ThreadsOf(groups), MessageCount) == GroupSum(groups, FieldCount)
    decreases |groups|
  {
    if |groups| > 0 {
      var init := groups[..|groups| - 1];
      var last := groups[|groups| - 1];
      ThreadsOfMessages(init);
      assert ThreadsOf(groups)[..|groups| - 1] == ThreadsOf(init);
      ThreadMessages(last.0, last.1);
    }
  }

  /** No turn is lost or duplicated: a backup's threads hold one message per
      non-empty field of its turns. */
  lemma BackupThreadsMessages(b: Backup)
    ensures SumBy(BackupThreads(b), MessageCount)
         == match Conversations(b) case Some(turns) => SumBy(turns, FieldCount) case None => 0
  {
    if Conversations(b).Some? {
      var turns := Conversations(b).value;
      ThreadsOfMessages(GroupBy(turns, TurnKey));
      GroupBySum(turns, TurnKey, FieldCount);
    }
  }

  /** The threads of all backups, backup by backup; threads are never merged
      across backups. */
  function AllThreads(backups: seq<Backup>): (r: seq<Thread>)
    ensures |r| == SumBy(backups, (b: Backup) => |BackupThreads(b)|)
    decreases |backups|
  {
    if |backups| == 0 then []
    else AllThreads(backups[..|backups| - 1]) + BackupThreads(backups[|backups| - 1])
  }

  /** One backup contributes exactly its own threads. */
  lemma AllThreadsSingle(b: Backup)
    ensures AllThreads([b]) == BackupThreads(b)
  {
    assert [b][..0] == [];
  }

  /** Collecting over two batches of backups is collecting over each, in
      order: every backup's threads are present, once per backup. */
  lemma {:induction false} AllThreadsAppend(a: seq<Backup>, b: seq<Backup>)
    ensures AllThreads(a + b) == AllThreads(a) + AllThreads(b)
    decreases |b|
  {
    if |b| == 0 {
      assert a + b == a;
    } else {
      var b' := b[..|b| - 1];
      var x := b[|b| - 1];
      var ab := a + b;
      assert ab[..|ab| - 1] == a + b';
      assert ab[|ab| - 1] == x;
      AllThreadsAppend(a, b');
      AllThreadsSnoc(ab);
      AllThreadsSnoc(b);
      ConcatAssoc(AllThreads(a), AllThreads(b'), BackupThreads(x));
    }
  }

  lemma AllThreadsSnoc(bs: seq<Backup>)
    requires |bs| > 0
    ensures AllThreads(bs) == AllThreads(bs[..|bs| - 1]) + BackupThreads(bs[|bs| - 1])
  {
  }

  lemma {:induction false} AllThreadsFrom(backups: seq<Backup>, t: Thread)
    requires t in AllThreads(backups)
    ensures exists i :: 0 <= i < |backups| && t in BackupThreads(backups[i])
    decreases |backups|
  {
    var init := backups[..|backups| - 1];
    if t in AllThreads(init) {
      AllThreadsFrom(init, t);
      var i :| 0 <= i < |init| && t in BackupThreads(init[i]);
      assert backups[i] == init[i];
    } else {
      assert t in BackupThreads(backups[|backups| - 1]);
    }
  }

  /** `selectedDevice ? backups.filter(b => b.device_name === selectedDevice) : backups` */
  function ForDevice(backups: seq<Backup>, device: string): (r: seq<Backup>)
    ensures device == "" ==> r == backups
    ensures device != "" ==> forall b :: b in r <==> b in backups && b.deviceName == Some(device)
    ensures IsSubsequence(r, backups)
  {
    if device == "" then
      IsSubsequenceRefl(backups);
      backups
    else Filter(backups, (b: Backup) => b.deviceName == Some(device))
  }

  function NegStart(t: Thread): int { -t.startTime }

  function StartTime(t: Thread): int { t.startTime }

  /** `processConversationThreads`: all threads of the selected device's
      backups, newest start time first (stable among equal start times). */
  function Process(backups: seq<Backup>, device: string): (r: seq<Thread>)
    ensures multiset(r) == multiset(AllThreads(ForDevice(backups, device)))
    ensures forall i, j :: 0 <= i < j < |r| ==> r[i].startTime >= r[j].startTime
    // threads with equal start times keep their collection order
    ensures forall k :: WithKey(r, NegStart, k) == WithKey(AllThreads(ForDevice(backups, device)), NegStart, k)
  {
    var r := SortBy(AllThreads(ForDevice(backups, device)), NegStart);
    assert forall i, j :: 0 <= i < j < |r| ==> NegStart(r[i]) <= NegStart(r[j]);
    r
  }

  // ---------------------------------------------------------------------------
  // Search and devices

  /** The thread's preview or one of its messages contains the query, both
      lower-cased. */
  predicate Matches(t: Thread, query: string) {
    var q := Lower(query);
    Contains(Lower(t.preview), q)
    || exists i :: 0 <= i < |t.messages| && Contains(Lower(t.messages[i].content), q)
  }

  /** The search ignores ASCII case: a query matches exactly when its
      lower-cased form does. */
  lemma MatchesIgnoresCase(t: Thread, query: string)
    ensures Matches(t, query) <==> Matches(t, Lower(query))
  {
    LowerIdempotent(query);
  }

  /** The filter `handleSearch` applies to the displayed threads. */
  function Search(threads: seq<Thread>, query: string): (r: seq<Thread>)
    ensures forall t :: t in r <==> t in threads && Matches(t, query)
    ensures forall i :: 0 <= i < |r| ==> Matches(r[i], query)
    ensures forall t :: multiset(r)[t] == if Matches(t, query) then multiset(threads)[t] else 0
    ensures IsSubsequence(r, threads)
  {
    Filter(threads, (t: Thread) => Matches(t, query))
  }

  /** Searching again for the same query changes nothing. */
  lemma {:induction false} SearchIdempotent(threads: seq<Thread>, query: string)
    ensures Search(Search(threads, query), query) == Search(threads, query)
    decreases |threads|
  {
    if |threads| > 0 {
      var init := threads[..|threads| - 1];
      SearchIdempotent(init, query);
      var s := Search(init, query);
      if Matches(threads[|threads| - 1], query) {
        assert (s + [threads[|threads| - 1]])[..|s|] == s;
      }
    }
  }

  /** Filtering keeps the newest-first order. */
  lemma SearchKeepsOrder(threads: seq<Thread>, query: string)
    requires forall i, j :: 0 <= i < j < |threads| ==> threads[i].startTime >= threads[j].startTime
    ensures var r := Search(threads, query);
      forall i, j :: 0 <= i < j < |r| ==> r[i].startTime >= r[j].startTime
  {
    assert IsSubsequence(Search(threads, query), threads);
    if |threads| > 0 {
      SubsequenceKeepsDescending(Search(threads, query), threads, StartTime, StartTime(threads[|threads| - 1]));
    }
  }

  /** `handleSearch`: a blank query recomputes the threads from the backups;
      any other query filters the threads on display. */
  function HandleSearch(shown: seq<Thread>, backups: seq<Backup>, device: string, query: string): (r: seq<Thread>)
    ensures IsBlank(query) ==> r == Process(backups, device)
    ensures !IsBlank(query) ==> r == Search(shown, query)
  {
    if IsBlank(query) then Process(backups, device) else Search(shown, query)
  }

  /** `uniqueDevices`: each non-null device name once, in first-appearance
      order. The empty name is kept. */
  function UniqueDevices(backups: seq<Backup>): (r: seq<string>)
    ensures NoDup(r)
    ensures forall x :: x in r <==> exists i :: 0 <= i < |backups| && backups[i].deviceName == Some(x)
  {
    Dedup(DeviceNames(backups))
  }
}
