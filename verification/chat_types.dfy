/** Rows of the `chat_backups` table and the loosely structured JSON they carry.
    JSON fields that may be missing or null are `Option`s; timestamps are
    milliseconds since the epoch (the value `new Date(iso).getTime()` reads). */
module ChatTypes {
  import opened Wrappers

  datatype BackupStatus = Active | Archived | Deleted

  /** A JSON `metadata` object; only its `model` field is ever read. */
  datatype Metadata = Metadata(model: Option<string>)

  /** One exchange inside `chat_data.conversations`. */
  datatype Turn = Turn(
    sessionId: Option<string>,
    userInput: Option<string>,
    aiResponse: Option<string>,
    timestamp: int,
    model: Option<string>,
    metadata: Option<Metadata>)

  /** The `chat_data` payload of a backup. */
  datatype ChatData = ChatData(
    sessionId: Option<string>,
    conversations: Option<seq<Turn>>,
    model: Option<string>)

  /** One `chat_backups` row. */
  datatype Backup = Backup(
    id: string,
    userId: string,
    licenseKey: Option<string>,
    deviceName: Option<string>,
    macAddress: Option<string>,
    backupTimestamp: int,
    chatData: Option<ChatData>,
    metadata: Option<Metadata>,
    backupSize: Option<int>,
    conversationCount: Option<int>,
    status: BackupStatus,
    createdAt: int,
    updatedAt: int)

  /** `backup.chat_data?.conversations` */
  function Conversations(b: Backup): Option<seq<Turn>> {
    if b.chatData.Some? then b.chatData.value.conversations else None
  }

  /** `backup.chat_data?.session_id` */
  function ChatSessionId(b: Backup): Option<string> {
    if b.chatData.Some? then b.chatData.value.sessionId else None
  }

  /** `backup.chat_data?.model` */
  function ChatModel(b: Backup): Option<string> {
    if b.chatData.Some? then b.chatData.value.model else None
  }

  /** `backup.metadata?.model` */
  function MetadataModel(b: Backup): Option<string> {
    if b.metadata.Some? then b.metadata.value.model else None
  }

  /** `turn.metadata?.model` */
  function TurnMetadataModel(t: Turn): Option<string> {
    if t.metadata.Some? then t.metadata.value.model else None
  }

  /** The non-null device names of the backups, in order, with repeats. */
  function DeviceNames(backups: seq<Backup>): (r: seq<string>)
    ensures forall x :: x in r <==> exists i :: 0 <= i < |backups| && backups[i].deviceName == Some(x)
    decreases |backups|
  {
    if |backups| == 0 then []
    else
      var init := backups[..|backups| - 1];
      var last := backups[|backups| - 1];
      var r := DeviceNames(init) + (if last.deviceName.Some? then [last.deviceName.value] else []);
      assert forall i :: 0 <= i < |init| ==> init[i] == backups[i];
      r
  }
}
