/** The page-context script of the scheduler (src/wa-js.ts). It runs beside WhatsApp Web,
    sends queued chat messages through the WPPConnect automation API, and answers the
    extension's requests for the list of the user's groups.

    The automation API (contact lookup, the send primitives and their delivery
    acknowledgement, the authentication check), the attachment download and the clock are
    not modelled: they are parameters (oracles) of the operations that use them. The
    send queue and the message-hash store behind it are modelled only through the
    operations this script calls on them. */
module WaJs {
  import opened Js

  // ---------------------------------------------------------------------------
  // Messages and the calls handed to the send primitives
  // ---------------------------------------------------------------------------

  /** Where an attachment's bytes are fetched from, and the file metadata sent with them. */
  datatype Attachment = Attachment(url: string, name: string, mimeType: string, lastModified: int)

  /** An interactive reply button; it is passed through to WhatsApp untouched. */
  datatype Button = Button(id: string, text: string)

  /** A message as the extension submits it: destination, text, optional attachment,
      buttons (a missing list counts as empty) and an optional minimum delay. */
  datatype Message = Message(contact: string, text: string, attachment: Option<Attachment>,
                             buttons: seq<Button>, delay: Option<int>)

  type Blob = seq<bv8>

  /** The `File` built from the downloaded bytes and the attachment's metadata. */
  datatype File = File(bytes: Blob, name: string, mimeType: string, lastModified: int)

  datatype FileType = Image | AutoDetect

  /** The options object of a send call; a field that is not passed is `None`. */
  datatype SendOptions = SendOptions(fileType: Option<FileType>, caption: Option<string>,
                                     createChat: bool, waitForAck: bool,
                                     buttons: Option<seq<Button>>)

  /** One call of `WPP.chat.sendTextMessage` or `WPP.chat.sendFileMessage`. */
  datatype SendCall =
    | SendText(to: string, text: string, options: SendOptions)
    | SendFile(to: string, file: File, options: SendOptions)

  /** The four transmission modes. */
  datatype SendMode = TextOnly | TextWithButtons | FileWithCaption | FileWithCaptionAndButtons

  function ModeOf(call: SendCall): SendMode {
    match call
    case SendText(_, _, options) => if options.buttons.Some? then TextWithButtons else TextOnly
    case SendFile(_, _, options) =>
      if options.buttons.Some? then FileWithCaptionAndButtons else FileWithCaption
  }

  /** The file sent for an attachment: the bytes downloaded from its URL with its metadata. */
  function FileOf(a: Attachment, fetch: string -> Blob): File {
    File(fetch(a.url), a.name, a.mimeType, a.lastModified)
  }

  /** `sendWPPMessage`: picks exactly one of the four send primitives from the presence of
      an attachment and of buttons. Every mode creates the chat if needed and waits for the
      server's acknowledgement; buttons go out unchanged, and only when there are some. */
  function SendWppMessage(m: Message, fetch: string -> Blob): (call: SendCall)
    ensures call.to == m.contact
    ensures call.options.createChat && call.options.waitForAck
    ensures ModeOf(call) ==
      if m.attachment.Some? && |m.buttons| > 0 then FileWithCaptionAndButtons
      else if |m.buttons| > 0 then TextWithButtons
      else if m.attachment.Some? then FileWithCaption
      else TextOnly
    ensures call.options.buttons.Some? ==> call.options.buttons.value == m.buttons
    ensures call.SendText? ==>
      call.text == m.text && call.options.fileType.None? && call.options.caption.None?
    ensures call.SendFile? ==>
      && m.attachment.Some?
      && call.file == FileOf(m.attachment.value, fetch)
      && call.options.caption == Some(m.text)
      && call.options.fileType == Some(if |m.buttons| > 0 then Image else AutoDetect)
  {
    if m.attachment.Some? && |m.buttons| > 0 then
      SendFile(m.contact, FileOf(m.attachment.value, fetch),
               SendOptions(Some(Image), Some(m.text), true, true, Some(m.buttons)))
    else if |m.buttons| > 0 then
      SendText(m.contact, m.text, SendOptions(None, None, true, true, Some(m.buttons)))
    else if m.attachment.Some? then
      SendFile(m.contact, FileOf(m.attachment.value, fetch),
               SendOptions(Some(AutoDetect), Some(m.text), true, true, None))
    else
      SendText(m.contact, m.text, SendOptions(None, None, true, true, None))
  }

  // ---------------------------------------------------------------------------
  // Contact fallback for Brazilian mobile numbers
  // ---------------------------------------------------------------------------

  /** Brazil's country code; only numbers that start with it are rewritten. */
  const BrazilCode := "55"

  /** The number retried when a contact is not found: a 12-digit Brazilian number gets the
      mobile digit 9 inserted after the two-digit area code, a 13-digit one loses it, and
      every other number is retried as it is. */
  function FallbackNumber(contact: string): (r: string)
    ensures StartsWith(contact, BrazilCode) && |contact| == 12 ==>
      |r| == 13 && r[..4] == contact[..4] && r[4] == '9' && r[5..] == contact[4..]
    ensures StartsWith(contact, BrazilCode) && |contact| == 13 ==>
      |r| == 12 && r[..4] == contact[..4] && r[4..] == contact[5..]
    ensures !(StartsWith(contact, BrazilCode) && (|contact| == 12 || |contact| == 13)) ==>
      r == contact
  {
    if StartsWith(contact, BrazilCode) && |contact| == 12 then
      contact[..4] + "9" + contact[4..]
    else if StartsWith(contact, BrazilCode) && |contact| == 13 then
      contact[..4] + contact[5..]
    else
      contact
  }

  /** Inserting the mobile digit and then removing it gives back the 12-digit number. */
  lemma FallbackInsertThenRemove(contact: string)
    requires StartsWith(contact, BrazilCode) && |contact| == 12
    ensures StartsWith(FallbackNumber(contact), BrazilCode)
    ensures FallbackNumber(FallbackNumber(contact)) == contact
  {
    var longer := FallbackNumber(contact);
    assert longer[..2] == longer[..4][..2] == contact[..4][..2] == contact[..2];
    var back := FallbackNumber(longer);
    assert back == longer[..4] + longer[5..];
    assert back == contact[..4] + contact[4..];
  }

  /** Removing the mobile digit 9 and then inserting it gives back the 13-digit number. */
  lemma FallbackRemoveThenInsert(contact: string)
    requires StartsWith(contact, BrazilCode) && |contact| == 13 && contact[4] == '9'
    ensures StartsWith(FallbackNumber(contact), BrazilCode)
    ensures FallbackNumber(FallbackNumber(contact)) == contact
  {
    var shorter := FallbackNumber(contact);
    assert shorter[..2] == shorter[..4][..2] == contact[..4][..2] == contact[..2];
    var back := FallbackNumber(shorter);
    assert back == shorter[..4] + "9" + shorter[4..];
    assert back == contact[..4] + [contact[4]] + contact[5..];
    assert contact == contact[..4] + [contact[4]] + contact[5..];
  }

  // ---------------------------------------------------------------------------
  // Acknowledgement classification
  // ---------------------------------------------------------------------------

  /** `WPP.whatsapp.enums.SendMsgResult`: success, or one of the failure codes. */
  datatype SendMsgResult = OK | Failed(code: string)

  /** What a send's `sendMsgResult` promise resolves to: the result code itself, or a
      report object that may carry the code in its `messageSendResult` field. */
  datatype Ack = Code(result: SendMsgResult) | Report(messageSendResult: Option<SendMsgResult>)

  /** `value.messageSendResult ?? value`, kept only when it is a result code: a report
      without the field yields the report object, which equals no result code. */
  function AckResult(ack: Ack): (r: Option<SendMsgResult>)
    ensures r == Some(OK) <==> ack == Code(OK) || ack == Report(Some(OK))
    ensures ack.Report? && ack.messageSendResult.None? ==> r.None?
  {
    match ack
    case Code(result) => Some(result)
    case Report(field) => field
  }

  /** A send counts as delivered exactly when its acknowledgement is `SendMsgResult.OK`:
      the OK code itself, or a report whose `messageSendResult` is OK. */
  function Delivered(ack: Ack): (b: bool)
    ensures b <==> ack == Code(OK) || ack == Report(Some(OK))
  {
    AckResult(ack) == Some(OK)
  }

  // ---------------------------------------------------------------------------
  // sendMessage: one queued task
  // ---------------------------------------------------------------------------

  /** A log line posted back to the extension (ADD_LOG): 1 is an error, 3 a success. */
  datatype LogEntry = LogEntry(level: nat, text: string, attachment: bool, contact: string)

  const ErrorLevel := 1
  const SuccessLevel := 3
  const NotFoundText := "Número não encontrado!"
  const SentText := "Mensagem enviada com sucesso!"

  /** What the queue hands to `sendMessage`: the destination and the hash under which
      the message body was stored. */
  datatype QueueTask = QueueTask(contact: string, hash: int, delay: Option<int>)

  /** The ways `sendMessage` throws. */
  datatype SendError =
    | NotConnected      // "Conecte-se primeiro!"
    | StorageMiss(hash: int)
    | DeliveryFailed(ack: Ack)

  /** The contact the existence lookups settle on: the number as given if it exists,
      otherwise its fallback if that exists; each lookup answers with the account's user id. */
  function Resolve(queryExists: string -> Option<string>, contact: string): (r: Option<string>)
    ensures r.Some? <==> queryExists(contact).Some? || queryExists(FallbackNumber(contact)).Some?
    ensures queryExists(contact).Some? ==> r == queryExists(contact)
    ensures queryExists(contact).None? ==> r == queryExists(FallbackNumber(contact))
  {
    if queryExists(contact).Some? then queryExists(contact)
    else queryExists(FallbackNumber(contact))
  }

  /** The argument of `sendWPPMessage` AS WRITTEN, `{ contact, ...message }`: the spread
      comes last, so the stored message's own `contact` field replaces the resolved one. */
  function SendArgumentAsWritten(resolved: string, m: Message): (arg: Message)
    ensures arg.contact == m.contact
  {
    var literal := m.(contact := resolved);
    literal.(contact := m.contact)
  }

  /** The argument as intended: the stored message addressed to the resolved contact. */
  function SendArgument(resolved: string, m: Message): (arg: Message)
    ensures arg.contact == resolved
    ensures arg.(contact := m.contact) == m
  {
    m.(contact := resolved)
  }

  /** A 12-digit number that only exists with the mobile digit: the lookup resolves to the
      13-digit account, yet the message as written goes to the 12-digit number. */
  lemma SpreadOverridesResolvedContact(fetch: string -> Blob)
    ensures
      var queryExists := (c: string) => if c == "5511987654321" then Some(c) else None;
      var m := Message("551187654321", "Oi", None, [], None);
      var resolved := Resolve(queryExists, m.contact);
      && resolved == Some("5511987654321")
      && SendWppMessage(SendArgumentAsWritten(resolved.value, m), fetch).to == "551187654321"
      && SendWppMessage(SendArgument(resolved.value, m), fetch).to == resolved.value
  {
    var m := Message("551187654321", "Oi", None, [], None);
    assert StartsWith(m.contact, BrazilCode);
    assert FallbackNumber(m.contact) == "5511987654321";
  }

  /** `sendMessage`: refuses to run unless the session is connected, reads the message body
      back from the hash store, looks the contact up (retrying once with the fallback
      number), sends it in the mode its content calls for, and classifies the
      acknowledgement. It reports through ADD_LOG entries and by throwing. */
  method SendMessage(task: QueueTask, authenticated: bool, storage: map<int, Message>,
                     queryExists: string -> Option<string>, fetch: string -> Blob,
                     acknowledge: SendCall -> Option<Ack>)
    returns (queries: seq<string>, call: Option<SendCall>, logs: seq<LogEntry>,
             error: Option<SendError>)
    // Not connected: throws before reading the store or looking anything up.
    ensures !authenticated ==>
      error == Some(NotConnected) && queries == [] && call.None? && logs == []
    ensures authenticated && task.hash !in storage ==>
      error == Some(StorageMiss(task.hash)) && queries == [] && call.None? && logs == []
    // At most two lookups: the number as given, then its fallback.
    ensures authenticated && task.hash in storage ==>
      && 1 <= |queries| <= 2
      && queries[0] == task.contact
      && (|queries| == 2 <==> queryExists(task.contact).None?)
      && (|queries| == 2 ==> queries[1] == FallbackNumber(task.contact))
    // Neither lookup found the contact: one level-1 log, nothing sent, nothing thrown.
    ensures authenticated && task.hash in storage && Resolve(queryExists, task.contact).None? ==>
      && call.None? && error.None?
      && logs == [LogEntry(ErrorLevel, NotFoundText, storage[task.hash].attachment.Some?, task.contact)]
    // Something is sent exactly when the contact resolved, and it goes to the resolved contact.
    ensures call.Some? <==>
      authenticated && task.hash in storage && Resolve(queryExists, task.contact).Some?
    ensures call.Some? ==>
      var resolved := Resolve(queryExists, task.contact).value;
      var m := storage[task.hash];
      && call.value == SendWppMessage(SendArgument(resolved, m), fetch)
      && call.value.to == resolved
      && (acknowledge(call.value).None? ==> logs == [] && error.None?)
      && (acknowledge(call.value).Some? && Delivered(acknowledge(call.value).value) ==>
            logs == [LogEntry(SuccessLevel, SentText, m.attachment.Some?, resolved)] && error.None?)
      && (acknowledge(call.value).Some? && !Delivered(acknowledge(call.value).value) ==>
            logs == [] && error == Some(DeliveryFailed(acknowledge(call.value).value)))
  {
    queries, call, logs, error := [], None, [], None;
    if !authenticated {
      error := Some(NotConnected);
      return;
    }
    if task.hash !in storage {
      error := Some(StorageMiss(task.hash));
      return;
    }
    var message := storage[task.hash];
    var contact := task.contact;

    var findContact := queryExists(contact);
    queries := queries + [contact];
    if findContact.None? {
      var truncatedNumber := contact;
      if StartsWith(truncatedNumber, BrazilCode) && |truncatedNumber| == 12 {
        truncatedNumber := truncatedNumber[..4] + "9" + truncatedNumber[4..];
      } else if StartsWith(truncatedNumber, BrazilCode) && |truncatedNumber| == 13 {
        truncatedNumber := truncatedNumber[..4] + truncatedNumber[5..];
      }
      findContact := queryExists(truncatedNumber);
      queries := queries + [truncatedNumber];
      if findContact.None? {
        logs := [LogEntry(ErrorLevel, NotFoundText, message.attachment.Some?, contact)];
        return;
      }
    }

    contact := findContact.value;

    var sent := SendWppMessage(SendArgument(contact, message), fetch);
    call := Some(sent);
    var ack := acknowledge(sent);
    if ack.Some? {
      if !Delivered(ack.value) {
        error := Some(DeliveryFailed(ack.value));
      } else {
        logs := [LogEntry(SuccessLevel, SentText, message.attachment.Some?, contact)];
      }
    }
  }

  // ---------------------------------------------------------------------------
  // addToQueue and the page's singletons
  // ---------------------------------------------------------------------------

  /** A thrown value: an `Error` object with its message, or anything else. */
  datatype Thrown = ErrorObject(message: string) | OtherValue

  /** The state this script shares between handlers: the message-hash store, the tasks
      handed to the send queue (in the order they were added), and the ADD_LOG lines
      posted to the extension. */
  class PageContext {
    var storage: map<int, Message>
    var queue: seq<QueueTask>
    var logs: seq<LogEntry>

    /** Every queued task's hash resolves in the store. */
    ghost predicate Valid()
      reads this
    {
      forall t :: t in queue ==> t.hash in storage
    }

    /** The script's start: the hash store is cleared (`storageManager.clearDatabase()`). */
    constructor ()
      ensures Valid()
      ensures storage == map[] && queue == [] && logs == []
    {
      storage, queue, logs := map[], [], [];
    }

    /** `addToQueue`: stores the message under its content hash, then enqueues a task that
        refers to it by that hash. A failure of either step is logged at level 1 (when the
        thrown value is an `Error`) and rethrown; a failed store enqueues nothing. */
    method AddToQueue(message: Message, hashOf: Message -> int,
                      storeFault: Option<Thrown>, enqueueFault: Option<Thrown>)
      returns (r: Result<bool, Thrown>)
      requires Valid()
      modifies this
      ensures Valid()
      ensures storeFault.None? ==> storage == old(storage)[hashOf(message) := message]
      ensures storeFault.Some? ==> storage == old(storage)
      ensures r.Success? <==> storeFault.None? && enqueueFault.None?
      ensures r.Success? ==>
        && r.value
        && queue == old(queue) + [QueueTask(message.contact, hashOf(message), message.delay)]
        && logs == old(logs)
      ensures r.Failure? ==>
        && queue == old(queue)
        && r.error == (if storeFault.Some? then storeFault.value else enqueueFault.value)
        && logs == old(logs) + FailureLog(r.error, message)
    {
      var messageHash := hashOf(message);
      if storeFault.Some? {
        logs := logs + FailureLog(storeFault.value, message);
        return Failure(storeFault.value);
      }
      storage := storage[messageHash := message];
      if enqueueFault.Some? {
        logs := logs + FailureLog(enqueueFault.value, message);
        return Failure(enqueueFault.value);
      }
      queue := queue + [QueueTask(message.contact, messageHash, message.delay)];
      return Success(true);
    }

    /** The queue hands its head task to `sendMessage`; the logs it emits are posted. Since
        every queued hash resolves, the task never fails for a missing message body. */
    method RunNext(authenticated: bool, queryExists: string -> Option<string>,
                   fetch: string -> Blob, acknowledge: SendCall -> Option<Ack>)
      returns (call: Option<SendCall>, error: Option<SendError>)
      requires Valid() && queue != []
      modifies this
      ensures Valid()
      ensures storage == old(storage) && queue == old(queue)[1..]
      ensures error.None? || !error.value.StorageMiss?
      // What the head task leads to: nothing without a session, the "not found" log when
      // neither number exists, otherwise its message sent to the resolved contact.
      ensures var task := old(queue)[0];
        var resolved := Resolve(queryExists, task.contact);
        && (call.Some? <==> authenticated && resolved.Some?)
        && (!authenticated ==> error == Some(NotConnected) && logs == old(logs))
        && (authenticated && resolved.None? ==>
              && error.None?
              && logs == old(logs) + [LogEntry(ErrorLevel, NotFoundText,
                                               old(storage)[task.hash].attachment.Some?, task.contact)])
      ensures call.Some? ==>
        var task := old(queue)[0];
        var resolved := Resolve(queryExists, task.contact).value;
        var m := old(storage)[task.hash];
        var ack := acknowledge(call.value);
        && call.value == SendWppMessage(SendArgument(resolved, m), fetch)
        && logs == old(logs) + (if ack.Some? && Delivered(ack.value)
                                then [LogEntry(SuccessLevel, SentText, m.attachment.Some?, resolved)]
                                else [])
        && error == (if ack.Some? && !Delivered(ack.value) then Some(DeliveryFailed(ack.value)) else None)
    {
      var task := queue[0];
      queue := queue[1..];
      var queries, emitted;
      queries, call, emitted, error := SendMessage(task, authenticated, storage, queryExists,
                                                   fetch, acknowledge);
      logs := logs + emitted;
    }
  }

  /** The level-1 log `addToQueue` posts for a thrown `Error`; other thrown values are not logged. */
  function FailureLog(e: Thrown, message: Message): (entries: seq<LogEntry>)
    ensures |entries| <= 1
    ensures entries != [] <==> e.ErrorObject?
    ensures entries != [] ==>
      entries[0] == LogEntry(ErrorLevel, e.message, message.attachment.Some?, message.contact)
  {
    match e
    case ErrorObject(text) => [LogEntry(ErrorLevel, text, message.attachment.Some?, message.contact)]
    case OtherValue => []
  }

  // ---------------------------------------------------------------------------
  // The group list (GET_GROUPS_REQUEST)
  // ---------------------------------------------------------------------------

  /** The shapes a chat's `id` comes in: missing, a plain string, or a WID object with an
      optional `_serialized` form and its `toString()` text. */
  datatype ChatId = NoId | TextId(text: string) | WidId(serialized: Option<string>, asText: string)

  /** The fields of a chat from `WPP.chat.list()` that the group filter looks at. */
  datatype Chat = Chat(isGroup: Option<bool>, isGroupChat: Option<bool>, id: ChatId,
                       name: Option<string>, formattedTitle: Option<string>,
                       subject: Option<string>, pushname: Option<string>)

  /** A group as the extension sees it. */
  datatype Group = Group(id: string, name: string)

  /** Group ids are WhatsApp ids on the `g.us` server. */
  const GroupServer := "@g.us"
  const UnnamedGroup := "Unnamed Group"

  /** The chat's id is read as itself: it is not a WID whose `_serialized` form is missing
      or empty (such an id is listed by its `toString()` text instead). */
  predicate IdReadDirectly(id: ChatId) {
    !(id.WidId? && (id.serialized.None? || id.serialized.value == ""))
  }

  /** A chat is taken for a group when one of its group flags is `true`, or its id (the
      string itself or the WID's `_serialized` form) names the group server. When the id is
      read directly, the filter agrees with the id the group is listed under; a WID without
      `_serialized` is taken only on its flags, whatever its `toString()` says. */
  function IsGroupChat(chat: Chat): (b: bool)
    ensures chat.isGroup == Some(true) || chat.isGroupChat == Some(true) ==> b
    ensures IdReadDirectly(chat.id) ==>
      (b <==> chat.isGroup == Some(true) || chat.isGroupChat == Some(true)
              || Includes(GroupIdOf(chat.id), GroupServer))
    ensures !IdReadDirectly(chat.id) ==>
      (b <==> chat.isGroup == Some(true) || chat.isGroupChat == Some(true))
  {
    || chat.isGroup == Some(true)
    || chat.isGroupChat == Some(true)
    || match chat.id
       case NoId => false
       case TextId(text) => text != "" && Includes(text, GroupServer)
       case WidId(serialized, _) =>
         serialized.Some? && serialized.value != "" && Includes(serialized.value, GroupServer)
  }

  /** `id?._serialized || (string id or id?.toString()) || ''`: a non-empty `_serialized`
      wins, then the id string or the WID's text; a missing id gives the empty string. */
  function GroupIdOf(id: ChatId): (r: string)
    ensures id.NoId? ==> r == ""
    ensures id.TextId? ==> r == id.text
    ensures id.WidId? && IdReadDirectly(id) ==> r == id.serialized.value
    ensures id.WidId? && !IdReadDirectly(id) ==> r == id.asText
  {
    match id
    case NoId => ""
    case TextId(text) => text
    case WidId(serialized, asText) => OrElse(serialized, asText)
  }

  /** The group name: the first non-empty of name, formattedTitle, subject and pushname,
      else "Unnamed Group". It is never empty, and a chat's own name wins. */
  function GroupNameOf(chat: Chat): (name: string)
    ensures name != ""
    ensures chat.name.Some? && chat.name.value != "" ==> name == chat.name.value
    ensures OrElse(chat.name, "") == "" && OrElse(chat.formattedTitle, "") != "" ==>
      name == chat.formattedTitle.value
    ensures (OrElse(chat.name, "") == "" && OrElse(chat.formattedTitle, "") == ""
             && OrElse(chat.subject, "") != "") ==> name == chat.subject.value
    ensures (OrElse(chat.name, "") == "" && OrElse(chat.formattedTitle, "") == ""
             && OrElse(chat.subject, "") == "" && OrElse(chat.pushname, "") != "") ==>
      name == chat.pushname.value
    ensures name == UnnamedGroup
         || Some(name) in [chat.name, chat.formattedTitle, chat.subject, chat.pushname]
    ensures (forall o :: o in [chat.name, chat.formattedTitle, chat.subject, chat.pushname] ==>
               o.None? || o.value == "") ==> name == UnnamedGroup
  {
    OrElse(chat.name, OrElse(chat.formattedTitle, OrElse(chat.subject,
      OrElse(chat.pushname, UnnamedGroup))))
  }

  function ToGroup(chat: Chat): Group {
    Group(GroupIdOf(chat.id), GroupNameOf(chat))
  }

  predicate HasGroupId(g: Group) {
    g.id != "" && Includes(g.id, GroupServer)
  }

  /** The groups found in the chat list: group chats, reduced to id and name, keeping only
      those whose id names the group server. */
  function ListedGroups(chats: seq<Chat>): (groups: seq<Group>)
    ensures |groups| <= |chats|
    ensures forall g :: g in groups ==> Includes(g.id, GroupServer) && g.name != ""
    ensures forall g :: g in groups <==>
      exists c :: c in chats && IsGroupChat(c) && ToGroup(c) == g && HasGroupId(g)
  {
    var groupChats := Filter(IsGroupChat, chats);
    var mapped := seq(|groupChats|, i requires 0 <= i < |groupChats| => ToGroup(groupChats[i]));
    assert forall g :: g in mapped <==> exists c :: c in groupChats && ToGroup(c) == g by {
      forall g | g in mapped
        ensures exists c :: c in groupChats && ToGroup(c) == g
      {
        var i :| 0 <= i < |mapped| && mapped[i] == g;
        assert groupChats[i] in groupChats;
      }
      forall c | c in groupChats
        ensures ToGroup(c) in mapped
      {
        var i :| 0 <= i < |groupChats| && groupChats[i] == c;
        assert mapped[i] == ToGroup(c);
      }
    }
    Filter(HasGroupId, mapped)
  }

  /** The groups the handler answers with: those from the chat list (none when the call
      threw), and only when there are none the ones scraped from the page. */
  function CollectGroups(chats: Option<seq<Chat>>, domGroups: seq<Group>): (groups: seq<Group>)
    ensures chats.Some? && ListedGroups(chats.value) != [] ==> groups == ListedGroups(chats.value)
    ensures chats.None? || ListedGroups(chats.value) == [] ==> groups == domGroups
    ensures groups != domGroups ==> forall g :: g in groups ==> Includes(g.id, GroupServer)
    ensures groups == [] <==> domGroups == [] && (chats.None? || ListedGroups(chats.value) == [])
  {
    var listed := if chats.Some? then ListedGroups(chats.value) else [];
    if listed == [] && domGroups != [] then domGroups else listed
  }

  /** A message posted on the page's window; `fromThisWindow` is `event.source === window`. */
  datatype WindowMessage = WindowMessage(fromThisWindow: bool, kind: string, id: string,
                                         groups: Option<seq<Group>>, error: Option<string>)

  const GroupsRequestKind := "GET_GROUPS_REQUEST"
  const GroupsResponseKind := "GET_GROUPS_RESPONSE"
  const NotLoadedText := "WPPConnect is not loaded. Please refresh the page."
  const NotLoggedInText := "Please log in to WhatsApp Web first"

  const ReadyTimeoutText := "WPP ready timeout - WhatsApp Web may not be fully loaded"
  const NotInjectedText := "WPP not found - WPPConnect may not be properly initialized"

  /** How waiting for WPP readiness ended: it was ready, it became ready in time, or one of
      the two 15-second timers fired first. The "ready timeout" timer is set first, so it
      fires when WPP's loader is there but never signals, and also when the loader never
      appears. The "not found" timer is never cleared, so it fires when the loader appeared
      during the wait (which clears the first timer) but did not become ready in time. */
  datatype Readiness = AlreadyReady | BecameReady | ReadyTimeout | NotInjected
  {
    predicate WaitFailed() { this == ReadyTimeout || this == NotInjected }

    function Message(): string
      requires WaitFailed()
    {
      if this == ReadyTimeout then ReadyTimeoutText else NotInjectedText
    }
  }

  /** What the page offers when a request arrives. */
  datatype PageApi = PageApi(loaded: bool, readiness: Readiness, hasConn: bool,
                             authenticated: bool, chats: Option<seq<Chat>>, domGroups: seq<Group>)

  /** The reply to a window message: only group requests from this window are answered,
      always with a response carrying the request's id; an unloaded API, a failed wait for
      readiness and a logged-out session answer with an error and no groups. */
  function AnswerGroupsRequest(ev: WindowMessage, api: PageApi): (reply: Option<WindowMessage>)
    ensures reply.Some? <==> ev.fromThisWindow && ev.kind == GroupsRequestKind
    ensures reply.Some? ==>
      && reply.value.fromThisWindow && reply.value.kind == GroupsResponseKind
      && reply.value.id == ev.id && reply.value.groups.Some?
    ensures reply.Some? && reply.value.error.Some? ==>
      reply.value.groups == Some([]) && reply.value.error.value != ""
    ensures reply.Some? ==>
      (reply.value.error.None? <==>
         api.loaded && !api.readiness.WaitFailed() && !(api.hasConn && !api.authenticated))
    ensures reply.Some? && reply.value.error.None? ==>
      reply.value.groups == Some(CollectGroups(api.chats, api.domGroups))
  {
    if !(ev.fromThisWindow && ev.kind == GroupsRequestKind) then None
    else
      var respond := (groups: seq<Group>, error: Option<string>) =>
        Some(WindowMessage(true, GroupsResponseKind, ev.id, Some(groups), error));
      if !api.loaded then respond([], Some(NotLoadedText))
      else if api.readiness.WaitFailed() then respond([], Some(api.readiness.Message()))
      else if api.hasConn && !api.authenticated then respond([], Some(NotLoggedInText))
      else respond(CollectGroups(api.chats, api.domGroups), None)
  }
}
