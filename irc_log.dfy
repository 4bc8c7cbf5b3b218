/**
 * The per-channel transcript (IrcLog) and its records (IrcMessage), as classes
 * whose methods update their fields in place. Each method is tied to the value
 * functions of IrcRecords.
 */
module IrcLogs {
  import opened Wrappers
  import opened IrcRecords
  import opened IrcEntities

  /** Colors.INVALID_INDEX: the colour index of a record without an author. */
  const InvalidColorIndex: int := -1

  /** The arguments an IrcMessage is constructed from, other than its log. */
  datatype MessageArgs = MessageArgs(
    arrivedAt: int,
    user: Option<IrcUser>,
    text: string,
    myNick: Option<string>,
    isP2pChannel: bool,
    msgType: MessageType)

  /**
   * IrcMessageReplacer: its answer to each record, the message it creates when
   * nothing matches, and the replacement it creates for a matching record.
   */
  datatype Replacer = Replacer(
    matcher: Record -> MatchResult,
    newMessage: MessageArgs,
    replacement: Record -> MessageArgs)

  /** The events a log fires through its model. */
  datatype LogEvent = NewMessage(message: IrcMessage) | MessageReplaced(message: IrcMessage) | LogStateChanged

  /** The record an IrcMessage holds when built from `a` while the log's counters are (offset, line). */
  function RecordFor(a: MessageArgs, offset: int, line: int, userIndex: string -> int): (r: Record)
    ensures r.recordOffset == offset && r.lineIndex == line
    ensures r.nick.None? <==> a.user.None?
    ensures a.user.Some? ==> r.nick == Some(a.user.value.nick) && r.colorIndex == userIndex(a.user.value.nick)
    ensures a.user.None? ==> r.colorIndex == InvalidColorIndex
    ensures r.text == a.text && r.myNick == a.myNick && r.msgType == a.msgType
  {
    Record(offset, line, a.arrivedAt,
      if a.user.Some? then Some(a.user.value.nick) else None,
      a.text,
      if a.user.Some? then userIndex(a.user.value.nick) else InvalidColorIndex,
      a.myNick, a.isP2pChannel, a.msgType)
  }

  /** Contiguous records, and running counters that stand at their end. */
  ghost predicate Counted(f: RecordFormat, rs: seq<Record>, charLength: int, lineIndex: int)
  {
    && Contiguous(f, rs)
    && charLength == |Written(f.encode, rs)|
    && lineIndex == Lines(f, rs)
  }

  /** Appending a record at the counters keeps the counters at the end of the records. */
  lemma CountedAppend(f: RecordFormat, rs: seq<Record>, r: Record, charLength: int, lineIndex: int)
    requires Counted(f, rs, charLength, lineIndex)
    requires r.recordOffset == charLength && r.lineIndex == lineIndex
    ensures Counted(f, rs + [r], charLength + |f.encode(r)|, lineIndex + f.lineCount(r))
  {
    ContiguousAppend(f, rs, r);
  }

  /** Counted records whose document is ready for the next flush. */
  ghost predicate ReadyState(f: RecordFormat, s: FlushState, charLength: int, lineIndex: int)
  {
    Counted(f, s.records, charLength, lineIndex) && FlushReady(f, s)
  }

  /** Appending a record at the counters keeps the log ready for a flush. */
  lemma ReadyAppend(f: RecordFormat, s: FlushState, r: Record, charLength: int, lineIndex: int)
    requires ReadyState(f, s, charLength, lineIndex)
    requires r.recordOffset == charLength && r.lineIndex == lineIndex
    ensures ReadyState(f, FlushState(s.records + [r], s.document, s.lastSaved, s.firstUpdated),
                       charLength + |f.encode(r)|, lineIndex + f.lineCount(r))
  {
    CountedAppend(f, s.records, r, charLength, lineIndex);
    FlushReadyAppend(f, s, r);
  }

  /**
   * The steps of ensureAllSaved on the document text and the two markers:
   * nothing when everything is saved; the first flush starts from an empty
   * document; a dirty marker strictly before the last saved record cuts the
   * document at that record's offset; then every unsaved record is written.
   */
  method FlushSteps(encode: Record -> string, records: seq<Record>, document: string, lastSaved: int, firstUpdated: int)
    returns (ok: bool, doc: string, newLastSaved: int, newFirstUpdated: int)
    requires IndicesOk(FlushState(records, document, lastSaved, firstUpdated))
    ensures var out := FlushAsWritten(encode, FlushState(records, document, lastSaved, firstUpdated));
      ok == out.Saved? && out.state == FlushState(records, doc, newLastSaved, newFirstUpdated)
  {
    ghost var before := FlushState(records, document, lastSaved, firstUpdated);
    doc, newLastSaved, newFirstUpdated := document, lastSaved, firstUpdated;
    if newLastSaved == |records| - 1 && newFirstUpdated == NothingSaved {
      assert FlushAsWritten(encode, before) == Saved(before);
      return true, doc, newLastSaved, newFirstUpdated;
    }
    if newLastSaved == NothingSaved {
      doc := "";
    }
    var cut := newFirstUpdated != NothingSaved && newFirstUpdated < newLastSaved;
    if cut {
      newLastSaved := newFirstUpdated - 1;
      var startTruncate := records[newFirstUpdated].recordOffset;
      if !(0 <= startTruncate <= |doc|) {
        assert FlushAsWritten(encode, before) == BadLocation(FlushState(records, doc, newLastSaved, newFirstUpdated));
        return false, doc, newLastSaved, newFirstUpdated;
      }
      doc := doc[..startTruncate];
      newFirstUpdated := NothingSaved;
    }
    doc := WriteFrom(encode, records, doc, newLastSaved + 1);
    newLastSaved := |records| - 1;
    ok := true;
    assert FlushAsWritten(encode, before) == Saved(FlushState(records, doc, newLastSaved, newFirstUpdated));
  }

  /** The document after the records from `from` on are written to it, one at a time. */
  method WriteFrom(encode: Record -> string, records: seq<Record>, doc: string, from: nat) returns (written: string)
    requires from <= |records|
    ensures written == doc + Written(encode, records[from..])
  {
    written := doc;
    var i := from;
    while i < |records|
      invariant from <= i <= |records|
      invariant written == doc + Written(encode, records[from..i])
    {
      assert records[from..i + 1][..i - from] == records[from..i];
      written := written + encode(records[i]);
      i := i + 1;
    }
    assert records[from..] == records[from..i];
  }

  /** What getHottestMessage reads of each message: whether it is CHAT, and its level. */
  function CandidatesOf(ms: seq<IrcMessage>): (cs: seq<Candidate>)
    reads ms
    ensures |cs| == |ms|
    ensures forall i :: 0 <= i < |ms| ==> cs[i] == Candidate(ms[i].rec.msgType == Chat, ms[i].Level())
  {
    seq(|ms|, i reads ms requires 0 <= i < |ms| => Candidate(ms[i].rec.msgType == Chat, ms[i].Level()))
  }

  /** Each message's level is the one cs records for it. */
  ghost predicate LevelsAre(ms: seq<IrcMessage>, cs: seq<Candidate>)
    reads ms
  {
    |ms| == |cs| && forall j :: 0 <= j < |ms| ==> ms[j].Level() == cs[j].level
  }

  /** Is the record a CHAT message that I did not write? */
  predicate OthersChat(f: RecordFormat, r: Record)
  {
    r.msgType == Chat && !f.isFromMe(r)
  }

  /** k is the index of the last CHAT record from someone else, or -1 when there is none. */
  ghost predicate LastOthersChat(f: RecordFormat, rs: seq<Record>, k: int)
  {
    && -1 <= k < |rs|
    && (k >= 0 ==> OthersChat(f, rs[k]))
    && forall j :: k < j < |rs| ==> !OthersChat(f, rs[j])
  }

  /** appendMessage's update of lastChatMessageIndex keeps it the last chat from someone else. */
  lemma LastOthersChatAppend(f: RecordFormat, rs: seq<Record>, k: int, r: Record)
    requires LastOthersChat(f, rs, k)
    ensures LastOthersChat(f, rs + [r], if OthersChat(f, r) then |rs| else k)
  {
  }

  /** The copies fixOffsets() makes of the messages that follow a replaced one. */
  method FixOffsets(ms: seq<IrcMessage>, fixOffsets: Record -> Record) returns (fixedMessages: seq<IrcMessage>)
    ensures |fixedMessages| == |ms|
    ensures forall j :: 0 <= j < |ms| ==>
      && fresh(fixedMessages[j]) && fixedMessages[j].notificationLevel.None?
      && fixedMessages[j].log == ms[j].log && fixedMessages[j].rec == fixOffsets(ms[j].rec)
  {
    fixedMessages := [];
    for i := 0 to |ms|
      invariant |fixedMessages| == i
      invariant forall j :: 0 <= j < i ==>
        && fresh(fixedMessages[j]) && fixedMessages[j].notificationLevel.None?
        && fixedMessages[j].log == ms[j].log && fixedMessages[j].rec == fixOffsets(ms[j].rec)
    {
      var fixedMessage := new IrcMessage.Fixed(ms[i], fixOffsets(ms[i].rec));
      fixedMessages := fixedMessages + [fixedMessage];
    }
  }

  class IrcMessage {
    const log: IrcLog
    const user: Option<IrcUser>
    /** The PlainIrcMessage part: the record data. */
    const rec: Record
    /** The answer the model's notification level provider gives for this record. */
    const providedLevel: NotificationLevel
    /** The memoised notification level; None until first asked for. */
    var notificationLevel: Option<NotificationLevel>
    /** How many times the notification level provider has been asked about this message. */
    ghost var providerQueries: nat

    /** The level getNotificationLevel answers: the memoised one once set, the provider's before. */
    function Level(): NotificationLevel
      reads this
    {
      if notificationLevel.Some? then notificationLevel.value else providedLevel
    }

    /**
     * The full constructor: the record starts where the log currently ends, the
     * author nick and colour index come from the user, if any.
     */
    constructor (log: IrcLog, arrivedAt: int, user: Option<IrcUser>, text: string, myNick: Option<string>,
                 isP2pChannel: bool, msgType: MessageType)
      ensures this.log == log && this.user == user
      ensures rec == RecordFor(MessageArgs(arrivedAt, user, text, myNick, isP2pChannel, msgType),
                               log.charLength, log.lineIndex, log.channel.userIndex)
      ensures providedLevel == this.log.levelProvider(this.rec)
      ensures notificationLevel == None && providerQueries == 0
    {
      this.log := log;
      this.user := user;
      this.rec := RecordFor(MessageArgs(arrivedAt, user, text, myNick, isP2pChannel, msgType),
                            log.charLength, log.lineIndex, log.channel.userIndex);
      providedLevel := log.levelProvider(RecordFor(MessageArgs(arrivedAt, user, text, myNick, isP2pChannel, msgType),
                                                   log.charLength, log.lineIndex, log.channel.userIndex));
      notificationLevel := None;
      providerQueries := 0;
    }

    /** The short constructor: my nick is the nick the log's account has been accepted with. */
    constructor WithAcceptedNick(log: IrcLog, arrivedAt: int, user: Option<IrcUser>, text: string,
                                 isP2pChannel: bool, msgType: MessageType)
      ensures this.log == log && this.user == user
      ensures rec == RecordFor(MessageArgs(arrivedAt, user, text, log.channel.account.acceptedNick, isP2pChannel, msgType),
                               log.charLength, log.lineIndex, log.channel.userIndex)
      ensures providedLevel == this.log.levelProvider(this.rec)
      ensures notificationLevel == None && providerQueries == 0
    {
      this.log := log;
      this.user := user;
      this.rec := RecordFor(MessageArgs(arrivedAt, user, text, log.channel.account.acceptedNick, isP2pChannel, msgType),
                            log.charLength, log.lineIndex, log.channel.userIndex);
      providedLevel := log.levelProvider(RecordFor(MessageArgs(arrivedAt, user, text, log.channel.account.acceptedNick,
                                                               isP2pChannel, msgType),
                                                   log.charLength, log.lineIndex, log.channel.userIndex));
      notificationLevel := None;
      providerQueries := 0;
    }

    /** The message fixOffsets() makes of `original`: same log and user, the given record. */
    constructor Fixed(original: IrcMessage, rec: Record)
      ensures log == original.log && user == original.user && this.rec == rec
      ensures providedLevel == this.log.levelProvider(this.rec)
      ensures notificationLevel == None && providerQueries == 0
    {
      log := original.log;
      user := original.user;
      this.rec := rec;
      providedLevel := original.log.levelProvider(rec);
      notificationLevel := None;
      providerQueries := 0;
    }

    /**
     * getNotificationLevel: asks the provider on the first call only and answers
     * from the memo afterwards.
     */
    method GetNotificationLevel() returns (level: NotificationLevel)
      modifies this
      ensures level == old(Level()) && notificationLevel == Some(level)
      ensures old(notificationLevel).None? ==> level == providedLevel && providerQueries == old(providerQueries) + 1
      ensures old(notificationLevel).Some? ==> providerQueries == old(providerQueries)
    {
      if notificationLevel.None? {
        notificationLevel := Some(providedLevel);
        providerQueries := providerQueries + 1;
      }
      level := notificationLevel.value;
    }
  }

  class IrcLog {
    const channel: IrcChannel
    /** The model's notification level provider. */
    const levelProvider: Record -> NotificationLevel
    const format: RecordFormat
    var messages: seq<IrcMessage>
    var charLength: int
    var lineIndex: int
    var lastChatMessageIndex: int
    var lastReadIndex: int
    var lastSavedMessageIndex: int
    var firstUpdatedMessageIndex: int
    var notificationLevel: NotificationLevel
    /** The backing document the log is saved to. */
    var document: string
    /** The events fired so far, in order. */
    var events: seq<LogEvent>

    ghost predicate Valid()
      reads this
    {
      && -1 <= lastChatMessageIndex < |messages|
      && -1 <= lastReadIndex < |messages|
      && NothingSaved <= lastSavedMessageIndex < |messages|
      && (firstUpdatedMessageIndex == NothingSaved || 0 <= firstUpdatedMessageIndex < |messages|)
    }

    /** The records of the messages, in order. */
    function Records(): (rs: seq<Record>)
      reads this`messages
      ensures |rs| == |messages|
      ensures forall i :: 0 <= i < |messages| ==> rs[i] == messages[i].rec
    {
      var ms := messages;
      seq(|ms|, i requires 0 <= i < |ms| => ms[i].rec)
    }

    /** What getHottestMessage reads of each message. */
    function Candidates(): (cs: seq<Candidate>)
      reads this`messages, messages
      ensures |cs| == |messages|
      ensures forall i :: 0 <= i < |messages| ==>
        cs[i] == Candidate(messages[i].rec.msgType == Chat, messages[i].Level())
    {
      CandidatesOf(messages)
    }

    /** The part of the log a flush reads and writes. */
    function FlushView(): FlushState
      reads this`messages, this`document, this`lastSavedMessageIndex, this`firstUpdatedMessageIndex
    {
      FlushState(Records(), document, lastSavedMessageIndex, firstUpdatedMessageIndex)
    }

    /** The running counters agree with the records, and the records are contiguous. */
    ghost predicate Tracked()
      reads this`messages, this`charLength, this`lineIndex
    {
      Counted(format, Records(), charLength, lineIndex)
    }

    /**
     * The counters agree with the records, and the document agrees with the
     * saved records, so the next flush writes exactly the records.
     */
    ghost predicate Ready()
      reads this`messages, this`charLength, this`lineIndex, this`document,
            this`lastSavedMessageIndex, this`firstUpdatedMessageIndex
    {
      ReadyState(format, FlushView(), charLength, lineIndex)
    }

    /**
     * The log as IrcLog's constructor leaves it: `stored` is what the log reader
     * parses from a non-empty document; its messages are appended without events,
     * everything loaded counts as saved and read.
     */
    constructor Load(channel: IrcChannel, levelProvider: Record -> NotificationLevel, format: RecordFormat,
                     document: string, stored: seq<MessageArgs>)
      ensures this.channel == channel && this.levelProvider == levelProvider && this.format == format
      ensures Valid() && Tracked()
      ensures |messages| == if |document| > 0 then |stored| else 0
      ensures forall i :: 0 <= i < |messages| ==>
        messages[i].log == this && messages[i].rec.text == stored[i].text && messages[i].rec.msgType == stored[i].msgType
      ensures LastOthersChat(format, Records(), lastChatMessageIndex)
      ensures lastSavedMessageIndex == |messages| - 1 && lastReadIndex == |messages| - 1
      ensures firstUpdatedMessageIndex == NothingSaved && notificationLevel == NoNotification
      ensures this.document == document && events == []
    {
      this.channel := channel;
      this.levelProvider := levelProvider;
      this.format := format;
      messages := [];
      charLength := 0;
      lineIndex := 0;
      lastChatMessageIndex := -1;
      lastReadIndex := -1;
      lastSavedMessageIndex := NothingSaved;
      firstUpdatedMessageIndex := NothingSaved;
      notificationLevel := NoNotification;
      this.document := document;
      events := [];
      new;
      if |document| > 0 {
        AppendAllLoaded(stored);
      }
      lastSavedMessageIndex := |messages| - 1;
      AllRead();
    }

    /** Appends, without events, the messages the log reader parsed from the document, in order. */
    method AppendAllLoaded(stored: seq<MessageArgs>)
      requires Valid() && Tracked() && LastOthersChat(format, Records(), lastChatMessageIndex) && messages == []
      modifies this
      ensures Valid() && Tracked() && LastOthersChat(format, Records(), lastChatMessageIndex)
      ensures |messages| == |stored|
      ensures forall j :: 0 <= j < |stored| ==>
        messages[j].log == this && messages[j].rec.text == stored[j].text && messages[j].rec.msgType == stored[j].msgType
      ensures lastReadIndex == old(lastReadIndex) && lastSavedMessageIndex == old(lastSavedMessageIndex)
      ensures firstUpdatedMessageIndex == old(firstUpdatedMessageIndex) && notificationLevel == old(notificationLevel)
      ensures document == old(document) && events == old(events)
    {
      for i := 0 to |stored|
        invariant |messages| == i
        invariant Valid() && Tracked() && LastOthersChat(format, Records(), lastChatMessageIndex)
        invariant forall j :: 0 <= j < i ==>
          messages[j].log == this && messages[j].rec.text == stored[j].text && messages[j].rec.msgType == stored[j].msgType
        invariant lastReadIndex == old(lastReadIndex) && lastSavedMessageIndex == old(lastSavedMessageIndex)
        invariant firstUpdatedMessageIndex == old(firstUpdatedMessageIndex) && notificationLevel == old(notificationLevel)
        invariant document == old(document) && events == old(events)
      {
        AppendLoaded(stored[i]);
      }
    }

    /** Appends, without an event, a message the log reader parsed from the document. */
    method AppendLoaded(a: MessageArgs)
      requires Valid() && Tracked() && LastOthersChat(format, Records(), lastChatMessageIndex)
      modifies this
      ensures Valid() && Tracked() && LastOthersChat(format, Records(), lastChatMessageIndex)
      ensures |messages| == |old(messages)| + 1 && messages[..|old(messages)|] == old(messages)
      ensures messages[|old(messages)|].log == this
      ensures messages[|old(messages)|].rec.text == a.text && messages[|old(messages)|].rec.msgType == a.msgType
      ensures lastReadIndex == old(lastReadIndex) && lastSavedMessageIndex == old(lastSavedMessageIndex)
      ensures firstUpdatedMessageIndex == old(firstUpdatedMessageIndex) && notificationLevel == old(notificationLevel)
      ensures document == old(document) && events == old(events)
    {
      var m := new IrcMessage(this, a.arrivedAt, a.user, a.text, a.myNick, a.isP2pChannel, a.msgType);
      ghost var before := Records();
      LastOthersChatAppend(format, before, lastChatMessageIndex, m.rec);
      CountedAppend(format, before, m.rec, charLength, lineIndex);
      AppendMessage(m, false);
      assert Records() == before + [m.rec];
    }

    /**
     * appendMessage: the message goes last; the running counters advance by its
     * length and line count; it becomes the last chat message exactly when it is
     * a CHAT message from someone else.
     */
    method AppendMessage(message: IrcMessage, fireEvent: bool)
      requires Valid()
      modifies this
      ensures Valid()
      ensures messages == old(messages) + [message]
      ensures lastChatMessageIndex == if OthersChat(format, message.rec) then |messages| - 1 else old(lastChatMessageIndex)
      ensures charLength == old(charLength) + |format.encode(message.rec)|
      ensures lineIndex == old(lineIndex) + format.lineCount(message.rec)
      ensures events == old(events) + (if fireEvent then [NewMessage(message)] else [])
      ensures lastReadIndex == old(lastReadIndex) && notificationLevel == old(notificationLevel)
      ensures lastSavedMessageIndex == old(lastSavedMessageIndex)
      ensures firstUpdatedMessageIndex == old(firstUpdatedMessageIndex) && document == old(document)
      ensures old(Ready()) && message.rec.recordOffset == old(charLength) && message.rec.lineIndex == old(lineIndex) ==>
        Ready()
    {
      ghost var before := FlushView();
      ghost var wasReady := Ready() && message.rec.recordOffset == charLength && message.rec.lineIndex == lineIndex;
      ghost var oldChars, oldLines := charLength, lineIndex;
      AppendSteps(message, fireEvent);
      if wasReady {
        ReadyAppend(format, before, message.rec, oldChars, oldLines);
        assert FlushView() == FlushState(before.records + [message.rec], before.document, before.lastSaved, before.firstUpdated) by {
          assert Records() == before.records + [message.rec];
        }
      }
    }

    /** The field updates of appendMessage, in the order the source makes them. */
    method AppendSteps(message: IrcMessage, fireEvent: bool)
      requires Valid()
      modifies this
      ensures Valid()
      ensures messages == old(messages) + [message]
      ensures lastChatMessageIndex == if OthersChat(format, message.rec) then |messages| - 1 else old(lastChatMessageIndex)
      ensures charLength == old(charLength) + |format.encode(message.rec)|
      ensures lineIndex == old(lineIndex) + format.lineCount(message.rec)
      ensures events == old(events) + (if fireEvent then [NewMessage(message)] else [])
      ensures lastReadIndex == old(lastReadIndex) && notificationLevel == old(notificationLevel)
      ensures lastSavedMessageIndex == old(lastSavedMessageIndex)
      ensures firstUpdatedMessageIndex == old(firstUpdatedMessageIndex) && document == old(document)
    {
      messages := messages + [message];
      if message.rec.msgType == Chat && !format.isFromMe(message.rec) {
        lastChatMessageIndex := |messages| - 1;
      }
      charLength := charLength + |format.encode(message.rec)|;
      lineIndex := lineIndex + format.lineCount(message.rec);
      if fireEvent {
        events := events + [NewMessage(message)];
      }
    }

    /**
     * What replaceMessage(index, ...) does: the message at index is replaced by
     * one built while the counters stood at the replaced record's offset and line,
     * every later message by its fixed copy, and the dirty marker moves back to
     * index unless it already lies before it.
     */
    twostate predicate ReplacedAt(index: nat, replacer: Replacer, fixOffsets: Record -> Record, fireEvent: bool)
      reads this
    {
      && index < |old(messages)|
      && |messages| == |old(messages)|
      && messages[..index] == old(messages)[..index]
      && fresh(messages[index]) && messages[index].log == this
      && messages[index].rec == RecordFor(replacer.replacement(old(messages[index].rec)),
                                          old(messages[index].rec.recordOffset), old(messages[index].rec.lineIndex),
                                          old(channel.userIndex))
      && (forall j :: index < j < |messages| ==>
            fresh(messages[j]) && messages[j].log == old(messages[j].log) && messages[j].rec == fixOffsets(old(messages[j].rec)))
      && firstUpdatedMessageIndex == (if old(firstUpdatedMessageIndex) == NothingSaved || old(firstUpdatedMessageIndex) > index
                                      then index else old(firstUpdatedMessageIndex))
      && charLength == old(messages[index].rec.recordOffset)
      && lineIndex == old(messages[index].rec.lineIndex)
      && events == old(events) + (if fireEvent then [MessageReplaced(messages[index])] else [])
      && lastChatMessageIndex == old(lastChatMessageIndex) && lastReadIndex == old(lastReadIndex)
      && lastSavedMessageIndex == old(lastSavedMessageIndex)
      && notificationLevel == old(notificationLevel) && document == old(document)
    }

    /** replaceMessage: replaces the message at index and rebuilds every later one. */
    method ReplaceMessage(index: nat, replacedMessage: IrcMessage, replacer: Replacer,
                          fixOffsets: Record -> Record, fireEvent: bool)
      requires Valid() && index < |messages| && replacedMessage == messages[index]
      modifies this
      ensures Valid() && ReplacedAt(index, replacer, fixOffsets, fireEvent)
    {
      charLength := replacedMessage.rec.recordOffset;
      lineIndex := replacedMessage.rec.lineIndex;
      if firstUpdatedMessageIndex == NothingSaved || firstUpdatedMessageIndex > index {
        firstUpdatedMessageIndex := index;
      }
      var rebuilt := Rebuilt(index, replacer, fixOffsets);
      messages := rebuilt;
      if fireEvent {
        events := events + [MessageReplaced(rebuilt[index])];
      }
    }

    /**
     * The list replaceMessage leaves: the replacement for the message at index,
     * created while the counters stand where they are now, then a fixed copy of
     * every later message; the earlier ones are kept.
     */
    method Rebuilt(index: nat, replacer: Replacer, fixOffsets: Record -> Record) returns (rebuilt: seq<IrcMessage>)
      requires index < |messages|
      ensures |rebuilt| == |messages| && rebuilt[..index] == messages[..index]
      ensures fresh(rebuilt[index]) && rebuilt[index].log == this
      ensures rebuilt[index].rec == RecordFor(replacer.replacement(messages[index].rec), charLength, lineIndex,
                                              channel.userIndex)
      ensures forall j :: index < j < |messages| ==>
        fresh(rebuilt[j]) && rebuilt[j].log == messages[j].log && rebuilt[j].rec == fixOffsets(messages[j].rec)
    {
      var a := replacer.replacement(messages[index].rec);
      var replacement := new IrcMessage(this, a.arrivedAt, a.user, a.text, a.myNick, a.isP2pChannel, a.msgType);
      var fixedMessages := FixOffsets(messages[index + 1..], fixOffsets);
      rebuilt := messages[..index] + [replacement] + fixedMessages;
      assert rebuilt[..index] == messages[..index];
      assert forall j :: index < j < |messages| ==> rebuilt[j] == fixedMessages[j - index - 1];
    }

    /** The answer of the replacer's matcher to each record. */
    function Answers(replacer: Replacer): (answers: seq<MatchResult>)
      reads this`messages
      ensures |answers| == |messages|
      ensures forall i :: 0 <= i < |messages| ==> answers[i] == replacer.matcher(messages[i].rec)
    {
      var ms := messages;
      seq(|ms|, i requires 0 <= i < |ms| => replacer.matcher(ms[i].rec))
    }

    /**
     * replaceOrAppendMessage: scans from the newest message back; the newest
     * message answered MATCH, with only CONTINUE answers after it, is replaced;
     * a STOP, or running out of messages, appends one new message instead. The
     * matcher is shown the messages from the newest back to the decisive one, and
     * no older message.
     */
    method ReplaceOrAppendMessage(replacer: Replacer, fixOffsets: Record -> Record, fireEvent: bool)
      returns (ghost shown: seq<nat>)
      requires Valid()
      modifies this
      ensures Valid()
      ensures var d := LastDecisive(old(Answers(replacer)));
        var oldest := if d.Some? then d.value else 0;
        && shown == seq(|old(messages)| - oldest, k requires 0 <= k < |old(messages)| - oldest => |old(messages)| - 1 - k)
        && (d.Some? && old(Answers(replacer))[d.value] == Match ==> ReplacedAt(d.value, replacer, fixOffsets, fireEvent))
        && (!(d.Some? && old(Answers(replacer))[d.value] == Match) ==> AppendedNew(replacer, fireEvent))
    {
      var found, answer;
      found, answer, shown := ScanBack(replacer);
      if answer == Match {
        ReplaceMessage(found.value, messages[found.value], replacer, fixOffsets, fireEvent);
      } else {
        AppendNew(replacer, fireEvent);
      }
    }

    /**
     * What the append branch of replaceOrAppendMessage does: a message built
     * from the replacer's new message at the current counters is appended,
     * with every effect of appendMessage.
     */
    twostate predicate AppendedNew(replacer: Replacer, fireEvent: bool)
      reads this
    {
      var n := |old(messages)|;
      && |messages| == n + 1
      && messages[..n] == old(messages)
      && fresh(messages[n])
      && messages[n].log == this
      && messages[n].rec == RecordFor(replacer.newMessage, old(charLength), old(lineIndex), old(channel.userIndex))
      && charLength == old(charLength) + |format.encode(messages[n].rec)|
      && lineIndex == old(lineIndex) + format.lineCount(messages[n].rec)
      && events == old(events) + (if fireEvent then [NewMessage(messages[n])] else [])
      && lastChatMessageIndex == (if OthersChat(format, messages[n].rec) then n else old(lastChatMessageIndex))
      && lastReadIndex == old(lastReadIndex) && notificationLevel == old(notificationLevel)
      && document == old(document)
      && firstUpdatedMessageIndex == old(firstUpdatedMessageIndex)
      && lastSavedMessageIndex == old(lastSavedMessageIndex)
    }

    /** The append branch of replaceOrAppendMessage. */
    method AppendNew(replacer: Replacer, fireEvent: bool)
      requires Valid()
      modifies this
      ensures Valid()
      ensures AppendedNew(replacer, fireEvent)
    {
      var a := replacer.newMessage;
      var created := new IrcMessage(this, a.arrivedAt, a.user, a.text, a.myNick, a.isP2pChannel, a.msgType);
      AppendMessage(created, fireEvent);
    }

    /**
     * The backward scan of replaceOrAppendMessage: the matcher's answers are
     * asked for from the newest message back until one is MATCH or STOP.
     */
    method ScanBack(replacer: Replacer) returns (found: Option<nat>, answer: MatchResult, ghost shown: seq<nat>)
      ensures found == LastDecisive(Answers(replacer))
      ensures found.Some? ==> found.value < |messages| && answer == Answers(replacer)[found.value]
      ensures found.None? ==> answer == Continue
      ensures var n := |messages|; var oldest := if found.Some? then found.value else 0;
        shown == seq(n - oldest, k requires 0 <= k < n - oldest => n - 1 - k)
    {
      ghost var answers := Answers(replacer);
      var n := |messages|;
      shown := [];
      found := None;
      answer := Continue;
      var i := n;
      while i > 0
        invariant 0 <= i <= n
        invariant forall j :: i <= j < n ==> answers[j] == Continue
        invariant answer == Continue
        invariant shown == seq(n - i, k requires 0 <= k < n - i => n - 1 - k)
      {
        var index := i - 1;
        var m := messages[index];
        shown := shown + [index];
        answer := replacer.matcher(m.rec);
        if answer != Continue {
          assert LastDecisive(answers) == Some(index);
          found := Some(index);
          return;
        }
        i := i - 1;
      }
      assert LastDecisive(answers) == None;
    }

    /**
     * ensureAllSaved: the backing document and the saved/updated markers become
     * what FlushAsWritten makes of them; false stands for the
     * BadLocationException of a truncation outside the document, after which the
     * markers keep what was set before the failing call.
     */
    method EnsureAllSaved() returns (ok: bool)
      requires Valid()
      modifies this
      ensures Valid()
      ensures ok == FlushAsWritten(format.encode, old(FlushView())).Saved?
      ensures ok ==> lastSavedMessageIndex == |messages| - 1
      ensures FlushView() == FlushAsWritten(format.encode, old(FlushView())).state
      ensures messages == old(messages) && charLength == old(charLength) && lineIndex == old(lineIndex)
      ensures lastChatMessageIndex == old(lastChatMessageIndex) && lastReadIndex == old(lastReadIndex)
      ensures notificationLevel == old(notificationLevel) && events == old(events)
      ensures old(FlushReady(format, FlushView()))
              && (old(firstUpdatedMessageIndex) == NothingSaved || old(firstUpdatedMessageIndex) != old(lastSavedMessageIndex)) ==>
        && ok && lastSavedMessageIndex == |messages| - 1
        && (document == Written(format.encode, Records()) || (messages == [] && document == old(document)))
    {
      ghost var before := FlushView();
      if FlushReady(format, before) && (before.firstUpdated == NothingSaved || before.firstUpdated != before.lastSaved) {
        FlushAsWrittenRightUnlessLastSavedUpdated(format, before);
      }
      var doc, lastSaved, firstUpdated;
      ok, doc, lastSaved, firstUpdated :=
        FlushSteps(format.encode, Records(), document, lastSavedMessageIndex, firstUpdatedMessageIndex);
      document, lastSavedMessageIndex, firstUpdatedMessageIndex := doc, lastSaved, firstUpdated;
    }

    /**
     * getHottestMessage: the message HottestUnread picks among the unread ones,
     * or null; only the memoised levels of the messages change.
     */
    method GetHottestMessage() returns (r: IrcMessage?)
      requires Valid()
      modifies messages
      ensures LevelsAre(messages, old(Candidates()))
      ensures r == match HottestUnread(old(Candidates()), lastReadIndex, lastChatMessageIndex)
                   case None => null
                   case Some(k) => messages[k]
    {
      ghost var cs := Candidates();
      ghost var best: Option<nat> := None;
      var n := |messages|;
      r := null;
      if n > 0 && lastReadIndex < lastChatMessageIndex {
        var i := n;
        while i > 0
          invariant lastReadIndex < i <= n
          invariant LevelsAre(messages, cs)
          invariant best.None? <==> NoChatIn(cs, i - 1, n)
          invariant best.Some? ==> IsHottest(cs, i - 1, n, best.value) && Rank(cs[best.value].level) < Rank(NotificationLevel.MeNamed)
          invariant r == if best.Some? then messages[best.value] else null
        {
          var index := i - 1;
          if lastReadIndex >= index {
            break;
          }
          ScanStepKeepsHottest(cs, index, n, best);
          if messages[index].rec.msgType == Chat {
            var level, taken;
            r, level, taken := ConsiderMessage(index, r, cs, best);
            best := ScanStep(cs, index, best);
            if taken && level == NotificationLevel.MeNamed {
              MeNamedStaysHottest(cs, lastReadIndex, index - 1, n, index);
              HottestUnreadIs(cs, lastReadIndex, lastChatMessageIndex, index);
              return;
            }
          }
          i := i - 1;
        }
        assert i - 1 == lastReadIndex;
        if best.Some? {
          HottestUnreadIs(cs, lastReadIndex, lastChatMessageIndex, best.value);
        }
      }
    }

    /**
     * One step of getHottestMessage's scan at a CHAT message: it takes over from
     * the current answer r when r is null or its level is strictly higher than
     * r's; the levels are asked for through getNotificationLevel.
     */
    method ConsiderMessage(index: nat, r: IrcMessage?, ghost cs: seq<Candidate>, ghost best: Option<nat>)
      returns (next: IrcMessage?, level: NotificationLevel, taken: bool)
      requires index < |messages| && LevelsAre(messages, cs) && cs[index].isChat
      requires best.Some? ==> best.value < |messages|
      requires r == if best.Some? then messages[best.value] else null
      modifies messages
      ensures LevelsAre(messages, cs) && level == cs[index].level
      ensures ScanStep(cs, index, best).None? ==> next == null
      ensures ScanStep(cs, index, best).Some? ==> next == messages[ScanStep(cs, index, best).value]
      ensures taken <==> best.None? || Rank(cs[index].level) > Rank(cs[best.value].level)
      ensures taken ==> next == messages[index]
    {
      var m := messages[index];
      level := m.GetNotificationLevel();
      var replace := r == null;
      if !replace {
        var current := r.GetNotificationLevel();
        replace := Rank(level) > Rank(current);
      }
      taken := replace;
      next := if replace then m else r;
    }

    /** setNotificationLevel: LOG_STATE_CHANGED is fired only when the level changes. */
    method SetNotificationLevel(state: NotificationLevel)
      modifies this
      ensures notificationLevel == state
      ensures events == old(events) + (if old(notificationLevel) != state then [LogStateChanged] else [])
      ensures messages == old(messages) && charLength == old(charLength) && lineIndex == old(lineIndex)
      ensures lastChatMessageIndex == old(lastChatMessageIndex) && lastReadIndex == old(lastReadIndex)
      ensures lastSavedMessageIndex == old(lastSavedMessageIndex)
      ensures firstUpdatedMessageIndex == old(firstUpdatedMessageIndex) && document == old(document)
    {
      var oldState := notificationLevel;
      notificationLevel := state;
      if oldState != state {
        events := events + [LogStateChanged];
      }
    }

    /** updateNotificationLevel: the log takes the level of its hottest unread message, or none. */
    method UpdateNotificationLevel()
      requires Valid()
      modifies this, messages
      ensures Valid()
      ensures var h := HottestUnread(old(Candidates()), lastReadIndex, lastChatMessageIndex);
        notificationLevel == if h.None? then NoNotification else old(Candidates())[h.value].level
      ensures events == old(events) + (if old(notificationLevel) != notificationLevel then [LogStateChanged] else [])
      ensures messages == old(messages) && lastReadIndex == old(lastReadIndex)
      ensures lastChatMessageIndex == old(lastChatMessageIndex) && document == old(document)
      ensures charLength == old(charLength) && lineIndex == old(lineIndex)
      ensures lastSavedMessageIndex == old(lastSavedMessageIndex)
      ensures firstUpdatedMessageIndex == old(firstUpdatedMessageIndex)
    {
      var hottestMessage := GetHottestMessage();
      var newLevel := NoNotification;
      if hottestMessage != null {
        newLevel := hottestMessage.GetNotificationLevel();
      }
      SetNotificationLevel(newLevel);
    }

    /** allRead: every message counts as read and the level drops to none. */
    method AllRead()
      requires Valid()
      modifies this
      ensures Valid()
      ensures lastReadIndex == |messages| - 1 && notificationLevel == NoNotification
      ensures HottestUnread(Candidates(), lastReadIndex, lastChatMessageIndex).None?
      ensures events == old(events) + (if old(notificationLevel) != NoNotification then [LogStateChanged] else [])
      ensures messages == old(messages) && charLength == old(charLength) && lineIndex == old(lineIndex)
      ensures lastChatMessageIndex == old(lastChatMessageIndex)
      ensures lastSavedMessageIndex == old(lastSavedMessageIndex)
      ensures firstUpdatedMessageIndex == old(firstUpdatedMessageIndex) && document == old(document)
    {
      lastReadIndex := |messages| - 1;
      SetNotificationLevel(NoNotification);
    }
  }
}
