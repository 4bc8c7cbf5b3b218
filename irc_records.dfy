/**
 * The value side of a channel log: transcript records, the text they are written
 * as, the flush of unsaved records to the backing document, the backward scan of
 * replaceOrAppendMessage and the choice of the hottest unread message. The
 * classes in IrcLogs are proved against the functions here.
 */
module IrcRecords {
  import opened Wrappers

  /** IrcLog.NOTHING_SAVED */
  const NothingSaved: int := -1

  /** PlainIrcMessage.IrcMessageType */
  datatype MessageType = Chat | System | Error

  /**
   * IrcNotificationLevel, ordered by Rank. MeNamed is the highest level;
   * UnreadMessages stands for every level between the lowest and the highest.
   */
  datatype NotificationLevel = NoNotification | UnreadMessages | MeNamed

  /** IrcNotificationLevel.getLevel */
  function Rank(l: NotificationLevel): nat {
    match l
    case NoNotification => 0
    case UnreadMessages => 1
    case MeNamed => 2
  }

  /** The answer of an IrcMessageReplacer to one record. */
  datatype MatchResult = Match | Continue | Stop

  /** PlainIrcMessage: the data of one transcript record. */
  datatype Record = Record(
    recordOffset: int,
    lineIndex: int,
    arrivedAt: int,
    nick: Option<string>,
    text: string,
    colorIndex: int,
    myNick: Option<string>,
    isP2pChannel: bool,
    msgType: MessageType)

  /**
   * What PlainIrcMessage derives from a record: the text write() appends to the
   * document, getLineCount() and isFromMe(). Its source is not part of this model,
   * so these are given as functions; getRecordLenght() is the length of the text.
   */
  datatype RecordFormat = RecordFormat(
    encode: Record -> string,
    lineCount: Record -> nat,
    isFromMe: Record -> bool)

  /** The document text of records written one after another. */
  function Written(encode: Record -> string, rs: seq<Record>): string
  {
    if rs == [] then "" else Written(encode, rs[..|rs| - 1]) + encode(rs[|rs| - 1])
  }

  /** The number of lines records take, one after another. */
  function Lines(f: RecordFormat, rs: seq<Record>): nat
  {
    if rs == [] then 0 else Lines(f, rs[..|rs| - 1]) + f.lineCount(rs[|rs| - 1])
  }

  /** Writing two runs of records writes the first run, then the second. */
  lemma {:induction false} WrittenAppend(encode: Record -> string, a: seq<Record>, b: seq<Record>)
    ensures Written(encode, a + b) == Written(encode, a) + Written(encode, b)
    decreases |b|
  {
    if b != [] {
      var b' := b[..|b| - 1];
      assert (a + b)[..|a + b| - 1] == a + b';
      WrittenAppend(encode, a, b');
    } else {
      assert a + b == a;
    }
  }

  /** Every record starts where the records before it end, in characters and in lines. */
  ghost predicate Contiguous(f: RecordFormat, rs: seq<Record>)
    decreases |rs|
  {
    rs == [] ||
    var prefix := rs[..|rs| - 1];
    && Contiguous(f, prefix)
    && rs[|rs| - 1].recordOffset == |Written(f.encode, prefix)|
    && rs[|rs| - 1].lineIndex == Lines(f, prefix)
  }

  /** Every record of a contiguous run starts where the records before it end. */
  lemma {:induction false} ContiguousAt(f: RecordFormat, rs: seq<Record>, k: nat)
    requires Contiguous(f, rs) && k < |rs|
    ensures rs[k].recordOffset == |Written(f.encode, rs[..k])| && rs[k].lineIndex == Lines(f, rs[..k])
    decreases |rs|
  {
    var prefix := rs[..|rs| - 1];
    if k < |rs| - 1 {
      ContiguousAt(f, prefix, k);
      assert prefix[..k] == rs[..k];
    } else {
      assert rs[..k] == prefix;
    }
  }

  /**
   * A record placed after contiguous records at their running length and line
   * count keeps them contiguous: this is why a new record captures the log's
   * running counters as its offset and line index.
   */
  lemma ContiguousAppend(f: RecordFormat, rs: seq<Record>, r: Record)
    requires Contiguous(f, rs)
    requires r.recordOffset == |Written(f.encode, rs)| && r.lineIndex == Lines(f, rs)
    ensures Contiguous(f, rs + [r])
    ensures Written(f.encode, rs + [r]) == Written(f.encode, rs) + f.encode(r)
    ensures Lines(f, rs + [r]) == Lines(f, rs) + f.lineCount(r)
  {
    var t := rs + [r];
    assert t[..|t| - 1] == rs;
  }

  // ---------------------------------------------------------------------------
  // ensureAllSaved

  /** The part of a log that a flush reads and writes. */
  datatype FlushState = FlushState(records: seq<Record>, document: string, lastSaved: int, firstUpdated: int)

  /** How a flush ends: saved, or stopped by a BadLocationException with the state it left. */
  datatype FlushOutcome = Saved(state: FlushState) | BadLocation(state: FlushState)

  /** The index invariants of a log: lastSaved <= size-1, and the dirty marker is unset or an index. */
  predicate IndicesOk(s: FlushState)
  {
    && NothingSaved <= s.lastSaved < |s.records|
    && (s.firstUpdated == NothingSaved || 0 <= s.firstUpdated < |s.records|)
  }

  /**
   * ensureAllSaved as written: the document is cut back only when the first
   * updated record lies strictly before the last saved one, and the dirty marker
   * is cleared only then.
   */
  function FlushAsWritten(encode: Record -> string, s: FlushState): FlushOutcome
    requires IndicesOk(s)
  {
    var rs := s.records;
    if s.lastSaved == |rs| - 1 && s.firstUpdated == NothingSaved then Saved(s)
    else
      var doc := if s.lastSaved == NothingSaved then "" else s.document;
      if s.firstUpdated != NothingSaved && s.firstUpdated < s.lastSaved then
        var start := rs[s.firstUpdated].recordOffset;
        if 0 <= start <= |doc| then
          Saved(FlushState(rs, doc[..start] + Written(encode, rs[s.firstUpdated..]), |rs| - 1, NothingSaved))
        else
          BadLocation(FlushState(rs, doc, s.firstUpdated - 1, s.firstUpdated))
      else
        Saved(FlushState(rs, doc + Written(encode, rs[s.lastSaved + 1..]), |rs| - 1, s.firstUpdated))
  }

  /**
   * ensureAllSaved as evidently intended: the document is cut back whenever the
   * first updated record has been saved before (<=), and every successful flush
   * clears the dirty marker.
   */
  function FlushCorrected(encode: Record -> string, s: FlushState): FlushOutcome
    requires IndicesOk(s)
  {
    var rs := s.records;
    if s.lastSaved == |rs| - 1 && s.firstUpdated == NothingSaved then Saved(s)
    else
      var doc := if s.lastSaved == NothingSaved then "" else s.document;
      if s.firstUpdated != NothingSaved && s.firstUpdated <= s.lastSaved then
        var start := rs[s.firstUpdated].recordOffset;
        if 0 <= start <= |doc| then
          Saved(FlushState(rs, doc[..start] + Written(encode, rs[s.firstUpdated..]), |rs| - 1, NothingSaved))
        else
          BadLocation(FlushState(rs, doc, s.firstUpdated - 1, s.firstUpdated))
      else
        Saved(FlushState(rs, doc + Written(encode, rs[s.lastSaved + 1..]), |rs| - 1, NothingSaved))
  }

  /** s starts with p. */
  predicate IsPrefix(p: string, s: string) {
    |p| <= |s| && s[..|p|] == p
  }

  /**
   * What a log keeps between flushes when its records are contiguous: the
   * document holds the records saved so far; once a saved record is updated, it
   * still holds the records before the first updated one.
   */
  ghost predicate FlushReady(f: RecordFormat, s: FlushState)
  {
    && IndicesOk(s)
    && Contiguous(f, s.records)
    && (s.lastSaved == NothingSaved ||
        if s.firstUpdated != NothingSaved && s.firstUpdated <= s.lastSaved
        then IsPrefix(Written(f.encode, s.records[..s.firstUpdated]), s.document)
        else s.document == Written(f.encode, s.records[..s.lastSaved + 1]))
  }

  /** Cutting the document at a contiguous record's offset and writing from it on writes all records. */
  lemma RewriteFrom(f: RecordFormat, rs: seq<Record>, doc: string, k: nat)
    requires Contiguous(f, rs) && k < |rs|
    requires IsPrefix(Written(f.encode, rs[..k]), doc)
    ensures 0 <= rs[k].recordOffset <= |doc|
    ensures doc[..rs[k].recordOffset] + Written(f.encode, rs[k..]) == Written(f.encode, rs)
  {
    ContiguousAt(f, rs, k);
    assert rs == rs[..k] + rs[k..];
    WrittenAppend(f.encode, rs[..k], rs[k..]);
  }

  /** Appending the records after the saved ones writes all records. */
  lemma AppendFrom(f: RecordFormat, rs: seq<Record>, k: nat)
    requires k <= |rs|
    ensures Written(f.encode, rs[..k]) + Written(f.encode, rs[k..]) == Written(f.encode, rs)
  {
    assert rs == rs[..k] + rs[k..];
    WrittenAppend(f.encode, rs[..k], rs[k..]);
  }

  /**
   * The corrected flush always succeeds on a ready log, leaves the document
   * holding exactly the written records, clears the dirty marker and keeps the
   * log ready; a second flush straight after is a no-op.
   */
  lemma FlushCorrectedWritesAll(f: RecordFormat, s: FlushState)
    requires FlushReady(f, s)
    ensures FlushCorrected(f.encode, s).Saved?
    ensures var t := FlushCorrected(f.encode, s).state;
      && t.records == s.records
      && t.lastSaved == |s.records| - 1
      && t.firstUpdated == NothingSaved
      && (t.document == Written(f.encode, s.records) || (s.records == [] && t == s))
      && FlushReady(f, t)
      && FlushCorrected(f.encode, t) == Saved(t)
  {
    var rs := s.records;
    if s.lastSaved == |rs| - 1 && s.firstUpdated == NothingSaved {
      if s.lastSaved != NothingSaved {
        assert rs[..s.lastSaved + 1] == rs;
      }
    } else {
      var doc := if s.lastSaved == NothingSaved then "" else s.document;
      if s.firstUpdated != NothingSaved && s.firstUpdated <= s.lastSaved {
        RewriteFrom(f, rs, doc, s.firstUpdated);
      } else {
        AppendFrom(f, rs, s.lastSaved + 1);
      }
      assert rs[..|rs|] == rs;
    }
  }

  /**
   * As written, the flush is right whenever no record is marked updated (the
   * first flush among them) or the first updated record is not exactly the
   * last saved one: the document then holds exactly the records.
   */
  lemma FlushAsWrittenRightUnlessLastSavedUpdated(f: RecordFormat, s: FlushState)
    requires FlushReady(f, s)
    requires s.firstUpdated == NothingSaved || s.firstUpdated != s.lastSaved
    ensures FlushAsWritten(f.encode, s).Saved?
    ensures var t := FlushAsWritten(f.encode, s).state;
      && t.records == s.records
      && t.lastSaved == |s.records| - 1
      && (t.document == Written(f.encode, s.records) || (s.records == [] && t == s))
  {
    FlushSavedIsNoOp(f, s);
    FlushCutWritesAll(f, s);
    FlushAppendWritesAll(f, s);
  }

  /** When every record is saved and none is marked updated, the flush returns at once and the document holds them all. */
  lemma FlushSavedIsNoOp(f: RecordFormat, s: FlushState)
    requires FlushReady(f, s)
    ensures s.lastSaved == |s.records| - 1 && s.firstUpdated == NothingSaved ==>
      && FlushAsWritten(f.encode, s) == Saved(s)
      && (s.document == Written(f.encode, s.records) || s.records == [])
  {
    if s.lastSaved == |s.records| - 1 && s.firstUpdated == NothingSaved && s.lastSaved != NothingSaved {
      assert s.records[..s.lastSaved + 1] == s.records;
    }
  }

  /** When the first updated record lies before the last saved one, the flush as written cuts and writes all records. */
  lemma FlushCutWritesAll(f: RecordFormat, s: FlushState)
    requires FlushReady(f, s)
    ensures s.firstUpdated != NothingSaved && s.firstUpdated < s.lastSaved ==>
      FlushAsWritten(f.encode, s) == Saved(FlushState(s.records, Written(f.encode, s.records), |s.records| - 1, NothingSaved))
  {
    if s.firstUpdated != NothingSaved && s.firstUpdated < s.lastSaved {
      RewriteFrom(f, s.records, s.document, s.firstUpdated);
    }
  }

  /**
   * When no saved record is marked updated and some record is unsaved, the flush
   * as written appends the unsaved records and the document then holds them all.
   */
  lemma FlushAppendWritesAll(f: RecordFormat, s: FlushState)
    requires FlushReady(f, s)
    ensures (s.firstUpdated == NothingSaved || s.firstUpdated > s.lastSaved)
            && !(s.lastSaved == |s.records| - 1 && s.firstUpdated == NothingSaved) ==>
      FlushAsWritten(f.encode, s) == Saved(FlushState(s.records, Written(f.encode, s.records), |s.records| - 1, s.firstUpdated))
  {
    var rs := s.records;
    AppendFrom(f, rs, s.lastSaved + 1);
    if s.lastSaved == NothingSaved {
      assert rs[..0] == [];
    }
  }

  /**
   * A record appended at the end of contiguous records, at their running length
   * and line count, keeps the log ready for the next flush: the saved part of
   * the document is not touched by an append.
   */
  lemma FlushReadyAppend(f: RecordFormat, s: FlushState, r: Record)
    requires FlushReady(f, s)
    requires r.recordOffset == |Written(f.encode, s.records)| && r.lineIndex == Lines(f, s.records)
    ensures FlushReady(f, FlushState(s.records + [r], s.document, s.lastSaved, s.firstUpdated))
  {
    var rs := s.records + [r];
    ContiguousAppend(f, s.records, r);
    if s.lastSaved != NothingSaved {
      if s.firstUpdated != NothingSaved && s.firstUpdated <= s.lastSaved {
        assert rs[..s.firstUpdated] == s.records[..s.firstUpdated];
      } else {
        assert rs[..s.lastSaved + 1] == s.records[..s.lastSaved + 1];
      }
    }
  }

  /**
   * As written, a flush that does not cut the document keeps the dirty marker, so
   * the next flush does not return at once; when records follow the marked one,
   * that next flush cuts the document and writes them again.
   */
  lemma FlushAsWrittenKeepsMarker(encode: Record -> string, s: FlushState)
    requires IndicesOk(s)
    requires s.firstUpdated != NothingSaved && s.firstUpdated >= s.lastSaved
    ensures FlushAsWritten(encode, s).Saved?
    ensures var t := FlushAsWritten(encode, s).state;
      && t.firstUpdated == s.firstUpdated && t.lastSaved == |t.records| - 1 && IndicesOk(t)
      && (s.firstUpdated < |s.records| - 1 ==> FlushAsWritten(encode, t) != Saved(t))
  {
  }

  /** A format that writes a record as its bare text, one line per record. */
  function TextFormat(): RecordFormat
  {
    RecordFormat((r: Record) => r.text, (r: Record) => 1, (r: Record) => false)
  }

  /** The single-record log whose record was replaced after it had been saved. */
  function ReplacedAfterSave(): FlushState
  {
    FlushState([Record(0, 0, 0, None, "new", -1, None, false, Chat)], "old", 0, 0)
  }

  /**
   * As written, replacing the last saved record loses the replacement: the
   * document still holds the old text after the flush.
   */
  lemma FlushAsWrittenKeepsStaleRecord()
    ensures var f := TextFormat();
      var s := ReplacedAfterSave();
      && FlushReady(f, s)
      && FlushAsWritten(f.encode, s) == Saved(FlushState(s.records, "old", 0, 0))
      && Written(f.encode, s.records) == "new"
  {
    var f := TextFormat();
    var s := ReplacedAfterSave();
    assert s.records[..0] == [];
    assert s.records[1..] == [];
    assert Written(f.encode, s.records) == Written(f.encode, []) + "new";
  }

  // ---------------------------------------------------------------------------
  // replaceOrAppendMessage

  /**
   * The newest record the matcher does not answer CONTINUE for: the one a
   * backward scan stops at, or None when every record is passed over.
   */
  function LastDecisive(answers: seq<MatchResult>): (r: Option<nat>)
    ensures r.Some? ==> r.value < |answers| && answers[r.value] != Continue
    ensures r.Some? ==> forall j :: r.value < j < |answers| ==> answers[j] == Continue
    ensures r.None? ==> forall j :: 0 <= j < |answers| ==> answers[j] == Continue
  {
    if answers == [] then None
    else if answers[|answers| - 1] != Continue then Some(|answers| - 1)
    else LastDecisive(answers[..|answers| - 1])
  }

  // ---------------------------------------------------------------------------
  // getHottestMessage

  /** What getHottestMessage reads of one record: whether it is CHAT, and its level. */
  datatype Candidate = Candidate(isChat: bool, level: NotificationLevel)

  /** No CHAT candidate has an index in (lo, n). */
  ghost predicate NoChatIn(cs: seq<Candidate>, lo: int, n: int)
    requires n <= |cs|
  {
    forall j :: lo < j < n && 0 <= j ==> !cs[j].isChat
  }

  /**
   * k is the hottest CHAT candidate with index in (lo, n): no other one there has
   * a higher level, and every newer one has a lower level.
   */
  ghost predicate IsHottest(cs: seq<Candidate>, lo: int, n: int, k: int)
    requires n <= |cs|
  {
    && lo < k < n && 0 <= k && cs[k].isChat
    && (forall j :: lo < j < n && 0 <= j && cs[j].isChat ==> Rank(cs[j].level) <= Rank(cs[k].level))
    && (forall j :: k < j < n && cs[j].isChat ==> Rank(cs[j].level) < Rank(cs[k].level))
  }

  /**
   * The hottest CHAT candidate with index in (lo, n), found by a forward pass in
   * which a later candidate wins a tie.
   */
  function Hottest(cs: seq<Candidate>, lo: int, n: nat): (r: Option<nat>)
    requires n <= |cs|
    ensures r.None? <==> NoChatIn(cs, lo, n)
    ensures r.Some? ==> IsHottest(cs, lo, n, r.value)
    decreases n
  {
    if n == 0 || n - 1 <= lo then None
    else
      var prev := Hottest(cs, lo, n - 1);
      if !cs[n - 1].isChat then prev
      else if prev.None? || Rank(cs[prev.value].level) <= Rank(cs[n - 1].level) then Some(n - 1)
      else prev
  }

  /**
   * One step of getHottestMessage's backward scan: the candidate at i takes over
   * from the hottest newer one only when it is CHAT and strictly hotter.
   */
  function ScanStep(cs: seq<Candidate>, i: nat, best: Option<nat>): Option<nat>
    requires i < |cs| && (best.Some? ==> best.value < |cs|)
  {
    if !cs[i].isChat then best
    else if best.None? || Rank(cs[i].level) > Rank(cs[best.value].level) then Some(i)
    else best
  }

  /** The backward step keeps the hottest candidate of the part scanned so far. */
  lemma ScanStepKeepsHottest(cs: seq<Candidate>, i: nat, n: int, best: Option<nat>)
    requires i < n <= |cs|
    requires best.None? <==> NoChatIn(cs, i, n)
    requires best.Some? ==> IsHottest(cs, i, n, best.value)
    ensures var b := ScanStep(cs, i, best);
      && (b.None? <==> NoChatIn(cs, i - 1, n))
      && (b.Some? ==> IsHottest(cs, i - 1, n, b.value))
  {
  }

  /** A ME_NAMED candidate hottest among the newer ones is hottest among all: no level is higher. */
  lemma MeNamedStaysHottest(cs: seq<Candidate>, lo: int, i: int, n: int, k: int)
    requires n <= |cs| && lo <= i
    requires IsHottest(cs, i, n, k) && cs[k].level == NotificationLevel.MeNamed
    ensures IsHottest(cs, lo, n, k)
  {
  }

  /** At most one candidate is the hottest. */
  lemma HottestIsUnique(cs: seq<Candidate>, lo: int, n: int, k: int, k': int)
    requires n <= |cs|
    requires IsHottest(cs, lo, n, k) && IsHottest(cs, lo, n, k')
    ensures k == k'
  {
  }

  /**
   * The message getHottestMessage answers with: none when the log is empty or
   * nothing newer than the last read message is a chat message from someone
   * else; otherwise the hottest CHAT candidate after lastRead.
   */
  function HottestUnread(cs: seq<Candidate>, lastRead: int, lastChat: int): Option<nat>
  {
    if |cs| > 0 && lastRead < lastChat then Hottest(cs, lastRead, |cs|) else None
  }

  /** When the scan has found the hottest unread candidate k, HottestUnread answers k. */
  lemma HottestUnreadIs(cs: seq<Candidate>, lastRead: int, lastChat: int, k: int)
    requires |cs| > 0 && lastRead < lastChat && IsHottest(cs, lastRead, |cs|, k)
    ensures HottestUnread(cs, lastRead, lastChat) == Some(k)
  {
    HottestIsUnique(cs, lastRead, |cs|, k, Hottest(cs, lastRead, |cs|).value);
  }
}
