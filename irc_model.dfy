/**
 * The account registry (IrcModel): accounts by label in ascending label order
 * with a cached array of them, a copy-on-write list of event listeners that
 * every event is delivered to in order, the split of an account file name into
 * uuid and label, the proposal of the next account and the per-state counts.
 */
module IrcModels {
  import opened Wrappers
  import opened IrcEntities

  // ---------------------------------------------------------------------------
  // Label order (String.compareTo) and the label-sorted account map (TreeMap)
  // ---------------------------------------------------------------------------

  /** String.compareTo(a, b) < 0: the first differing character decides, else the shorter string is smaller. */
  predicate LabelLess(a: string, b: string)
  {
    if a == [] then b != []
    else if b == [] then false
    else if a[0] != b[0] then a[0] < b[0]
    else LabelLess(a[1..], b[1..])
  }

  lemma {:induction false} LabelLessIrreflexive(a: string)
    ensures !LabelLess(a, a)
  {
    if a != [] {
      LabelLessIrreflexive(a[1..]);
    }
  }

  lemma {:induction false} LabelLessTransitive(a: string, b: string, c: string)
    requires LabelLess(a, b) && LabelLess(b, c)
    ensures LabelLess(a, c)
  {
    if a != [] && b != [] && c != [] && a[0] == b[0] && b[0] == c[0] {
      LabelLessTransitive(a[1..], b[1..], c[1..]);
    }
  }

  /** Any two distinct labels are ordered one way or the other, and never both. */
  lemma {:induction false} LabelLessTotal(a: string, b: string)
    ensures a != b <==> LabelLess(a, b) || LabelLess(b, a)
    ensures !(LabelLess(a, b) && LabelLess(b, a))
  {
    if a == [] || b == [] {
    } else if a[0] != b[0] {
    } else {
      LabelLessTotal(a[1..], b[1..]);
      assert a == [a[0]] + a[1..] && b == [b[0]] + b[1..];
    }
  }

  /** The accounts' labels strictly ascend: the TreeMap's iteration order, one account per label. */
  ghost predicate Ascending(es: seq<IrcAccount>)
  {
    forall i, j :: 0 <= i < j < |es| ==> LabelLess(es[i].accountLabel, es[j].accountLabel)
  }

  /** TreeMap.get(label). */
  function Lookup(es: seq<IrcAccount>, key: string): (r: Option<IrcAccount>)
    ensures r.Some? ==> r.value in es && r.value.accountLabel == key
    ensures r.None? ==> forall a :: a in es ==> a.accountLabel != key
  {
    if es == [] then None
    else if es[0].accountLabel == key then Some(es[0])
    else Lookup(es[1..], key)
  }

  /** TreeMap.put(a.getLabel(), a) on the entries in label order. */
  function Put(es: seq<IrcAccount>, a: IrcAccount): (r: seq<IrcAccount>)
    ensures forall b :: b in r ==> b == a || b in es
  {
    if es == [] then [a]
    else if LabelLess(a.accountLabel, es[0].accountLabel) then [a] + es
    else if a.accountLabel == es[0].accountLabel then [a] + es[1..]
    else [es[0]] + Put(es[1..], a)
  }

  /** put behaves as a map update: the label now finds the new account, every other label what it found before. */
  lemma {:induction false} PutIsMapUpdate(es: seq<IrcAccount>, a: IrcAccount, key: string)
    ensures Lookup(Put(es, a), key) == if key == a.accountLabel then Some(a) else Lookup(es, key)
  {
    if es != [] && !LabelLess(a.accountLabel, es[0].accountLabel) && a.accountLabel != es[0].accountLabel {
      PutIsMapUpdate(es[1..], a, key);
    }
  }

  /** put keeps the labels strictly ascending. */
  lemma {:induction false} PutKeepsAscending(es: seq<IrcAccount>, a: IrcAccount)
    requires Ascending(es)
    ensures Ascending(Put(es, a))
  {
    if es == [] {
    } else if LabelLess(a.accountLabel, es[0].accountLabel) {
      forall j | 0 < j < |es|
        ensures LabelLess(a.accountLabel, es[j].accountLabel)
      {
        LabelLessTransitive(a.accountLabel, es[0].accountLabel, es[j].accountLabel);
      }
    } else if a.accountLabel == es[0].accountLabel {
    } else {
      LabelLessTotal(a.accountLabel, es[0].accountLabel);
      PutKeepsAscending(es[1..], a);
      var rest := Put(es[1..], a);
      forall b | b in rest
        ensures LabelLess(es[0].accountLabel, b.accountLabel)
      {
      }
    }
  }

  /** TreeMap.remove(label) on the entries in label order. */
  function RemoveLabel(es: seq<IrcAccount>, key: string): (r: seq<IrcAccount>)
    ensures forall b :: b in r ==> b in es
  {
    if es == [] then []
    else if es[0].accountLabel == key then es[1..]
    else [es[0]] + RemoveLabel(es[1..], key)
  }

  /** On ascending entries, remove behaves as a map removal: the label finds nothing, every other label what it found before. */
  lemma {:induction false} RemoveLabelIsMapRemoval(es: seq<IrcAccount>, key: string, other: string)
    requires Ascending(es)
    ensures Lookup(RemoveLabel(es, key), other) == if other == key then None else Lookup(es, other)
  {
    if es == [] {
    } else if es[0].accountLabel == key {
      if other == key {
        forall j | 0 < j < |es|
          ensures es[j].accountLabel != key
        {
          LabelLessIrreflexive(key);
        }
      }
    } else {
      RemoveLabelIsMapRemoval(es[1..], key, other);
    }
  }

  /** remove keeps the labels strictly ascending. */
  lemma {:induction false} RemoveLabelKeepsAscending(es: seq<IrcAccount>, key: string)
    requires Ascending(es)
    ensures Ascending(RemoveLabel(es, key))
  {
    if es != [] && es[0].accountLabel != key {
      RemoveLabelKeepsAscending(es[1..], key);
      var rest := RemoveLabel(es[1..], key);
      forall b | b in rest
        ensures LabelLess(es[0].accountLabel, b.accountLabel)
      {
      }
    }
  }

  // ---------------------------------------------------------------------------
  // Events and listeners
  // ---------------------------------------------------------------------------

  datatype ModelEventType = AccountAdded | AccountRemoved

  datatype ModelEvent = ModelEvent(eventType: ModelEventType, account: IrcAccount)

  /** A model event listener; `fails` says for which events its handle method throws. */
  class Listener {
    const fails: ModelEvent -> bool

    constructor (fails: ModelEvent -> bool)
      ensures this.fails == fails
    {
      this.fails := fails;
    }
  }

  /** The handle calls fire makes, in order: one per listener. */
  function Deliveries(ls: seq<Listener>, e: ModelEvent): (r: seq<(Listener, ModelEvent)>)
    decreases |ls|
  {
    if ls == [] then [] else Deliveries(ls[..|ls| - 1], e) + [(ls[|ls| - 1], e)]
  }

  /** The exceptions fire logs, in order: one per listener whose handle throws. */
  function Failures(ls: seq<Listener>, e: ModelEvent): (r: seq<(Listener, ModelEvent)>)
    decreases |ls|
  {
    if ls == [] then []
    else Failures(ls[..|ls| - 1], e) + (if ls[|ls| - 1].fails(e) then [(ls[|ls| - 1], e)] else [])
  }

  /** Every listener is handed the event, in registration order, whichever of them throw. */
  lemma {:induction false} DeliveriesReachEveryListener(ls: seq<Listener>, e: ModelEvent)
    ensures |Deliveries(ls, e)| == |ls|
    ensures forall i :: 0 <= i < |ls| ==> Deliveries(ls, e)[i] == (ls[i], e)
    decreases |ls|
  {
    if ls != [] {
      DeliveriesReachEveryListener(ls[..|ls| - 1], e);
    }
  }

  /** Exactly the throwing listeners' exceptions are logged. */
  lemma {:induction false} FailuresAreTheThrowingListeners(ls: seq<Listener>, e: ModelEvent)
    ensures forall x :: x in Failures(ls, e) <==> x.1 == e && x.0 in ls && x.0.fails(e)
    decreases |ls|
  {
    if ls != [] {
      var init := ls[..|ls| - 1];
      FailuresAreTheThrowingListeners(init, e);
      assert ls == init + [ls[|ls| - 1]];
    }
  }

  /** List.remove(listener): the first occurrence is taken out, the rest keep their order. */
  function RemoveFirst(ls: seq<Listener>, l: Listener): (r: seq<Listener>)
  {
    if ls == [] then []
    else if ls[0] == l then ls[1..]
    else [ls[0]] + RemoveFirst(ls[1..], l)
  }

  /** Removing a listener that is not there changes nothing. */
  lemma {:induction false} RemoveFirstOfAbsent(ls: seq<Listener>, l: Listener)
    requires l !in ls
    ensures RemoveFirst(ls, l) == ls
  {
    if ls != [] {
      RemoveFirstOfAbsent(ls[1..], l);
    }
  }

  /** Removing a listener drops exactly its first occurrence, at i; the others keep their order. */
  lemma {:induction false} RemoveFirstDropsFirstOccurrence(ls: seq<Listener>, l: Listener, i: nat)
    requires i < |ls| && ls[i] == l && l !in ls[..i]
    ensures RemoveFirst(ls, l) == ls[..i] + ls[i + 1..]
  {
    if i > 0 {
      assert ls[0] in ls[..i];
      assert ls[1..][..i - 1] == ls[1..i];
      RemoveFirstDropsFirstOccurrence(ls[1..], l, i - 1);
      assert ls[..i] == [ls[0]] + ls[1..i];
      assert ls[1..][i..] == ls[i + 1..];
    }
  }

  // ---------------------------------------------------------------------------
  // Account file names
  // ---------------------------------------------------------------------------

  /** String.lastIndexOf(c): the last position holding c, or -1. */
  function LastIndexOf(s: string, c: char): (r: int)
    ensures -1 <= r < |s|
    ensures r >= 0 ==> s[r] == c && c !in s[r + 1..]
    ensures r < 0 ==> c !in s
  {
    if s == [] then -1
    else if s[|s| - 1] == c then |s| - 1
    else LastIndexOf(s[..|s| - 1], c)
  }

  /**
   * The uuid text and the label an account file name stands for: the name must
   * end with the extension, and what precedes it splits at its last '-'.
   */
  function ParseAccountFileName(fileName: string, extension: string): (r: Option<(string, string)>)
    ensures r.Some? ==> fileName == r.value.0 + "-" + r.value.1 + extension && '-' !in r.value.1
    ensures r.None? ==>
      || |fileName| < |extension| || fileName[|fileName| - |extension|..] != extension
      || '-' !in fileName[..|fileName| - |extension|]
  {
    if |fileName| >= |extension| && fileName[|fileName| - |extension|..] == extension then
      var bareName := fileName[..|fileName| - |extension|];
      var minusPos := LastIndexOf(bareName, '-');
      if minusPos >= 0 then
        assert fileName == bareName[..minusPos] + "-" + bareName[minusPos + 1..] + extension;
        Some((bareName[..minusPos], bareName[minusPos + 1..]))
      else
        None
    else
      None
  }

  /** The file name an account with the uuid and label is stored under is parsed back into them, whatever '-' the uuid holds. */
  lemma AccountFileNameRoundTrip(uuid: string, accountLabel: string, extension: string)
    requires '-' !in accountLabel
    ensures ParseAccountFileName(uuid + "-" + accountLabel + extension, extension) == Some((uuid, accountLabel))
  {
    var fileName := uuid + "-" + accountLabel + extension;
    var bareName := uuid + "-" + accountLabel;
    assert fileName[|fileName| - |extension|..] == extension;
    assert fileName[..|fileName| - |extension|] == bareName;
    var p := LastIndexOf(bareName, '-');
    assert bareName[|uuid|] == '-';
    assert bareName[|uuid| + 1..] == accountLabel;
    assert p == |uuid|;
    assert bareName[..p] == uuid;
  }

  // ---------------------------------------------------------------------------
  // Decimal numbers in labels
  // ---------------------------------------------------------------------------

  function Digit(d: nat): char
    requires d < 10
  {
    "0123456789"[d]
  }

  /** Integer.toString for a non-negative number. */
  function DecimalString(n: nat): (r: string)
    ensures |r| > 0 && forall i :: 0 <= i < |r| ==> '0' <= r[i] <= '9'
  {
    if n < 10 then [Digit(n)] else DecimalString(n / 10) + [Digit(n % 10)]
  }

  /** The number a string of decimal digits denotes. */
  function DecimalValue(s: string): nat
    requires forall i :: 0 <= i < |s| ==> '0' <= s[i] <= '9'
    decreases |s|
  {
    if s == [] then 0 else DecimalValue(s[..|s| - 1]) * 10 + (s[|s| - 1] as int - '0' as int)
  }

  lemma {:induction false} DecimalRoundTrip(n: nat)
    ensures DecimalValue(DecimalString(n)) == n
  {
    var s := DecimalString(n);
    if n >= 10 {
      DecimalRoundTrip(n / 10);
      assert s[..|s| - 1] == DecimalString(n / 10);
    }
  }

  // ---------------------------------------------------------------------------
  // The most recently created account
  // ---------------------------------------------------------------------------

  /** Position k holds an account created last, and every account before it was created strictly earlier. */
  predicate IsFirstLatest(es: seq<IrcAccount>, k: nat)
  {
    && k < |es|
    && (forall j :: 0 <= j < |es| ==> es[j].createdOn <= es[k].createdOn)
    && (forall j :: 0 <= j < k ==> es[j].createdOn < es[k].createdOn)
  }

  /** The scan of proposeNextAccount over a non-empty list: a later account replaces the pick only when created strictly later. */
  function FirstLatest(es: seq<IrcAccount>): (k: nat)
    requires |es| > 0
    ensures IsFirstLatest(es, k)
    decreases |es|
  {
    if |es| == 1 then 0
    else
      var k := FirstLatest(es[..|es| - 1]);
      if es[|es| - 1].createdOn > es[k].createdOn then |es| - 1 else k
  }

  /** The proposeNextAccount loop: the first account in label order among those created last. */
  method LatestCreated(es: seq<IrcAccount>) returns (k: nat)
    requires |es| > 0
    ensures k == FirstLatest(es) && IsFirstLatest(es, k)
  {
    var last: IrcAccount? := null;
    k := 0;
    for i := 0 to |es|
      invariant last == null <==> i == 0
      invariant i > 0 ==> k == FirstLatest(es[..i]) && last == es[k]
    {
      assert i > 0 ==> es[..i + 1][..i] == es[..i];
      if last == null || es[i].createdOn > last.createdOn {
        last := es[i];
        k := i;
      }
    }
    assert es[..|es|] == es;
  }

  // ---------------------------------------------------------------------------
  // Account statistics
  // ---------------------------------------------------------------------------

  /** IrcAccountsStatistics, with its fields in constructor order. */
  datatype AccountsStatistics = AccountsStatistics(
    channelsOnline: nat, channelsOffline: nat, channelsWithUnreadMessages: nat,
    channelsNamingMe: nat, channelsOfflineAfterError: nat)

  const NoStatistics := AccountsStatistics(0, 0, 0, 0, 0)

  function Plus(s: AccountsStatistics, t: AccountsStatistics): AccountsStatistics
  {
    AccountsStatistics(
      s.channelsOnline + t.channelsOnline, s.channelsOffline + t.channelsOffline,
      s.channelsWithUnreadMessages + t.channelsWithUnreadMessages,
      s.channelsNamingMe + t.channelsNamingMe, s.channelsOfflineAfterError + t.channelsOfflineAfterError)
  }

  /** What getAccountsStatistics reads of one account: its state and the state of each channel's log (None when it has none). */
  datatype AccountView = AccountView(state: AccountState, logStates: seq<Option<LogState>>)

  /** The count an account's state contributes. */
  function StateCount(state: AccountState): AccountsStatistics
  {
    match state
    case Online => AccountsStatistics(1, 0, 0, 0, 0)
    case Offline => AccountsStatistics(0, 1, 0, 0, 0)
    case OfflineAfterError => AccountsStatistics(0, 0, 0, 0, 1)
  }

  /** The count one channel's log contributes. */
  function LogCount(logState: Option<LogState>): AccountsStatistics
  {
    match logState
    case Some(MeNamed) => AccountsStatistics(0, 0, 0, 1, 0)
    case Some(UnreadMessages) => AccountsStatistics(0, 0, 1, 0, 0)
    case _ => NoStatistics
  }

  function LogCounts(ls: seq<Option<LogState>>): AccountsStatistics
    decreases |ls|
  {
    if ls == [] then NoStatistics else Plus(LogCounts(ls[..|ls| - 1]), LogCount(ls[|ls| - 1]))
  }

  function AccountCounts(v: AccountView): AccountsStatistics
  {
    Plus(StateCount(v.state), LogCounts(v.logStates))
  }

  /** The statistics of the accounts, account by account in order. */
  function StatisticsOf(vs: seq<AccountView>): AccountsStatistics
    decreases |vs|
  {
    if vs == [] then NoStatistics else Plus(StatisticsOf(vs[..|vs| - 1]), AccountCounts(vs[|vs| - 1]))
  }

  /** The number of channels in all the accounts. */
  function ChannelCount(vs: seq<AccountView>): nat
    decreases |vs|
  {
    if vs == [] then 0 else ChannelCount(vs[..|vs| - 1]) + |vs[|vs| - 1].logStates|
  }

  /** Channels without a log or whose log flags nothing. */
  function Unflagged(ls: seq<Option<LogState>>): nat
    decreases |ls|
  {
    if ls == [] then 0
    else Unflagged(ls[..|ls| - 1]) + (if ls[|ls| - 1] in {None, Some(NoneState)} then 1 else 0)
  }

  lemma LogCountsAppend(ls: seq<Option<LogState>>, l: Option<LogState>)
    ensures LogCounts(ls + [l]) == Plus(LogCounts(ls), LogCount(l))
  {
    assert (ls + [l])[..|ls|] == ls;
  }

  lemma StatisticsOfPrefix(vs: seq<AccountView>, i: nat)
    requires i < |vs|
    ensures StatisticsOf(vs[..i + 1]) == Plus(StatisticsOf(vs[..i]), AccountCounts(vs[i]))
  {
    assert vs[..i + 1][..i] == vs[..i];
  }

  /** Each channel's log is counted at most once: naming me, unread, or not at all. */
  lemma {:induction false} EachLogCountedOnce(ls: seq<Option<LogState>>)
    ensures LogCounts(ls).channelsNamingMe + LogCounts(ls).channelsWithUnreadMessages + Unflagged(ls) == |ls|
    ensures LogCounts(ls).channelsOnline == 0 && LogCounts(ls).channelsOffline == 0
    ensures LogCounts(ls).channelsOfflineAfterError == 0
    decreases |ls|
  {
    if ls != [] {
      EachLogCountedOnce(ls[..|ls| - 1]);
    }
  }

  /** Each account is counted in exactly one of online, offline and offline after error. */
  lemma {:induction false} EachAccountCountedOnce(vs: seq<AccountView>)
    ensures StatisticsOf(vs).channelsOnline + StatisticsOf(vs).channelsOffline
      + StatisticsOf(vs).channelsOfflineAfterError == |vs|
    ensures StatisticsOf(vs).channelsNamingMe + StatisticsOf(vs).channelsWithUnreadMessages <= ChannelCount(vs)
    decreases |vs|
  {
    if vs != [] {
      EachAccountCountedOnce(vs[..|vs| - 1]);
      EachLogCountedOnce(vs[|vs| - 1].logStates);
    }
  }

  function LogStates(cs: seq<IrcChannel>): (r: seq<Option<LogState>>)
    reads cs
    ensures |r| == |cs|
    decreases |cs|
  {
    if cs == [] then [] else LogStates(cs[..|cs| - 1]) + [cs[|cs| - 1].logState]
  }

  function ViewOf(a: IrcAccount): AccountView
    reads a, a.channels
  {
    AccountView(a.state, LogStates(a.channels))
  }

  /** The accounts' views, in order. */
  function Views(es: seq<IrcAccount>): (r: seq<AccountView>)
    reads es, set i, j | 0 <= i < |es| && 0 <= j < |es[i].channels| :: es[i].channels[j]
    ensures |r| == |es| && forall i :: 0 <= i < |es| ==> r[i] == ViewOf(es[i])
  {
    seq(|es|, i requires 0 <= i < |es|
                reads es, set i, j | 0 <= i < |es| && 0 <= j < |es[i].channels| :: es[i].channels[j]
                => ViewOf(es[i]))
  }

  /** The count of one account: its state, then each channel's log in listing order. */
  method CountAccount(a: IrcAccount) returns (counts: AccountsStatistics)
    ensures counts == AccountCounts(ViewOf(a))
  {
    counts := StateCount(a.state);
    var cs := a.channels;
    for j := 0 to |cs|
      invariant counts == Plus(StateCount(a.state), LogCounts(LogStates(cs[..j])))
    {
      assert cs[..j + 1][..j] == cs[..j];
      LogCountsAppend(LogStates(cs[..j]), cs[j].logState);
      counts := Plus(counts, LogCount(cs[j].logState));
    }
    assert cs[..|cs|] == cs;
  }

  /** The counts of the accounts, account by account in order. */
  method CountAccounts(es: seq<IrcAccount>) returns (stats: AccountsStatistics)
    ensures stats == StatisticsOf(Views(es))
  {
    ghost var views := Views(es);
    stats := NoStatistics;
    for i := 0 to |es|
      invariant stats == StatisticsOf(views[..i])
    {
      var counts := CountAccount(es[i]);
      StatisticsOfPrefix(views, i);
      stats := Plus(stats, counts);
    }
    assert views[..|es|] == views;
  }

  // ---------------------------------------------------------------------------
  // The registry
  // ---------------------------------------------------------------------------

  class IrcModel {
    /** The accounts map, as its entries in label order. */
    var entries: seq<IrcAccount>
    /** The cached array getAccounts returns; None once invalidated. */
    var accountsArray: Option<seq<IrcAccount>>
    var listeners: seq<Listener>
    /** The handle calls made on listeners, in order. */
    var handled: seq<(Listener, ModelEvent)>
    /** The listener exceptions logged, in order. */
    var errors: seq<(Listener, ModelEvent)>

    constructor ()
      ensures Valid() && entries == [] && accountsArray == None && listeners == []
      ensures handled == [] && errors == []
    {
      entries := [];
      accountsArray := None;
      listeners := [];
      handled := [];
      errors := [];
    }

    /** The entries ascend by label, and a cached array holds exactly the entries. */
    ghost predicate Valid()
      reads this
    {
      Ascending(entries) && (accountsArray.Some? ==> accountsArray.value == entries)
    }

    /**
     * addAccount: an account created for another model is refused with an
     * error and nothing changes. Otherwise it is stored under its label,
     * replacing an account with the same label, the cache is invalidated and
     * ACCOUNT_ADDED is fired.
     */
    method AddAccount(account: IrcAccount) returns (r: Result<(), string>)
      requires Valid()
      modifies this`entries, this`accountsArray, this`handled, this`errors
      ensures Valid()
      ensures account.model != this ==> r.Err? && unchanged(this)
      ensures account.model == this ==>
        && r.Ok? && entries == Put(old(entries), account) && accountsArray == None
        && handled == old(handled) + Deliveries(listeners, ModelEvent(AccountAdded, account))
        && errors == old(errors) + Failures(listeners, ModelEvent(AccountAdded, account))
    {
      if account.model != this {
        return Err("Cannot add account with parent distinct from this IrcModel");
      }
      PutKeepsAscending(entries, account);
      entries := Put(entries, account);
      accountsArray := None;
      Fire(ModelEvent(AccountAdded, account));
      r := Ok(());
    }

    /**
     * removeAccount as written: the account object itself is handed to the
     * label-keyed TreeMap, which casts it to Comparable. `accountComparable` says
     * whether IrcAccount is Comparable (its source is not part of this model):
     * when it is not, the cast throws ClassCastException; when it is, its
     * compareTo is handed a String label as soon as the map holds an account and
     * throws. Either way nothing else happens: the cache is kept and
     * ACCOUNT_REMOVED is not fired. Only an empty map with a Comparable account
     * gets through, removing nothing, nulling the cache and firing the event.
     */
    method RemoveAccount(account: IrcAccount, accountComparable: bool) returns (r: Result<(), string>)
      requires Valid()
      modifies this`accountsArray, this`handled, this`errors
      ensures Valid()
      ensures r.Err? <==> !accountComparable || old(entries) != []
      ensures r.Err? ==> unchanged(this)
      ensures Lookup(old(entries), account.accountLabel).Some? ==>
        r.Err? && Lookup(entries, account.accountLabel) == Lookup(old(entries), account.accountLabel)
      ensures r.Ok? ==>
        && entries == old(entries) == [] && accountsArray == None
        && handled == old(handled) + Deliveries(listeners, ModelEvent(AccountRemoved, account))
        && errors == old(errors) + Failures(listeners, ModelEvent(AccountRemoved, account))
    {
      if !accountComparable || |entries| > 0 {
        return Err("ClassCastException");
      }
      accountsArray := None;
      Fire(ModelEvent(AccountRemoved, account));
      r := Ok(());
    }

    /** removeAccount as evidently intended: the account's label no longer finds anything. */
    method RemoveAccountByLabel(account: IrcAccount)
      requires Valid()
      modifies this`entries, this`accountsArray, this`handled, this`errors
      ensures Valid()
      ensures entries == RemoveLabel(old(entries), account.accountLabel) && accountsArray == None
      ensures Lookup(entries, account.accountLabel) == None
      ensures handled == old(handled) + Deliveries(listeners, ModelEvent(AccountRemoved, account))
      ensures errors == old(errors) + Failures(listeners, ModelEvent(AccountRemoved, account))
    {
      RemoveLabelKeepsAscending(entries, account.accountLabel);
      RemoveLabelIsMapRemoval(entries, account.accountLabel, account.accountLabel);
      entries := RemoveLabel(entries, account.accountLabel);
      accountsArray := None;
      Fire(ModelEvent(AccountRemoved, account));
    }

    /** getAccounts: the accounts in ascending label order, cached until the next change. */
    method GetAccounts() returns (accounts: seq<IrcAccount>)
      requires Valid()
      modifies this`accountsArray
      ensures Valid()
      ensures accounts == entries && Ascending(accounts) && accountsArray == Some(accounts)
      ensures old(accountsArray).Some? ==> accountsArray == old(accountsArray)
    {
      if accountsArray.None? {
        accountsArray := Some(entries);
      }
      accounts := accountsArray.value;
    }

    /** dispose: the cache is invalidated (the accounts' own dispose is not part of this model). */
    method Dispose()
      requires Valid()
      modifies this`accountsArray
      ensures Valid() && accountsArray == None
    {
      accountsArray := None;
    }

    /** addModelEventListener: a new list with the listener appended. */
    method AddModelEventListener(listener: Listener)
      modifies this`listeners
      ensures listeners == old(listeners) + [listener]
    {
      listeners := listeners + [listener];
    }

    /** removeModelEventListener: a new list without the listener's first occurrence. */
    method RemoveModelEventListener(listener: Listener)
      modifies this`listeners
      ensures listeners == RemoveFirst(old(listeners), listener)
    {
      listeners := RemoveFirst(listeners, listener);
    }

    /**
     * fire: every listener registered when the event is fired handles it, in
     * registration order; one that throws has its exception logged and the
     * rest are still called.
     */
    method Fire(event: ModelEvent)
      modifies this`handled, this`errors
      ensures handled == old(handled) + Deliveries(listeners, event)
      ensures errors == old(errors) + Failures(listeners, event)
    {
      var ls := listeners;
      for i := 0 to |ls|
        invariant handled == old(handled) + Deliveries(ls[..i], event)
        invariant errors == old(errors) + Failures(ls[..i], event)
      {
        assert ls[..i + 1][..i] == ls[..i];
        handled := handled + [(ls[i], event)];
        if ls[i].fails(event) {
          errors := errors + [(ls[i], event)];
        }
      }
      assert ls[..|ls|] == ls;
    }

    /** getAccountsStatistics: the counts over every account and every channel's log. */
    method GetAccountsStatistics() returns (stats: AccountsStatistics)
      ensures stats == StatisticsOf(Views(entries))
    {
      stats := CountAccounts(entries);
    }

    /**
     * proposeNextAccount: a new account labelled `accountWord#n`, n one more than
     * the number of accounts, with the default host, port and user name, set to
     * connect automatically and named by the real user name when that is known.
     * When there are accounts, the one created last (the first in label order
     * on a tie) passes on its name, when it has one, and its preferred nick.
     */
    method ProposeNextAccount(accountWord: string, id: string, now: int, defaultPort: int,
                              userName: Option<string>, realName: Option<string>)
      returns (result: IrcAccount)
      ensures fresh(result) && result.model == this && result.id == id && result.createdOn == now
      ensures result.accountLabel == accountWord + "#" + DecimalString(|entries| + 1)
      ensures result.host == "irc.devel.redhat.com" && result.port == defaultPort
      ensures result.username == userName && result.autoConnect
      ensures |entries| == 0 ==> result.name == realName && result.preferredNick == None
      ensures |entries| > 0 ==>
        var last := entries[FirstLatest(entries)];
        && result.name == (if last.name.Some? then last.name else realName)
        && result.preferredNick == last.preferredNick
    {
      result := new IrcAccount(this, id, accountWord + "#" + DecimalString(|entries| + 1), now);
      result.host := "irc.devel.redhat.com";
      result.port := defaultPort;
      result.username := userName;
      result.autoConnect := true;
      if realName.Some? {
        result.name := realName;
      }
      if |entries| > 0 {
        var k := LatestCreated(entries);
        var lastAccount := entries[k];
        if lastAccount.name.Some? {
          result.name := lastAccount.name;
        }
        result.preferredNick := lastAccount.preferredNick;
      }
    }
  }
}
