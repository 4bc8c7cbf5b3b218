/**
 * Minimal stand-ins for the collaborators the core reads and updates but whose
 * source (IrcAccount, IrcServer, IrcUser, AbstractIrcChannel) is not part of this
 * model. Each carries only the state the core touches; each operation is the
 * simplest behaviour consistent with how the core uses it.
 */
module IrcEntities {
  import opened Wrappers

  /** IrcAccount.IrcAccountState */
  datatype AccountState = Offline | Online | OfflineAfterError

  /** The per-log state enum that IrcModel.getAccountsStatistics switches on. */
  datatype LogState = MeNamed | UnreadMessages | NoneState

  class IrcAccount {
    /** The IrcModel the account was created for (IrcAccount.getModel). */
    const model: object?
    /** The account's UUID, in its text form. */
    const id: string
    const accountLabel: string
    /** Creation time in milliseconds. */
    const createdOn: int
    var state: AccountState
    /** The error the account went offline with, if any. */
    var lastError: Option<string>
    /** The nick the server accepted; None while not connected. */
    var acceptedNick: Option<string>
    /** The listed channels, in listing order. */
    var channels: seq<IrcChannel>
    var host: string
    var port: int
    var username: Option<string>
    var autoConnect: bool
    var name: Option<string>
    var preferredNick: Option<string>

    constructor (model: object?, id: string, accountLabel: string, createdOn: int)
      ensures this.model == model && this.id == id && this.accountLabel == accountLabel && this.createdOn == createdOn
      ensures state == Offline && lastError == None && acceptedNick == None && channels == []
      ensures host == "" && port == 0 && username == None && !autoConnect
      ensures name == None && preferredNick == None
    {
      this.model := model;
      this.id := id;
      this.accountLabel := accountLabel;
      this.createdOn := createdOn;
      state := Offline;
      lastError := None;
      acceptedNick := None;
      channels := [];
      host := "";
      port := 0;
      username := None;
      autoConnect := false;
      name := None;
      preferredNick := None;
    }

    /** findChannel: the first listed channel with the given name. */
    function FindChannel(channelName: string): (r: Option<IrcChannel>)
      reads this
      ensures r.Some? ==> r.value in channels && r.value.name == channelName
      ensures r.None? ==> forall c :: c in channels ==> c.name != channelName
    {
      FirstNamed(channels, channelName)
    }

    /** findP2pChannel: the first listed channel held with the given peer. */
    function FindP2pChannel(peer: IrcUser): (r: Option<IrcChannel>)
      reads this
      ensures r.Some? ==> r.value in channels && r.value.p2pUser == Some(peer)
      ensures r.None? ==> forall c :: c in channels ==> c.p2pUser != Some(peer)
    {
      FirstWithPeer(channels, peer)
    }

    /** ensureChannelListed: lists the channel unless it is listed already. */
    method EnsureChannelListed(channel: IrcChannel)
      modifies this
      ensures channels == if channel in old(channels) then old(channels) else old(channels) + [channel]
      ensures state == old(state) && acceptedNick == old(acceptedNick) && lastError == old(lastError)
      ensures name == old(name) && preferredNick == old(preferredNick)
    {
      if channel !in channels {
        channels := channels + [channel];
      }
    }

    /** removeChannel: the channel is no longer listed. */
    method RemoveChannel(channel: IrcChannel)
      modifies this
      ensures channels == Without(old(channels), channel)
      ensures state == old(state) && acceptedNick == old(acceptedNick) && lastError == old(lastError)
      ensures name == old(name) && preferredNick == old(preferredNick)
    {
      channels := Without(channels, channel);
    }

    /** setOffline(e): the account goes offline with the given error. */
    method SetOffline(error: string)
      modifies this
      ensures state == OfflineAfterError && lastError == Some(error)
      ensures channels == old(channels) && acceptedNick == old(acceptedNick)
      ensures name == old(name) && preferredNick == old(preferredNick)
    {
      state := OfflineAfterError;
      lastError := Some(error);
    }
  }

  /** The server an account talks to, with its directory of users by nick. */
  class IrcServer {
    const account: IrcAccount
    var users: map<string, IrcUser>

    constructor (account: IrcAccount)
      ensures this.account == account && users == map[]
    {
      this.account := account;
      users := map[];
    }
  }

  class IrcUser {
    const server: IrcServer
    const nick: string
    const username: string

    constructor (server: IrcServer, nick: string, username: string)
      ensures this.server == server && this.nick == nick && this.username == username
    {
      this.server := server;
      this.nick := nick;
      this.username := username;
    }
  }

  /** AbstractIrcChannel: a multi-user channel, or a p2p conversation when p2pUser is set. */
  class IrcChannel {
    const account: IrcAccount
    const name: string
    const p2pUser: Option<IrcUser>
    var joined: bool
    /** The nicks present in the channel. */
    var nicks: set<string>
    /** getUserIndex: the colour index the channel assigns to a nick. */
    var userIndex: string -> int
    /** The state of the channel's log as getAccountsStatistics reads it; None when there is no log. */
    var logState: Option<LogState>
    /** The (nick, message) departures the channel has recorded through removeNick. */
    var departures: seq<(string, string)>

    constructor (account: IrcAccount, name: string, p2pUser: Option<IrcUser>)
      ensures this.account == account && this.name == name && this.p2pUser == p2pUser
      ensures !joined && nicks == {} && logState == None && departures == []
    {
      this.account := account;
      this.name := name;
      this.p2pUser := p2pUser;
      joined := false;
      nicks := {};
      userIndex := _ => -1;
      logState := None;
      departures := [];
    }

    predicate IsP2p()
      reads this
    {
      p2pUser.Some?
    }

    /** removeNick: the nick is no longer present and its departure is recorded. */
    method RemoveNick(nick: string, msg: string)
      modifies this
      ensures nicks == old(nicks) - {nick}
      ensures departures == old(departures) + [(nick, msg)]
      ensures joined == old(joined) && logState == old(logState)
    {
      nicks := nicks - {nick};
      departures := departures + [(nick, msg)];
    }
  }

  function FirstNamed(cs: seq<IrcChannel>, channelName: string): (r: Option<IrcChannel>)
    ensures r.Some? ==> r.value in cs && r.value.name == channelName
    ensures r.None? ==> forall c :: c in cs ==> c.name != channelName
  {
    if cs == [] then None
    else if cs[0].name == channelName then Some(cs[0])
    else FirstNamed(cs[1..], channelName)
  }

  function FirstWithPeer(cs: seq<IrcChannel>, peer: IrcUser): (r: Option<IrcChannel>)
    ensures r.Some? ==> r.value in cs && r.value.p2pUser == Some(peer)
    ensures r.None? ==> forall c :: c in cs ==> c.p2pUser != Some(peer)
  {
    if cs == [] then None
    else if cs[0].p2pUser == Some(peer) then Some(cs[0])
    else FirstWithPeer(cs[1..], peer)
  }

  /** The sequence with every occurrence of x taken out, the rest in order. */
  function Without<T(==)>(s: seq<T>, x: T): (r: seq<T>)
    ensures x !in r
    ensures forall i :: 0 <= i < |r| ==> r[i] in s && r[i] != x
    ensures forall i :: 0 <= i < |s| && s[i] != x ==> s[i] in r
    ensures |r| <= |s|
  {
    if s == [] then []
    else if s[0] == x then Without(s[1..], x)
    else [s[0]] + Without(s[1..], x)
  }
}
