/**
 * The session controller (IrcController): a map from account id to network
 * client, and the rules that connect, reuse, join, part, post and quit through it.
 * The network client is a stand-in that only remembers whether it is connected
 * and which calls were made on it; whether a connection attempt succeeds is a
 * parameter of the operations that may connect.
 */
module IrcControllers {
  import opened Wrappers
  import opened IrcEntities
  import IrcUtils

  /** A call made on a network client. */
  datatype ClientCall =
    | Connect(accountId: string)
    | Close
    | JoinChannel(channel: IrcChannel)
    | PartChannel(channel: IrcChannel)
    | PostMessage(channel: IrcChannel, text: string)
    | PostRaw(command: string)
    | QuitAndClose

  /** Stand-in for the network client IrcClient. */
  class IrcClient {
    var connected: bool
    var calls: seq<ClientCall>

    constructor ()
      ensures !connected && calls == []
    {
      connected := false;
      calls := [];
    }

    /** connect: `failure` is the error the attempt fails with, None when it succeeds. */
    method Connect(account: IrcAccount, failure: Option<string>) returns (r: Result<(), string>)
      modifies this
      ensures calls == old(calls) + [ClientCall.Connect(account.id)]
      ensures connected <==> failure.None?
      ensures r == if failure.None? then Ok(()) else Err(failure.value)
    {
      calls := calls + [ClientCall.Connect(account.id)];
      if failure.None? {
        connected := true;
        r := Ok(());
      } else {
        connected := false;
        r := Err(failure.value);
      }
    }

    method Close()
      modifies this
      ensures !connected && calls == old(calls) + [ClientCall.Close]
    {
      connected := false;
      calls := calls + [ClientCall.Close];
    }

    method QuitAndClose()
      modifies this
      ensures !connected && calls == old(calls) + [ClientCall.QuitAndClose]
    {
      connected := false;
      calls := calls + [ClientCall.QuitAndClose];
    }

    /** joinChannel, partChannel, postMessage and postRaw: the request is sent; the connection stays as it is. */
    method Send(call: ClientCall)
      requires call.JoinChannel? || call.PartChannel? || call.PostMessage? || call.PostRaw?
      modifies this
      ensures connected == old(connected) && calls == old(calls) + [call]
    {
      calls := calls + [call];
    }
  }

  /** The last call made on a client, if any. */
  function LastCall(calls: seq<ClientCall>): (r: Option<ClientCall>)
    ensures r.Some? <==> calls != []
    ensures r.Some? ==> r.value == calls[|calls| - 1]
  {
    if calls == [] then None else Some(calls[|calls| - 1])
  }

  /**
   * The effect userLeft has on a channel the nick left: when the nick is the
   * account's own accepted nick the channel is no longer joined; otherwise the
   * nick is removed, its departure recorded only when it was present.
   */
  twostate predicate LeftBy(channel: IrcChannel, nick: string, msg: string)
    reads channel, channel.account
  {
    var me := Some(nick) == channel.account.acceptedNick;
    && channel.joined == (old(channel.joined) && !me)
    && channel.nicks == (if me then old(channel.nicks) else old(channel.nicks) - {nick})
    && channel.departures ==
         (if !me && nick in old(channel.nicks) then old(channel.departures) + [(nick, msg)]
          else old(channel.departures))
    && channel.logState == old(channel.logState)
  }

  /** The effect userQuit has on one listed channel: userLeft when it was joined, nothing otherwise. */
  twostate predicate QuitSeenBy(channel: IrcChannel, nick: string, msg: string)
    reads channel, channel.account
  {
    if old(channel.joined) then LeftBy(channel, nick, msg)
    else
      && channel.joined == old(channel.joined) && channel.nicks == old(channel.nicks)
      && channel.departures == old(channel.departures) && channel.logState == old(channel.logState)
  }

  class IrcController {
    /** The client of each account, by account id. */
    var clients: map<string, IrcClient>

    constructor ()
      ensures clients == map[] && Valid()
    {
      clients := map[];
    }

    /** No client serves two accounts. */
    predicate Valid()
      reads this
    {
      forall k1, k2 :: k1 in clients && k2 in clients && k1 != k2 ==> clients[k1] != clients[k2]
    }

    /** The client registered for the account id, as a frame. */
    function Registered(id: string): set<IrcClient>
      reads this
    {
      if id in clients then {clients[id]} else {}
    }

    /** The client registered for the account id is there and connected. */
    predicate Reusable(id: string)
      reads this, Registered(id)
    {
      id in clients && clients[id].connected
    }

    /**
     * The registrations after the account's client was obtained or connected and
     * the calls `sent` were made on it: a reusable client is kept and gets them;
     * otherwise a fresh connected client, whose calls are the connect and then
     * `sent`, is registered; every other registration stays.
     */
    twostate predicate SentThrough(id: string, sent: seq<ClientCall>)
      reads this, Registered(id)
    {
      && id in clients
      && clients == old(clients)[id := clients[id]]
      && clients[id].connected
      && (old(Reusable(id)) ==> clients[id] == old(clients[id]) && clients[id].calls == old(clients[id].calls) + sent)
      && (!old(Reusable(id)) ==> fresh(clients[id]) && clients[id].calls == [ClientCall.Connect(id)] + sent)
    }

    /**
     * getClientOrConnect: a connected registered client is reused as it is; a
     * registered client that is no longer connected is closed first. Otherwise a
     * new client connects, and is registered only when connecting succeeds; when
     * it fails the account goes offline with the error, which is returned, and
     * the registrations are left as they were (a closed stale client stays).
     */
    method GetClientOrConnect(account: IrcAccount, failure: Option<string>) returns (r: Result<IrcClient, string>)
      requires Valid()
      modifies this, account, Registered(account.id)
      ensures Valid()
      ensures old(Reusable(account.id)) ==>
        && r == Ok(old(clients[account.id])) && clients == old(clients)
        && unchanged(old(clients[account.id])) && unchanged(account)
      ensures account.id in old(clients) && !old(Reusable(account.id)) ==>
        var stale := old(clients[account.id]);
        !stale.connected && stale.calls == old(stale.calls) + [ClientCall.Close]
      ensures !old(Reusable(account.id)) && failure.None? ==>
        && r.Ok? && fresh(r.value) && r.value.connected && r.value.calls == [ClientCall.Connect(account.id)]
        && clients == old(clients)[account.id := r.value] && unchanged(account)
      ensures !old(Reusable(account.id)) && failure.Some? ==>
        && r == Err(failure.value) && clients == old(clients)
        && account.state == OfflineAfterError && account.lastError == failure
        && account.channels == old(account.channels) && account.acceptedNick == old(account.acceptedNick)
      ensures r.Ok? ==> account.id in clients && clients[account.id] == r.value && r.value.connected
    {
      var client: IrcClient? := if account.id in clients then clients[account.id] else null;
      if client != null && !client.connected {
        client.Close();
        client := null;
      }
      if client == null {
        client := new IrcClient();
        var connected := client.Connect(account, failure);
        if connected.Ok? {
          clients := clients[account.id := client];
        } else {
          account.SetOffline(connected.error);
          return Err(connected.error);
        }
      }
      r := Ok(client);
    }

    /**
     * joinChannel: nothing for a joined channel. Otherwise a client is obtained or
     * connected first; then a p2p channel is marked joined here and any other
     * channel is asked of the client.
     */
    method JoinChannel(channel: IrcChannel, failure: Option<string>) returns (r: Result<(), string>)
      requires Valid()
      modifies this, channel, channel.account, Registered(channel.account.id)
      ensures Valid()
      ensures old(channel.joined) ==> r.Ok? && clients == old(clients) && unchanged(channel, channel.account)
      ensures !old(channel.joined) && r.Ok? ==>
        && channel.account.id in clients
        && var c := clients[channel.account.id];
        && c.connected
        && (channel.IsP2p() ==> channel.joined)
        && (!channel.IsP2p() ==> !channel.joined && LastCall(c.calls) == Some(ClientCall.JoinChannel(channel)))
      ensures !old(channel.joined) && r.Ok? ==>
        && SentThrough(channel.account.id, if channel.IsP2p() then [] else [ClientCall.JoinChannel(channel)])
        && unchanged(channel.account)
        && channel.nicks == old(channel.nicks) && channel.userIndex == old(channel.userIndex)
        && channel.logState == old(channel.logState) && channel.departures == old(channel.departures)
      ensures !old(channel.joined) && channel.account.id in old(clients) && !old(Reusable(channel.account.id)) ==>
        var stale := old(clients[channel.account.id]);
        !stale.connected && stale.calls == old(stale.calls) + [ClientCall.Close]
      ensures r.Err? ==>
        && failure == Some(r.error) && clients == old(clients) && !channel.joined
        && channel.account.state == OfflineAfterError
      ensures !old(channel.joined) ==> (r.Ok? <==> old(Reusable(channel.account.id)) || failure.None?)
    {
      if !channel.joined {
        var client := GetClientOrConnect(channel.account, failure);
        if client.Err? {
          return Err(client.error);
        }
        if !channel.IsP2p() {
          client.value.Send(ClientCall.JoinChannel(channel));
        } else {
          channel.joined := true;
        }
      }
      r := Ok(());
    }

    /**
     * partChannel: nothing for a channel that is not joined. A p2p channel is
     * marked not joined and unlisted from its account here; any other channel is
     * parted through the account's client, obtained or connected first.
     */
    method PartChannel(channel: IrcChannel, failure: Option<string>) returns (r: Result<(), string>)
      requires Valid()
      modifies this, channel, channel.account, Registered(channel.account.id)
      ensures Valid()
      ensures old(channel.joined) && channel.IsP2p() ==>
        && r.Ok? && !channel.joined && clients == old(clients)
        && channel.account.channels == Without(old(channel.account.channels), channel)
        && channel.account.state == old(channel.account.state)
      ensures !old(channel.joined) ==> r.Ok? && clients == old(clients) && unchanged(channel, channel.account)
      ensures old(channel.joined) && !channel.IsP2p() && r.Ok? ==>
        && channel.joined && channel.account.channels == old(channel.account.channels)
        && channel.account.id in clients
        && var c := clients[channel.account.id];
        && c.connected && LastCall(c.calls) == Some(ClientCall.PartChannel(channel))
      ensures old(channel.joined) && !channel.IsP2p() && r.Ok? ==>
        SentThrough(channel.account.id, [ClientCall.PartChannel(channel)]) && unchanged(channel, channel.account)
      ensures old(channel.joined) && channel.IsP2p() ==> channel.account.acceptedNick == old(channel.account.acceptedNick)
      ensures old(channel.joined) && !channel.IsP2p() && channel.account.id in old(clients) && !old(Reusable(channel.account.id)) ==>
        var stale := old(clients[channel.account.id]);
        !stale.connected && stale.calls == old(stale.calls) + [ClientCall.Close]
      ensures r.Err? ==>
        && old(channel.joined) && !channel.IsP2p() && failure == Some(r.error) && clients == old(clients)
        && channel.account.state == OfflineAfterError
    {
      if channel.joined {
        if !channel.IsP2p() {
          var client := GetClientOrConnect(channel.account, failure);
          if client.Err? {
            return Err(client.error);
          }
          client.value.Send(ClientCall.PartChannel(channel));
        } else {
          channel.joined := false;
          channel.account.RemoveChannel(channel);
        }
      }
      r := Ok(());
    }

    /**
     * postMessage: with a client obtained or connected, text that starts with a
     * known command is sent raw without its command marker; any other text is
     * posted to the channel as chat.
     */
    method PostMessage(channel: IrcChannel, text: string, commands: set<string>, failure: Option<string>)
      returns (r: Result<(), string>)
      requires Valid()
      modifies this, channel.account, Registered(channel.account.id)
      ensures Valid()
      ensures r.Ok? ==>
        && channel.account.id in clients
        && var c := clients[channel.account.id];
        && c.connected
        && LastCall(c.calls) == Some(
             if IrcUtils.GetInitialCommand(text, commands).Some?
             then ClientCall.PostRaw(text[1..])
             else ClientCall.PostMessage(channel, text))
      ensures r.Ok? ==>
        && SentThrough(channel.account.id, [
             if IrcUtils.GetInitialCommand(text, commands).Some?
             then ClientCall.PostRaw(text[1..])
             else ClientCall.PostMessage(channel, text)])
        && unchanged(channel.account)
      ensures channel.account.id in old(clients) && !old(Reusable(channel.account.id)) ==>
        var stale := old(clients[channel.account.id]);
        !stale.connected && stale.calls == old(stale.calls) + [ClientCall.Close]
      ensures r.Ok? <==> old(Reusable(channel.account.id)) || failure.None?
      ensures r.Err? ==> failure == Some(r.error) && clients == old(clients) && channel.account.state == OfflineAfterError
    {
      var client := GetClientOrConnect(channel.account, failure);
      if client.Err? {
        return Err(client.error);
      }
      var cmd := IrcUtils.GetInitialCommand(text, commands);
      if cmd.Some? {
        client.value.Send(ClientCall.PostRaw(IrcUtils.GetRawCommand(text)));
      } else {
        client.value.Send(ClientCall.PostMessage(channel, text));
      }
      r := Ok(());
    }

    /**
     * quit: the account's client is unregistered, and told to quit only when it
     * is still connected.
     */
    method Quit(account: IrcAccount)
      requires Valid()
      modifies this, Registered(account.id)
      ensures Valid()
      ensures clients == old(clients) - {account.id}
      ensures account.id in old(clients) ==>
        var c := old(clients[account.id]);
        && !c.connected
        && c.calls == if old(c.connected) then old(c.calls) + [ClientCall.QuitAndClose] else old(c.calls)
    {
      if account.id in clients {
        var client := clients[account.id];
        clients := clients - {account.id};
        if client.connected {
          client.QuitAndClose();
        }
      } else {
        clients := clients - {account.id};
      }
    }

    /**
     * quitAll as written: every registered client that is NOT connected is told
     * to quit, connected clients are left connected, and nothing is unregistered.
     */
    method QuitAll()
      requires Valid()
      modifies clients.Values
      ensures forall c :: c in clients.Values ==> c.connected == old(c.connected)
      ensures forall c :: c in clients.Values ==>
        c.calls == if old(c.connected) then old(c.calls) else old(c.calls) + [ClientCall.QuitAndClose]
    {
      var todo := clients.Values;
      while todo != {}
        invariant todo <= clients.Values
        invariant forall c :: c in clients.Values ==> c.connected == old(c.connected)
        invariant forall c :: c in clients.Values && c !in todo ==>
          c.calls == if old(c.connected) then old(c.calls) else old(c.calls) + [ClientCall.QuitAndClose]
        invariant forall c :: c in todo ==> c.calls == old(c.calls)
        decreases todo
      {
        var client :| client in todo;
        if !client.connected {
          client.QuitAndClose();
        }
        todo := todo - {client};
      }
    }

    /** quitAll as evidently intended: every connected client is told to quit, so none stays connected. */
    method QuitAllConnected()
      requires Valid()
      modifies clients.Values
      ensures forall c :: c in clients.Values ==> !c.connected
      ensures forall c :: c in clients.Values ==>
        c.calls == if old(c.connected) then old(c.calls) + [ClientCall.QuitAndClose] else old(c.calls)
    {
      var todo := clients.Values;
      while todo != {}
        invariant todo <= clients.Values
        invariant forall c :: c in clients.Values && c !in todo ==>
          && !c.connected
          && c.calls == if old(c.connected) then old(c.calls) + [ClientCall.QuitAndClose] else old(c.calls)
        invariant forall c :: c in todo ==> c.calls == old(c.calls) && c.connected == old(c.connected)
        decreases todo
      {
        var client :| client in todo;
        if client.connected {
          client.QuitAndClose();
        }
        todo := todo - {client};
      }
    }

    /**
     * dispose as written: it calls quitAll, so connected clients stay connected
     * and only the clients that are no longer connected are told to quit.
     */
    method Dispose()
      requires Valid()
      modifies clients.Values
      ensures forall c :: c in clients.Values ==> c.connected == old(c.connected)
      ensures forall c :: c in clients.Values ==>
        c.calls == if old(c.connected) then old(c.calls) else old(c.calls) + [ClientCall.QuitAndClose]
    {
      QuitAll();
    }

    /** dispose with quitAll as evidently intended: no client stays connected. */
    method DisposeCorrected()
      requires Valid()
      modifies clients.Values
      ensures forall c :: c in clients.Values ==> !c.connected
      ensures forall c :: c in clients.Values ==>
        c.calls == if old(c.connected) then old(c.calls) + [ClientCall.QuitAndClose] else old(c.calls)
    {
      QuitAllConnected();
    }

    /**
     * userLeft: when the nick is the account's own accepted nick the channel is
     * no longer joined; otherwise the nick is removed when it is present.
     */
    method UserLeft(channel: IrcChannel, nick: string, msg: string)
      modifies channel
      ensures LeftBy(channel, nick, msg)
    {
      if Some(nick) == channel.account.acceptedNick {
        channel.joined := false;
      } else if nick in channel.nicks {
        channel.RemoveNick(nick, msg);
      }
    }

    /**
     * userQuit: when the nick is the account's own accepted nick the account goes
     * offline and no channel is touched; otherwise the nick leaves every joined
     * channel of the account.
     */
    method UserQuit(account: IrcAccount, nick: string, msg: string)
      modifies account, account.channels
      ensures account.channels == old(account.channels) && account.acceptedNick == old(account.acceptedNick)
      ensures Some(nick) == account.acceptedNick ==>
        account.state == Offline && forall c :: c in account.channels ==> unchanged(c)
      ensures Some(nick) != account.acceptedNick ==>
        account.state == old(account.state) && forall c :: c in account.channels ==> QuitSeenBy(c, nick, msg)
    {
      if Some(nick) == account.acceptedNick {
        account.state := Offline;
      } else {
        var cs := account.channels;
        for i := 0 to |cs|
          invariant account.channels == cs && account.state == old(account.state)
          invariant account.acceptedNick == old(account.acceptedNick)
          invariant forall c :: c in cs[..i] ==> QuitSeenBy(c, nick, msg)
          invariant forall c :: c in cs && c !in cs[..i] ==> unchanged(c)
        {
          var channel := cs[i];
          // A channel listed twice is already left: leaving it again changes nothing.
          ghost var nicksBefore := channel.nicks;
          if channel in cs[..i] && nick !in nicksBefore {
            assert nicksBefore - {nick} == nicksBefore;
          }
          if channel.joined {
            UserLeft(channel, nick, msg);
          }
          assert QuitSeenBy(channel, nick, msg);
          assert cs[..i + 1] == cs[..i] + [channel];
        }
      }
    }

    /** getOrCreateUser: the server's user with the nick, created and added when there is none. */
    method GetOrCreateUser(server: IrcServer, nick: string, username: string) returns (user: IrcUser)
      modifies server
      ensures nick in server.users && server.users[nick] == user
      ensures nick in old(server.users) ==> user == old(server.users[nick]) && server.users == old(server.users)
      ensures nick !in old(server.users) ==>
        && fresh(user) && user.server == server && user.nick == nick && user.username == username
        && server.users == old(server.users)[nick := user]
    {
      if nick in server.users {
        user := server.users[nick];
      } else {
        user := new IrcUser(server, nick, username);
        server.users := server.users[nick := user];
      }
    }

    /** getOrCreateAccountChannel: the account's channel with the name, created when there is none, and listed. */
    method GetOrCreateAccountChannel(account: IrcAccount, channelName: string) returns (channel: IrcChannel)
      modifies account
      ensures channel in account.channels && channel.name == channelName
      ensures old(account.FindChannel(channelName)).Some? ==>
        channel == old(account.FindChannel(channelName)).value && account.channels == old(account.channels)
      ensures old(account.FindChannel(channelName)).None? ==>
        && fresh(channel) && channel.account == account && !channel.IsP2p()
        && account.channels == old(account.channels) + [channel]
      ensures account.state == old(account.state) && account.acceptedNick == old(account.acceptedNick)
    {
      var found := account.FindChannel(channelName);
      if found.Some? {
        channel := found.value;
      } else {
        channel := new IrcChannel(account, channelName, None);
      }
      account.EnsureChannelListed(channel);
    }

    /** getOrCreateP2pChannel: the peer's account's p2p channel with the peer, created when there is none, and listed. */
    method GetOrCreateP2pChannel(peer: IrcUser) returns (channel: IrcChannel)
      modifies peer.server.account
      ensures var account := peer.server.account;
        channel in account.channels && channel.p2pUser == Some(peer)
      ensures old(peer.server.account.FindP2pChannel(peer)).Some? ==>
        && channel == old(peer.server.account.FindP2pChannel(peer)).value
        && peer.server.account.channels == old(peer.server.account.channels)
      ensures old(peer.server.account.FindP2pChannel(peer)).None? ==>
        && fresh(channel) && channel.account == peer.server.account
        && peer.server.account.channels == old(peer.server.account.channels) + [channel]
      ensures peer.server.account.state == old(peer.server.account.state)
      ensures peer.server.account.acceptedNick == old(peer.server.account.acceptedNick)
    {
      var account := peer.server.account;
      var found := account.FindP2pChannel(peer);
      if found.Some? {
        channel := found.value;
      } else {
        channel := new IrcChannel(account, peer.nick, Some(peer));
      }
      account.EnsureChannelListed(channel);
    }

    /** A second getOrCreateUser with the same nick returns the user the first one returned and adds nothing. */
    method GetOrCreateUserTwice(server: IrcServer, nick: string, username: string, otherUsername: string)
      returns (first: IrcUser, second: IrcUser)
      modifies server
      ensures first == second && nick in server.users && server.users[nick] == first
      ensures nick !in old(server.users) ==> server.users == old(server.users)[nick := first]
      ensures nick in old(server.users) ==> server.users == old(server.users)
    {
      first := GetOrCreateUser(server, nick, username);
      second := GetOrCreateUser(server, nick, otherUsername);
    }

    /** A second getOrCreateAccountChannel with the same name returns the same channel and lists nothing more. */
    method GetOrCreateAccountChannelTwice(account: IrcAccount, channelName: string)
      returns (first: IrcChannel, second: IrcChannel)
      modifies account
      ensures first == second
      ensures account.channels ==
        if old(account.FindChannel(channelName)).Some? then old(account.channels) else old(account.channels) + [first]
    {
      first := GetOrCreateAccountChannel(account, channelName);
      second := GetOrCreateAccountChannel(account, channelName);
    }
  }
}
