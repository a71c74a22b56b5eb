/** The channel membership index: channels list their members, users list their channels, and two
    counters summarise them. */
module Channels {
  import opened Sequences

  type Nick = string
  type Name = string

  /** Channel: the member list and its counter. */
  datatype Channel = Channel(members: seq<Nick>, users: int)

  class ChannelIndex {
    /** channelhash and the users' chans lists. */
    var channels: map<Name, Channel>
    var users: map<Nick, seq<Name>>
    var channelcount: int
    /** CLIENT_FLAG_ZOMBIE: kicked, with the part message still to come. */
    var zombies: set<Nick>
    /** list_isfull compares against this (LISTCOUNT_T_MAX). */
    const listMax: nat

    /** Both sides agree, and so do the counters. */
    ghost predicate Valid()
      reads this
    {
      && channelcount == |channels|
      && (forall c :: c in channels ==> ChannelOk(c, channels[c], users))
      && (forall u :: u in users ==> UserOk(u, users[u], channels))
    }

    static ghost predicate ChannelOk(c: Name, ch: Channel, users: map<Nick, seq<Name>>) {
      && ch.members != [] && ch.users == |ch.members| && NoDup(ch.members)
      && forall u :: u in ch.members ==> u in users && c in users[u]
    }

    static ghost predicate UserOk(u: Nick, chans: seq<Name>, channels: map<Name, Channel>) {
      NoDup(chans) && forall c :: c in chans ==> c in channels && u in channels[c].members
    }

    predicate IsMember(u: Nick, c: Name)
      reads this
    {
      c in channels && u in channels[c].members
    }

    constructor (listMax: nat)
      ensures Valid() && channels == map[] && users == map[] && zombies == {} && this.listMax == listMax
    {
      channels, users, channelcount, zombies := map[], map[], 0, {};
      this.listMax := listMax;
    }

    /** A user connects; the chans list starts empty. */
    method AddUser(nick: Nick)
      requires Valid() && nick !in users
      modifies `users
      ensures Valid() && users == old(users)[nick := []]
    {
      users := users[nick := []];
      assert forall c :: c in channels ==> ChannelOk(c, channels[c], old(users));
    }

    /** The one way a join leaves the two sides in disagreement: the channel has room and lists the
        user, but the user's own list is full. */
    predicate HalfJoin(nick: Nick, chan: Name)
      reads this
    {
      && nick in users && chan != "0" && !IsMember(nick, chan)
      && (chan in channels ==> |channels[chan].members| < listMax) && listMax > 0
      && |users[nick]| >= listMax
    }

    /** Whether a join puts the user into the channel. */
    ghost predicate Joins(nick: Nick, chan: Name)
      reads this
    {
      && nick in users && chan != "0" && !IsMember(nick, chan)
      && (chan in channels ==> |channels[chan].members| < listMax) && listMax > 0
      && |users[nick]| < listMax
    }

    /** JoinChannel; "0" parts the user from all channels. */
    method JoinChannel(nick: Nick, chan: Name)
      requires Valid() && listMax > 0
      modifies this
      ensures Valid() <==> !old(HalfJoin(nick, chan))
      ensures users.Keys == old(users).Keys
      ensures old(Joins(nick, chan)) ==>
        && (forall u, c :: IsMember(u, c) <==> old(IsMember(u, c)) || (u == nick && c == chan))
        && users == old(users)[nick := old(users)[nick] + [chan]]
        && channelcount == old(channelcount) + (if chan in old(channels) then 0 else 1)
      ensures nick in users && chan == "0" ==>
        forall u, c :: IsMember(u, c) <==> old(IsMember(u, c)) && u != nick
      ensures !old(Joins(nick, chan)) && !old(HalfJoin(nick, chan)) && (nick !in users || chan != "0") ==>
        channels == old(channels) && users == old(users)
      ensures old(HalfJoin(nick, chan)) ==>
        users == old(users) && forall u, c :: IsMember(u, c) <==> old(IsMember(u, c)) || (u == nick && c == chan)
      ensures zombies == if chan == "0" && nick in users && old(users)[nick] != [] then old(zombies) - {nick} else old(zombies)
    {
      hide Valid;
      if nick !in users {
        return;
      }
      if chan == "0" {
        PartAllChannels(nick);
        return;
      }
      if chan in channels {
        if nick in channels[chan].members {
          return;
        }
        if |channels[chan].members| >= listMax {
          return;
        }
      }
      Enter(nick, chan);
    }

    /** The rest of JoinChannel: the channel lists the user, and the user the channel if there is room. */
    method Enter(nick: Nick, chan: Name)
      requires Valid() && nick in users && !IsMember(nick, chan)
      modifies `channels, `users, `channelcount
      ensures Valid() <==> |old(users)[nick]| < listMax
      ensures users == if |old(users)[nick]| < listMax then old(users)[nick := old(users)[nick] + [chan]] else old(users)
      ensures forall u, c :: IsMember(u, c) <==> old(IsMember(u, c)) || (u == nick && c == chan)
      ensures channelcount == old(channelcount) + (if chan in old(channels) then 0 else 1)
    {
      if chan !in channels {
        channels, channelcount := channels[chan := Channel([], 0)], channelcount + 1;
      }
      var c := channels[chan];
      channels := channels[chan := Channel(c.members + [nick], c.users + 1)];
      if |users[nick]| >= listMax {
        HalfJoined(old(channels), nick, chan);
        return;
      }
      users := users[nick := users[nick] + [chan]];
      JoinedValid(old(channels), old(users), nick, chan);
    }

    /** The channel lists the user, the user not the channel. */
    lemma HalfJoined(was: map<Name, Channel>, nick: Nick, chan: Name)
      requires nick in users && UserOk(nick, users[nick], was) && (chan in was ==> nick !in was[chan].members)
      requires var before := if chan in was then was[chan] else Channel([], 0);
        channels == was[chan := Channel(before.members + [nick], before.users + 1)]
      ensures !Valid()
    {
      assert nick == channels[chan].members[|channels[chan].members| - 1];
      assert !ChannelOk(chan, channels[chan], users);
    }

    lemma JoinedValid(was: map<Name, Channel>, whose: map<Nick, seq<Name>>, nick: Nick, chan: Name)
      requires nick in whose && (forall c :: c in was ==> ChannelOk(c, was[c], whose))
      requires forall u :: u in whose ==> UserOk(u, whose[u], was)
      requires chan in was ==> nick !in was[chan].members
      requires var before := if chan in was then was[chan] else Channel([], 0);
        channels == was[chan := Channel(before.members + [nick], before.users + 1)]
      requires users == whose[nick := whose[nick] + [chan]]
      requires channelcount == |was| + (if chan in was then 0 else 1)
      ensures Valid()
    {
      assert chan !in whose[nick] by {
        assert UserOk(nick, whose[nick], was);
      }
      forall c | c in channels
        ensures ChannelOk(c, channels[c], users)
      {
        if c in was {
          assert ChannelOk(c, was[c], whose);
        }
      }
      forall u | u in users
        ensures UserOk(u, users[u], channels)
      {
        assert UserOk(u, whose[u], was);
      }
      if chan !in was {
        assert channels.Keys == was.Keys + {chan};
      }
      assert |channels| == |channels.Keys| && |was| == |was.Keys|;
      if chan in was {
        assert channels.Keys == was.Keys;
      }
    }

    /** del_user_channel and del_channel_member, then CheckEmptyChannel. */
    method Leave(nick: Nick, chan: Name)
      requires Valid() && nick in users && chan in channels
      modifies `channels, `users, `channelcount
      ensures Valid() && users.Keys == old(users).Keys
      ensures forall u, c :: IsMember(u, c) <==> old(IsMember(u, c)) && !(u == nick && c == chan)
      ensures users == old(users)[nick := Without(old(users)[nick], chan)]
      ensures channelcount == old(channelcount) - (if old(channels)[chan].members == [nick] then 1 else 0)
    {
      var ch := channels[chan];
      assert ChannelOk(chan, ch, users);
      assert UserOk(nick, users[nick], channels);
      WithoutIs(users[nick], chan);
      WithoutIs(ch.members, nick);
      users := users[nick := Without(users[nick], chan)];
      if nick in ch.members {
        ch := Channel(Without(ch.members, nick), if ch.users > 0 then ch.users - 1 else ch.users);
        channels := channels[chan := ch];
      }
      if ch.users == 0 {
        assert ch.members == [];
        channels, channelcount := channels - {chan}, channelcount - 1;
      }
      LeftValid(old(channels), old(users), nick, chan);
    }

    lemma LeftValid(was: map<Name, Channel>, whose: map<Nick, seq<Name>>, nick: Nick, chan: Name)
      requires nick in whose && chan in was && (forall c :: c in was ==> ChannelOk(c, was[c], whose))
      requires forall u :: u in whose ==> UserOk(u, whose[u], was)
      requires users == whose[nick := Without(whose[nick], chan)]
      requires var left := Without(was[chan].members, nick);
        && channels == (if left == [] then was - {chan} else was[chan := Channel(left, |left|)])
        && channelcount == |was| - (if left == [] then 1 else 0)
      ensures Valid()
      ensures forall u, c :: IsMember(u, c) <==> c in was && u in was[c].members && !(u == nick && c == chan)
      ensures Without(was[chan].members, nick) == [] <==> was[chan].members == [nick]
    {
      var left := Without(was[chan].members, nick);
      assert ChannelOk(chan, was[chan], whose);
      WithoutIs(was[chan].members, nick);
      WithoutIs(whose[nick], chan);
      forall c | c in channels
        ensures ChannelOk(c, channels[c], users)
      {
        assert ChannelOk(c, was[c], whose);
      }
      forall u | u in users
        ensures UserOk(u, users[u], channels)
      {
        assert UserOk(u, whose[u], was);
        assert UserOk(nick, whose[nick], was);
      }
      CountKeys(was, chan, Channel(left, |left|));
      if left == [] {
        assert |was[chan].members| == 1 && was[chan].members[0] == nick;
      }
    }

    static lemma CountKeys(m: map<Name, Channel>, chan: Name, ch: Channel)
      requires chan in m
      ensures |m[chan := ch]| == |m| && |m - {chan}| == |m| - 1
    {
      assert m[chan := ch].Keys == m.Keys && (m - {chan}).Keys == m.Keys - {chan};
      assert |m[chan := ch]| == |m[chan := ch].Keys| && |m - {chan}| == |(m - {chan}).Keys| && |m| == |m.Keys|;
    }

    /** PartChannel. A kicked user's part completes the kick. */
    method PartChannel(nick: Nick, chan: Name)
      requires Valid() && nick in users
      modifies this
      ensures Valid() && users.Keys == old(users).Keys
      ensures forall u, c :: IsMember(u, c) <==> old(IsMember(u, c)) && !(u == nick && c == chan)
      ensures zombies == if chan in old(channels) then old(zombies) - {nick} else old(zombies)
      ensures chan !in old(channels) ==> channels == old(channels) && users == old(users)
      ensures chan in old(channels) ==> users == old(users)[nick := Without(old(users)[nick], chan)]
    {
      if chan !in channels {
        return;
      }
      Leave(nick, chan);
      zombies := zombies - {nick};
    }

    /** KickChannel. Where the server also sends a part, the kick only marks the user. */
    method KickChannel(kicked: Nick, chan: Name, kickPart: bool)
      requires Valid()
      modifies this
      ensures Valid() && users.Keys == old(users).Keys
      ensures var acts := kicked in old(users) && chan in old(channels);
        && (forall u, c :: IsMember(u, c) <==>
          old(IsMember(u, c)) && !(acts && !kickPart && u == kicked && c == chan))
        && zombies == if acts && kickPart then old(zombies) + {kicked} else old(zombies)
    {
      if kicked !in users || chan !in channels {
        return;
      }
      if kickPart {
        zombies := zombies + {kicked};
      } else {
        Leave(kicked, chan);
      }
    }

    /** PartAllChannels: list_process visits the nodes the list had, each part deleting its own. */
    method PartAllChannels(nick: Nick)
      requires Valid() && nick in users
      modifies this
      ensures Valid() && users == old(users)[nick := []]
      ensures forall u, c :: IsMember(u, c) <==> old(IsMember(u, c)) && u != nick
      ensures zombies == if old(users)[nick] == [] then old(zombies) else old(zombies) - {nick}
    {
      var rest := users[nick];
      while rest != []
        invariant zombies == if rest == old(users)[nick] then old(zombies) else old(zombies) - {nick}
        invariant |rest| <= |old(users)[nick]|
        invariant Valid() && nick in users && users == old(users)[nick := rest]
        invariant forall u, c :: IsMember(u, c) <==> old(IsMember(u, c)) && (u != nick || c in rest)
        decreases |rest|
      {
        assert UserOk(nick, rest, channels);
        WithoutHead(rest);
        PartChannel(nick, rest[0]);
        rest := rest[1..];
      }
    }

    static lemma WithoutHead(s: seq<Name>)
      requires s != [] && NoDup(s)
      ensures Without(s, s[0]) == s[1..] && s[0] !in s[1..] && s == [s[0]] + s[1..]
    {
    }
  }

  datatype Event =
    | Connect(nick: Nick)
    | Join(nick: Nick, chan: Name)
    | Part(nick: Nick, chan: Name)
    | Kick(nick: Nick, chan: Name, kickPart: bool)
    | PartAll(nick: Nick)

  // ---------------------------------------------------------------- what the events say

  /** Who is connected, who is where, and who was kicked but has not parted yet. */
  datatype Book = Book(users: set<Nick>, at: set<(Nick, Name)>, zombies: set<Nick>)

  function Members(b: Book, chan: Name): set<Nick> {
    set p | p in b.at && p.1 == chan :: p.0
  }

  function ChannelsOf(b: Book, nick: Nick): set<Name> {
    set p | p in b.at && p.0 == nick :: p.1
  }

  /** A user not there yet asks to join a channel that has room. */
  predicate Admits(b: Book, nick: Nick, chan: Name, listMax: nat) {
    nick in b.users && chan != "0" && (nick, chan) !in b.at && |Members(b, chan)| < listMax
  }

  /** A join the channel admits and the user's own list has no room for. */
  predicate Overfull(b: Book, e: Event, listMax: nat) {
    e.Join? && Admits(b, e.nick, e.chan, listMax) && |ChannelsOf(b, e.nick)| >= listMax
  }

  /** The user leaves every channel. */
  function Parted(b: Book, nick: Nick): Book {
    b.(at := (set p | p in b.at && p.0 != nick),
       zombies := if ChannelsOf(b, nick) == {} then b.zombies else b.zombies - {nick})
  }

  function After(b: Book, e: Event, listMax: nat): Book {
    match e
    case Connect(nick) => b.(users := b.users + {nick})
    case Join(nick, chan) =>
      if nick in b.users && chan == "0" then Parted(b, nick)
      else if Admits(b, nick, chan, listMax) && |ChannelsOf(b, nick)| < listMax then b.(at := b.at + {(nick, chan)})
      else b
    case Part(nick, chan) =>
      if nick in b.users && Members(b, chan) != {} then Book(b.users, b.at - {(nick, chan)}, b.zombies - {nick}) else b
    case Kick(nick, chan, kickPart) =>
      if nick !in b.users || Members(b, chan) == {} then b
      else if kickPart then b.(zombies := b.zombies + {nick})
      else b.(at := b.at - {(nick, chan)})
    case PartAll(nick) => if nick in b.users then Parted(b, nick) else b
  }

  function Told(events: seq<Event>, listMax: nat): Book {
    if events == [] then Book({}, {}, {})
    else After(Told(events[..|events| - 1], listMax), events[|events| - 1], listMax)
  }

  /** The index says what the book says. */
  ghost predicate Keeps(index: ChannelIndex, b: Book)
    reads index
  {
    && index.Valid() && index.users.Keys == b.users && index.zombies == b.zombies
    && forall u, c :: index.IsMember(u, c) <==> (u, c) in b.at
  }

  /** The lists are as long as the book's sets, and empty channels are gone. */
  lemma KeepsSizes(index: ChannelIndex, b: Book, nick: Nick, chan: Name)
    requires Keeps(index, b)
    ensures if chan in index.channels then |index.channels[chan].members| == |Members(b, chan)| > 0 else Members(b, chan) == {}
    ensures nick in index.users ==> |index.users[nick]| == |ChannelsOf(b, nick)|
    ensures nick in index.users ==> (index.users[nick] == [] <==> ChannelsOf(b, nick) == {})
  {
    if chan in index.channels {
      var ms := index.channels[chan].members;
      assert ChannelIndex.ChannelOk(chan, index.channels[chan], index.users);
      assert forall u :: u in Members(b, chan) <==> (u, chan) in b.at;
      assert forall u :: u in ms <==> index.IsMember(u, chan);
      assert Members(b, chan) == Elements(ms);
      ElementsSize(ms);
    } else {
      assert forall u :: !index.IsMember(u, chan);
    }
    if nick in index.users {
      var cs := index.users[nick];
      assert ChannelIndex.UserOk(nick, cs, index.channels);
      forall c
        ensures c in cs <==> index.IsMember(nick, c)
      {
        if index.IsMember(nick, c) {
          assert ChannelIndex.ChannelOk(c, index.channels[c], index.users);
        }
      }
      assert ChannelsOf(b, nick) == Elements(cs);
      ElementsSize(cs);
    }
  }

  /** One event. */
  method Happen(index: ChannelIndex, e: Event, ghost b: Book)
    requires Keeps(index, b) && index.listMax > 0 && !Overfull(b, e, index.listMax)
    modifies index
    ensures Keeps(index, After(b, e, index.listMax))
  {
    hide ChannelIndex.Valid;
    match e {
      case Connect(nick) =>
        if nick !in index.users {
          index.AddUser(nick);
        }
      case Join(nick, chan) =>
        KeepsSizes(index, b, nick, chan);
        index.JoinChannel(nick, chan);
      case Part(nick, chan) =>
        KeepsSizes(index, b, nick, chan);
        if nick in index.users {
          index.PartChannel(nick, chan);
        }
      case Kick(nick, chan, kickPart) =>
        KeepsSizes(index, b, nick, chan);
        index.KickChannel(nick, chan, kickPart);
      case PartAll(nick) =>
        KeepsSizes(index, b, nick, "0");
        if nick in index.users {
          index.PartAllChannels(nick);
        }
    }
  }

  /** One event gives a user one more channel at most. */
  lemma OneMore(b: Book, e: Event, listMax: nat, nick: Nick)
    ensures |ChannelsOf(After(b, e, listMax), nick)| <= |ChannelsOf(b, nick)| + 1
  {
    var now := ChannelsOf(After(b, e, listMax), nick);
    if e.Join? {
      assert now <= ChannelsOf(b, nick) + {e.chan};
      SubsetSize(now, ChannelsOf(b, nick) + {e.chan});
    } else {
      assert now <= ChannelsOf(b, nick);
      SubsetSize(now, ChannelsOf(b, nick));
    }
  }

  lemma {:induction false} FewChannels(events: seq<Event>, listMax: nat, nick: Nick)
    ensures |ChannelsOf(Told(events, listMax), nick)| <= |events|
  {
    hide After;
    if events == [] {
      assert ChannelsOf(Told(events, listMax), nick) == {};
    } else {
      var n := |events| - 1;
      FewChannels(events[..n], listMax, nick);
      OneMore(Told(events[..n], listMax), events[n], listMax, nick);
    }
  }

  /** Over every run the index stays valid and says exactly what the events before said, up to the
      first join of a user whose own list is full; the run stops there. That takes more events than a
      list has room for. */
  method Run(events: seq<Event>, listMax: nat) returns (index: ChannelIndex, done: nat)
    requires listMax > 0
    ensures done <= |events| && Keeps(index, Told(events[..done], listMax))
    ensures forall i :: 0 <= i < done ==> !Overfull(Told(events[..i], listMax), events[i], listMax)
    ensures done < |events| ==>
      Overfull(Told(events[..done], listMax), events[done], listMax) && index.HalfJoin(events[done].nick, events[done].chan)
    ensures |events| <= listMax ==> done == |events|
  {
    hide After, Overfull, ChannelIndex.Valid;
    index := new ChannelIndex(listMax);
    done := 0;
    NothingTold(index, listMax);
    while done < |events|
      invariant fresh(index) && index.listMax == listMax && done <= |events| && Keeps(index, Told(events[..done], listMax))
      invariant forall i :: 0 <= i < done ==> !Overfull(Told(events[..i], listMax), events[i], listMax)
    {
      ghost var b := Told(events[..done], listMax);
      OverfullIsHalf(index, b, events[done]);
      EnoughRoom(events[..done], events[done], listMax);
      if events[done].Join? && index.HalfJoin(events[done].nick, events[done].chan) {
        return;
      }
      Happen(index, events[done], b);
      assert events[..done + 1][..done] == events[..done];
      done := done + 1;
    }
  }

  lemma EnoughRoom(before: seq<Event>, e: Event, listMax: nat)
    ensures Overfull(Told(before, listMax), e, listMax) ==> |before| >= listMax
  {
    hide Told;
    if e.Join? {
      FewChannels(before, listMax, e.nick);
    }
  }

  lemma NothingTold(index: ChannelIndex, listMax: nat)
    requires index.Valid() && index.users == map[] && index.channels == map[] && index.zombies == {}
    ensures Keeps(index, Told([], listMax))
  {
  }

  lemma OverfullIsHalf(index: ChannelIndex, b: Book, e: Event)
    requires Keeps(index, b) && index.listMax > 0
    ensures Overfull(b, e, index.listMax) <==> e.Join? && index.HalfJoin(e.nick, e.chan)
  {
    hide ChannelIndex.Valid;
    if e.Join? {
      KeepsSizes(index, b, e.nick, e.chan);
    }
  }

  lemma NobodyThere(index: ChannelIndex, chan: Name)
    requires index.Valid() && forall u :: !index.IsMember(u, chan)
    ensures chan !in index.channels
  {
    if chan in index.channels {
      var ch := index.channels[chan];
      assert ChannelIndex.ChannelOk(chan, ch, index.users);
      assert index.IsMember(ch.members[0], chan);
    }
  }

  /** With room for one entry in a list, a user's second join leaves the channel listing the user and
      the user not listing the channel. */
  method SecondJoinSplits() returns (index: ChannelIndex)
    ensures index.IsMember("a", "y") && "a" in index.users && "y" !in index.users["a"] && !index.Valid()
  {
    hide ChannelIndex.Valid;
    index := new ChannelIndex(1);
    index.AddUser("a");
    index.JoinChannel("a", "x");
    NobodyThere(index, "y");
    index.JoinChannel("a", "y");
  }
}
