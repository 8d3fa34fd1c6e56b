/**
 The model as the client holds it, updated in place (crates/obby-client/src/model.rs and
 crates/obby-client/src/session.rs). Each method leaves the state that the function of its name says.
 */
module ModelMethods {
  import opened Wrappers
  import opened Integers
  import opened Casemap
  import opened MessageLogs
  import opened Messages
  import opened Models
  import Caps

  class Model {
    const retention: nat
    var me: string
    var channels: map<string, Channel>
    var conversations: map<string, Conversation>
    var people: map<string, Person>
    var whois: map<string, Whois>
    var nextSeq: u64
    var latest: u64

    function View(): State
      reads this
    {
      State(me, channels, conversations, people, whois, nextSeq, latest, retention)
    }

    constructor (me: string, retention: nat)
      ensures View() == Fresh(me, retention)
    {
      this.me := me;
      this.retention := if retention == 0 then 1 else retention;
      channels, conversations, people, whois := map[], map[], map[], map[];
      nextSeq, latest := 0, 0;
    }

    method NextMessageKey(time: u64) returns (key: Key)
      modifies this`nextSeq
      ensures key == Key(time, old(nextSeq)) && View() == old(View()).(nextSeq := NextSeq(old(nextSeq)))
    {
      key := Key(time, nextSeq);
      nextSeq := NextSeq(nextSeq);
    }

    method PersonSeen(key: string, nick: string)
      modifies this`people
      ensures View() == old(View()).(people := PersonOrInsert(old(people), key, nick))
    {
      if key !in people {
        people := people[key := Person(nick)];
      }
    }

    /** Move every membership of one folded nick to another, channel by channel. */
    method MoveMemberships(f: string, t: string)
      modifies this`channels
      ensures View() == old(View()).(channels :=
        map c | c in old(channels) :: old(channels)[c].(members := Moved(old(channels)[c].members, f, t)))
    {
      var todo := channels.Keys;
      while todo != {}
        invariant todo <= channels.Keys == old(channels).Keys
        invariant forall c | c in channels ::
          channels[c] == if c in todo then old(channels)[c]
                         else old(channels)[c].(members := Moved(old(channels)[c].members, f, t))
      {
        var c :| c in todo;
        var channel := channels[c];
        if f in channel.members {
          channel := channel.(members := (channel.members - {f}) + {t});
        }
        channels := channels[c := channel];
        todo := todo - {c};
      }
    }

    method Rename(env: Env, from: string, to: string)
      modifies this
      ensures View() == RenamedPerson(env, old(View()), from, to)
    {
      var f, t := Fold(env.mapping, from), Fold(env.mapping, to);
      MoveMemberships(f, t);
      if f in conversations {
        var query := conversations[f].(nick := to);
        conversations := conversations - {f};
        conversations := conversations[t := query];
      }
      if f in people {
        var person := people[f].(nick := to);
        people := people - {f};
        people := people[t := person];
      }
      if SameName(env.mapping, me, from) {
        me := to;
      }
    }

    method RenameChannel(env: Env, from: string, to: string) returns (wereIn: bool)
      modifies this`channels
      ensures View() == RenamedChannel(env, old(View()), from, to)
      ensures wereIn <==> Fold(env.mapping, from) in old(channels)
    {
      var f := Fold(env.mapping, from);
      if f !in channels {
        return false;
      }
      var channel := channels[f].(name := to);
      channels := channels - {f};
      channels := channels[Fold(env.mapping, to) := channel];
      return true;
    }

    method RemoveEverywhere(who: string) returns (left: set<string>)
      modifies this`channels
      ensures View() == old(View()).(channels := MembersWithout(old(channels), who))
      ensures left == set f | f in old(channels) && who in old(channels)[f].members
    {
      left := {};
      var todo := channels.Keys;
      while todo != {}
        invariant todo <= channels.Keys == old(channels).Keys
        invariant forall c | c in channels ::
          channels[c] == if c in todo then old(channels)[c]
                         else old(channels)[c].(members := old(channels)[c].members - {who})
        invariant left == set f | f in old(channels) && f !in todo && who in old(channels)[f].members
      {
        var c :| c in todo;
        if who in channels[c].members {
          left := left + {c};
        }
        channels := channels[c := channels[c].(members := channels[c].members - {who})];
        todo := todo - {c};
      }
    }

    method ForgetStrangers()
      modifies this`people, this`whois
      ensures View() == Forgotten(old(View()))
    {
      var keep := conversations.Keys;
      var todo := channels.Keys;
      while todo != {}
        invariant todo <= channels.Keys
        invariant keep == conversations.Keys + set f, m | f in channels && f !in todo && m in channels[f].members :: m
      {
        var c :| c in todo;
        keep := keep + channels[c].members;
        todo := todo - {c};
      }
      assert keep == conversations.Keys + AllMembers(channels);
      people := map k | k in people && (k in keep || people[k].nick == me) :: people[k];
      whois := map k | k in whois && k in keep :: whois[k];
    }

    method WhoisRecord(key: string, nick: string)
      modifies this`whois
      ensures View() == old(View()).(whois := WhoisOrInsert(old(whois), key, nick))
    {
      if |whois| >= MAX_WHOIS_RECORDS && key !in whois {
        var stale := Stale(whois);
        whois := whois - {stale};
      }
      if key !in whois || whois[key].complete || whois[key].nick == "" {
        whois := whois[key := Whois(nick, false)];
      }
    }

    // ---- one line ----

    method HandleMessage(env: Env, line: Message, verb: MessageVerb, historical: bool)
      modifies this
      ensures View() == MessageApplied(env, old(View()), line, verb, historical)
    {
      if line.params == [] {
        return;
      }
      if verb == Tagged && (IsReaction(env, View(), line) || env.isPreview(line)) {
        return;
      }
      var time := StampOf(line, latest);
      if time > latest {
        latest := time;
      }
      var key := NextMessageKey(time);
      var own := SameName(env.mapping, me, Sender(line));
      var message := NewMessage(env, line, verb, key);
      var (name, isChannel) := Place(env, line, own);
      var counts := !own && !historical;
      FileMessage(env, message, name, isChannel, counts);
    }

    method FileMessage(env: Env, m: ChatMessage, name: string, isChannel: bool, counts: bool)
      modifies this`channels, this`conversations
      ensures View() == Filed(env, old(View()), m, name, isChannel, counts)
    {
      var f := Fold(env.mapping, name);
      if isChannel {
        if f !in channels {
          return;
        }
        var channel := channels[f];
        var accepted := !Known(channel.log, m);
        channel := channel.(log := Inserted(channel.log, m, retention));
        if accepted && counts {
          channel := channel.(unread := Bumped(channel.unread));
          if Addresses(env, m.text, me) {
            channel := channel.(mentions := Bumped(channel.mentions));
          }
        }
        channels := channels[f := channel];
      } else {
        var query := if f in conversations then conversations[f] else Conversation(name, EMPTY, 0, None);
        var accepted := !Known(query.log, m);
        query := query.(log := Inserted(query.log, m, retention));
        if accepted && counts {
          query := query.(unread := Bumped(query.unread));
        }
        conversations := conversations[f := query];
      }
    }

    method HandleJoin(env: Env, line: Message)
      modifies this
      ensures View() == JoinApplied(env, old(View()), line)
    {
      if line.params == [] {
        return;
      }
      var name, who := line.params[0], Sender(line);
      var f := Fold(env.mapping, name);
      if SameName(env.mapping, me, who) {
        if f !in channels {
          channels := channels[f := Channel(name, {}, EMPTY, 0, 0, None)];
        }
        return;
      }
      if f !in channels {
        return;
      }
      AddMember(f, Fold(env.mapping, who), who);
    }

    method AddMember(f: string, key: string, nick: string)
      requires f in channels
      modifies this`people, this`channels
      ensures View() == WithMember(old(View()), f, key, nick)
    {
      people := people[key := Person(nick)];
      channels := channels[f := channels[f].(members := channels[f].members + {key})];
    }

    /** Someone left a channel, by PART or by KICK. */
    method HandleDeparture(env: Env, name: string, who: string)
      modifies this
      ensures var f := FoldName(env, name);
              View() == if IsMe(env, old(View()), who) then old(View()).(channels := old(channels) - {f})
                        else Forgotten(WithoutMember(old(View()), f, FoldName(env, who)))
    {
      var f := Fold(env.mapping, name);
      if SameName(env.mapping, me, who) {
        channels := channels - {f};
        return;
      }
      if f in channels {
        channels := channels[f := channels[f].(members := channels[f].members - {Fold(env.mapping, who)})];
      }
      ForgetStrangers();
    }

    method HandleQuit(env: Env, line: Message)
      modifies this
      ensures View() == QuitApplied(env, old(View()), line)
    {
      var _ := RemoveEverywhere(Fold(env.mapping, Sender(line)));
      ForgetStrangers();
    }

    method HandleNames(env: Env, line: Message)
      modifies this
      ensures View() == NamesLineApplied(env, old(View()), line)
    {
      if |line.params| < 3 {
        return;
      }
      var f := Fold(env.mapping, line.params[2]);
      var entries := Caps.Tokens(Trailing(line));
      for i := 0 to |entries|
        invariant View() == NamesApplied(env, old(View()), f, entries[..i])
      {
        assert entries[..i + 1][..i] == entries[..i];
        var nick := EntryNick(env, entries[i]);
        if nick != "" && f in channels {
          AddMember(f, Fold(env.mapping, nick), nick);
        }
      }
      assert entries[..|entries|] == entries;
    }

    method HandleWho(env: Env, channel: string, nick: string)
      modifies this
      ensures View() == WhoApplied(env, old(View()), channel, nick)
    {
      var key, f := Fold(env.mapping, nick), Fold(env.mapping, channel);
      people := people[key := Person(nick)];
      if IsChannel(env, channel) && f in channels {
        channels := channels[f := channels[f].(members := channels[f].members + {key})];
      }
    }

    method HandleMarkRead(env: Env, line: Message)
      modifies this
      ensures View() == MarkReadApplied(env, old(View()), line)
    {
      if |line.params| < 2 {
        return;
      }
      var prefix := "timestamp=";
      var marker := if prefix <= line.params[1] then line.params[1][|prefix|..] else line.params[1];
      var f := Fold(env.mapping, line.params[0]);
      if f in channels {
        channels := channels[f := channels[f].(readMarker := Some(marker), unread := 0, mentions := 0)];
      } else if f in conversations {
        conversations := conversations[f := conversations[f].(readMarker := Some(marker), unread := 0)];
      }
    }

    method HandleWhois(env: Env, line: Message, closes: bool)
      modifies this
      ensures View() == WhoisApplied(env, old(View()), line, closes)
    {
      if |line.params| < 2 {
        return;
      }
      var nick := line.params[1];
      var key := Fold(env.mapping, nick);
      if !closes {
        WhoisRecord(key, nick);
      } else if key in whois {
        whois := whois[key := whois[key].(complete := true)];
      }
    }

    method HandleMetadata(env: Env, line: Message, offset: nat)
      modifies this
      ensures View() == MetadataApplied(env, old(View()), line, offset)
    {
      if |line.params| < offset + 2 {
        return;
      }
      var target := if line.params[offset] == "*" then me else line.params[offset];
      if !IsChannel(env, target) {
        PersonSeen(Fold(env.mapping, target), target);
      }
    }

    method Apply(env: Env, line: Message, historical: bool)
      modifies this
      ensures View() == Applied(env, old(View()), line, historical)
    {
      match VerbOf(line.command) {
        case OnMessage(m) => HandleMessage(env, line, m, historical);
        case OnJoin => HandleJoin(env, line);
        case OnPart =>
          if line.params != [] {
            HandleDeparture(env, line.params[0], Sender(line));
          }
        case OnKick =>
          if |line.params| >= 2 {
            HandleDeparture(env, line.params[0], line.params[1]);
          }
        case OnQuit => HandleQuit(env, line);
        case OnNick =>
          if line.params != [] {
            Rename(env, Sender(line), line.params[0]);
          }
        case OnRename =>
          if |line.params| >= 2 {
            var _ := RenameChannel(env, line.params[0], line.params[1]);
          }
        case OnMarkRead => HandleMarkRead(env, line);
        case OnStatus => PersonSeen(Fold(env.mapping, Sender(line)), Sender(line));
        case OnMetadata(offset) => HandleMetadata(env, line, offset);
        case OnWhois(closes) => HandleWhois(env, line, closes);
        case OnNames => HandleNames(env, line);
        case OnWho =>
          if |line.params| >= 7 {
            HandleWho(env, line.params[1], line.params[5]);
          }
        case OnWhox =>
          if |line.params| >= 8 && line.params[1] == WHOX_TOKEN {
            HandleWho(env, line.params[2], line.params[5]);
          }
        case OnOther =>
      }
    }

    /** The connection died: who was where, and what WHOIS said, are no longer known. */
    method Disconnect()
      modifies this
      ensures View() == Disconnected(old(View()))
    {
      whois := map[];
      var todo := channels.Keys;
      while todo != {}
        invariant View() == old(View()).(channels := channels, whois := map[])
        invariant todo <= channels.Keys == old(channels).Keys
        invariant forall c | c in channels ::
          channels[c] == if c in todo then old(channels)[c] else old(channels)[c].(members := {})
      {
        var c :| c in todo;
        channels := channels[c := channels[c].(members := {})];
        todo := todo - {c};
      }
    }
  }
}
