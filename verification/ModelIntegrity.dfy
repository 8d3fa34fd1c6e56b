/** What every line, and so every run of lines, keeps true of the model. */
module ModelIntegrity {
  import opened Integers
  import opened Maps
  import opened MessageLogs
  import opened Messages
  import opened Models
  import Caps

  // ---- members have records ----

  predicate MembersKnown(st: State) {
    AllMembers(st.channels) <= st.people.Keys
  }

  lemma ForgettingKeepsMembers(st: State)
    requires MembersKnown(st)
    ensures MembersKnown(Forgotten(st))
  {
  }

  lemma AddingAMember(st: State, f: string, key: string, nick: string)
    requires MembersKnown(st) && f in st.channels
    ensures MembersKnown(WithMember(st, f, key, nick))
  {
    var after := WithMember(st, f, key, nick);
    forall m | m in AllMembers(after.channels) ensures m in after.people {
      var g :| g in after.channels && m in after.channels[g].members;
      assert m == key || (g in st.channels && m in st.channels[g].members);
    }
  }

  lemma FewerMembers(st: State, after: State)
    requires MembersKnown(st) && st.people.Keys <= after.people.Keys
    requires forall f | f in after.channels ::
               after.channels[f].members == {} || exists g | g in st.channels :: after.channels[f].members <= st.channels[g].members
    ensures MembersKnown(after)
  {
    forall m | m in AllMembers(after.channels) ensures m in after.people {
      var f :| f in after.channels && m in after.channels[f].members;
      var g :| g in st.channels && after.channels[f].members <= st.channels[g].members;
      assert m in st.channels[g].members && m in AllMembers(st.channels);
    }
  }

  lemma RenamingKeepsMembers(env: Env, st: State, from: string, to: string)
    requires MembersKnown(st)
    ensures MembersKnown(RenamedPerson(env, st, from, to))
  {
    var f, t := FoldName(env, from), FoldName(env, to);
    var after := RenamedPerson(env, st, from, to);
    forall m | m in AllMembers(after.channels) ensures m in after.people {
      var c :| c in after.channels && m in after.channels[c].members;
      assert m in st.channels[c].members || f in st.channels[c].members;
      assert m in st.channels[c].members ==> m in AllMembers(st.channels);
      assert f in st.channels[c].members ==> f in AllMembers(st.channels);
    }
  }

  lemma {:induction false} NamesKeepMembers(env: Env, st: State, f: string, entries: seq<string>)
    requires MembersKnown(st)
    ensures MembersKnown(NamesApplied(env, st, f, entries))
  {
    if entries != [] {
      var before := NamesApplied(env, st, f, entries[..|entries| - 1]);
      NamesKeepMembers(env, st, f, entries[..|entries| - 1]);
      var nick := EntryNick(env, entries[|entries| - 1]);
      if nick != "" && f in before.channels {
        AddingAMember(before, f, FoldName(env, nick), nick);
      }
    }
  }

  lemma RemovingAMember(st: State, f: string, key: string)
    requires MembersKnown(st)
    ensures MembersKnown(WithoutMember(st, f, key)) && MembersKnown(Forgotten(WithoutMember(st, f, key)))
  {
    FewerMembers(st, WithoutMember(st, f, key));
    ForgettingKeepsMembers(WithoutMember(st, f, key));
  }

  lemma WhoKeepsMembers(env: Env, st: State, channel: string, nick: string)
    requires MembersKnown(st)
    ensures MembersKnown(WhoApplied(env, st, channel, nick))
  {
    var key, f := FoldName(env, nick), FoldName(env, channel);
    if IsChannel(env, channel) && f in st.channels {
      AddingAMember(st, f, key, nick);
    }
  }

  lemma FilingKeepsMembers(env: Env, st: State, m: ChatMessage, name: string, isChannel: bool, counts: bool)
    requires MembersKnown(st)
    ensures MembersKnown(Filed(env, st, m, name, isChannel, counts))
  {
    var after := Filed(env, st, m, name, isChannel, counts);
    assert forall f | f in after.channels :: f in st.channels && after.channels[f].members == st.channels[f].members;
    FewerMembers(st, after);
  }

  lemma MessageKeepsMembers(env: Env, st: State, line: Message, verb: MessageVerb, historical: bool)
    requires MembersKnown(st)
    ensures MembersKnown(MessageApplied(env, st, line, verb, historical))
  {
    if line.params != [] {
      var time, own := StampOf(line, st.latest), IsMe(env, st, Sender(line));
      var (name, isChannel) := Place(env, line, own);
      FilingKeepsMembers(env, Noted(st, time), NewMessage(env, line, verb, Key(time, st.nextSeq)), name, isChannel, !own && !historical);
    }
  }

  /** Members leave, or the channel does. */
  lemma DepartureKeepsMembers(env: Env, st: State, line: Message, verb: Verb)
    requires MembersKnown(st) && (verb.OnPart? || verb.OnKick? || verb.OnQuit?)
    ensures MembersKnown(VerbApplied(env, st, line, verb, false))
  {
    match verb
    case OnPart =>
      if line.params != [] {
        RemovingAMember(st, FoldName(env, line.params[0]), FoldName(env, Sender(line)));
        FewerMembers(st, st.(channels := st.channels - {FoldName(env, line.params[0])}));
      }
    case OnKick =>
      if |line.params| >= 2 {
        RemovingAMember(st, FoldName(env, line.params[0]), FoldName(env, line.params[1]));
        FewerMembers(st, st.(channels := st.channels - {FoldName(env, line.params[0])}));
      }
    case OnQuit =>
      var gone := st.(channels := MembersWithout(st.channels, FoldName(env, Sender(line))));
      FewerMembers(st, gone);
      ForgettingKeepsMembers(gone);
  }

  lemma JoinKeepsMembers(env: Env, st: State, line: Message)
    requires MembersKnown(st)
    ensures MembersKnown(JoinApplied(env, st, line))
  {
    if line.params != [] {
      var f := FoldName(env, line.params[0]);
      if IsMe(env, st, Sender(line)) {
        FewerMembers(st, JoinApplied(env, st, line));
      } else if f in st.channels {
        AddingAMember(st, f, FoldName(env, Sender(line)), Sender(line));
      }
    }
  }

  lemma OthersKeepMembers(env: Env, st: State, line: Message, verb: Verb)
    requires MembersKnown(st)
    requires verb.OnStatus? || verb.OnMetadata? || verb.OnWhois? || verb.OnOther?
    ensures MembersKnown(VerbApplied(env, st, line, verb, false))
  {
    var after := VerbApplied(env, st, line, verb, false);
    assert after.channels == st.channels && st.people.Keys <= after.people.Keys;
  }

  lemma ChannelsKeepMembers(env: Env, st: State, line: Message, verb: Verb)
    requires MembersKnown(st) && (verb.OnRename? || verb.OnMarkRead?)
    ensures MembersKnown(VerbApplied(env, st, line, verb, false))
  {
    FewerMembers(st, VerbApplied(env, st, line, verb, false));
  }

  lemma LineKeepsMembers(env: Env, st: State, line: Message, historical: bool)
    requires MembersKnown(st)
    ensures MembersKnown(Applied(env, st, line, historical))
  {
    var verb := VerbOf(line.command);
    match verb
    case OnMessage(m) => MessageKeepsMembers(env, st, line, m, historical);
    case OnJoin => JoinKeepsMembers(env, st, line);
    case OnPart => DepartureKeepsMembers(env, st, line, verb);
    case OnKick => DepartureKeepsMembers(env, st, line, verb);
    case OnQuit => DepartureKeepsMembers(env, st, line, verb);
    case OnNick =>
      if line.params != [] {
        RenamingKeepsMembers(env, st, Sender(line), line.params[0]);
      }
    case OnNames =>
      if |line.params| >= 3 {
        NamesKeepMembers(env, st, FoldName(env, line.params[2]), Caps.Tokens(Trailing(line)));
      }
    case OnWho =>
      if |line.params| >= 7 {
        WhoKeepsMembers(env, st, line.params[1], line.params[5]);
      }
    case OnWhox =>
      if |line.params| >= 8 {
        WhoKeepsMembers(env, st, line.params[2], line.params[5]);
      }
    case OnRename => ChannelsKeepMembers(env, st, line, verb);
    case OnMarkRead => ChannelsKeepMembers(env, st, line, verb);
    case _ => OthersKeepMembers(env, st, line, verb);
  }

  // ---- counters, records, channels ----

  predicate MentionsWithinUnread(st: State) {
    forall f | f in st.channels :: st.channels[f].mentions <= st.channels[f].unread
  }

  predicate WhoisBounded(st: State) {
    |st.whois| <= MAX_WHOIS_RECORDS
  }

  lemma FilingKeepsCounts(env: Env, st: State, m: ChatMessage, name: string, isChannel: bool, counts: bool)
    requires MentionsWithinUnread(st)
    ensures MentionsWithinUnread(Filed(env, st, m, name, isChannel, counts))
  {
  }

  lemma {:induction false} NamesKeepChannels(env: Env, st: State, f: string, entries: seq<string>)
    ensures var after := NamesApplied(env, st, f, entries);
            && after.channels.Keys == st.channels.Keys && after.conversations == st.conversations
            && after.whois == st.whois && after.nextSeq == st.nextSeq && after.retention == st.retention
            && forall g | g in st.channels :: after.channels[g] == st.channels[g].(members := after.channels[g].members)
  {
    if entries != [] {
      NamesKeepChannels(env, st, f, entries[..|entries| - 1]);
    }
  }

  /** Channels may go and members may change, but nothing else about a channel does. */
  predicate ChannelsKept(st: State, after: State) {
    forall f | f in after.channels ::
      f in st.channels && after.channels[f] == st.channels[f].(members := after.channels[f].members)
  }

  /** Verbs that say who is where. */
  predicate Moves(verb: Verb) {
    verb.OnPart? || verb.OnQuit? || verb.OnKick? || verb.OnNick?
  }

  /** Verbs that only name people. */
  predicate Names(verb: Verb) {
    verb.OnStatus? || verb.OnMetadata? || verb.OnWhois? || verb.OnNames? || verb.OnWho? || verb.OnWhox? || verb.OnOther?
  }

  /** Nothing changes but who is known and who is where. */
  predicate OnlyLeft(st: State, after: State) {
    && ChannelsKept(st, after) && after.conversations == st.conversations && after.whois.Keys <= st.whois.Keys
    && after.nextSeq == st.nextSeq && after.retention == st.retention
  }

  lemma LeavingKeepsChannels(st: State, gone: State)
    requires ChannelsKept(st, gone) && gone == st.(channels := gone.channels)
    ensures OnlyLeft(st, Forgotten(gone))
  {
  }

  lemma LeavingAChannel(st: State, f: string, key: string)
    ensures OnlyLeft(st, Forgotten(WithoutMember(st, f, key)))
  {
    LeavingKeepsChannels(st, WithoutMember(st, f, key));
  }

  lemma PartKeepsChannels(env: Env, st: State, line: Message)
    ensures OnlyLeft(st, PartApplied(env, st, line))
  {
    if line.params != [] {
      LeavingAChannel(st, FoldName(env, line.params[0]), FoldName(env, Sender(line)));
    }
  }

  lemma KickKeepsChannels(env: Env, st: State, line: Message)
    ensures OnlyLeft(st, KickApplied(env, st, line))
  {
    if |line.params| >= 2 {
      LeavingAChannel(st, FoldName(env, line.params[0]), FoldName(env, line.params[1]));
    }
  }

  lemma QuitKeepsChannels(env: Env, st: State, line: Message)
    ensures OnlyLeft(st, QuitApplied(env, st, line))
  {
    LeavingKeepsChannels(st, st.(channels := MembersWithout(st.channels, FoldName(env, Sender(line)))));
  }

  lemma DeparturesKeepChannels(env: Env, st: State, line: Message, verb: Verb, historical: bool)
    requires verb.OnPart? || verb.OnQuit? || verb.OnKick?
    ensures OnlyLeft(st, VerbApplied(env, st, line, verb, historical))
  {
    match verb
    case OnPart => PartKeepsChannels(env, st, line);
    case OnKick => KickKeepsChannels(env, st, line);
    case OnQuit => QuitKeepsChannels(env, st, line);
  }

  lemma NickKeepsChannels(env: Env, st: State, line: Message)
    ensures var after := NickApplied(env, st, line);
            ChannelsKept(st, after) && after.nextSeq == st.nextSeq && after.retention == st.retention && after.whois == st.whois
  {
  }

  lemma MovesKeepChannels(env: Env, st: State, line: Message, verb: Verb, historical: bool)
    requires Moves(verb)
    ensures var after := VerbApplied(env, st, line, verb, historical);
            ChannelsKept(st, after) && after.nextSeq == st.nextSeq && after.retention == st.retention && after.whois.Keys <= st.whois.Keys
  {
    if verb.OnNick? {
      NickKeepsChannels(env, st, line);
    } else {
      DeparturesKeepChannels(env, st, line, verb, historical);
    }
  }

  /** Nothing changes but who is known, who is where, and what WHOIS told. */
  predicate OnlyNamed(st: State, after: State) {
    && ChannelsKept(st, after) && after.conversations == st.conversations
    && after.nextSeq == st.nextSeq && after.retention == st.retention
  }

  lemma WhoKeepsChannels(env: Env, st: State, channel: string, nick: string)
    ensures OnlyNamed(st, WhoApplied(env, st, channel, nick)) && WhoApplied(env, st, channel, nick).whois == st.whois
  {
  }

  lemma NamesLineKeepsChannels(env: Env, st: State, line: Message)
    ensures OnlyNamed(st, NamesLineApplied(env, st, line)) && NamesLineApplied(env, st, line).whois == st.whois
  {
    if |line.params| >= 3 {
      NamesKeepChannels(env, st, FoldName(env, line.params[2]), Caps.Tokens(Trailing(line)));
    }
  }

  lemma WhoLineKeepsChannels(env: Env, st: State, line: Message, verb: Verb, historical: bool)
    requires verb.OnWho? || verb.OnWhox?
    ensures var after := VerbApplied(env, st, line, verb, historical); OnlyNamed(st, after) && after.whois == st.whois
  {
    if verb.OnWho? && |line.params| >= 7 {
      WhoKeepsChannels(env, st, line.params[1], line.params[5]);
    } else if verb.OnWhox? && |line.params| >= 8 {
      WhoKeepsChannels(env, st, line.params[2], line.params[5]);
    }
  }

  lemma RecordsKeepChannels(env: Env, st: State, line: Message, verb: Verb, historical: bool)
    requires verb.OnStatus? || verb.OnMetadata? || verb.OnWhois? || verb.OnOther?
    ensures var after := VerbApplied(env, st, line, verb, historical);
            after.channels == st.channels && OnlyNamed(st, after) && (!verb.OnWhois? ==> after.whois == st.whois)
  {
  }

  lemma NamingKeepsChannels(env: Env, st: State, line: Message, verb: Verb, historical: bool)
    requires Names(verb)
    ensures var after := VerbApplied(env, st, line, verb, historical);
            OnlyNamed(st, after) && (!verb.OnWhois? ==> after.whois == st.whois)
  {
    if verb.OnNames? {
      NamesLineKeepsChannels(env, st, line);
    } else if verb.OnWho? || verb.OnWhox? {
      WhoLineKeepsChannels(env, st, line, verb, historical);
    } else {
      RecordsKeepChannels(env, st, line, verb, historical);
    }
  }

  lemma KeptChannelsKeepCounts(st: State, after: State)
    requires ChannelsKept(st, after) && MentionsWithinUnread(st)
    ensures MentionsWithinUnread(after)
  {
  }

  lemma LineKeepsCounts(env: Env, st: State, line: Message, historical: bool)
    requires MentionsWithinUnread(st)
    ensures MentionsWithinUnread(Applied(env, st, line, historical))
  {
    var verb := VerbOf(line.command);
    var after := Applied(env, st, line, historical);
    if Moves(verb) {
      MovesKeepChannels(env, st, line, verb, historical);
      KeptChannelsKeepCounts(st, after);
    } else if Names(verb) {
      NamingKeepsChannels(env, st, line, verb, historical);
      KeptChannelsKeepCounts(st, after);
    } else if verb.OnMessage? {
      MessageKeepsCounts(env, st, line, verb.m, historical);
    } else {
      ChannelVerbsKeepCounts(env, st, line, verb);
    }
  }

  lemma MessageKeepsCounts(env: Env, st: State, line: Message, verb: MessageVerb, historical: bool)
    requires MentionsWithinUnread(st)
    ensures MentionsWithinUnread(MessageApplied(env, st, line, verb, historical))
  {
    if line.params != [] {
      var time, own := StampOf(line, st.latest), IsMe(env, st, Sender(line));
      var (name, isChannel) := Place(env, line, own);
      FilingKeepsCounts(env, Noted(st, time), NewMessage(env, line, verb, Key(time, st.nextSeq)), name, isChannel, !own && !historical);
    }
  }

  lemma ChannelVerbsKeepCounts(env: Env, st: State, line: Message, verb: Verb)
    requires MentionsWithinUnread(st) && (verb.OnJoin? || verb.OnRename? || verb.OnMarkRead?)
    ensures MentionsWithinUnread(VerbApplied(env, st, line, verb, false))
  {
  }

  lemma SubmapSize<K, V>(a: map<K, V>, b: map<K, V>)
    requires a.Keys <= b.Keys
    ensures |a| <= |b|
  {
    SubsetSize(a.Keys, b.Keys);
    assert |a| == |a.Keys| && |b| == |b.Keys|;
  }

  lemma RoomIsMade(whois: map<string, Whois>, key: string, nick: string)
    requires |whois| <= MAX_WHOIS_RECORDS
    ensures |WhoisOrInsert(whois, key, nick)| <= MAX_WHOIS_RECORDS
  {
    if |whois| >= MAX_WHOIS_RECORDS && key !in whois {
      RemoveSize(whois, Stale(whois));
      PutSize(whois - {Stale(whois)}, key, Whois(nick, false));
    } else {
      PutSize(whois, key, Whois(nick, false));
    }
  }

  lemma LineKeepsWhoisBounded(env: Env, st: State, line: Message, historical: bool)
    requires WhoisBounded(st)
    ensures WhoisBounded(Applied(env, st, line, historical))
  {
    var verb := VerbOf(line.command);
    var after := Applied(env, st, line, historical);
    if verb.OnWhois? {
      if |line.params| >= 2 {
        var key := FoldName(env, line.params[1]);
        RoomIsMade(st.whois, key, line.params[1]);
        if key in st.whois {
          PutSize(st.whois, key, st.whois[key].(complete := true));
        }
      }
    } else if Moves(verb) {
      MovesKeepChannels(env, st, line, verb, historical);
      SubmapSize(after.whois, st.whois);
    } else if Names(verb) {
      NamingKeepsChannels(env, st, line, verb, historical);
    } else {
      TheRestKeepWhois(env, st, line, verb, historical);
    }
  }

  lemma TheRestKeepWhois(env: Env, st: State, line: Message, verb: Verb, historical: bool)
    requires verb.OnMessage? || verb.OnJoin? || verb.OnRename? || verb.OnMarkRead?
    ensures VerbApplied(env, st, line, verb, historical).whois == st.whois
  {
    if verb.OnMessage? {
      MessageKeepsWhois(env, st, line, verb.m, historical);
    }
  }

  lemma MessageKeepsWhois(env: Env, st: State, line: Message, verb: MessageVerb, historical: bool)
    ensures MessageApplied(env, st, line, verb, historical).whois == st.whois
  {
  }

  /** A channel is known only because we joined it, or because one we were in was renamed to it. */
  lemma ChannelsComeFromUs(env: Env, st: State, line: Message, historical: bool)
    ensures forall f | f in Applied(env, st, line, historical).channels ::
              f in st.channels || JoinedByUs(env, st, line, f) || RenamedFromOurs(env, st, line, f)
  {
    var verb := VerbOf(line.command);
    if Moves(verb) {
      MovesKeepChannels(env, st, line, verb, historical);
    } else if Names(verb) {
      NamingKeepsChannels(env, st, line, verb, historical);
    } else {
      TheRestAddOnlyOurs(env, st, line, historical);
    }
  }

  predicate JoinedByUs(env: Env, st: State, line: Message, f: string) {
    VerbOf(line.command) == OnJoin && line.params != [] && IsMe(env, st, Sender(line)) && f == FoldName(env, line.params[0])
  }

  predicate RenamedFromOurs(env: Env, st: State, line: Message, f: string) {
    && VerbOf(line.command) == OnRename && |line.params| >= 2
    && FoldName(env, line.params[0]) in st.channels && f == FoldName(env, line.params[1])
  }

  lemma TheRestAddOnlyOurs(env: Env, st: State, line: Message, historical: bool)
    requires var verb := VerbOf(line.command); verb.OnMessage? || verb.OnJoin? || verb.OnRename? || verb.OnMarkRead?
    ensures forall f | f in Applied(env, st, line, historical).channels ::
              f in st.channels || JoinedByUs(env, st, line, f) || RenamedFromOurs(env, st, line, f)
  {
  }

  // ---- logs ----

  datatype LogId = OfChannel(f: string) | OfQuery(f: string)

  predicate HasLog(st: State, id: LogId) {
    match id
    case OfChannel(f) => f in st.channels
    case OfQuery(f) => f in st.conversations
  }

  function LogOf(st: State, id: LogId): Log
    requires HasLog(st, id)
  {
    match id
    case OfChannel(f) => st.channels[f].log
    case OfQuery(f) => st.conversations[f].log
  }

  /** A log's index agrees with it, it is within its limit, and no two of its messages share a number. */
  predicate LogSound(log: Log, retention: nat, nextSeq: u64) {
    && Agrees(log) && |log.messages| <= retention
    && (forall k | k in log.messages :: k.seq_ < nextSeq)
    && forall k, j | k in log.messages && j in log.messages && k.seq_ == j.seq_ :: k == j
  }

  predicate Disjoint(a: Log, b: Log) {
    forall k, j | k in a.messages && j in b.messages :: k.seq_ != j.seq_
  }

  /** Every log is sound, and across all of them every message has a number of its own below the next one. */
  ghost predicate LogsSound(st: State) {
    && (forall id | HasLog(st, id) :: LogSound(LogOf(st, id), st.retention, st.nextSeq))
    && forall id, jd | HasLog(st, id) && HasLog(st, jd) && id != jd :: Disjoint(LogOf(st, id), LogOf(st, jd))
  }

  /** Every log is one from before, or new and empty. */
  ghost predicate LogsKept(st: State, after: State) {
    && after.nextSeq == st.nextSeq && after.retention == st.retention
    && forall id | HasLog(after, id) :: LogOf(after, id) == EMPTY || (HasLog(st, id) && LogOf(after, id) == LogOf(st, id))
  }

  lemma KeptLogsAreSound(st: State, after: State)
    requires LogsSound(st) && LogsKept(st, after)
    ensures LogsSound(after)
  {
  }

  /** One log goes by another name, replacing whatever had it. */
  ghost predicate LogMoved(st: State, after: State, from: LogId, to: LogId) {
    && after.nextSeq == st.nextSeq && after.retention == st.retention && HasLog(st, from)
    && forall id | HasLog(after, id) ::
         if id == to then LogOf(after, id) == LogOf(st, from)
         else id != from && HasLog(st, id) && LogOf(after, id) == LogOf(st, id)
  }

  lemma MovedLogsAreSound(st: State, after: State, from: LogId, to: LogId)
    requires LogsSound(st) && LogMoved(st, after, from, to)
    ensures LogsSound(after)
  {
  }

  /** One log takes a message under the next number. */
  ghost predicate LogGrew(st: State, after: State, to: LogId, m: ChatMessage) {
    && after.nextSeq == NextSeq(st.nextSeq) && after.retention == st.retention && m.key.seq_ == st.nextSeq && HasLog(after, to)
    && LogOf(after, to) == Inserted(if HasLog(st, to) then LogOf(st, to) else EMPTY, m, st.retention)
    && forall id | HasLog(after, id) && id != to :: HasLog(st, id) && LogOf(after, id) == LogOf(st, id)
  }

  lemma InsertIsSound(log: Log, m: ChatMessage, retention: nat)
    requires LogSound(log, retention, m.key.seq_) && m.key.seq_ < U64_MAX
    ensures LogSound(Inserted(log, m, retention), retention, m.key.seq_ + 1)
    ensures forall k | k in Inserted(log, m, retention).messages :: k in log.messages || k == m.key
  {
    InsertKeepsAgreement(log, m, retention);
    InsertedKeys(log, m, retention);
  }

  lemma InsertedKeys(log: Log, m: ChatMessage, retention: nat)
    ensures forall k | k in Inserted(log, m, retention).messages :: k in log.messages || k == m.key
  {
    TrimKeepsTheGreatest(Put(log, m), retention);
  }

  lemma GrownLogIsSound(st: State, after: State, to: LogId, m: ChatMessage, id: LogId)
    requires LogsSound(st) && LogGrew(st, after, to, m) && st.nextSeq < U64_MAX && HasLog(after, id)
    ensures LogSound(LogOf(after, id), st.retention, after.nextSeq)
  {
    if id == to {
      InsertIsSound(if HasLog(st, to) then LogOf(st, to) else EMPTY, m, st.retention);
    } else {
      LaterIsSound(LogOf(st, id), st.retention, st.nextSeq);
    }
  }

  lemma GrownLogIsDisjoint(st: State, after: State, to: LogId, m: ChatMessage, id: LogId)
    requires LogsSound(st) && LogGrew(st, after, to, m) && HasLog(after, id) && id != to
    ensures Disjoint(LogOf(after, to), LogOf(after, id)) && Disjoint(LogOf(after, id), LogOf(after, to))
  {
    GrownStaysDisjoint(if HasLog(st, to) then LogOf(st, to) else EMPTY, LogOf(st, id), m, st.retention, st.nextSeq);
  }

  lemma GrownLogsAreSound(st: State, after: State, to: LogId, m: ChatMessage)
    requires LogsSound(st) && LogGrew(st, after, to, m) && st.nextSeq < U64_MAX
    ensures LogsSound(after)
  {
    forall id | HasLog(after, id) ensures LogSound(LogOf(after, id), st.retention, after.nextSeq) {
      GrownLogIsSound(st, after, to, m, id);
    }
    forall id, jd | HasLog(after, id) && HasLog(after, jd) && id != jd ensures Disjoint(LogOf(after, id), LogOf(after, jd)) {
      if id == to {
        GrownLogIsDisjoint(st, after, to, m, jd);
      } else if jd == to {
        GrownLogIsDisjoint(st, after, to, m, id);
      }
    }
  }

  lemma LaterIsSound(log: Log, retention: nat, nextSeq: u64)
    requires LogSound(log, retention, nextSeq) && nextSeq < U64_MAX
    ensures LogSound(log, retention, nextSeq + 1)
  {
  }

  lemma GrownStaysDisjoint(log: Log, other: Log, m: ChatMessage, retention: nat, nextSeq: u64)
    requires Disjoint(log, other) && LogSound(other, retention, nextSeq) && m.key.seq_ == nextSeq
    ensures Disjoint(Inserted(log, m, retention), other) && Disjoint(other, Inserted(log, m, retention))
  {
    TrimKeepsTheGreatest(Put(log, m), retention);
  }

  lemma MessageKeepsLogs(env: Env, st: State, line: Message, verb: MessageVerb, historical: bool)
    requires LogsSound(st) && st.nextSeq < U64_MAX
    ensures LogsSound(MessageApplied(env, st, line, verb, historical))
  {
    var after := MessageApplied(env, st, line, verb, historical);
    if line.params != [] && after != st {
      var time, own := StampOf(line, st.latest), IsMe(env, st, Sender(line));
      var (name, isChannel) := Place(env, line, own);
      FilingKeepsLogs(env, st, time, NewMessage(env, line, verb, Key(time, st.nextSeq)), name, isChannel, !own && !historical);
    }
  }

  lemma FilingInAChannel(env: Env, st: State, time: u64, m: ChatMessage, name: string, counts: bool)
    requires m.key == Key(time, st.nextSeq) && FoldName(env, name) in st.channels
    ensures LogGrew(st, Filed(env, Noted(st, time), m, name, true, counts), OfChannel(FoldName(env, name)), m)
  {
  }

  lemma FilingInAQuery(env: Env, st: State, time: u64, m: ChatMessage, name: string, counts: bool)
    requires m.key == Key(time, st.nextSeq)
    ensures LogGrew(st, Filed(env, Noted(st, time), m, name, false, counts), OfQuery(FoldName(env, name)), m)
  {
  }

  lemma FilingGrowsOneLog(env: Env, st: State, time: u64, m: ChatMessage, name: string, isChannel: bool, counts: bool)
    requires m.key == Key(time, st.nextSeq) && (isChannel ==> FoldName(env, name) in st.channels)
    ensures LogGrew(st, Filed(env, Noted(st, time), m, name, isChannel, counts),
                    if isChannel then OfChannel(FoldName(env, name)) else OfQuery(FoldName(env, name)), m)
  {
    if isChannel {
      FilingInAChannel(env, st, time, m, name, counts);
    } else {
      FilingInAQuery(env, st, time, m, name, counts);
    }
  }

  lemma NotedKeepsLogs(env: Env, st: State, time: u64)
    requires LogsSound(st) && st.nextSeq < U64_MAX
    ensures LogsSound(Noted(st, time))
  {
    var after := Noted(st, time);
    forall id | HasLog(after, id) ensures HasLog(st, id) && LogOf(after, id) == LogOf(st, id) {
    }
    forall id | HasLog(after, id) ensures LogSound(LogOf(after, id), st.retention, after.nextSeq) {
      LaterIsSound(LogOf(st, id), st.retention, st.nextSeq);
    }
  }

  lemma FilingKeepsLogs(env: Env, st: State, time: u64, m: ChatMessage, name: string, isChannel: bool, counts: bool)
    requires LogsSound(st) && st.nextSeq < U64_MAX && m.key == Key(time, st.nextSeq)
    ensures LogsSound(Filed(env, Noted(st, time), m, name, isChannel, counts))
  {
    var f := FoldName(env, name);
    if isChannel && f !in st.channels {
      NotedKeepsLogs(env, st, time);
    } else {
      FilingGrowsOneLog(env, st, time, m, name, isChannel, counts);
      GrownLogsAreSound(st, Filed(env, Noted(st, time), m, name, isChannel, counts),
                        if isChannel then OfChannel(f) else OfQuery(f), m);
    }
  }

  lemma NickMovesLogs(env: Env, st: State, from: string, to: string)
    ensures var f, t, after := FoldName(env, from), FoldName(env, to), RenamedPerson(env, st, from, to);
            if f in st.conversations then LogMoved(st, after, OfQuery(f), OfQuery(t)) else LogsKept(st, after)
  {
  }

  lemma NickKeepsLogs(env: Env, st: State, line: Message)
    requires LogsSound(st)
    ensures LogsSound(NickApplied(env, st, line))
  {
    if line.params != [] {
      var f, t := FoldName(env, Sender(line)), FoldName(env, line.params[0]);
      var after := RenamedPerson(env, st, Sender(line), line.params[0]);
      NickMovesLogs(env, st, Sender(line), line.params[0]);
      if f in st.conversations {
        MovedLogsAreSound(st, after, OfQuery(f), OfQuery(t));
      } else {
        KeptLogsAreSound(st, after);
      }
    }
  }

  lemma RenameMovesLog(env: Env, st: State, from: string, to: string)
    requires FoldName(env, from) in st.channels
    ensures LogMoved(st, RenamedChannel(env, st, from, to), OfChannel(FoldName(env, from)), OfChannel(FoldName(env, to)))
  {
  }

  lemma RenameKeepsLogs(env: Env, st: State, line: Message)
    requires LogsSound(st)
    ensures LogsSound(RenameApplied(env, st, line))
  {
    if |line.params| >= 2 {
      var from, to := line.params[0], line.params[1];
      if FoldName(env, from) in st.channels {
        RenameMovesLog(env, st, from, to);
        MovedLogsAreSound(st, RenamedChannel(env, st, from, to), OfChannel(FoldName(env, from)), OfChannel(FoldName(env, to)));
      }
    }
  }

  lemma KeptChannelsKeepLogs(st: State, after: State)
    requires ChannelsKept(st, after) && after.conversations == st.conversations && after.nextSeq == st.nextSeq && after.retention == st.retention
    ensures LogsKept(st, after)
  {
  }

  lemma JoinKeepsLogs(env: Env, st: State, line: Message)
    ensures LogsKept(st, JoinApplied(env, st, line))
  {
  }

  lemma MarkReadKeepsLogs(env: Env, st: State, line: Message)
    ensures LogsKept(st, MarkReadApplied(env, st, line))
  {
  }

  lemma LineKeepsLogs(env: Env, st: State, line: Message, historical: bool)
    requires LogsSound(st) && st.nextSeq < U64_MAX
    ensures LogsSound(Applied(env, st, line, historical))
    ensures Applied(env, st, line, historical).nextSeq <= st.nextSeq + 1
  {
    var verb := VerbOf(line.command);
    var after := Applied(env, st, line, historical);
    if verb.OnMessage? {
      MessageKeepsLogs(env, st, line, verb.m, historical);
    } else if verb.OnNick? {
      NickKeepsLogs(env, st, line);
    } else if verb.OnRename? {
      RenameKeepsLogs(env, st, line);
    } else {
      if Names(verb) {
        NamingKeepsChannels(env, st, line, verb, historical);
        KeptChannelsKeepLogs(st, after);
      } else if verb.OnJoin? {
        JoinKeepsLogs(env, st, line);
      } else if verb.OnMarkRead? {
        MarkReadKeepsLogs(env, st, line);
      } else {
        DeparturesKeepChannels(env, st, line, verb, historical);
        KeptChannelsKeepLogs(st, after);
      }
      KeptLogsAreSound(st, after);
    }
  }

  // ---- every run ----

  ghost predicate Sound(st: State) {
    MembersKnown(st) && MentionsWithinUnread(st) && WhoisBounded(st) && LogsSound(st)
  }

  lemma DisconnectKeepsSound(st: State)
    requires Sound(st)
    ensures Sound(Disconnected(st))
  {
    var after := Disconnected(st);
    assert ChannelsKept(st, after);
    KeptChannelsKeepLogs(st, after);
    KeptLogsAreSound(st, after);
    KeptChannelsKeepCounts(st, after);
  }

  lemma StepKeepsSound(env: Env, st: State, e: Event)
    requires Sound(st) && st.nextSeq < U64_MAX
    ensures Sound(Stepped(env, st, e)) && Stepped(env, st, e).nextSeq <= st.nextSeq + 1
  {
    match e
    case Line(line, historical) =>
      LineKeepsMembers(env, st, line, historical);
      LineKeepsCounts(env, st, line, historical);
      LineKeepsWhoisBounded(env, st, line, historical);
      LineKeepsLogs(env, st, line, historical);
    case OwnNick(nick) =>
      var after := st.(me := nick);
      assert LogsKept(st, after);
      KeptLogsAreSound(st, after);
    case Lost => DisconnectKeepsSound(st);
  }

  /** What the run says of a channel's origin: we joined it, or one of ours was renamed to it. */
  ghost predicate Ours(me: string, retention: nat, run: seq<Moment>, f: string) {
    run != [] &&
    var front, last := run[..|run| - 1], run[|run| - 1];
    || Ours(me, retention, front, f)
    || (last.event.Line? &&
        var st, line := Reached(me, retention, front), last.event.line;
        || JoinedByUs(last.env, st, line, f)
        || (RenamedFromOurs(last.env, st, line, f) && Ours(me, retention, front, FoldName(last.env, line.params[0]))))
  }

  lemma {:induction false} EveryChannelIsOurs(me: string, retention: nat, run: seq<Moment>, f: string)
    requires f in Reached(me, retention, run).channels
    ensures Ours(me, retention, run, f)
  {
    var front, last := run[..|run| - 1], run[|run| - 1];
    var st := Reached(me, retention, front);
    if f in st.channels {
      EveryChannelIsOurs(me, retention, front, f);
    } else {
      ChannelsComeFromUs(last.env, st, last.event.line, last.event.historical);
      if RenamedFromOurs(last.env, st, last.event.line, f) {
        EveryChannelIsOurs(me, retention, front, FoldName(last.env, last.event.line.params[0]));
      }
    }
  }

  /**
   After every run of lines, until the message counter would wrap, whatever the server advertises anew on the way: every
   channel member has a person record, mentions never outnumber unread, at most 64 WHOIS records are held, every message
   in every log has a number of its own below the next, in a log whose index agrees with it and which is within its
   limit, and every channel is one we joined or one of ours renamed.
   */
  lemma {:induction false} EveryRunIsSound(me: string, retention: nat, run: seq<Moment>)
    requires |run| < U64_MAX
    ensures Sound(Reached(me, retention, run)) && Reached(me, retention, run).nextSeq <= |run|
    ensures forall f | f in Reached(me, retention, run).channels :: Ours(me, retention, run, f)
  {
    if run != [] {
      var front, last := run[..|run| - 1], run[|run| - 1];
      EveryRunIsSound(me, retention, front);
      StepKeepsSound(last.env, Reached(me, retention, front), last.event);
    }
    forall f | f in Reached(me, retention, run).channels ensures Ours(me, retention, run, f) {
      EveryChannelIsOurs(me, retention, run, f);
    }
  }

  // ---- renaming back ----

  /** The nick is nobody's: no member, no person and no conversation goes by it. */
  predicate Unused(st: State, key: string) {
    key !in AllMembers(st.channels) && key !in st.people && key !in st.conversations
  }

  lemma MembersMoveBack(members: set<string>, f: string, t: string)
    requires t !in members
    ensures Moved(Moved(members, f, t), t, f) == members
  {
  }

  /** A change of nick to one nobody has loses nothing: changing back restores every membership, record and log. */
  lemma NickChangeIsUndone(env: Env, st: State, from: string, to: string)
    requires Unused(st, FoldName(env, to)) && FoldName(env, from) != FoldName(env, to)
    ensures var back := RenamedPerson(env, RenamedPerson(env, st, from, to), to, from);
            && back.channels == st.channels && back.people.Keys == st.people.Keys && back.whois == st.whois
            && back.conversations.Keys == st.conversations.Keys
            && forall k | k in st.conversations :: back.conversations[k] == st.conversations[k].(nick := back.conversations[k].nick)
  {
    var f, t := FoldName(env, from), FoldName(env, to);
    var there := RenamedPerson(env, st, from, to);
    var back := RenamedPerson(env, there, to, from);
    forall c | c in st.channels ensures back.channels[c] == st.channels[c] {
      assert t in st.channels[c].members ==> t in AllMembers(st.channels);
      MembersMoveBack(st.channels[c].members, f, t);
    }
    assert back.channels == st.channels;
    assert back.people.Keys == st.people.Keys;
    assert back.conversations.Keys == st.conversations.Keys;
  }

  /** A channel renamed to a name not in use and back is as it was, but for how its name is spelled. */
  lemma ChannelRenameIsUndone(env: Env, st: State, from: string, to: string)
    requires FoldName(env, from) in st.channels && FoldName(env, to) !in st.channels
    ensures var f := FoldName(env, from);
            RenamedChannel(env, RenamedChannel(env, st, from, to), to, from)
            == st.(channels := st.channels[f := st.channels[f].(name := from)])
  {
    var f, t := FoldName(env, from), FoldName(env, to);
    var there := RenamedChannel(env, st, from, to);
    assert (there.channels - {t}) == st.channels - {f};
  }
}
