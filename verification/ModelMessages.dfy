/**
 Where a message goes and what it does there (crates/obby-client/src/session.rs:221-320), told from the line alone: its
 command, its source, its target with any STATUSMSG characters in front, and its text.
 */
module ModelMessages {
  import opened Wrappers
  import opened Integers
  import opened Casemap
  import opened MessageLogs
  import opened Messages
  import opened Models
  import ServerTime
  import Tags
  import Text

  /** A channel's name begins with one of the advertised characters, or with one of the usual two if none are. */
  predicate NamesAChannel(env: Env, name: string) {
    name != "" && (name[0] in env.chantypes || (env.chantypes == "" && (name[0] == '#' || name[0] == '&')))
  }

  /** A target is a name with any number of STATUSMSG characters in front. */
  predicate Targets(env: Env, target: string, status: string, name: string) {
    && target == status + name
    && (forall i | 0 <= i < |status| :: status[i] in env.statusmsg)
    && (name == "" || name[0] !in env.statusmsg)
  }

  /** A PRIVMSG, a NOTICE, or a TAGMSG that is neither a reaction to a message we hold nor a link preview. */
  predicate Speaks(env: Env, st: State, line: Message) {
    var command := Text.Lower(line.command);
    || command == "privmsg" || command == "notice"
    || (command == "tagmsg" && !IsReaction(env, st, line) && !env.isPreview(line))
  }

  /** The nick a line comes from; a line without a source comes from nobody. */
  predicate SentBy(line: Message, nick: string) {
    match line.source
    case None => nick == ""
    case Some(source) => nick == source.name
  }

  /** When the line happened: its `time` tag if it can be read, or else the latest instant seen. */
  predicate HappenedAt(line: Message, latest: u64, time: u64) {
    match Tags.Get(line.tags, "time")
    case None => time == latest
    case Some(text) => time == if ServerTime.Parsed(text).Some? then ServerTime.Parsed(text).value else latest
  }

  /** The message a line from `nick` brings, as the next one of the model. */
  predicate Brought(env: Env, st: State, line: Message, nick: string, m: ChatMessage) {
    var body := if |line.params| >= 2 then line.params[1] else "";
    && m.sender == nick && m.msgid == Tags.Get(line.tags, "msgid")
    && m.key.seq_ == st.nextSeq && HappenedAt(line, st.latest, m.key.time)
    && if Text.Lower(line.command) == "notice" then m.kind == Notice && m.text == body
       else if Text.Lower(line.command) == "tagmsg" then m.kind == Tagmsg && m.text == ""
       else match env.ctcp(body)
            case None => m.kind == Privmsg && m.text == body
            case Some((command, rest)) => m.kind == Ctcp(command) && m.text == rest
  }

  /** Everything but channels and conversations, after a message's key has been taken. */
  predicate KeyTaken(st: State, after: State, m: ChatMessage) {
    && after.me == st.me && after.people == st.people && after.whois == st.whois && after.retention == st.retention
    && after.nextSeq == (if st.nextSeq < U64_MAX then st.nextSeq + 1 else 0)
    && after.latest == if m.key.time > st.latest then m.key.time else st.latest
  }

  function OneMore(n: u32, counted: bool): u32 {
    if counted && n < 0xFFFF_FFFF then n + 1 else n
  }

  lemma {:induction false} StatusComesOff(env: Env, status: string, name: string)
    requires Targets(env, status + name, status, name)
    ensures WithoutStatus(env, status + name) == name
  {
    if status == "" {
      assert status + name == name;
    } else {
      assert (status + name)[1..] == status[1..] + name;
      StatusComesOff(env, status[1..], name);
    }
  }

  lemma MessageVerbIs(line: Message, verb: MessageVerb)
    requires var c := Text.Lower(line.command);
             verb == if c == "notice" then Noticed else if c == "tagmsg" then Tagged else Said
    requires var c := Text.Lower(line.command); c == "privmsg" || c == "notice" || c == "tagmsg"
    ensures VerbOf(line.command) == OnMessage(verb)
  {
  }

  /** The message of a spoken line, and what becomes of the line once its place is known. */
  lemma SpokenIsFiled(env: Env, st: State, line: Message, historical: bool, nick: string) returns (m: ChatMessage)
    requires Speaks(env, st, line) && line.params != [] && SentBy(line, nick)
    ensures Brought(env, st, line, nick, m)
    ensures var own := SameName(env.mapping, st.me, nick);
            var (name, isChannel) := Place(env, line, own);
            Applied(env, st, line, historical) == Filed(env, Noted(st, m.key.time), m, name, isChannel, !own && !historical)
  {
    var verb := if Text.Lower(line.command) == "notice" then Noticed
                else if Text.Lower(line.command) == "tagmsg" then Tagged else Said;
    MessageVerbIs(line, verb);
    m := NewMessage(env, line, verb, Key(StampOf(line, st.latest), st.nextSeq));
  }

  lemma FiledInAChannel(env: Env, st: State, m: ChatMessage, name: string, counts: bool)
    requires Fold(env.mapping, name) in st.channels
    ensures var f := Fold(env.mapping, name);
            var old_ := st.channels[f];
            var news := !Known(old_.log, m) && counts;
            Filed(env, st, m, name, true, counts) ==
            st.(channels := st.channels[f :=
              old_.(log := Inserted(old_.log, m, st.retention),
                    unread := OneMore(old_.unread, news),
                    mentions := OneMore(old_.mentions, news && Addresses(env, m.text, st.me)))])
  {
  }

  lemma FiledInAConversation(env: Env, st: State, m: ChatMessage, name: string, counts: bool)
    ensures var f := Fold(env.mapping, name);
            var old_ := ConversationUnder(st, f, name);
            Filed(env, st, m, name, false, counts) ==
            st.(conversations := st.conversations[f :=
              old_.(log := Inserted(old_.log, m, st.retention),
                    unread := OneMore(old_.unread, !Known(old_.log, m) && counts))])
  {
  }

  lemma PlaceIs(env: Env, line: Message, own: bool, status: string, name: string)
    requires line.params != [] && Targets(env, line.params[0], status, name)
    ensures NamesAChannel(env, name) ==> Place(env, line, own) == (name, true)
    ensures !NamesAChannel(env, name) ==> Place(env, line, own) == (if own then line.params[0] else Sender(line), false)
  {
    StatusComesOff(env, status, name);
  }

  /**
   A message to a channel of ours, with or without STATUSMSG characters in front, goes into that channel's log and nothing
   else changes. It counts as unread exactly if it is new, not ours and not history, and as a mention exactly if besides
   its text addresses us.
   */
  lemma ChannelMessageIsFiled(env: Env, st: State, line: Message, historical: bool, nick: string, status: string, name: string)
    returns (m: ChatMessage)
    requires Speaks(env, st, line) && line.params != [] && SentBy(line, nick)
    requires Targets(env, line.params[0], status, name) && NamesAChannel(env, name) && Fold(env.mapping, name) in st.channels
    ensures Brought(env, st, line, nick, m)
    ensures var f, after := Fold(env.mapping, name), Applied(env, st, line, historical);
            var old_ := st.channels[f];
            var counts := !Known(old_.log, m) && !SameName(env.mapping, st.me, nick) && !historical;
            && KeyTaken(st, after, m) && after.conversations == st.conversations
            && after.channels == st.channels[f :=
                 old_.(log := Inserted(old_.log, m, st.retention),
                       unread := OneMore(old_.unread, counts),
                       mentions := OneMore(old_.mentions, counts && Addresses(env, m.text, st.me)))]
  {
    m := SpokenIsFiled(env, st, line, historical, nick);
    PlaceIs(env, line, SameName(env.mapping, st.me, nick), status, name);
    FiledInAChannel(env, Noted(st, m.key.time), m, name, !SameName(env.mapping, st.me, nick) && !historical);
  }

  /** A message to a channel we are not in is kept nowhere. */
  lemma StrangeChannelIsIgnored(env: Env, st: State, line: Message, historical: bool, nick: string, status: string, name: string)
    returns (m: ChatMessage)
    requires Speaks(env, st, line) && line.params != [] && SentBy(line, nick)
    requires Targets(env, line.params[0], status, name) && NamesAChannel(env, name) && Fold(env.mapping, name) !in st.channels
    ensures Brought(env, st, line, nick, m)
    ensures var after := Applied(env, st, line, historical);
            KeyTaken(st, after, m) && after.channels == st.channels && after.conversations == st.conversations
  {
    m := SpokenIsFiled(env, st, line, historical, nick);
    PlaceIs(env, line, SameName(env.mapping, st.me, nick), status, name);
  }

  lemma SpokenPrivately(env: Env, st: State, line: Message, historical: bool, nick: string, status: string, name: string)
    returns (m: ChatMessage)
    requires Speaks(env, st, line) && line.params != [] && SentBy(line, nick)
    requires Targets(env, line.params[0], status, name) && !NamesAChannel(env, name)
    ensures Brought(env, st, line, nick, m)
    ensures var own := SameName(env.mapping, st.me, nick);
            Applied(env, st, line, historical)
            == Filed(env, Noted(st, m.key.time), m, if own then line.params[0] else nick, false, !own && !historical)
  {
    m := SpokenIsFiled(env, st, line, historical, nick);
    PlaceIs(env, line, SameName(env.mapping, st.me, nick), status, name);
  }

  /** The conversation kept under a name, or a new one. */
  function ConversationUnder(st: State, f: string, nick: string): Conversation {
    if f in st.conversations then st.conversations[f] else Conversation(nick, EMPTY, 0, None)
  }

  /**
   A private message from somebody else goes into the conversation with its sender, whatever it was addressed to, and
   counts as unread exactly if it is new and not history.
   */
  lemma PrivateMessageIsFiled(env: Env, st: State, line: Message, historical: bool, nick: string, status: string, name: string)
    returns (m: ChatMessage)
    requires Speaks(env, st, line) && line.params != [] && SentBy(line, nick)
    requires Targets(env, line.params[0], status, name) && !NamesAChannel(env, name)
    requires !SameName(env.mapping, st.me, nick)
    ensures Brought(env, st, line, nick, m)
    ensures var f, after := Fold(env.mapping, nick), Applied(env, st, line, historical);
            var old_ := ConversationUnder(st, f, nick);
            && KeyTaken(st, after, m) && after.channels == st.channels
            && after.conversations == st.conversations[f :=
                 old_.(log := Inserted(old_.log, m, st.retention),
                       unread := OneMore(old_.unread, !Known(old_.log, m) && !historical))]
  {
    m := SpokenPrivately(env, st, line, historical, nick, status, name);
    FiledInAConversation(env, Noted(st, m.key.time), m, nick, !historical);
  }

  /** A private message of our own goes into the conversation with the one it was sent to, and is never unread. */
  lemma OwnMessageIsFiled(env: Env, st: State, line: Message, historical: bool, nick: string, status: string, name: string)
    returns (m: ChatMessage)
    requires Speaks(env, st, line) && line.params != [] && SentBy(line, nick)
    requires Targets(env, line.params[0], status, name) && !NamesAChannel(env, name)
    requires SameName(env.mapping, st.me, nick)
    ensures Brought(env, st, line, nick, m)
    ensures var f, after := Fold(env.mapping, line.params[0]), Applied(env, st, line, historical);
            var old_ := ConversationUnder(st, f, line.params[0]);
            && KeyTaken(st, after, m) && after.channels == st.channels
            && after.conversations == st.conversations[f := old_.(log := Inserted(old_.log, m, st.retention))]
  {
    m := SpokenPrivately(env, st, line, historical, nick, status, name);
    FiledInAConversation(env, Noted(st, m.key.time), m, line.params[0], false);
  }

  /** Every target is a name with STATUSMSG characters in front, so one of the four cases above holds of every spoken line. */
  lemma {:induction false} EveryTargetIsOne(env: Env, target: string) returns (status: string, name: string)
    ensures Targets(env, target, status, name)
  {
    if target != "" && target[0] in env.statusmsg {
      status, name := EveryTargetIsOne(env, target[1..]);
      status := [target[0]] + status;
    } else {
      status, name := "", target;
    }
  }

  // ---- reactions ----

  /** The log a target names: the channel's, or else the conversation's. */
  function LogNamed(st: State, f: string): Option<Log> {
    if f in st.channels then Some(st.channels[f].log)
    else if f in st.conversations then Some(st.conversations[f].log)
    else None
  }

  /** The message a line replies to; of the two tags for it the first counts. */
  function RepliesTo(line: Message): Option<string> {
    var first := Tags.Get(line.tags, "+reply");
    if first.Some? then first else Tags.Get(line.tags, "+draft/reply")
  }

  /** The line sets or takes back a reaction to a message that the target's log holds. */
  ghost predicate Reacts(env: Env, st: State, line: Message)
    requires line.params != []
  {
    var log := LogNamed(st, Fold(env.mapping, line.params[0]));
    && (Tags.Get(line.tags, "+draft/react").Some? || Tags.Get(line.tags, "+draft/unreact").Some?)
    && RepliesTo(line).Some? && log.Some?
    && exists k :: k in log.value.messages && log.value.messages[k].msgid == RepliesTo(line)
  }

  lemma HoldsIff(log: Log, id: string)
    requires Agrees(log)
    ensures Holds(log, id) <==> exists k :: k in log.messages && log.messages[k].msgid == Some(id)
  {
    if Holds(log, id) {
      assert log.messages[log.byMsgid[id]].msgid == Some(id);
    }
  }

  /** A line is taken for a reaction exactly when it is one. */
  lemma ReactionIff(env: Env, st: State, line: Message)
    requires line.params != []
    requires var log := LogNamed(st, Fold(env.mapping, line.params[0])); log.Some? ==> Agrees(log.value)
    ensures IsReaction(env, st, line) <==> Reacts(env, st, line)
  {
    var log := LogNamed(st, Fold(env.mapping, line.params[0]));
    if log.Some? && RepliesTo(line).Some? {
      HoldsIff(log.value, RepliesTo(line).value);
    }
  }

  /** A reaction, or a link preview, is no message: no log changes, no count, and not even the clock. */
  lemma ReactionIsNoMessage(env: Env, st: State, line: Message, historical: bool)
    requires Text.Lower(line.command) == "tagmsg" && (IsReaction(env, st, line) || env.isPreview(line))
    ensures Applied(env, st, line, historical) == st
  {
    MessageVerbIs(line, Tagged);
  }

  // ---- read markers ----

  /** A read marker: the time after `timestamp=`, or whatever was sent instead. */
  predicate Marks(param: string, marker: string) {
    param == "timestamp=" + marker || (marker == param && !("timestamp=" <= param))
  }

  /**
   MARKREAD takes down where a channel or a conversation has been read to, and nothing in it is unread or a mention any
   longer. A name that is neither changes nothing; of a name that is both, the channel is meant.
   */
  lemma MarkReadResetsCounts(env: Env, st: State, line: Message, historical: bool, marker: string)
    requires Text.Lower(line.command) == "markread" && |line.params| >= 2 && Marks(line.params[1], marker)
    ensures var f, after := Fold(env.mapping, line.params[0]), Applied(env, st, line, historical);
            if f in st.channels then
              after == st.(channels := st.channels[f := st.channels[f].(readMarker := Some(marker), unread := 0, mentions := 0)])
            else if f in st.conversations then
              after == st.(conversations := st.conversations[f := st.conversations[f].(readMarker := Some(marker), unread := 0)])
            else after == st
  {
    MarkReadIs(line);
    MarkerIs(line.params[1], marker);
  }

  lemma MarkReadIs(line: Message)
    requires Text.Lower(line.command) == "markread"
    ensures VerbOf(line.command) == OnMarkRead
  {
  }

  lemma MarkerIs(param: string, marker: string)
    requires Marks(param, marker)
    ensures var prefix := "timestamp="; marker == if prefix <= param then param[|prefix|..] else param
  {
    var prefix := "timestamp=";
    assert param == prefix + marker ==> param[|prefix|..] == marker;
  }
}
