/**
 What the client knows and how each line changes it (crates/obby-client/src/model.rs:521-722 and
 crates/obby-client/src/session.rs:143-930): channels and their members, conversations, people, WHOIS records,
 message logs and the counter their keys come from.
 */
module Models {
  import opened Wrappers
  import opened Integers
  import opened Casemap
  import opened MessageLogs
  import opened Messages
  import Caps
  import Mentions
  import Names
  import ServerTime
  import Tags
  import Text

  const MAX_WHOIS_RECORDS: nat := 64

  datatype Channel = Channel(name: string, members: set<string>, log: Log, unread: u32, mentions: u32, readMarker: Option<string>)

  datatype Conversation = Conversation(nick: string, log: Log, unread: u32, readMarker: Option<string>)

  datatype Person = Person(nick: string)

  datatype Whois = Whois(nick: string, complete: bool)

  datatype State = State(
    me: string,
    channels: map<string, Channel>,
    conversations: map<string, Conversation>,
    people: map<string, Person>,
    whois: map<string, Whois>,
    nextSeq: u64,
    latest: u64,
    retention: nat)

  /**
   What the server advertised, what the host chose, and the parsers that are not part of this model: which characters a
   nick goes on through, what CTCP a body holds, whether a TAGMSG is a link preview.
   */
  datatype Env = Env(
    mapping: Casemapping,
    chantypes: string,
    statusmsg: string,
    prefixes: string,
    nickChars: Mentions.NickChars,
    ctcp: string -> Option<(string, string)>,
    isPreview: Message -> bool)

  const WHOX_TOKEN: string := "332"

  // ---- reading a line ----

  function FoldName(env: Env, name: string): string {
    Fold(env.mapping, name)
  }

  predicate IsChannel(env: Env, name: string) {
    name != "" && name[0] in (if env.chantypes == "" then "#&" else env.chantypes)
  }

  predicate IsMe(env: Env, st: State, nick: string) {
    SameName(env.mapping, st.me, nick)
  }

  function Sender(line: Message): string {
    if line.source.Some? then line.source.value.name else ""
  }

  function TagOf(line: Message, key: string): Option<string> {
    Tags.Get(line.tags, key)
  }

  function Trailing(line: Message): string {
    if line.params == [] then "" else line.params[|line.params| - 1]
  }

  /** The server's own time when it stamped the line, or else the latest seen. */
  function StampOf(line: Message, latest: u64): u64 {
    match TagOf(line, "time")
    case None => latest
    case Some(text) =>
      match ServerTime.Parsed(text)
      case None => latest
      case Some(ms) => ServerTime.ParsedFits(text); ms
  }

  function Bumped(n: u32): u32 {
    if n < 0xFFFF_FFFF then n + 1 else n
  }

  /** The counter wraps, as the source's does. */
  function NextSeq(n: u64): u64 {
    if n < U64_MAX then n + 1 else 0
  }

  // ---- people ----

  function PersonOrInsert(people: map<string, Person>, key: string, nick: string): map<string, Person> {
    if key in people then people else people[key := Person(nick)]
  }

  function AllMembers(channels: map<string, Channel>): set<string> {
    set f, m | f in channels && m in channels[f].members :: m
  }

  /** Only those we share a channel or a conversation with, and ourselves, stay. */
  function Forgotten(st: State): State {
    var keep := st.conversations.Keys + AllMembers(st.channels);
    st.(people := map k | k in st.people && (k in keep || st.people[k].nick == st.me) :: st.people[k],
        whois := map k | k in st.whois && k in keep :: st.whois[k])
  }

  function MembersWithout(channels: map<string, Channel>, who: string): map<string, Channel> {
    map f | f in channels :: channels[f].(members := channels[f].members - {who})
  }

  function Moved(members: set<string>, from: string, to: string): set<string> {
    if from in members then (members - {from}) + {to} else members
  }

  function RenamedPerson(env: Env, st: State, from: string, to: string): State {
    var (f, t) := (FoldName(env, from), FoldName(env, to));
    State(
      if IsMe(env, st, from) then to else st.me,
      map c | c in st.channels :: st.channels[c].(members := Moved(st.channels[c].members, f, t)),
      if f in st.conversations then (st.conversations - {f})[t := st.conversations[f].(nick := to)] else st.conversations,
      if f in st.people then (st.people - {f})[t := Person(to)] else st.people,
      st.whois, st.nextSeq, st.latest, st.retention)
  }

  function RenamedChannel(env: Env, st: State, from: string, to: string): State {
    var (f, t) := (FoldName(env, from), FoldName(env, to));
    if f !in st.channels then st
    else st.(channels := (st.channels - {f})[t := st.channels[f].(name := to)])
  }

  /** The record that makes room: the first complete one, or the first. */
  function Stale(whois: map<string, Whois>): (k: string)
    requires whois != map[]
    ensures k in whois
  {
    var complete := set k | k in whois && whois[k].complete;
    assert whois.Keys != {} by {
      var k :| k in whois;
      assert k in whois.Keys;
    }
    if complete != {} then Names.FirstName(complete) else Names.FirstName(whois.Keys)
  }

  function WhoisOrInsert(whois: map<string, Whois>, key: string, nick: string): map<string, Whois> {
    var roomy := if |whois| >= MAX_WHOIS_RECORDS && key !in whois then whois - {Stale(whois)} else whois;
    if key in roomy && !roomy[key].complete && roomy[key].nick != "" then roomy else roomy[key := Whois(nick, false)]
  }

  // ---- messages ----

  /** A reaction to a message we hold, which is all such a line is. */
  predicate IsReaction(env: Env, st: State, line: Message) {
    && (TagOf(line, "+draft/react").Some? || TagOf(line, "+draft/unreact").Some?)
    && line.params != []
    && var reply := ReplyOf(line);
       && reply.Some?
       && var f := FoldName(env, line.params[0]);
          if f in st.channels then Holds(st.channels[f].log, reply.value)
          else f in st.conversations && Holds(st.conversations[f].log, reply.value)
  }

  function ReplyOf(line: Message): Option<string> {
    if TagOf(line, "+reply").Some? then TagOf(line, "+reply") else TagOf(line, "+draft/reply")
  }

  predicate Holds(log: Log, msgid: string) {
    msgid in log.byMsgid && log.byMsgid[msgid] in log.messages
  }

  datatype MessageVerb = Said | Noticed | Tagged

  function NewMessage(env: Env, line: Message, verb: MessageVerb, key: Key): ChatMessage {
    var body := if verb == Tagged || |line.params| < 2 then "" else line.params[1];
    var (kind, text) :=
      match verb
      case Tagged => (Kind.Tagmsg, body)
      case Noticed => (Kind.Notice, body)
      case Said =>
        match env.ctcp(body)
        case Some((command, rest)) => (Kind.Ctcp(command), rest)
        case None => (Kind.Privmsg, body);
    ChatMessage(key, TagOf(line, "msgid"), Sender(line), kind, text)
  }

  function WithoutStatus(env: Env, target: string): string {
    if target != "" && target[0] in env.statusmsg then WithoutStatus(env, target[1..]) else target
  }

  /** Where a message belongs, and whether that is a channel. */
  function Place(env: Env, line: Message, own: bool): (string, bool)
    requires line.params != []
  {
    var addressed := WithoutStatus(env, line.params[0]);
    if IsChannel(env, addressed) then (addressed, true)
    else if own then (line.params[0], false)
    else (Sender(line), false)
  }

  predicate Addresses(env: Env, text: string, nick: string) {
    Mentions.Answers(env.nickChars, env.mapping, text, nick)
  }

  function Counted(channel: Channel, counts: bool, addressed: bool): Channel {
    if !counts then channel
    else channel.(unread := Bumped(channel.unread), mentions := if addressed then Bumped(channel.mentions) else channel.mentions)
  }

  /** The message goes into exactly one log, and is counted if it was new there. */
  function Filed(env: Env, st: State, m: ChatMessage, name: string, isChannel: bool, counts: bool): State {
    var f := FoldName(env, name);
    if isChannel then
      if f !in st.channels then st
      else
        var channel := st.channels[f];
        var stored := channel.(log := Inserted(channel.log, m, st.retention));
        st.(channels := st.channels[f :=
          if Known(channel.log, m) then stored
          else Counted(stored, counts, counts && Addresses(env, m.text, st.me))])
    else
      var query := if f in st.conversations then st.conversations[f] else Conversation(name, EMPTY, 0, None);
      var stored := query.(log := Inserted(query.log, m, st.retention));
      st.(conversations := st.conversations[f :=
        if Known(query.log, m) || !counts then stored else stored.(unread := Bumped(stored.unread))])
  }

  /** The clock and the counter after a message's key has been taken. */
  function Noted(st: State, time: u64): State {
    st.(latest := if time > st.latest then time else st.latest, nextSeq := NextSeq(st.nextSeq))
  }

  function MessageApplied(env: Env, st: State, line: Message, verb: MessageVerb, historical: bool): State {
    if line.params == [] then st
    else if verb == Tagged && (IsReaction(env, st, line) || env.isPreview(line)) then st
    else
      var time := StampOf(line, st.latest);
      var key := Key(time, st.nextSeq);
      var own := IsMe(env, st, Sender(line));
      var (name, isChannel) := Place(env, line, own);
      Filed(env, Noted(st, time), NewMessage(env, line, verb, key), name, isChannel, !own && !historical)
  }

  // ---- channels and members ----

  function JoinApplied(env: Env, st: State, line: Message): State {
    if line.params == [] then st
    else
      var f := FoldName(env, line.params[0]);
      if IsMe(env, st, Sender(line)) then
        if f in st.channels then st
        else st.(channels := st.channels[f := Channel(line.params[0], {}, EMPTY, 0, 0, None)])
      else if f !in st.channels then st
      else WithMember(st, f, FoldName(env, Sender(line)), Sender(line))
  }

  /** Someone is in a channel: their record exists and spells their nick as given, and they are a member. */
  function WithMember(st: State, f: string, key: string, nick: string): State
    requires f in st.channels
  {
    st.(people := st.people[key := Person(nick)],
        channels := st.channels[f := st.channels[f].(members := st.channels[f].members + {key})])
  }

  function WithoutMember(st: State, f: string, key: string): State {
    if f in st.channels then st.(channels := st.channels[f := st.channels[f].(members := st.channels[f].members - {key})])
    else st
  }

  function PartApplied(env: Env, st: State, line: Message): State {
    if line.params == [] then st
    else
      var f := FoldName(env, line.params[0]);
      if IsMe(env, st, Sender(line)) then st.(channels := st.channels - {f})
      else Forgotten(WithoutMember(st, f, FoldName(env, Sender(line))))
  }

  function KickApplied(env: Env, st: State, line: Message): State {
    if |line.params| < 2 then st
    else
      var f := FoldName(env, line.params[0]);
      if IsMe(env, st, line.params[1]) then st.(channels := st.channels - {f})
      else Forgotten(WithoutMember(st, f, FoldName(env, line.params[1])))
  }

  function QuitApplied(env: Env, st: State, line: Message): State {
    Forgotten(st.(channels := MembersWithout(st.channels, FoldName(env, Sender(line)))))
  }

  /** The nick in a NAMES entry: after the membership prefixes, up to the rest of a full hostmask. */
  function EntryNick(env: Env, entry: string): string {
    if entry != "" && entry[0] in env.prefixes then EntryNick(env, entry[1..])
    else match Text.SplitOnce(entry, '!') case Some((nick, _)) => nick case None => entry
  }

  function NamesApplied(env: Env, st: State, f: string, entries: seq<string>): State {
    if entries == [] then st
    else
      var before := NamesApplied(env, st, f, entries[..|entries| - 1]);
      var nick := EntryNick(env, entries[|entries| - 1]);
      if nick == "" || f !in before.channels then before else WithMember(before, f, FoldName(env, nick), nick)
  }

  function NamesLineApplied(env: Env, st: State, line: Message): State {
    if |line.params| < 3 then st
    else NamesApplied(env, st, FoldName(env, line.params[2]), Caps.Tokens(Trailing(line)))
  }

  function WhoApplied(env: Env, st: State, channel: string, nick: string): State {
    var key, f := FoldName(env, nick), FoldName(env, channel);
    if IsChannel(env, channel) && f in st.channels then WithMember(st, f, key, nick)
    else st.(people := st.people[key := Person(nick)])
  }

  function Touched(env: Env, st: State, nick: string): State {
    st.(people := PersonOrInsert(st.people, FoldName(env, nick), nick))
  }

  function MetadataApplied(env: Env, st: State, line: Message, offset: nat): State {
    if |line.params| < offset + 2 then st
    else
      var target := if line.params[offset] == "*" then st.me else line.params[offset];
      if IsChannel(env, target) then st else Touched(env, st, target)
  }

  function MarkReadApplied(env: Env, st: State, line: Message): State {
    if |line.params| < 2 then st
    else
      var f := FoldName(env, line.params[0]);
      var prefix := "timestamp=";
      var marker := if prefix <= line.params[1] then line.params[1][|prefix|..] else line.params[1];
      if f in st.channels then
        st.(channels := st.channels[f := st.channels[f].(readMarker := Some(marker), unread := 0, mentions := 0)])
      else if f in st.conversations then
        st.(conversations := st.conversations[f := st.conversations[f].(readMarker := Some(marker), unread := 0)])
      else st
  }

  function WhoisApplied(env: Env, st: State, line: Message, closes: bool): State {
    if |line.params| < 2 then st
    else
      var nick := line.params[1];
      var key := FoldName(env, nick);
      if closes then
        if key in st.whois then st.(whois := st.whois[key := st.whois[key].(complete := true)]) else st
      else st.(whois := WhoisOrInsert(st.whois, key, nick))
  }

  function NickApplied(env: Env, st: State, line: Message): State {
    if line.params == [] then st else RenamedPerson(env, st, Sender(line), line.params[0])
  }

  function RenameApplied(env: Env, st: State, line: Message): State {
    if |line.params| < 2 then st else RenamedChannel(env, st, line.params[0], line.params[1])
  }

  // ---- the dispatcher ----

  datatype Verb = OnMessage(m: MessageVerb) | OnJoin | OnPart | OnQuit | OnKick | OnNick | OnRename | OnMarkRead | OnStatus
    | OnMetadata(offset: nat) | OnWhois(closes: bool) | OnNames | OnWho | OnWhox | OnOther

  /** `OnOther` is every command that leaves this part of the model alone. */
  function VerbOf(command: string): Verb {
    var c := Text.Lower(command);
    if c == "privmsg" then OnMessage(Said)
    else if c == "notice" then OnMessage(Noticed)
    else if c == "tagmsg" then OnMessage(Tagged)
    else if c == "join" then OnJoin
    else if c == "part" then OnPart
    else if c == "quit" then OnQuit
    else if c == "kick" then OnKick
    else if c == "nick" then OnNick
    else if c == "rename" then OnRename
    else if c == "markread" then OnMarkRead
    else if c == "away" || c == "account" then OnStatus
    else if c == "metadata" then OnMetadata(0)
    else if c == "760" || c == "761" || c == "766" then OnMetadata(1)
    else if c == "318" then OnWhois(true)
    else if c in {"311", "312", "313", "317", "319", "330", "338", "378", "671"} then OnWhois(false)
    else if c == "353" then OnNames
    else if c == "352" then OnWho
    else if c == "354" then OnWhox
    else OnOther
  }

  function VerbApplied(env: Env, st: State, line: Message, verb: Verb, historical: bool): State {
    match verb
    case OnMessage(m) => MessageApplied(env, st, line, m, historical)
    case OnJoin => JoinApplied(env, st, line)
    case OnPart => PartApplied(env, st, line)
    case OnQuit => QuitApplied(env, st, line)
    case OnKick => KickApplied(env, st, line)
    case OnNick => NickApplied(env, st, line)
    case OnRename => RenameApplied(env, st, line)
    case OnMarkRead => MarkReadApplied(env, st, line)
    case OnStatus => Touched(env, st, Sender(line))
    case OnMetadata(offset) => MetadataApplied(env, st, line, offset)
    case OnWhois(closes) => WhoisApplied(env, st, line, closes)
    case OnNames => NamesLineApplied(env, st, line)
    case OnWho =>
      if |line.params| < 7 then st else WhoApplied(env, st, line.params[1], line.params[5])
    case OnWhox =>
      if |line.params| < 8 || line.params[1] != WHOX_TOKEN then st
      else WhoApplied(env, st, line.params[2], line.params[5])
    case OnOther => st
  }

  function Applied(env: Env, st: State, line: Message, historical: bool): State {
    VerbApplied(env, st, line, VerbOf(line.command), historical)
  }

  // ---- every run ----

  /** A line, a nick the connection settled on for us, or the loss of the connection. */
  datatype Event = Line(line: Message, historical: bool) | OwnNick(nick: string) | Lost

  /** Who was in a channel, and what WHOIS said, are true only of one connection. The messages stay. */
  function Disconnected(st: State): State {
    st.(channels := map f | f in st.channels :: st.channels[f].(members := {}), whois := map[])
  }

  function Stepped(env: Env, st: State, e: Event): State {
    match e
    case Line(line, historical) => Applied(env, st, line, historical)
    case OwnNick(nick) => st.(me := nick)
    case Lost => Disconnected(st)
  }

  /** An empty model that keeps at most this many messages in each log, and at least one. */
  function Fresh(me: string, retention: nat): State {
    State(me, map[], map[], map[], map[], 0, 0, if retention == 0 then 1 else retention)
  }

  /** One step of a connection: what the server has advertised by then, and what happens. */
  datatype Moment = Moment(env: Env, event: Event)

  /** The state after a run in which the server may advertise anything anew between any two steps. */
  function Reached(me: string, retention: nat, run: seq<Moment>): State {
    if run == [] then Fresh(me, retention)
    else
      var last := run[|run| - 1];
      Stepped(last.env, Reached(me, retention, run[..|run| - 1]), last.event)
  }
}
