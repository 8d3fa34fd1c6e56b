/**
 The voice signalling frames of crates/obby-client/src/voice.rs:98-922: how a frame becomes a JSON object and
 is read from one, and the whole way over the wire: JSON text, escaped tag, printed line, and back.
 */
module Signals {
  import opened Wrappers
  import opened Integers
  import opened JsonText
  import JsonGrammar
  import opened Text
  import opened Tags
  import opened Messages
  import Sdp

  type ChunkMeta = Sdp.ChunkMeta

  type Fields = seq<(string, Json)>

  // ---- looking into JSON ----

  /** The first value under a key. */
  function FirstOf(fields: Fields, key: string): Option<Json> {
    if fields == [] then None
    else if fields[0].0 == key then Some(fields[0].1)
    else FirstOf(fields[1..], key)
  }

  function Field(v: Json, key: string): Option<Json> {
    if v.Object? then FirstOf(v.fields, key) else None
  }

  function AsString(v: Option<Json>): Option<string> {
    match v
    case Some(Str(s)) => Some(s)
    case _ => None
  }

  function AsU32(v: Option<Json>): Option<u32> {
    match v
    case Some(Num(n)) => if 0 <= n < 0x1_0000_0000 then Some(n as u32) else None
    case _ => None
  }

  function FieldString(v: Json, key: string): Option<string> {
    AsString(Field(v, key))
  }

  function Strings(items: seq<Json>): Option<seq<string>> {
    if items == [] then Some([])
    else
      match (items[0], Strings(items[1..]))
      case (Str(s), Some(rest)) => Some([s] + rest)
      case _ => None
  }

  function AsStrings(v: Option<Json>): Option<seq<string>> {
    match v
    case Some(Array(items)) => Strings(items)
    case _ => None
  }

  function StringsJson(items: seq<string>): Json {
    Array(seq(|items|, i requires 0 <= i < |items| => Str(items[i])))
  }

  // ---- small wire values ----

  datatype OnOff = On | Off

  function OnOffWire(x: OnOff): string {
    match x case On => "on" case Off => "off"
  }

  function OnOffParsed(text: string): Option<OnOff> {
    match text case "on" => Some(On) case "off" => Some(Off) case _ => None
  }

  datatype Role = Publisher | Viewer

  function RoleWire(x: Role): string {
    match x case Publisher => "streamer" case Viewer => "viewer"
  }

  function RoleParsed(text: string): Option<Role> {
    match text case "streamer" => Some(Publisher) case "viewer" => Some(Viewer) case _ => None
  }

  datatype RoomKind = Publish | Stream

  function RoomKindWire(x: RoomKind): string {
    match x case Publish => "voice" case Stream => "stream"
  }

  function RoomKindParsed(text: string): Option<RoomKind> {
    match text case "voice" => Some(Publish) case "stream" => Some(Stream) case _ => None
  }

  datatype ToggleKind = MicToggle | VideoToggle | ScreenToggle | HandToggle

  function ToggleWire(x: ToggleKind): string {
    match x
    case MicToggle => "mic"
    case VideoToggle => "video"
    case ScreenToggle => "screen"
    case HandToggle => "hand"
  }

  function ToggleParsed(text: string): Option<ToggleKind> {
    match text
    case "mic" => Some(MicToggle)
    case "video" => Some(VideoToggle)
    case "screen" => Some(ScreenToggle)
    case "hand" => Some(HandToggle)
    case _ => None
  }

  datatype PresenceState = HasJoined | HasLeft | TurnedOn | TurnedOff | IsSpeaking | IsSilent | DeafOn | DeafOff

  function PresenceWire(x: PresenceState): string {
    match x
    case HasJoined => "joined"
    case HasLeft => "left"
    case TurnedOn => "on"
    case TurnedOff => "off"
    case IsSpeaking => "speaking"
    case IsSilent => "silent"
    case DeafOn => "deaf-on"
    case DeafOff => "deaf-off"
  }

  function PresenceParsed(text: string): Option<PresenceState> {
    match text
    case "joined" => Some(HasJoined)
    case "left" => Some(HasLeft)
    case "on" => Some(TurnedOn)
    case "off" => Some(TurnedOff)
    case "speaking" => Some(IsSpeaking)
    case "silent" => Some(IsSilent)
    case "deaf-on" => Some(DeafOn)
    case "deaf-off" => Some(DeafOff)
    case _ => None
  }

  function Bind<A, B>(o: Option<A>, f: A -> Option<B>): Option<B> {
    if o.Some? then f(o.value) else None
  }

  function Mapped<A, B>(o: Option<A>, f: A -> B): Option<B> {
    if o.Some? then Some(f(o.value)) else None
  }

  // ---- payloads ----

  datatype TrackHint = TrackHint(mid: string, member: string)

  function HintJson(h: TrackHint): Json {
    Object([("mid", Str(h.mid)), ("member", Str(h.member))])
  }

  function HintOf(v: Json): Option<TrackHint> {
    match (FieldString(v, "mid"), FieldString(v, "member"))
    case (Some(mid), Some(member)) => Some(TrackHint(mid, member))
    case _ => None
  }

  function TracksJson(tracks: seq<TrackHint>): Json {
    Array(seq(|tracks|, i requires 0 <= i < |tracks| => HintJson(tracks[i])))
  }

  function Hints(items: seq<Json>): Option<seq<TrackHint>> {
    if items == [] then Some([])
    else
      match (HintOf(items[0]), Hints(items[1..]))
      case (Some(h), Some(rest)) => Some([h] + rest)
      case _ => None
  }

  function TracksOf(v: Json): Option<seq<TrackHint>> {
    if v.Array? then Hints(v.items) else None
  }

  datatype TurnCredentials = TurnCredentials(urls: seq<string>, username: string, password: string)

  function TurnJson(t: TurnCredentials): Json {
    Object([("urls", StringsJson(t.urls)), ("username", Str(t.username)), ("password", Str(t.password))])
  }

  /** The list of servers may also come as one string. */
  function TurnOf(v: Json): Option<TurnCredentials> {
    var urls :=
      match Field(v, "urls")
      case Some(Str(one)) => Some([one])
      case Some(Array(items)) => Strings(items)
      case _ => None;
    match (urls, FieldString(v, "username"), FieldString(v, "password"))
    case (Some(u), Some(name), Some(password)) => Some(TurnCredentials(u, name, password))
    case _ => None
  }

  function ChunkOf(v: Json): Option<ChunkMeta> {
    match (FieldString(v, "id"), AsU32(Field(v, "seq")), AsU32(Field(v, "total")))
    case (Some(id), Some(n), Some(total)) => Some(Sdp.ChunkMeta(id, n, total))
    case _ => None
  }

  function ChunkFields(chunk: Option<ChunkMeta>): Fields {
    match chunk
    case None => []
    case Some(c) => [("id", Str(c.id)), ("seq", Num(c.seq_)), ("total", Num(c.total))]
  }

  // ---- the frames ----

  datatype Signal =
    | Join(channel: string)
    | Leave(channel: string)
    | Joined(members: seq<string>, mode: Option<RoomKind>, ownRole: Option<Role>, streamers: Option<seq<string>>,
             turn: Option<TurnCredentials>, tracks: Option<seq<TrackHint>>)
    | Offer(sdp: string, tracks: Option<seq<TrackHint>>, chunk: Option<ChunkMeta>)
    | Answer(sdp: string, chunk: Option<ChunkMeta>)
    | Ice(cand: string, mid: Option<string>, mlineidx: Option<u32>)
    | Presence(member: string, presence: PresenceState, kind: Option<ToggleKind>, ownRole: Option<Role>)
    | Mic(state: OnOff)
    | Video(state: OnOff)
    | Screen(state: OnOff)
    | Hand(state: OnOff)
    | Deaf(state: OnOff)
    | Speaking
    | Silent
    | React(reactor: Option<string>, emoji: string)
    | Promote(target: string)
    | Demote(target: string)
    | RoleChange(member: string, role: Role)
    | Error(error: Option<string>)

  function Opt(key: string, value: Option<Json>): Fields {
    if value.Some? then [(key, value.value)] else []
  }

  function KindOf(s: Signal): string {
    match s
    case Join(_) => "join"
    case Leave(_) => "leave"
    case Joined(_, _, _, _, _, _) => "joined"
    case Offer(_, _, _) => "offer"
    case Answer(_, _) => "answer"
    case Ice(_, _, _) => "ice"
    case Presence(_, _, _, _) => "presence"
    case Mic(_) => "mic"
    case Video(_) => "video"
    case Screen(_) => "screen"
    case Hand(_) => "hand"
    case Deaf(_) => "deaf"
    case Speaking => "speaking"
    case Silent => "silent"
    case React(_, _) => "react"
    case Promote(_) => "promote"
    case Demote(_) => "demote"
    case RoleChange(_, _) => "role"
    case Error(_) => "error"
  }

  function TextJson(s: string): Json {
    Str(s)
  }

  function WireFields(s: Signal): Fields {
    match s
    case Join(channel) => [("channel", Str(channel))]
    case Leave(channel) => [("channel", Str(channel))]
    case Joined(members, mode, role, streamers, turn, tracks) =>
      [("members", StringsJson(members))]
      + (Opt("mode", Mapped(mode, m => Str(RoomKindWire(m))))
      + (Opt("role", Mapped(role, r => Str(RoleWire(r))))
      + (Opt("streamers", Mapped(streamers, StringsJson))
      + (Opt("turn", Mapped(turn, TurnJson))
      + Opt("tracks", Mapped(tracks, TracksJson))))))
    case Offer(sdp, tracks, chunk) =>
      [("sdp", Str(sdp))] + (Opt("tracks", Mapped(tracks, TracksJson)) + ChunkFields(chunk))
    case Answer(sdp, chunk) => [("sdp", Str(sdp))] + ChunkFields(chunk)
    case Ice(cand, mid, mlineidx) =>
      [("cand", Str(cand))] + (Opt("mid", Mapped(mid, TextJson)) + Opt("mlineidx", Mapped(mlineidx, (n: u32) => Num(n))))
    case Presence(member, state, kind, role) =>
      [("member", Str(member)), ("state", Str(PresenceWire(state)))]
      + (Opt("kind", Mapped(kind, k => Str(ToggleWire(k)))) + Opt("role", Mapped(role, r => Str(RoleWire(r)))))
    case Mic(state) => [("state", Str(OnOffWire(state)))]
    case Video(state) => [("state", Str(OnOffWire(state)))]
    case Screen(state) => [("state", Str(OnOffWire(state)))]
    case Hand(state) => [("state", Str(OnOffWire(state)))]
    case Deaf(state) => [("state", Str(OnOffWire(state)))]
    case Speaking => [("state", Str("speaking"))]
    case Silent => [("state", Str("silent"))]
    case React(member, emoji) => Opt("member", Mapped(member, TextJson)) + [("emoji", Str(emoji))]
    case Promote(target) => [("target", Str(target))]
    case Demote(target) => [("target", Str(target))]
    case RoleChange(member, role) => [("member", Str(member)), ("role", Str(RoleWire(role)))]
    case Error(error) => Opt("error", Mapped(error, TextJson))
  }

  function ToValue(s: Signal): Json {
    Object([("type", Str(KindOf(s)))] + WireFields(s))
  }

  function OnOffOf(v: Json): Option<OnOff> {
    Bind(FieldString(v, "state"), OnOffParsed)
  }

  function JoinedOf(v: Json): Option<Signal> {
    match AsStrings(Field(v, "members"))
    case None => None
    case Some(members) =>
      Some(Joined(
        members,
        Bind(FieldString(v, "mode"), RoomKindParsed),
        Bind(FieldString(v, "role"), RoleParsed),
        AsStrings(Field(v, "streamers")),
        Bind(Field(v, "turn"), TurnOf),
        Bind(Field(v, "tracks"), TracksOf)))
  }

  function OfferOf(v: Json): Option<Signal> {
    match FieldString(v, "sdp")
    case None => None
    case Some(sdp) => Some(Offer(sdp, Bind(Field(v, "tracks"), TracksOf), ChunkOf(v)))
  }

  function AnswerOf(v: Json): Option<Signal> {
    match FieldString(v, "sdp")
    case None => None
    case Some(sdp) => Some(Answer(sdp, ChunkOf(v)))
  }

  function IceOf(v: Json): Option<Signal> {
    match FieldString(v, "cand")
    case None => None
    case Some(cand) => Some(Ice(cand, FieldString(v, "mid"), AsU32(Field(v, "mlineidx"))))
  }

  function PresenceOf(v: Json): Option<Signal> {
    match (FieldString(v, "member"), Bind(FieldString(v, "state"), PresenceParsed))
    case (Some(member), Some(state)) =>
      Some(Presence(member, state,
        Bind(FieldString(v, "kind"), ToggleParsed),
        Bind(FieldString(v, "role"), RoleParsed)))
    case _ => None
  }

  function ReactOf(v: Json): Option<Signal> {
    match FieldString(v, "emoji")
    case None => None
    case Some(emoji) => Some(React(FieldString(v, "member"), emoji))
  }

  function RoleOf(v: Json): Option<Signal> {
    match (FieldString(v, "member"), Bind(FieldString(v, "role"), RoleParsed))
    case (Some(member), Some(role)) => Some(RoleChange(member, role))
    case _ => None
  }

  function FromValue(v: Json): Option<Signal> {
    match FieldString(v, "type")
    case None => None
    case Some(kind) => OfKind(kind, v)
  }

  function OfKind(kind: string, v: Json): Option<Signal> {
    match kind
    case "join" => Mapped(FieldString(v, "channel"), c => Join(c))
    case "leave" => Mapped(FieldString(v, "channel"), c => Leave(c))
    case "joined" => JoinedOf(v)
    case "offer" => OfferOf(v)
    case "answer" => AnswerOf(v)
    case "ice" => IceOf(v)
    case "error" => Some(Error(FieldString(v, "error")))
    case _ => AboutMembers(kind, v)
  }

  /** What is said of a member, or asked of one. */
  function AboutMembers(kind: string, v: Json): Option<Signal> {
    match kind
    case "presence" => PresenceOf(v)
    case "react" => ReactOf(v)
    case "promote" => Mapped(FieldString(v, "target"), t => Promote(t))
    case "demote" => Mapped(FieldString(v, "target"), t => Demote(t))
    case "role" => RoleOf(v)
    case _ => OwnStateOf(kind, v)
  }

  /** What a member says of itself. */
  function OwnStateOf(kind: string, v: Json): Option<Signal> {
    match kind
    case "mic" => Mapped(OnOffOf(v), s => Mic(s))
    case "video" => Mapped(OnOffOf(v), s => Video(s))
    case "screen" => Mapped(OnOffOf(v), s => Screen(s))
    case "hand" => Mapped(OnOffOf(v), s => Hand(s))
    case "deaf" => Mapped(OnOffOf(v), s => Deaf(s))
    case "speaking" => Some(Speaking)
    case "silent" => Some(Silent)
    case _ => None
  }

  function ToJson(s: Signal): string {
    JsonText.Written(ToValue(s))
  }

  function FromJson(text: string): Option<Signal> {
    match JsonText.Parsed(text)
    case None => None
    case Some(v) => FromValue(v)
  }

  // ---- reading back ----

  /** Every look-up in fields that begin with a given one. */
  lemma Beginning(fields: Fields, name: string, v: Json, rest: Fields)
    requires fields == [(name, v)] + rest
    ensures forall key :: FirstOf(fields, key) == if name == key then Some(v) else FirstOf(rest, key)
  {
    assert fields[1..] == rest;
  }

  lemma BeginningOpt(fields: Fields, name: string, v: Option<Json>, rest: Fields)
    requires fields == Opt(name, v) + rest
    ensures forall key :: FirstOf(fields, key) == if name == key && v.Some? then v else FirstOf(rest, key)
  {
    if v.Some? {
      Beginning(fields, name, v.value, rest);
    } else {
      assert fields == rest;
    }
  }

  lemma Only(name: string, v: Json)
    ensures forall key :: FirstOf([(name, v)], key) == if name == key then Some(v) else None
  {
    Beginning([(name, v)], name, v, []);
  }

  lemma OnlyOpt(name: string, v: Option<Json>)
    ensures forall key :: FirstOf(Opt(name, v), key) == if name == key then v else None
  {
    assert Opt(name, v) == Opt(name, v) + [];
    BeginningOpt(Opt(name, v), name, v, []);
  }

  lemma Two(n1: string, v1: Json, n2: string, v2: Json)
    ensures forall key :: FirstOf([(n1, v1), (n2, v2)], key) ==
                          if n1 == key then Some(v1) else if n2 == key then Some(v2) else None
  {
    Only(n2, v2);
    Beginning([(n1, v1), (n2, v2)], n1, v1, [(n2, v2)]);
  }

  lemma Three(n1: string, v1: Json, n2: string, v2: Json, n3: string, v3: Json)
    ensures forall key :: FirstOf([(n1, v1), (n2, v2), (n3, v3)], key) ==
                          if n1 == key then Some(v1) else if n2 == key then Some(v2)
                          else if n3 == key then Some(v3) else None
  {
    Two(n2, v2, n3, v3);
    Beginning([(n1, v1), (n2, v2), (n3, v3)], n1, v1, [(n2, v2), (n3, v3)]);
  }

  lemma {:induction false} StringsReadBack(items: seq<string>)
    ensures AsStrings(Some(StringsJson(items))) == Some(items)
  {
    if items != [] {
      StringsReadBack(items[1..]);
      assert StringsJson(items).items[1..] == StringsJson(items[1..]).items;
      assert items == [items[0]] + items[1..];
    }
  }

  lemma HintReadsBack(h: TrackHint)
    ensures HintOf(HintJson(h)) == Some(h)
  {
    Two("mid", Str(h.mid), "member", Str(h.member));
  }

  lemma {:induction false} TracksReadBack(tracks: seq<TrackHint>)
    ensures TracksOf(TracksJson(tracks)) == Some(tracks)
  {
    if tracks != [] {
      HintReadsBack(tracks[0]);
      TracksReadBack(tracks[1..]);
      assert TracksJson(tracks).items[1..] == TracksJson(tracks[1..]).items;
      assert tracks == [tracks[0]] + tracks[1..];
    }
  }

  lemma TurnReadsBack(t: TurnCredentials)
    ensures TurnOf(TurnJson(t)) == Some(t)
  {
    StringsReadBack(t.urls);
    Three("urls", StringsJson(t.urls), "username", Str(t.username), "password", Str(t.password));
  }

  /** Looking into a frame's object is looking into its own fields, apart from `type`. */
  lemma FrameFields(s: Signal)
    ensures Field(ToValue(s), "type") == Some(Str(KindOf(s)))
    ensures forall key :: key != "type" ==> Field(ToValue(s), key) == FirstOf(WireFields(s), key)
  {
    Beginning(ToValue(s).fields, "type", Str(KindOf(s)), WireFields(s));
  }

  lemma OptionalTracks(tracks: Option<seq<TrackHint>>)
    ensures Bind(Mapped(tracks, TracksJson), TracksOf) == tracks
  {
    if tracks.Some? {
      TracksReadBack(tracks.value);
    }
  }

  lemma OptionalStrings(items: Option<seq<string>>)
    ensures AsStrings(Mapped(items, StringsJson)) == items
  {
    if items.Some? {
      StringsReadBack(items.value);
    }
  }

  /** Three optional fields under different names. */
  lemma ThreeOpt(n1: string, v1: Option<Json>, n2: string, v2: Option<Json>, n3: string, v3: Option<Json>)
    requires n1 != n2 && n1 != n3 && n2 != n3
    ensures forall key :: FirstOf(Opt(n1, v1) + (Opt(n2, v2) + Opt(n3, v3)), key) ==
                          if n1 == key then v1 else if n2 == key then v2 else if n3 == key then v3 else None
  {
    BeginningOpt(Opt(n1, v1) + (Opt(n2, v2) + Opt(n3, v3)), n1, v1, Opt(n2, v2) + Opt(n3, v3));
    BeginningOpt(Opt(n2, v2) + Opt(n3, v3), n2, v2, Opt(n3, v3));
    OnlyOpt(n3, v3);
  }

  /** The later fields of a `joined` frame, which earlier ones of other names do not hide. */
  function JoinedTail(s: Signal): Fields
    requires s.Joined?
  {
    Opt("streamers", Mapped(s.streamers, StringsJson)) +
    (Opt("turn", Mapped(s.turn, TurnJson)) + Opt("tracks", Mapped(s.tracks, TracksJson)))
  }

  lemma JoinedTailLookups(s: Signal)
    requires s.Joined?
    ensures FirstOf(JoinedTail(s), "mode") == None && FirstOf(JoinedTail(s), "role") == None
    ensures FirstOf(JoinedTail(s), "streamers") == Mapped(s.streamers, StringsJson)
    ensures FirstOf(JoinedTail(s), "turn") == Mapped(s.turn, TurnJson)
    ensures FirstOf(JoinedTail(s), "tracks") == Mapped(s.tracks, TracksJson)
  {
    ThreeOpt("streamers", Mapped(s.streamers, StringsJson), "turn", Mapped(s.turn, TurnJson),
             "tracks", Mapped(s.tracks, TracksJson));
  }

  /** Looking into a `joined` frame: its first three fields, then the rest. */
  lemma JoinedField(s: Signal, key: string)
    requires s.Joined? && key != "type"
    ensures Field(ToValue(s), key) ==
            if key == "members" then Some(StringsJson(s.members))
            else if key == "mode" && s.mode.Some? then Some(Str(RoomKindWire(s.mode.value)))
            else if key == "role" && s.ownRole.Some? then Some(Str(RoleWire(s.ownRole.value)))
            else FirstOf(JoinedTail(s), key)
  {
    var mode, role := Mapped(s.mode, m => Str(RoomKindWire(m))), Mapped(s.ownRole, r => Str(RoleWire(r)));
    var f2 := Opt("role", role) + JoinedTail(s);
    var f1 := Opt("mode", mode) + f2;
    FrameFields(s);
    Beginning(WireFields(s), "members", StringsJson(s.members), f1);
    BeginningOpt(f1, "mode", mode, f2);
    BeginningOpt(f2, "role", role, JoinedTail(s));
  }

  lemma JoinedLookups(s: Signal)
    requires s.Joined?
    ensures var v := ToValue(s);
            && Field(v, "members") == Some(StringsJson(s.members))
            && Field(v, "mode") == Mapped(s.mode, m => Str(RoomKindWire(m)))
            && Field(v, "role") == Mapped(s.ownRole, r => Str(RoleWire(r)))
            && Field(v, "streamers") == Mapped(s.streamers, StringsJson)
            && Field(v, "turn") == Mapped(s.turn, TurnJson)
            && Field(v, "tracks") == Mapped(s.tracks, TracksJson)
  {
    JoinedTailLookups(s);
    JoinedField(s, "members");
    JoinedField(s, "mode");
    JoinedField(s, "role");
    JoinedField(s, "streamers");
    JoinedField(s, "turn");
    JoinedField(s, "tracks");
  }

  lemma JoinedReadsBack(s: Signal)
    requires s.Joined?
    ensures JoinedOf(ToValue(s)) == Some(s)
  {
    JoinedLookups(s);
    StringsReadBack(s.members);
    OptionalStrings(s.streamers);
    OptionalTracks(s.tracks);
    if s.turn.Some? {
      TurnReadsBack(s.turn.value);
    }
  }

  lemma ChunkReadsBack(v: Json, chunk: Option<ChunkMeta>)
    requires forall key | key in {"id", "seq", "total"} :: Field(v, key) == FirstOf(ChunkFields(chunk), key)
    ensures ChunkOf(v) == chunk
  {
    if chunk.Some? {
      var c := chunk.value;
      Three("id", Str(c.id), "seq", Num(c.seq_), "total", Num(c.total));
    }
    assert Field(v, "id") == FirstOf(ChunkFields(chunk), "id");
    assert Field(v, "seq") == FirstOf(ChunkFields(chunk), "seq");
    assert Field(v, "total") == FirstOf(ChunkFields(chunk), "total");
  }

  lemma OfferReadsBack(s: Signal)
    requires s.Offer?
    ensures OfferOf(ToValue(s)) == Some(s)
  {
    var tracks := Mapped(s.tracks, TracksJson);
    var rest := Opt("tracks", tracks) + ChunkFields(s.chunk);
    FrameFields(s);
    Beginning(WireFields(s), "sdp", Str(s.sdp), rest);
    BeginningOpt(rest, "tracks", tracks, ChunkFields(s.chunk));
    if s.chunk.Some? {
      var c := s.chunk.value;
      Three("id", Str(c.id), "seq", Num(c.seq_), "total", Num(c.total));
    }
    OptionalTracks(s.tracks);
    ChunkReadsBack(ToValue(s), s.chunk);
  }

  lemma AnswerReadsBack(s: Signal)
    requires s.Answer?
    ensures AnswerOf(ToValue(s)) == Some(s)
  {
    FrameFields(s);
    Beginning(WireFields(s), "sdp", Str(s.sdp), ChunkFields(s.chunk));
    ChunkReadsBack(ToValue(s), s.chunk);
  }

  lemma IceReadsBack(s: Signal)
    requires s.Ice?
    ensures IceOf(ToValue(s)) == Some(s)
  {
    var mid, index := Mapped(s.mid, TextJson), Mapped(s.mlineidx, (n: u32) => Num(n));
    FrameFields(s);
    Beginning(WireFields(s), "cand", Str(s.cand), Opt("mid", mid) + Opt("mlineidx", index));
    BeginningOpt(Opt("mid", mid) + Opt("mlineidx", index), "mid", mid, Opt("mlineidx", index));
    OnlyOpt("mlineidx", index);
  }

  lemma PresenceLookups(s: Signal)
    requires s.Presence?
    ensures var v := ToValue(s);
            && Field(v, "member") == Some(Str(s.member))
            && Field(v, "state") == Some(Str(PresenceWire(s.presence)))
            && Field(v, "kind") == Mapped(s.kind, k => Str(ToggleWire(k)))
            && Field(v, "role") == Mapped(s.ownRole, r => Str(RoleWire(r)))
  {
    var kind, role := Mapped(s.kind, k => Str(ToggleWire(k))), Mapped(s.ownRole, r => Str(RoleWire(r)));
    var state := Str(PresenceWire(s.presence));
    var f2 := Opt("kind", kind) + Opt("role", role);
    var f1 := [("state", state)] + f2;
    FrameFields(s);
    Beginning(WireFields(s), "member", Str(s.member), f1);
    Beginning(f1, "state", state, f2);
    BeginningOpt(f2, "kind", kind, Opt("role", role));
    OnlyOpt("role", role);
  }

  lemma PresenceReadsBack(s: Signal)
    requires s.Presence?
    ensures PresenceOf(ToValue(s)) == Some(s)
  {
    PresenceLookups(s);
  }

  lemma ReactReadsBack(s: Signal)
    requires s.React?
    ensures ReactOf(ToValue(s)) == Some(s)
  {
    FrameFields(s);
    Only("emoji", Str(s.emoji));
    BeginningOpt(WireFields(s), "member", Mapped(s.reactor, TextJson), [("emoji", Str(s.emoji))]);
  }

  lemma StateFrameReadsBack(s: Signal)
    requires s.Mic? || s.Video? || s.Screen? || s.Hand? || s.Deaf? || s.Speaking? || s.Silent?
    ensures FromValue(ToValue(s)) == Some(s)
  {
    FrameFields(s);
    Only(WireFields(s)[0].0, WireFields(s)[0].1);
  }

  lemma ChannelFrameReadsBack(s: Signal)
    requires s.Join? || s.Leave?
    ensures FromValue(ToValue(s)) == Some(s)
  {
    FrameFields(s);
    Only("channel", Str(s.channel));
  }

  lemma TargetFrameReadsBack(s: Signal)
    requires s.Promote? || s.Demote?
    ensures FromValue(ToValue(s)) == Some(s)
  {
    FrameFields(s);
    Only("target", Str(s.target));
  }

  lemma RoleFrameReadsBack(s: Signal)
    requires s.RoleChange?
    ensures FromValue(ToValue(s)) == Some(s)
  {
    FrameFields(s);
    Two("member", Str(s.member), "role", Str(RoleWire(s.role)));
  }

  lemma ErrorFrameReadsBack(s: Signal)
    requires s.Error?
    ensures FromValue(ToValue(s)) == Some(s)
  {
    FrameFields(s);
    OnlyOpt("error", Mapped(s.error, TextJson));
  }

  lemma JoinedFrameReadsBack(s: Signal)
    requires s.Joined?
    ensures FromValue(ToValue(s)) == Some(s)
  {
    FrameFields(s);
    JoinedReadsBack(s);
  }

  lemma OfferFrameReadsBack(s: Signal)
    requires s.Offer?
    ensures FromValue(ToValue(s)) == Some(s)
  {
    FrameFields(s);
    OfferReadsBack(s);
  }

  lemma AnswerFrameReadsBack(s: Signal)
    requires s.Answer?
    ensures FromValue(ToValue(s)) == Some(s)
  {
    FrameFields(s);
    AnswerReadsBack(s);
  }

  lemma IceFrameReadsBack(s: Signal)
    requires s.Ice?
    ensures FromValue(ToValue(s)) == Some(s)
  {
    FrameFields(s);
    IceReadsBack(s);
  }

  lemma PresenceFrameReadsBack(s: Signal)
    requires s.Presence?
    ensures FromValue(ToValue(s)) == Some(s)
  {
    FrameFields(s);
    PresenceReadsBack(s);
  }

  lemma ReactFrameReadsBack(s: Signal)
    requires s.React?
    ensures FromValue(ToValue(s)) == Some(s)
  {
    FrameFields(s);
    ReactReadsBack(s);
  }

  /** Every frame is read back from its own JSON object. */
  lemma ValueIsTheFrame(s: Signal)
    ensures FromValue(ToValue(s)) == Some(s)
  {
    match s
    case Join(_) => ChannelFrameReadsBack(s);
    case Leave(_) => ChannelFrameReadsBack(s);
    case Joined(_, _, _, _, _, _) => JoinedFrameReadsBack(s);
    case Offer(_, _, _) => OfferFrameReadsBack(s);
    case Answer(_, _) => AnswerFrameReadsBack(s);
    case Ice(_, _, _) => IceFrameReadsBack(s);
    case Presence(_, _, _, _) => PresenceFrameReadsBack(s);
    case React(_, _) => ReactFrameReadsBack(s);
    case Promote(_) => TargetFrameReadsBack(s);
    case Demote(_) => TargetFrameReadsBack(s);
    case RoleChange(_, _) => RoleFrameReadsBack(s);
    case Error(_) => ErrorFrameReadsBack(s);
    case _ => StateFrameReadsBack(s);
  }

  /** Every frame survives being written as JSON text and parsed again. */
  lemma JsonIsTheFrame(s: Signal)
    ensures FromJson(ToJson(s)) == Some(s)
  {
    JsonGrammar.ParseUndoesWrite(ToValue(s));
    ValueIsTheFrame(s);
  }

  /** Every key a frame is read from. */
  const KEYS: set<string> :=
    {"type", "channel", "members", "mode", "role", "streamers", "turn", "tracks", "sdp", "id", "seq", "total", "cand", "mid",
     "mlineidx", "member", "state", "kind", "emoji", "target", "error"}

  ghost predicate Agree(v: Json, u: Json) {
    forall key | key in KEYS :: Field(v, key) == Field(u, key)
  }

  lemma JoinedDecides(v: Json, u: Json)
    requires Agree(v, u)
    ensures JoinedOf(v) == JoinedOf(u)
  {
  }

  lemma DescriptionsDecide(v: Json, u: Json)
    requires Agree(v, u)
    ensures OfferOf(v) == OfferOf(u) && AnswerOf(v) == AnswerOf(u) && IceOf(v) == IceOf(u)
  {
    assert ChunkOf(v) == ChunkOf(u);
  }

  lemma MembersDecide(v: Json, u: Json)
    requires Agree(v, u)
    ensures PresenceOf(v) == PresenceOf(u) && ReactOf(v) == ReactOf(u) && RoleOf(v) == RoleOf(u) && OnOffOf(v) == OnOffOf(u)
  {
  }

  lemma OwnStatesDecide(kind: string, v: Json, u: Json)
    requires Agree(v, u)
    ensures OwnStateOf(kind, v) == OwnStateOf(kind, u)
  {
    MembersDecide(v, u);
  }

  lemma AboutMembersDecides(kind: string, v: Json, u: Json)
    requires Agree(v, u)
    ensures AboutMembers(kind, v) == AboutMembers(kind, u)
  {
    MembersDecide(v, u);
    OwnStatesDecide(kind, v, u);
    assert FieldString(v, "target") == FieldString(u, "target");
  }

  lemma KindsDecide(kind: string, v: Json, u: Json)
    requires Agree(v, u)
    ensures OfKind(kind, v) == OfKind(kind, u)
  {
    JoinedDecides(v, u);
    DescriptionsDecide(v, u);
    AboutMembersDecides(kind, v, u);
    assert FieldString(v, "channel") == FieldString(u, "channel") && FieldString(v, "error") == FieldString(u, "error");
  }

  /** Objects that agree on the keys of frames are read alike: neither the order of the fields nor others beside them count. */
  lemma FieldsDecide(v: Json, u: Json)
    requires Agree(v, u)
    ensures FromValue(v) == FromValue(u)
  {
    assert FieldString(v, "type") == FieldString(u, "type");
    if FieldString(u, "type").Some? {
      KindsDecide(FieldString(u, "type").value, v, u);
    }
  }

  /**
   Any JSON text of any object with a frame's fields, in any order, among any others, with any white space and any
   spelling of its strings, is read as that frame.
   */
  lemma AnySpellingIsTheFrame(text: string, before: string, d: JsonGrammar.Doc, after: string, s: Signal)
    requires JsonGrammar.TextOf(text, before, d, after)
    requires Agree(JsonGrammar.Value(d), ToValue(s))
    ensures FromJson(text) == Some(s)
  {
    JsonGrammar.EveryLayoutIsRead(text, before, d, after);
    FieldsDecide(JsonGrammar.Value(d), ToValue(s));
    ValueIsTheFrame(s);
  }

  // ---- over the wire ----

  const RTC_KEY: string := "+obsidianirc/rtc"

  /** The line that sends a frame to a channel. */
  function SignalLine(channel: string, s: Signal): Message {
    Message(Set([], Tag(RTC_KEY, Some(ToJson(s)))), None, "TAGMSG", [channel])
  }

  datatype Rtc = NotRtc | Unreadable | Frame(channel: string, signal: Signal)

  /** What the client makes of a received TAGMSG. */
  function RtcOf(m: Message): Rtc {
    match Get(m.tags, RTC_KEY)
    case None => NotRtc
    case Some(payload) =>
      if m.params == [] then NotRtc
      else
        match FromJson(payload)
        case None => Unreadable
        case Some(signal) => Frame(m.params[0], signal)
  }

  lemma JsonIsNotEmpty(s: Signal)
    ensures ToJson(s) != ""
  {
    assert ToJson(s)[0] == '{';
  }

  /**
   Any well-formed line that carries a frame under the tag, such as ours with the sender's source put in
   front by the server, is read as that frame, whichever line ending it arrives with.
   */
  lemma CarriedFrameArrives(m: Message, s: Signal, ending: string)
    requires WellFormed(m) && m.params != [] && Get(m.tags, RTC_KEY) == Some(ToJson(s))
    requires forall c | c in ending :: IsLineEnd(c)
    ensures Messages.Parsed(Messages.Printed(m) + ending) == Ok(m)
    ensures RtcOf(m) == Frame(m.params[0], s)
  {
    WellFormedReadsBack(m, ending);
    JsonIsTheFrame(s);
  }

  predicate NoLineEnd(s: string) {
    forall c | c in s :: !IsLineEnd(c)
  }

  lemma TaggedLineIsWellFormed(m: Message, tag: Tag, command: string, param: string)
    requires m == Message([tag], None, command, [param])
    requires PlainTag(tag) && NoLineEnd(param) && command != "" && ' ' !in command && command[0] != ':'
    ensures WellFormed(m) && Get(m.tags, tag.key) == tag.value
  {
    assert m.tags[|m.tags| - 1] == tag;
  }

  lemma RtcKeyIsPlain()
    ensures '=' !in RTC_KEY && ';' !in RTC_KEY && ' ' !in RTC_KEY
  {
  }

  lemma RtcTagIsPlain(s: Signal)
    ensures PlainTag(Tag(RTC_KEY, Some(ToJson(s))))
  {
    RtcKeyIsPlain();
    assert RTC_KEY != "";
    JsonIsNotEmpty(s);
  }

  lemma SignalLineIsWellFormed(channel: string, s: Signal)
    requires NoLineEnd(channel)
    ensures WellFormed(SignalLine(channel, s))
    ensures Get(SignalLine(channel, s).tags, RTC_KEY) == Some(ToJson(s))
  {
    RtcTagIsPlain(s);
    TaggedLineIsWellFormed(SignalLine(channel, s), Tag(RTC_KEY, Some(ToJson(s))), "TAGMSG", channel);
  }

  lemma PartsWithoutLineEnds(a: string, b: string)
    requires NoLineEnd(a) && NoLineEnd(b)
    ensures NoLineEnd(a + b)
  {
  }

  lemma NamesHaveNoLineEnd()
    ensures NoLineEnd(RTC_KEY) && NoLineEnd("TAGMSG")
  {
  }

  lemma TaggedLineIsOneLine(key: string, value: string, command: string, param: string)
    requires NoLineEnd(key) && NoLineEnd(command) && NoLineEnd(param)
    ensures NoLineEnd(Messages.Printed(Message([Tag(key, Some(value))], None, command, [param])))
  {
    var m := Message([Tag(key, Some(value))], None, command, [param]);
    EscapedIsSafe(value);
    assert PrintedTags(m.tags) == key + "=" + Escaped(value);
    assert NoLineEnd(PrintedTagSection(m.tags));
    PartsWithoutLineEnds(if NeedsMarker(param) then " :" else " ", param);
    PartsWithoutLineEnds(command, PrintedParams([param]));
  }

  /** The printed line is one line: whatever text the frame holds, no line end gets into it. */
  lemma SignalLineIsOneLine(channel: string, s: Signal)
    requires NoLineEnd(channel)
    ensures NoLineEnd(Messages.Printed(SignalLine(channel, s)))
  {
    NamesHaveNoLineEnd();
    TaggedLineIsOneLine(RTC_KEY, ToJson(s), "TAGMSG", channel);
  }

  /**
   End to end: for every frame and every channel without line ends, the printed line is a single line, and
   parsing it, with any line ending, unescaping the tag and parsing the JSON gives the same frame and channel.
   */
  lemma FrameSurvivesTheWire(channel: string, s: Signal, ending: string)
    requires NoLineEnd(channel) && forall c | c in ending :: IsLineEnd(c)
    ensures var line := Messages.Printed(SignalLine(channel, s));
            && NoLineEnd(line)
            && Messages.Parsed(line + ending).Ok?
            && RtcOf(Messages.Parsed(line + ending).value) == Frame(channel, s)
  {
    SignalLineIsWellFormed(channel, s);
    SignalLineIsOneLine(channel, s);
    CarriedFrameArrives(SignalLine(channel, s), s, ending);
  }
}
