/**
 Who is where, told from the lines alone: which channels we are in and who is in them after any run is a matter of the JOIN,
 NAMES, WHO, PART, KICK, QUIT, NICK and RENAME lines of the run (crates/obby-client/src/session.rs:323-433 and 538-576).
 */
module Membership {
  import opened Casemap
  import opened Messages
  import opened Models
  import Caps
  import MessageLogs
  import Names
  import Text

  // ---- what one line says ----

  predicate Says(line: Message, command: string, params: nat) {
    Text.Lower(line.command) == command && |line.params| >= params
  }

  function Key(env: Env, name: string): string {
    Fold(env.mapping, name)
  }

  function From(line: Message): string {
    match line.source case None => "" case Some(source) => source.name
  }

  /** The line puts us into the channel, or shows us out of it. */
  predicate WeEnter(env: Env, me: string, line: Message, f: string) {
    Says(line, "join", 1) && SameName(env.mapping, me, From(line)) && f == Key(env, line.params[0])
  }

  predicate WeLeave(env: Env, me: string, line: Message, f: string) {
    || (Says(line, "part", 1) && SameName(env.mapping, me, From(line)) && f == Key(env, line.params[0]))
    || (Says(line, "kick", 2) && SameName(env.mapping, me, line.params[1]) && f == Key(env, line.params[0]))
  }

  /** A NAMES entry in its parts: any membership prefixes, a nick, and perhaps the rest of a hostmask. */
  predicate FallsInto(env: Env, entry: string, prefixes: string, nick: string, rest: string) {
    && entry == prefixes + nick + rest
    && (forall i | 0 <= i < |prefixes| :: prefixes[i] in env.prefixes)
    && (nick + rest == "" || (nick + rest)[0] !in env.prefixes)
    && '!' !in nick && (rest == "" || rest[0] == '!')
  }

  ghost predicate EntryNames(env: Env, entry: string, nick: string) {
    exists prefixes, rest :: FallsInto(env, entry, prefixes, nick, rest)
  }

  /** One of the entries names somebody by this key. */
  ghost predicate NamedIn(env: Env, entries: seq<string>, m: string) {
    exists entry, nick :: entry in entries && EntryNames(env, entry, nick) && nick != "" && m == Key(env, nick)
  }

  /** Somebody is in the channel by what the line says: a JOIN, a NAMES entry, or a WHO reply. */
  ghost predicate ShowsIn(env: Env, me: string, line: Message, f: string, m: string) {
    || (Says(line, "join", 1) && !SameName(env.mapping, me, From(line)) && f == Key(env, line.params[0]) && m == Key(env, From(line)))
    || (Says(line, "353", 3) && f == Key(env, line.params[2]) && NamedIn(env, Caps.Tokens(line.params[|line.params| - 1]), m))
    || (Says(line, "352", 7) && IsChannel(env, line.params[1]) && f == Key(env, line.params[1]) && m == Key(env, line.params[5]))
    || (Says(line, "354", 8) && line.params[1] == "332" && IsChannel(env, line.params[2])
        && f == Key(env, line.params[2]) && m == Key(env, line.params[5]))
  }

  /** Somebody is gone from the channel by what the line says. */
  predicate ShowsOut(env: Env, line: Message, f: string, m: string) {
    || (Says(line, "part", 1) && f == Key(env, line.params[0]) && m == Key(env, From(line)))
    || (Says(line, "kick", 2) && f == Key(env, line.params[0]) && m == Key(env, line.params[1]))
    || (Says(line, "quit", 0) && m == Key(env, From(line)))
  }

  // ---- what is so after it, given what was so before ----

  /** We are in channel `f` after the line. */
  ghost predicate OnAfter(env: Env, me: string, line: Message, on: string -> bool, f: string) {
    if Says(line, "rename", 2) && on(Key(env, line.params[0])) then
      f == Key(env, line.params[1]) || (f != Key(env, line.params[0]) && on(f))
    else WeEnter(env, me, line, f) || (on(f) && !WeLeave(env, me, line, f))
  }

  /** `m` is a member of channel `f` after the line. */
  ghost predicate InAfter(env: Env, me: string, line: Message, on: string -> bool, isIn: (string, string) -> bool, f: string, m: string) {
    if Says(line, "rename", 2) && on(Key(env, line.params[0])) then
      if f == Key(env, line.params[1]) then isIn(Key(env, line.params[0]), m)
      else f != Key(env, line.params[0]) && isIn(f, m)
    else if Says(line, "nick", 1) && isIn(f, Key(env, From(line))) then
      m == Key(env, line.params[0]) || (m != Key(env, From(line)) && isIn(f, m))
    else if WeLeave(env, me, line, f) then false
    else
      || (on(f) && ShowsIn(env, me, line, f, m))
      || (isIn(f, m) && !ShowsOut(env, line, f, m))
  }

  // ---- the model does just that ----

  predicate IsOn(st: State, f: string) {
    f in st.channels
  }

  predicate IsMember(st: State, f: string, m: string) {
    f in st.channels && m in st.channels[f].members
  }

  /** The model after a line agrees with what the line says of one channel and one member. */
  ghost predicate AsSaid(env: Env, st: State, line: Message, after: State, f: string, m: string) {
    && (IsOn(after, f) <==> OnAfter(env, st.me, line, g => IsOn(st, g), f))
    && (IsMember(after, f, m) <==> InAfter(env, st.me, line, g => IsOn(st, g), (g, n) => IsMember(st, g, n), f, m))
  }

  lemma {:induction false} EntryNickOf(env: Env, entry: string, prefixes: string, nick: string, rest: string)
    requires FallsInto(env, entry, prefixes, nick, rest)
    ensures EntryNick(env, entry) == nick
    decreases |prefixes|
  {
    if prefixes != "" {
      assert entry[1..] == prefixes[1..] + nick + rest;
      EntryNickOf(env, entry[1..], prefixes[1..], nick, rest);
    } else if rest == "" {
      assert entry == nick + rest && entry == nick;
      Text.SplitOnceMiss(entry, '!');
    } else {
      assert entry == nick + rest && entry == nick + ['!'] + rest[1..];
      Text.SplitOnceHit(nick, '!', rest[1..]);
    }
  }

  lemma {:induction false} EntryFalls(env: Env, entry: string) returns (prefixes: string, rest: string)
    ensures FallsInto(env, entry, prefixes, EntryNick(env, entry), rest)
  {
    if entry != "" && entry[0] in env.prefixes {
      prefixes, rest := EntryFalls(env, entry[1..]);
      prefixes := [entry[0]] + prefixes;
      assert entry == [entry[0]] + entry[1..];
    } else {
      Text.SplitOnceParts(entry, '!');
      var nick := EntryNick(env, entry);
      prefixes, rest := "", entry[|nick|..];
      assert nick + rest == entry;
    }
  }

  /** Every entry names exactly one nick. */
  lemma EntryNickIs(env: Env, entry: string, nick: string)
    ensures EntryNames(env, entry, nick) <==> EntryNick(env, entry) == nick
  {
    var prefixes, rest := EntryFalls(env, entry);
    if EntryNames(env, entry, nick) {
      prefixes, rest :| FallsInto(env, entry, prefixes, nick, rest);
      EntryNickOf(env, entry, prefixes, nick, rest);
    }
  }

  lemma CommandsAre(line: Message)
    ensures var c, v := Text.Lower(line.command), VerbOf(line.command);
            && (c == "join" <==> v == OnJoin) && (c == "part" <==> v == OnPart) && (c == "quit" <==> v == OnQuit)
            && (c == "kick" <==> v == OnKick) && (c == "nick" <==> v == OnNick) && (c == "rename" <==> v == OnRename)
            && (c == "353" <==> v == OnNames) && (c == "352" <==> v == OnWho) && (c == "354" <==> v == OnWhox)
  {
    NumericsAre(line);
  }

  lemma NumericsAre(line: Message)
    ensures var c, v := Text.Lower(line.command), VerbOf(line.command);
            (c == "353" <==> v == OnNames) && (c == "352" <==> v == OnWho) && (c == "354" <==> v == OnWhox)
  {
  }

  lemma OwnJoinSaid(env: Env, st: State, line: Message, f: string, m: string)
    requires VerbOf(line.command) == OnJoin && line.params != [] && SameName(env.mapping, st.me, From(line))
    ensures AsSaid(env, st, line, JoinApplied(env, st, line), f, m)
  {
    CommandsAre(line);
  }

  lemma OthersJoinSaid(env: Env, st: State, line: Message, f: string, m: string)
    requires VerbOf(line.command) == OnJoin && line.params != [] && !SameName(env.mapping, st.me, From(line))
    ensures AsSaid(env, st, line, JoinApplied(env, st, line), f, m)
  {
    CommandsAre(line);
  }

  lemma JoinSaid(env: Env, st: State, line: Message, f: string, m: string)
    requires VerbOf(line.command) == OnJoin
    ensures AsSaid(env, st, line, JoinApplied(env, st, line), f, m)
  {
    CommandsAre(line);
    if line.params != [] {
      if SameName(env.mapping, st.me, From(line)) {
        OwnJoinSaid(env, st, line, f, m);
      } else {
        OthersJoinSaid(env, st, line, f, m);
      }
    }
  }

  lemma OwnPartSaid(env: Env, st: State, line: Message, f: string, m: string)
    requires VerbOf(line.command) == OnPart && line.params != [] && SameName(env.mapping, st.me, From(line))
    ensures AsSaid(env, st, line, PartApplied(env, st, line), f, m)
  {
    CommandsAre(line);
  }

  lemma OthersPartSaid(env: Env, st: State, line: Message, f: string, m: string)
    requires VerbOf(line.command) == OnPart && line.params != [] && !SameName(env.mapping, st.me, From(line))
    ensures AsSaid(env, st, line, PartApplied(env, st, line), f, m)
  {
    CommandsAre(line);
  }

  lemma PartSaid(env: Env, st: State, line: Message, f: string, m: string)
    requires VerbOf(line.command) == OnPart
    ensures AsSaid(env, st, line, PartApplied(env, st, line), f, m)
  {
    CommandsAre(line);
    if line.params != [] {
      if SameName(env.mapping, st.me, From(line)) {
        OwnPartSaid(env, st, line, f, m);
      } else {
        OthersPartSaid(env, st, line, f, m);
      }
    }
  }

  lemma KickSaid(env: Env, st: State, line: Message, f: string, m: string)
    requires VerbOf(line.command) == OnKick
    ensures AsSaid(env, st, line, KickApplied(env, st, line), f, m)
  {
    CommandsAre(line);
  }

  lemma QuitSaid(env: Env, st: State, line: Message, f: string, m: string)
    requires VerbOf(line.command) == OnQuit
    ensures AsSaid(env, st, line, QuitApplied(env, st, line), f, m)
  {
    CommandsAre(line);
  }

  lemma NickSaid(env: Env, st: State, line: Message, f: string, m: string)
    requires VerbOf(line.command) == OnNick
    ensures AsSaid(env, st, line, NickApplied(env, st, line), f, m)
  {
    CommandsAre(line);
  }

  lemma RenameSaid(env: Env, st: State, line: Message, f: string, m: string)
    requires VerbOf(line.command) == OnRename
    ensures AsSaid(env, st, line, RenameApplied(env, st, line), f, m)
  {
    CommandsAre(line);
  }

  lemma WhoReplySaid(env: Env, st: State, line: Message, historical: bool, f: string, m: string)
    requires VerbOf(line.command) == OnWho
    ensures AsSaid(env, st, line, Applied(env, st, line, historical), f, m)
  {
    CommandsAre(line);
  }

  lemma WhoxReplySaid(env: Env, st: State, line: Message, historical: bool, f: string, m: string)
    requires VerbOf(line.command) == OnWhox
    ensures AsSaid(env, st, line, Applied(env, st, line, historical), f, m)
  {
    CommandsAre(line);
  }

  lemma NamedIff(env: Env, entries: seq<string>, m: string)
    ensures NamedIn(env, entries, m) <==> Lists(env, entries, m)
  {
    if NamedIn(env, entries, m) {
      var entry, nick :| entry in entries && EntryNames(env, entry, nick) && nick != "" && m == Key(env, nick);
      EntryNickIs(env, entry, nick);
      var i :| 0 <= i < |entries| && entries[i] == entry;
    }
    if Lists(env, entries, m) {
      var i :| 0 <= i < |entries| && EntryNick(env, entries[i]) != "" && m == Key(env, EntryNick(env, entries[i]));
      EntryNickIs(env, entries[i], EntryNick(env, entries[i]));
      assert entries[i] in entries;
    }
  }

  predicate Lists(env: Env, entries: seq<string>, m: string) {
    exists i :: 0 <= i < |entries| && EntryNick(env, entries[i]) != "" && m == Key(env, EntryNick(env, entries[i]))
  }

  lemma {:induction false} EntriesAreIn(env: Env, st: State, f: string, entries: seq<string>, g: string, m: string)
    ensures var after := NamesApplied(env, st, f, entries);
            && after.channels.Keys == st.channels.Keys
            && (IsMember(after, g, m) <==> IsMember(st, g, m) || (g == f && f in st.channels && Lists(env, entries, m)))
  {
    if entries != [] {
      var front, last := entries[..|entries| - 1], entries[|entries| - 1];
      EntriesAreIn(env, st, f, front, g, m);
      ListsOneMore(env, entries, m);
    }
  }

  lemma ListsOneMore(env: Env, entries: seq<string>, m: string)
    requires entries != []
    ensures var nick := EntryNick(env, entries[|entries| - 1]);
            Lists(env, entries, m) <==> Lists(env, entries[..|entries| - 1], m) || (nick != "" && m == Key(env, nick))
  {
    var front := entries[..|entries| - 1];
    if Lists(env, front, m) {
      var i :| 0 <= i < |front| && EntryNick(env, front[i]) != "" && m == Key(env, EntryNick(env, front[i]));
      assert entries[i] == front[i];
    }
    if Lists(env, entries, m) {
      var i :| 0 <= i < |entries| && EntryNick(env, entries[i]) != "" && m == Key(env, EntryNick(env, entries[i]));
      assert i < |front| ==> front[i] == entries[i];
    }
  }

  lemma NamesSaid(env: Env, st: State, line: Message, f: string, m: string)
    requires VerbOf(line.command) == OnNames
    ensures AsSaid(env, st, line, NamesLineApplied(env, st, line), f, m)
  {
    CommandsAre(line);
    if |line.params| >= 3 {
      var entries := Caps.Tokens(line.params[|line.params| - 1]);
      EntriesAreIn(env, st, Key(env, line.params[2]), entries, f, m);
      NamedIff(env, entries, m);
    }
  }

  predicate SameRoll(st: State, after: State, f: string) {
    (IsOn(after, f) <==> IsOn(st, f)) && (IsOn(st, f) ==> after.channels[f].members == st.channels[f].members)
  }

  predicate Silent(verb: Verb) {
    verb.OnMessage? || verb.OnMarkRead? || verb.OnStatus? || verb.OnMetadata? || verb.OnWhois? || verb.OnOther?
  }

  lemma SilentSaid(env: Env, st: State, line: Message, after: State, f: string, m: string)
    requires Silent(VerbOf(line.command)) && SameRoll(st, after, f)
    ensures AsSaid(env, st, line, after, f, m)
  {
    CommandsAre(line);
  }

  lemma FilingKeepsRoll(env: Env, st: State, m: MessageLogs.ChatMessage, name: string, isChannel: bool, counts: bool, f: string)
    ensures SameRoll(st, Filed(env, st, m, name, isChannel, counts), f)
    ensures Filed(env, st, m, name, isChannel, counts).me == st.me
  {
  }

  lemma MessageKeepsRoll(env: Env, st: State, line: Message, verb: MessageVerb, historical: bool, f: string)
    ensures SameRoll(st, MessageApplied(env, st, line, verb, historical), f)
    ensures MessageApplied(env, st, line, verb, historical).me == st.me
  {
    if line.params != [] {
      var time, own := StampOf(line, st.latest), IsMe(env, st, Sender(line));
      var (name, isChannel) := Place(env, line, own);
      var m := NewMessage(env, line, verb, MessageLogs.Key(time, st.nextSeq));
      FilingKeepsRoll(env, Noted(st, time), m, name, isChannel, !own && !historical, f);
    }
  }

  lemma RecordsKeepRoll(env: Env, st: State, line: Message, verb: Verb, historical: bool, f: string)
    requires Silent(verb) && !verb.OnMessage?
    ensures SameRoll(st, VerbApplied(env, st, line, verb, historical), f)
    ensures VerbApplied(env, st, line, verb, historical).me == st.me
  {
  }

  /** Every other line leaves channels and members as they were. */
  lemma OthersSayNothing(env: Env, st: State, line: Message, historical: bool, f: string, m: string)
    requires Silent(VerbOf(line.command))
    ensures AsSaid(env, st, line, Applied(env, st, line, historical), f, m)
  {
    var verb := VerbOf(line.command);
    if verb.OnMessage? {
      MessageKeepsRoll(env, st, line, verb.m, historical, f);
    } else {
      RecordsKeepRoll(env, st, line, verb, historical, f);
    }
    SilentSaid(env, st, line, Applied(env, st, line, historical), f, m);
  }

  lemma LineSaid(env: Env, st: State, line: Message, historical: bool, f: string, m: string)
    ensures AsSaid(env, st, line, Applied(env, st, line, historical), f, m)
  {
    match VerbOf(line.command)
    case OnJoin => JoinSaid(env, st, line, f, m);
    case OnPart => PartSaid(env, st, line, f, m);
    case OnKick => KickSaid(env, st, line, f, m);
    case OnQuit => QuitSaid(env, st, line, f, m);
    case OnNick => NickSaid(env, st, line, f, m);
    case OnRename => RenameSaid(env, st, line, f, m);
    case OnNames => NamesSaid(env, st, line, f, m);
    case OnWho => WhoReplySaid(env, st, line, historical, f, m);
    case OnWhox => WhoxReplySaid(env, st, line, historical, f, m);
    case _ => OthersSayNothing(env, st, line, historical, f, m);
  }

  // ---- every run ----

  /** Our nick after a run: the last one the connection settled on or a NICK line of ours gave. */
  function OurNick(me: string, run: seq<Moment>): string {
    if run == [] then me
    else
      var nick, last := OurNick(me, run[..|run| - 1]), run[|run| - 1];
      match last.event
      case OwnNick(settled) => settled
      case Lost => nick
      case Line(line, _) =>
        if Says(line, "nick", 1) && SameName(last.env.mapping, nick, From(line)) then line.params[0] else nick
  }

  /** We are in channel `f` after the run. */
  ghost predicate On(me: string, run: seq<Moment>, f: string) {
    run != [] &&
    var front, last := run[..|run| - 1], run[|run| - 1];
    match last.event
    case Line(line, _) => OnAfter(last.env, OurNick(me, front), line, g => On(me, front, g), f)
    case _ => On(me, front, f)
  }

  /** `m` is in channel `f` after the run; a lost connection empties them all. */
  ghost predicate In(me: string, run: seq<Moment>, f: string, m: string) {
    run != [] &&
    var front, last := run[..|run| - 1], run[|run| - 1];
    match last.event
    case Line(line, _) =>
      InAfter(last.env, OurNick(me, front), line, g => On(me, front, g), (g, n) => In(me, front, g, n), f, m)
    case OwnNick(_) => In(me, front, f, m)
    case Lost => false
  }

  lemma {:induction false} EntriesKeepMe(env: Env, st: State, f: string, entries: seq<string>)
    ensures NamesApplied(env, st, f, entries).me == st.me
  {
    if entries != [] {
      EntriesKeepMe(env, st, f, entries[..|entries| - 1]);
    }
  }

  lemma OnlyNickRenamesUs(env: Env, st: State, line: Message, historical: bool)
    requires VerbOf(line.command) != OnNick
    ensures Applied(env, st, line, historical).me == st.me
  {
    var verb := VerbOf(line.command);
    if verb.OnMessage? {
      MessageKeepsRoll(env, st, line, verb.m, historical, "");
    } else if Silent(verb) {
      RecordsKeepRoll(env, st, line, verb, historical, "");
    } else if verb.OnNames? && |line.params| >= 3 {
      EntriesKeepMe(env, st, Key(env, line.params[2]), Caps.Tokens(Trailing(line)));
    }
  }

  lemma NickIsOurs(env: Env, st: State, line: Message, historical: bool)
    ensures Applied(env, st, line, historical).me ==
            if Says(line, "nick", 1) && SameName(env.mapping, st.me, From(line)) then line.params[0] else st.me
  {
    CommandsAre(line);
    if VerbOf(line.command) != OnNick {
      OnlyNickRenamesUs(env, st, line, historical);
    }
  }

  lemma {:induction false} OurNickIs(me: string, retention: nat, run: seq<Moment>)
    ensures Reached(me, retention, run).me == OurNick(me, run)
  {
    if run != [] {
      var front, last := run[..|run| - 1], run[|run| - 1];
      OurNickIs(me, retention, front);
      if last.event.Line? {
        NickIsOurs(last.env, Reached(me, retention, front), last.event.line, last.event.historical);
      }
    }
  }

  /** What was so before is all that counts, however it is known. */
  lemma SameBefore(env: Env, me: string, line: Message, on: string -> bool, on': string -> bool,
                   isIn: (string, string) -> bool, isIn': (string, string) -> bool, f: string, m: string)
    requires (forall g :: on(g) == on'(g)) && forall g, n :: isIn(g, n) == isIn'(g, n)
    ensures OnAfter(env, me, line, on, f) == OnAfter(env, me, line, on', f)
    ensures InAfter(env, me, line, on, isIn, f, m) == InAfter(env, me, line, on', isIn', f, m)
  {
  }

  /** After every run we are in exactly the channels its lines left us in, and in each is exactly who they left there. */
  lemma {:induction false} RollIsAsSaid(me: string, retention: nat, run: seq<Moment>, f: string, m: string)
    ensures IsOn(Reached(me, retention, run), f) <==> On(me, run, f)
    ensures IsMember(Reached(me, retention, run), f, m) <==> In(me, run, f, m)
    decreases |run|
  {
    if run != [] {
      var front, last := run[..|run| - 1], run[|run| - 1];
      var st := Reached(me, retention, front);
      RollIsAsSaid(me, retention, front, f, m);
      if last.event.Line? {
        OurNickIs(me, retention, front);
        LineSaid(last.env, st, last.event.line, last.event.historical, f, m);
        forall g ensures IsOn(st, g) == On(me, front, g) {
          RollIsAsSaid(me, retention, front, g, m);
        }
        forall g, n ensures IsMember(st, g, n) == In(me, front, g, n) {
          RollIsAsSaid(me, retention, front, g, n);
        }
        SameBefore(last.env, st.me, last.event.line, g => IsOn(st, g), g => On(me, front, g),
                   (g, n) => IsMember(st, g, n), (g, n) => In(me, front, g, n), f, m);
      }
    }
  }

  // ---- who is known ----

  /** Somebody else leaves where we see it, after which those we share nothing with are forgotten. */
  predicate Forgets(env: Env, me: string, line: Message) {
    || (Says(line, "part", 1) && !SameName(env.mapping, me, From(line)))
    || (Says(line, "kick", 2) && !SameName(env.mapping, me, line.params[1]))
    || Says(line, "quit", 0)
  }

  /** The line makes a record of somebody, if there is none. */
  ghost predicate Introduces(env: Env, st: State, line: Message, k: string) {
    || (Says(line, "join", 1) && !SameName(env.mapping, st.me, From(line)) && IsOn(st, Key(env, line.params[0]))
        && k == Key(env, From(line)))
    || (Says(line, "353", 3) && IsOn(st, Key(env, line.params[2])) && NamedIn(env, Caps.Tokens(line.params[|line.params| - 1]), k))
    || (Says(line, "352", 7) && k == Key(env, line.params[5]))
    || (Says(line, "354", 8) && line.params[1] == "332" && k == Key(env, line.params[5]))
    || ((Says(line, "away", 0) || Says(line, "account", 0)) && k == Key(env, From(line)))
    || (Says(line, "metadata", 2) && Describes(env, st.me, line.params[0], k))
    || ((Says(line, "760", 3) || Says(line, "761", 3) || Says(line, "766", 3)) && Describes(env, st.me, line.params[1], k))
  }

  /** What metadata is about: a person, or with `*` ourselves. */
  predicate Describes(env: Env, me: string, target: string, k: string) {
    var who := if target == "*" then me else target;
    !IsChannel(env, who) && k == Key(env, who)
  }

  ghost predicate SharesAChannel(st: State, k: string) {
    exists f :: IsMember(st, f, k)
  }

  /** Whether there is a record of somebody after a line. */
  ghost predicate KnownAfter(env: Env, st: State, line: Message, after: State, k: string) {
    if Forgets(env, st.me, line) then
      k in st.people && (k in st.conversations || SharesAChannel(after, k) || st.people[k].nick == st.me)
    else if Says(line, "nick", 1) && Key(env, From(line)) in st.people then
      k == Key(env, line.params[0]) || (k in st.people && k != Key(env, From(line)))
    else k in st.people || Introduces(env, st, line, k)
  }

  lemma MoreCommandsAre(line: Message)
    ensures var c, v := Text.Lower(line.command), VerbOf(line.command);
            && (c == "away" || c == "account" <==> v == OnStatus) && (c == "metadata" <==> v == OnMetadata(0))
            && (c == "760" || c == "761" || c == "766" <==> v == OnMetadata(1))
  {
  }

  lemma ForgottenIs(st: State, k: string)
    ensures var after := Forgotten(st);
            && after.channels == st.channels
            && (k in after.people <==>
                  k in st.people && (k in st.conversations || SharesAChannel(st, k) || st.people[k].nick == st.me))
            && (k in after.whois <==> k in st.whois && (k in st.conversations || SharesAChannel(st, k)))
  {
    assert k in AllMembers(st.channels) <==> SharesAChannel(st, k) by {
      if SharesAChannel(st, k) {
        var f :| IsMember(st, f, k);
      }
      if k in AllMembers(st.channels) {
        var f :| f in st.channels && k in st.channels[f].members;
        assert IsMember(st, f, k);
      }
    }
  }

  lemma SameChannelsShare(a: State, b: State, k: string)
    requires a.channels == b.channels
    ensures SharesAChannel(a, k) <==> SharesAChannel(b, k)
  {
    forall f ensures IsMember(a, f, k) <==> IsMember(b, f, k) {
    }
  }

  /** A departure of somebody else: the members go, and then the strangers. */
  lemma StrangersForgotten(env: Env, st: State, line: Message, gone: State, after: State, k: string)
    requires Forgets(env, st.me, line) && after == Forgotten(gone)
    requires gone.people == st.people && gone.conversations == st.conversations && gone.me == st.me
    ensures KnownAfter(env, st, line, after, k) <==> k in after.people
  {
    ForgottenIs(gone, k);
    SameChannelsShare(gone, after, k);
  }

  lemma PartKnows(env: Env, st: State, line: Message, k: string)
    requires VerbOf(line.command) == OnPart
    ensures KnownAfter(env, st, line, PartApplied(env, st, line), k) <==> k in PartApplied(env, st, line).people
  {
    CommandsAre(line);
    MoreCommandsAre(line);
    if Forgets(env, st.me, line) {
      StrangersForgotten(env, st, line, WithoutMember(st, Key(env, line.params[0]), Key(env, From(line))),
                         PartApplied(env, st, line), k);
    }
  }

  lemma KickKnows(env: Env, st: State, line: Message, k: string)
    requires VerbOf(line.command) == OnKick
    ensures KnownAfter(env, st, line, KickApplied(env, st, line), k) <==> k in KickApplied(env, st, line).people
  {
    CommandsAre(line);
    MoreCommandsAre(line);
    if Forgets(env, st.me, line) {
      StrangersForgotten(env, st, line, WithoutMember(st, Key(env, line.params[0]), Key(env, line.params[1])),
                         KickApplied(env, st, line), k);
    }
  }

  lemma QuitKnows(env: Env, st: State, line: Message, k: string)
    requires VerbOf(line.command) == OnQuit
    ensures KnownAfter(env, st, line, QuitApplied(env, st, line), k) <==> k in QuitApplied(env, st, line).people
  {
    CommandsAre(line);
    StrangersForgotten(env, st, line, st.(channels := MembersWithout(st.channels, Key(env, From(line)))),
                       QuitApplied(env, st, line), k);
  }

  lemma {:induction false} EntriesAreKnown(env: Env, st: State, f: string, entries: seq<string>, k: string)
    ensures k in NamesApplied(env, st, f, entries).people <==>
            k in st.people || (f in st.channels && Lists(env, entries, k))
  {
    if entries != [] {
      EntriesAreKnown(env, st, f, entries[..|entries| - 1], k);
      EntriesAreIn(env, st, f, entries[..|entries| - 1], f, k);
      ListsOneMore(env, entries, k);
    }
  }

  lemma NickKnows(env: Env, st: State, line: Message, k: string)
    requires VerbOf(line.command) == OnNick
    ensures KnownAfter(env, st, line, NickApplied(env, st, line), k) <==> k in NickApplied(env, st, line).people
  {
    CommandsAre(line);
    MoreCommandsAre(line);
  }

  lemma JoinKnows(env: Env, st: State, line: Message, k: string)
    requires VerbOf(line.command) == OnJoin
    ensures KnownAfter(env, st, line, JoinApplied(env, st, line), k) <==> k in JoinApplied(env, st, line).people
  {
    OnlyIntroduced(env, st, line, JoinApplied(env, st, line), k);
    JoinIntroduces(env, st, line, k);
  }

  lemma WhoIntroduces(env: Env, st: State, line: Message, k: string)
    requires VerbOf(line.command) == OnWho || VerbOf(line.command) == OnWhox
    ensures Introduces(env, st, line, k) <==>
            if VerbOf(line.command) == OnWho then |line.params| >= 7 && k == Key(env, line.params[5])
            else |line.params| >= 8 && line.params[1] == "332" && k == Key(env, line.params[5])
  {
    CommandsAre(line);
    MoreCommandsAre(line);
  }

  lemma WhoKnows(env: Env, st: State, line: Message, historical: bool, k: string)
    requires VerbOf(line.command) == OnWho || VerbOf(line.command) == OnWhox
    ensures KnownAfter(env, st, line, Applied(env, st, line, historical), k) <==> k in Applied(env, st, line, historical).people
  {
    OnlyIntroduced(env, st, line, Applied(env, st, line, historical), k);
    WhoIntroduces(env, st, line, k);
  }

  lemma StatusKnows(env: Env, st: State, line: Message, historical: bool, k: string)
    requires VerbOf(line.command) == OnStatus
    ensures KnownAfter(env, st, line, Applied(env, st, line, historical), k) <==> k in Applied(env, st, line, historical).people
  {
    CommandsAre(line);
    MoreCommandsAre(line);
  }

  /** Away from departures and nick changes, records are only added. */
  lemma OnlyIntroduced(env: Env, st: State, line: Message, after: State, k: string)
    requires var v := VerbOf(line.command); !v.OnPart? && !v.OnKick? && !v.OnQuit? && !v.OnNick?
    ensures KnownAfter(env, st, line, after, k) <==> k in st.people || Introduces(env, st, line, k)
  {
    CommandsAre(line);
  }

  lemma NamesIntroduces(env: Env, st: State, line: Message, k: string)
    requires VerbOf(line.command) == OnNames
    ensures Introduces(env, st, line, k) <==>
            |line.params| >= 3 && IsOn(st, Key(env, line.params[2]))
            && NamedIn(env, Caps.Tokens(line.params[|line.params| - 1]), k)
  {
    CommandsAre(line);
    MoreCommandsAre(line);
  }

  lemma NamesKnow(env: Env, st: State, line: Message, k: string)
    requires VerbOf(line.command) == OnNames
    ensures KnownAfter(env, st, line, NamesLineApplied(env, st, line), k) <==> k in NamesLineApplied(env, st, line).people
  {
    OnlyIntroduced(env, st, line, NamesLineApplied(env, st, line), k);
    NamesIntroduces(env, st, line, k);
    if |line.params| >= 3 {
      var entries := Caps.Tokens(line.params[|line.params| - 1]);
      EntriesAreKnown(env, st, Key(env, line.params[2]), entries, k);
      NamedIff(env, entries, k);
    }
  }

  lemma JoinIntroduces(env: Env, st: State, line: Message, k: string)
    requires VerbOf(line.command) == OnJoin
    ensures Introduces(env, st, line, k) <==>
            line.params != [] && !SameName(env.mapping, st.me, From(line)) && IsOn(st, Key(env, line.params[0]))
            && k == Key(env, From(line))
  {
    CommandsAre(line);
    MoreCommandsAre(line);
  }

  lemma MetadataIntroduces(env: Env, st: State, line: Message, offset: nat, k: string)
    requires VerbOf(line.command) == OnMetadata(offset)
    ensures Introduces(env, st, line, k) <==> |line.params| >= offset + 2 && Describes(env, st.me, line.params[offset], k)
  {
    CommandsAre(line);
    MoreCommandsAre(line);
    assert offset == 0 || offset == 1;
  }

  lemma MetadataKnows(env: Env, st: State, line: Message, offset: nat, k: string)
    requires VerbOf(line.command) == OnMetadata(offset)
    ensures KnownAfter(env, st, line, MetadataApplied(env, st, line, offset), k) <==> k in MetadataApplied(env, st, line, offset).people
  {
    OnlyIntroduced(env, st, line, MetadataApplied(env, st, line, offset), k);
    MetadataIntroduces(env, st, line, offset, k);
  }

  lemma RestIntroduces(env: Env, st: State, line: Message, k: string)
    requires var v := VerbOf(line.command); v.OnMessage? || v.OnMarkRead? || v.OnWhois? || v.OnOther? || v.OnRename?
    ensures !Introduces(env, st, line, k)
  {
    CommandsAre(line);
    MoreCommandsAre(line);
  }

  lemma RestKnows(env: Env, st: State, line: Message, historical: bool, k: string)
    requires var v := VerbOf(line.command); v.OnMarkRead? || v.OnWhois? || v.OnOther? || v.OnRename?
    ensures KnownAfter(env, st, line, Applied(env, st, line, historical), k) <==> k in Applied(env, st, line, historical).people
  {
    OnlyIntroduced(env, st, line, Applied(env, st, line, historical), k);
    RestIntroduces(env, st, line, k);
    assert Applied(env, st, line, historical).people == st.people;
  }

  lemma MessageKnows(env: Env, st: State, line: Message, verb: MessageVerb, historical: bool, k: string)
    requires VerbOf(line.command) == OnMessage(verb)
    ensures var after := MessageApplied(env, st, line, verb, historical);
            KnownAfter(env, st, line, after, k) <==> k in after.people
  {
    OnlyIntroduced(env, st, line, MessageApplied(env, st, line, verb, historical), k);
    RestIntroduces(env, st, line, k);
    MessageKeepsPeople(env, st, line, verb, historical);
  }

  lemma MessageKeepsPeople(env: Env, st: State, line: Message, verb: MessageVerb, historical: bool)
    ensures MessageApplied(env, st, line, verb, historical).people == st.people
  {
  }

  /** After every line there are records of exactly those it makes or leaves known. */
  lemma KnownAsSaid(env: Env, st: State, line: Message, historical: bool, k: string)
    ensures k in Applied(env, st, line, historical).people
       <==> KnownAfter(env, st, line, Applied(env, st, line, historical), k)
  {
    match VerbOf(line.command)
    case OnJoin => JoinKnows(env, st, line, k);
    case OnPart => PartKnows(env, st, line, k);
    case OnKick => KickKnows(env, st, line, k);
    case OnQuit => QuitKnows(env, st, line, k);
    case OnNick => NickKnows(env, st, line, k);
    case OnNames => NamesKnow(env, st, line, k);
    case OnWho => WhoKnows(env, st, line, historical, k);
    case OnWhox => WhoKnows(env, st, line, historical, k);
    case OnStatus => StatusKnows(env, st, line, historical, k);
    case OnMetadata(offset) => MetadataKnows(env, st, line, offset, k);
    case OnMessage(verb) => MessageKnows(env, st, line, verb, historical, k);
    case _ => RestKnows(env, st, line, historical, k);
  }

  // ---- WHOIS ----

  /** The record that goes when a full table needs room: the first complete one by name, or the first if none is. */
  ghost predicate MakesRoom(whois: map<string, Whois>, gone: string) {
    && gone in whois
    && (whois[gone].complete || forall k | k in whois :: !whois[k].complete)
    && forall k | k in whois && k != gone && (whois[k].complete || !whois[gone].complete) :: Names.Less(gone, k)
  }

  /** A record that a reply in progress goes on with; any other reply starts a new one. */
  predicate GoesOn(whois: map<string, Whois>, key: string) {
    key in whois && !whois[key].complete && whois[key].nick != ""
  }

  /**
   A line of a WHOIS reply goes on with the record under way, or starts one in place of what was there, and for that a
   full table gives up one record and no other.
   */
  lemma WhoisLineIsFiled(env: Env, st: State, line: Message, historical: bool)
    requires Text.Lower(line.command) in {"311", "312", "313", "317", "319", "330", "338", "378", "671"} && |line.params| >= 2
    requires |st.whois| <= 64
    ensures var key, after := Key(env, line.params[1]), Applied(env, st, line, historical);
            && after == st.(whois := after.whois)
            && (GoesOn(st.whois, key) ==> after.whois == st.whois)
            && (!GoesOn(st.whois, key) && (key in st.whois || |st.whois| < 64) ==>
                  after.whois == st.whois[key := Whois(line.params[1], false)])
            && (key !in st.whois && |st.whois| == 64 ==>
                  exists gone :: MakesRoom(st.whois, gone)
                                 && after.whois == (st.whois - {gone})[key := Whois(line.params[1], false)])
  {
    WhoisCommandsAre(line);
    if |st.whois| == 64 {
      StaleMakesRoom(st.whois);
    }
  }

  lemma WhoisCommandsAre(line: Message)
    requires Text.Lower(line.command) in {"311", "312", "313", "317", "319", "330", "338", "378", "671"}
    ensures VerbOf(line.command) == OnWhois(false)
  {
  }

  lemma StaleMakesRoom(whois: map<string, Whois>)
    requires whois != map[]
    ensures MakesRoom(whois, Stale(whois))
  {
    var complete := set k | k in whois && whois[k].complete;
    forall k | k in whois && whois[k].complete ensures k in complete {
    }
    assert forall k | k in whois :: k in whois.Keys;
  }

  /** The closing line completes the record, if there is one, and touches no other. */
  lemma WhoisEndCompletes(env: Env, st: State, line: Message, historical: bool)
    requires Text.Lower(line.command) == "318" && |line.params| >= 2
    ensures var key := Key(env, line.params[1]);
            Applied(env, st, line, historical) ==
            if key in st.whois then st.(whois := st.whois[key := st.whois[key].(complete := true)]) else st
  {
    WhoisEndIs(line);
  }

  lemma WhoisEndIs(line: Message)
    requires Text.Lower(line.command) == "318"
    ensures VerbOf(line.command) == OnWhois(true)
  {
  }

  /** A lost connection empties the channels and the WHOIS table, and nothing else: messages, people and counts stay. */
  lemma LostConnectionForgets(env: Env, st: State)
    ensures var after := Stepped(env, st, Lost);
            && after == st.(channels := after.channels, whois := map[]) && after.channels.Keys == st.channels.Keys
            && forall f | f in st.channels :: after.channels[f] == st.channels[f].(members := {})
  {
  }
}
