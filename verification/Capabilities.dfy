/** What the server offers and what we hold (crates/obby-client/src/caps.rs). */
module Caps {
  import opened Wrappers
  import opened Text

  datatype CapState = CapState(
    available: map<string, Option<string>>,
    acknowledged: map<string, Option<string>>,
    pending: seq<string>)

  const NO_CAPS := CapState(map[], map[], [])

  predicate IsWhitespace(c: char) {
    var n := c as int;
    9 <= n <= 13 || n == 0x20 || n == 0x85 || n == 0xA0 || n == 0x1680 || 0x2000 <= n <= 0x200A
    || n == 0x2028 || n == 0x2029 || n == 0x202F || n == 0x205F || n == 0x3000
  }

  /** The first word of a text that starts with one, and what follows it. */
  function WordEnd(s: string): (i: nat)
    ensures i <= |s| && (s != "" && !IsWhitespace(s[0]) ==> i > 0)
  {
    if s == "" || IsWhitespace(s[0]) then 0 else 1 + WordEnd(s[1..])
  }

  function Tokens(s: string): seq<string>
    decreases |s|
  {
    if s == "" then []
    else if IsWhitespace(s[0]) then Tokens(s[1..])
    else [s[..WordEnd(s)]] + Tokens(s[WordEnd(s)..])
  }

  predicate IsWord(w: string) {
    w != "" && forall i | 0 <= i < |w| :: !IsWhitespace(w[i])
  }

  predicate IsBlank(s: string) {
    forall i | 0 <= i < |s| :: IsWhitespace(s[i])
  }

  /** Words with white space after each, any amount and kind of it. */
  function Spaced(words: seq<string>, gaps: seq<string>): string
    requires |gaps| == |words|
  {
    if words == [] then "" else words[0] + (gaps[0] + Spaced(words[1..], gaps[1..]))
  }

  lemma {:induction false} BlankIsSkipped(blank: string, s: string)
    requires IsBlank(blank)
    ensures Tokens(blank + s) == Tokens(s)
  {
    if blank == "" {
      assert blank + s == s;
    } else {
      assert (blank + s)[1..] == blank[1..] + s;
      BlankIsSkipped(blank[1..], s);
    }
  }

  lemma {:induction false} WordEndsAt(w: string, s: string)
    requires (forall i | 0 <= i < |w| :: !IsWhitespace(w[i])) && (s == "" || IsWhitespace(s[0]))
    ensures WordEnd(w + s) == |w|
  {
    if w == "" {
      assert w + s == s;
    } else {
      assert (w + s)[1..] == w[1..] + s;
      WordEndsAt(w[1..], s);
    }
  }

  /** Whatever white space there is before, between and after them, the words come out. */
  lemma {:induction false} TokensAreTheWords(front: string, words: seq<string>, gaps: seq<string>)
    requires |gaps| == |words| && IsBlank(front)
    requires forall i | 0 <= i < |words| :: IsWord(words[i]) && IsBlank(gaps[i]) && (i < |words| - 1 ==> gaps[i] != "")
    ensures Tokens(front + Spaced(words, gaps)) == words
    decreases |words|
  {
    BlankIsSkipped(front, Spaced(words, gaps));
    if words != [] {
      var w, rest := words[0], gaps[0] + Spaced(words[1..], gaps[1..]);
      if |words| == 1 {
        assert rest == gaps[0];
      }
      WordEndsAt(w, rest);
      assert (w + rest)[..|w|] == w && (w + rest)[|w|..] == rest;
      TokensAreTheWords(gaps[0], words[1..], gaps[1..]);
    }
  }

  /** The name and the value of `name=value`. */
  function SplitValue(token: string): (string, Option<string>) {
    match SplitOnce(token, '=')
    case None => (token, None)
    case Some((name, value)) => (name, Some(value))
  }

  function Without(names: seq<string>, name: string): (r: seq<string>)
    ensures name !in r
    ensures forall n :: n in r <==> n in names && n != name
    ensures |r| <= |names|
  {
    if names == [] then []
    else (if names[0] == name then [] else [names[0]]) + Without(names[1..], name)
  }

  // ---- one token ----

  function AdvertiseToken(c: CapState, token: string): CapState {
    c.(available := c.available[SplitValue(token).0 := SplitValue(token).1])
  }

  function WithdrawToken(c: CapState, token: string): CapState {
    var name := SplitValue(token).0;
    c.(available := c.available - {name}, acknowledged := c.acknowledged - {name})
  }

  /** A name with `-` in front was dropped. An ack without a value keeps the advertised one. */
  function AckToken(c: CapState, token: string): CapState {
    if token != "" && token[0] == '-' then
      c.(acknowledged := c.acknowledged - {token[1..]}, pending := Without(c.pending, token[1..]))
    else
      var (name, given) := SplitValue(token);
      var value := if given.Some? then given else if name in c.available then c.available[name] else None;
      c.(acknowledged := c.acknowledged[name := value], pending := Without(c.pending, name))
  }

  function NakToken(c: CapState, token: string): CapState {
    c.(pending := Without(c.pending, SplitValue(token).0))
  }

  datatype Reply = Advertise | Withdraw | Ack | Nak

  function AfterToken(c: CapState, reply: Reply, token: string): CapState {
    match reply
    case Advertise => AdvertiseToken(c, token)
    case Withdraw => WithdrawToken(c, token)
    case Ack => AckToken(c, token)
    case Nak => NakToken(c, token)
  }

  /** A whole list, token by token. */
  function After(c: CapState, reply: Reply, tokens: seq<string>): CapState {
    if tokens == [] then c else AfterToken(After(c, reply, tokens[..|tokens| - 1]), reply, tokens[|tokens| - 1])
  }

  predicate Wants(c: CapState, name: string) {
    name in c.available && name !in c.acknowledged && name !in c.pending
  }

  function ToRequest(c: CapState, wanted: seq<string>): (r: seq<string>)
    ensures forall n :: n in r <==> n in wanted && Wants(c, n)
    ensures |r| <= |wanted|
  {
    if wanted == [] then []
    else (if Wants(c, wanted[0]) then [wanted[0]] else []) + ToRequest(c, wanted[1..])
  }

  class Capabilities {
    var available: map<string, Option<string>>
    var acknowledged: map<string, Option<string>>
    var pending: seq<string>

    function View(): CapState
      reads this
    {
      CapState(available, acknowledged, pending)
    }

    constructor ()
      ensures View() == NO_CAPS
    {
      available, acknowledged, pending := map[], map[], [];
    }

    method Clear()
      modifies this
      ensures View() == NO_CAPS
    {
      available, acknowledged, pending := map[], map[], [];
    }

    method Advertise(tokens: seq<string>)
      modifies this
      ensures View() == After(old(View()), Reply.Advertise, tokens)
    {
      for i := 0 to |tokens|
        invariant View() == After(old(View()), Reply.Advertise, tokens[..i])
      {
        assert tokens[..i + 1][..i] == tokens[..i];
        var (name, value) := SplitValue(tokens[i]);
        available := available[name := value];
      }
      assert tokens[..|tokens|] == tokens;
    }

    method Withdraw(tokens: seq<string>)
      modifies this
      ensures View() == After(old(View()), Reply.Withdraw, tokens)
    {
      for i := 0 to |tokens|
        invariant View() == After(old(View()), Reply.Withdraw, tokens[..i])
      {
        assert tokens[..i + 1][..i] == tokens[..i];
        var (name, _) := SplitValue(tokens[i]);
        available := available - {name};
        acknowledged := acknowledged - {name};
      }
      assert tokens[..|tokens|] == tokens;
    }

    method Acknowledge(tokens: seq<string>)
      modifies this
      ensures View() == After(old(View()), Ack, tokens)
    {
      for i := 0 to |tokens|
        invariant View() == After(old(View()), Ack, tokens[..i])
      {
        var token := tokens[i];
        assert tokens[..i + 1][..i] == tokens[..i];
        if token != "" && token[0] == '-' {
          acknowledged := acknowledged - {token[1..]};
          pending := Without(pending, token[1..]);
        } else {
          var (name, value) := SplitValue(token);
          if value == None && name in available {
            value := available[name];
          }
          acknowledged := acknowledged[name := value];
          pending := Without(pending, name);
        }
      }
      assert tokens[..|tokens|] == tokens;
    }

    method Reject(tokens: seq<string>)
      modifies this
      ensures View() == After(old(View()), Nak, tokens)
    {
      for i := 0 to |tokens|
        invariant View() == After(old(View()), Nak, tokens[..i])
      {
        assert tokens[..i + 1][..i] == tokens[..i];
        var (name, _) := SplitValue(tokens[i]);
        pending := Without(pending, name);
      }
      assert tokens[..|tokens|] == tokens;
    }

    method Requested(names: seq<string>)
      modifies this
      ensures View() == old(View()).(pending := old(pending) + names)
    {
      pending := pending + names;
    }
  }

  // ---- what a list does ----

  /** The name a token of an answer is about. */
  function Answered(reply: Reply, token: string): string {
    if reply.Ack? && token != "" && token[0] == '-' then token[1..] else SplitValue(token).0
  }

  predicate IsAnswered(reply: Reply, tokens: seq<string>, name: string) {
    (reply.Ack? || reply.Nak?) && exists i | 0 <= i < |tokens| :: Answered(reply, tokens[i]) == name
  }

  /** A name stays on the waiting list exactly while no answer names it, and no reply ever puts one on. */
  lemma {:induction false} WaitingUntilAnswered(c: CapState, reply: Reply, tokens: seq<string>)
    ensures forall n :: n in After(c, reply, tokens).pending <==> n in c.pending && !IsAnswered(reply, tokens, n)
    ensures !reply.Ack? && !reply.Nak? ==> After(c, reply, tokens).pending == c.pending
  {
    if tokens != [] {
      var front, last := tokens[..|tokens| - 1], tokens[|tokens| - 1];
      WaitingUntilAnswered(c, reply, front);
      forall n ensures IsAnswered(reply, tokens, n) <==>
          IsAnswered(reply, front, n) || ((reply.Ack? || reply.Nak?) && Answered(reply, last) == n) {
        if IsAnswered(reply, front, n) {
          var i :| 0 <= i < |front| && Answered(reply, front[i]) == n;
          assert Answered(reply, tokens[i]) == n;
        }
        if Answered(reply, last) == n {
          assert Answered(reply, tokens[|tokens| - 1]) == n;
        }
      }
    }
  }

  /** Only an acknowledgement makes us hold more, and only of what it names without a minus. */
  lemma {:induction false} HeldOnlyByAck(c: CapState, reply: Reply, tokens: seq<string>, name: string)
    requires name in After(c, reply, tokens).acknowledged && name !in c.acknowledged
    ensures reply.Ack? && exists i | 0 <= i < |tokens| :: SplitValue(tokens[i]).0 == name && !("-" <= tokens[i])
  {
    if tokens != [] {
      var front, last := tokens[..|tokens| - 1], tokens[|tokens| - 1];
      if name in After(c, reply, front).acknowledged {
        HeldOnlyByAck(c, reply, front, name);
        var i :| 0 <= i < |front| && SplitValue(front[i]).0 == name && !("-" <= front[i]);
        assert tokens[i] == front[i];
      } else {
        assert SplitValue(tokens[|tokens| - 1]).0 == name;
      }
    }
  }

  /** What is held is not waited for. */
  predicate HeldIsAnswered(c: CapState) {
    forall n | n in c.pending :: n !in c.acknowledged
  }

  lemma {:induction false} ListsKeepHeldAnswered(c: CapState, reply: Reply, tokens: seq<string>)
    requires HeldIsAnswered(c)
    ensures HeldIsAnswered(After(c, reply, tokens))
  {
    if tokens != [] {
      ListsKeepHeldAnswered(c, reply, tokens[..|tokens| - 1]);
    }
  }
}
