/**
 Does a text mention a nick (crates/obby-client/src/session.rs:106-141)? The search steps over each occurrence as
 it goes. It finds a whole-word occurrence whenever there is one, for exactly the nicks that cannot overlap
 themselves at a character that ends a word.
 */
module Mentions {
  import opened Wrappers
  import opened Casemap

  /** Which characters a nick goes on through. */
  type NickChars = char -> bool

  predicate OccursAt(text: string, nick: string, s: nat) {
    s + |nick| <= |text| && text[s..s + |nick|] == nick
  }

  /** An occurrence with no nick character on either side. */
  predicate StandsAt(nc: NickChars, text: string, nick: string, s: nat) {
    && OccursAt(text, nick, s)
    && (s > 0 ==> !nc(text[s - 1]))
    && (s + |nick| < |text| ==> !nc(text[s + |nick|]))
  }

  ghost predicate Mentioned(nc: NickChars, text: string, nick: string) {
    exists s: nat :: StandsAt(nc, text, nick, s)
  }

  /** The first occurrence from a position on. */
  function FindFrom(text: string, nick: string, from: nat): (r: Option<nat>)
    ensures r.Some? ==> from <= r.value && OccursAt(text, nick, r.value)
    decreases |text| + 1 - from
  {
    if from > |text| then None
    else if OccursAt(text, nick, from) then Some(from)
    else FindFrom(text, nick, from + 1)
  }

  lemma {:induction false} FindFromIsFirst(text: string, nick: string, from: nat, s: nat)
    requires from <= s && OccursAt(text, nick, s)
    ensures FindFrom(text, nick, from).Some? && FindFrom(text, nick, from).value <= s
    decreases |text| + 1 - from
  {
    if !OccursAt(text, nick, from) {
      FindFromIsFirst(text, nick, from + 1, s);
    }
  }

  /** What the search answers from a position on. */
  function Search(nc: NickChars, text: string, nick: string, from: nat): bool
    requires nick != ""
    decreases |text| + 1 - from
  {
    match FindFrom(text, nick, from)
    case None => false
    case Some(s) => StandsAt(nc, text, nick, s) || Search(nc, text, nick, s + |nick|)
  }

  method Mentions(nc: NickChars, mapping: Casemapping, text: string, nick: string) returns (found: bool)
    ensures found == Answers(nc, mapping, text, nick)
  {
    if nick == "" {
      return false;
    }
    found := Look(nc, Fold(mapping, text), Fold(mapping, nick));
  }

  method Look(nc: NickChars, folded: string, needle: string) returns (found: bool)
    requires needle != ""
    ensures found == Search(nc, folded, needle, 0)
  {
    var from := 0;
    var hit := FindFrom(folded, needle, from);
    while hit != None
      invariant hit == FindFrom(folded, needle, from)
      invariant Search(nc, folded, needle, from) == Search(nc, folded, needle, 0)
      decreases |folded| + 1 - from
    {
      var start := hit.value;
      var end := start + |needle|;
      var joinedBefore := start > 0 && nc(folded[start - 1]);
      var joinedAfter := end < |folded| && nc(folded[end]);
      if !joinedBefore && !joinedAfter {
        return true;
      }
      from := end;
      hit := FindFrom(folded, needle, from);
    }
    return false;
  }

  // ---- what the search finds ----

  /** The nick overlaps itself, and where the second copy would start a word ends. */
  predicate OverlapsAt(nc: NickChars, nick: string, d: nat) {
    0 < d < |nick| && nick[d..] == nick[..|nick| - d] && !nc(nick[d - 1])
  }

  predicate CanHideItself(nc: NickChars, nick: string) {
    exists d | 0 < d < |nick| :: OverlapsAt(nc, nick, d)
  }

  lemma {:induction false} SearchIsSound(nc: NickChars, text: string, nick: string, from: nat)
    requires nick != "" && Search(nc, text, nick, from)
    ensures Mentioned(nc, text, nick)
    decreases |text| + 1 - from
  {
    var s := FindFrom(text, nick, from).value;
    if !StandsAt(nc, text, nick, s) {
      SearchIsSound(nc, text, nick, s + |nick|);
    }
  }

  lemma {:induction false} SearchMissesNothing(nc: NickChars, text: string, nick: string, from: nat, s: nat)
    requires nick != "" && !CanHideItself(nc, nick) && from <= s && StandsAt(nc, text, nick, s)
    ensures Search(nc, text, nick, from)
    decreases |text| + 1 - from
  {
    FindFromIsFirst(text, nick, from, s);
    var p := FindFrom(text, nick, from).value;
    if p < s {
      if s < p + |nick| {
        OverlapShows(nc, text, nick, p, s);
      }
      SearchMissesNothing(nc, text, nick, p + |nick|, s);
    }
  }

  lemma OverlapShows(nc: NickChars, text: string, nick: string, p: nat, s: nat)
    requires OccursAt(text, nick, p) && StandsAt(nc, text, nick, s) && p < s < p + |nick|
    ensures CanHideItself(nc, nick)
  {
    var d := s - p;
    assert forall k | 0 <= k < |nick| :: text[p..p + |nick|][k] == nick[k] && text[s..s + |nick|][k] == nick[k];
    assert forall k | 0 <= k < |nick| :: text[p + k] == nick[k] && text[s + k] == nick[k];
    forall k | 0 <= k < |nick| - d ensures nick[d..][k] == nick[..|nick| - d][k] {
      assert text[p + (d + k)] == text[s + k];
    }
    assert OverlapsAt(nc, nick, d);
  }

  function NotFirst(nick: string): char
    requires nick != ""
  {
    if nick[0] == 'a' then 'b' else 'a'
  }

  lemma NoRoomLeft(text: string, nick: string, from: nat)
    requires from + |nick| > |text|
    ensures FindFrom(text, nick, from) == None
  {
  }

  lemma OverlapOccursEarly(nick: string, d: nat, text: string)
    requires 0 < d < |nick| && nick[d..] == nick[..|nick| - d] && text == [NotFirst(nick)] + nick[..d] + nick
    ensures OccursAt(text, nick, 1) && !OccursAt(text, nick, 0)
  {
    forall k | 0 <= k < |nick| ensures text[1 + k] == nick[k] {
      if k < d {
        assert text[1 + k] == nick[..d][k];
      } else {
        assert text[1 + k] == nick[k - d];
        assert nick[d..][k - d] == nick[k] && nick[..|nick| - d][k - d] == nick[k - d];
      }
    }
    assert text[1..1 + |nick|] == nick;
    assert text[0..|nick|][0] == NotFirst(nick);
  }

  /** A text in which such a nick stands as a word of its own and is not found. */
  lemma OverlapIsMissed(nc: NickChars, nick: string, d: nat, text: string)
    requires nc('a') && nc('b') && OverlapsAt(nc, nick, d) && text == [NotFirst(nick)] + nick[..d] + nick
    ensures Mentioned(nc, text, nick) && !Search(nc, text, nick, 0)
  {
    OverlapOccursEarly(nick, d, text);
    assert FindFrom(text, nick, 0) == Some(1);
    NoRoomLeft(text, nick, 1 + |nick|);
    assert text[1 + d..1 + d + |nick|] == nick;
    assert text[d] == nick[d - 1];
    assert StandsAt(nc, text, nick, 1 + d);
  }

  /** That text is folded when the nick is. */
  lemma OverlapTextIsFolded(mapping: Casemapping, nick: string, d: nat)
    requires nick != "" && d <= |nick| && Fold(mapping, nick) == nick
    ensures Fold(mapping, [NotFirst(nick)] + nick[..d] + nick) == [NotFirst(nick)] + nick[..d] + nick
  {
    var text := [NotFirst(nick)] + nick[..d] + nick;
    forall k | 0 <= k < |text| ensures Fold(mapping, text)[k] == text[k] {
      assert forall j | 0 <= j < |nick| :: Fold(mapping, nick)[j] == nick[j];
    }
  }

  /** The method's answer, for a text and a nick as they are spelled. */
  predicate Answers(nc: NickChars, mapping: Casemapping, text: string, nick: string) {
    nick != "" && Search(nc, Fold(mapping, text), Fold(mapping, nick), 0)
  }

  /**
   The answer is right about every text, under the server's casemapping, if and only if the folded nick cannot hide
   itself.
   */
  lemma SearchIsExactIff(nc: NickChars, mapping: Casemapping, nick: string)
    requires nick != "" && nc('a') && nc('b')
    ensures (forall text :: Answers(nc, mapping, text, nick) <==> Mentioned(nc, Fold(mapping, text), Fold(mapping, nick)))
       <==> !CanHideItself(nc, Fold(mapping, nick))
  {
    var needle := Fold(mapping, nick);
    if CanHideItself(nc, needle) {
      var d :| 0 < d < |needle| && OverlapsAt(nc, needle, d);
      var text := [NotFirst(needle)] + needle[..d] + needle;
      OverlapIsMissed(nc, needle, d, text);
      FoldTwice(mapping, nick);
      OverlapTextIsFolded(mapping, needle, d);
      assert !(Answers(nc, mapping, text, nick) <==> Mentioned(nc, Fold(mapping, text), needle));
    } else {
      forall text ensures Answers(nc, mapping, text, nick) <==> Mentioned(nc, Fold(mapping, text), needle) {
        SearchIsRight(nc, Fold(mapping, text), needle);
      }
    }
  }

  lemma SearchIsRight(nc: NickChars, text: string, nick: string)
    requires nick != "" && !CanHideItself(nc, nick)
    ensures Search(nc, text, nick, 0) <==> Mentioned(nc, text, nick)
  {
    if Search(nc, text, nick, 0) {
      SearchIsSound(nc, text, nick, 0);
    }
    if Mentioned(nc, text, nick) {
      var s: nat :| StandsAt(nc, text, nick, s);
      SearchMissesNothing(nc, text, nick, 0, s);
    }
  }

  /** Nicks made of nick characters alone never hide themselves. */
  lemma OrdinaryNicksAreFound(nc: NickChars, nick: string)
    requires forall c | c in nick :: nc(c)
    ensures !CanHideItself(nc, nick)
  {
    forall d | 0 < d < |nick| ensures !OverlapsAt(nc, nick, d) {
      assert nick[d - 1] in nick;
    }
  }
}
