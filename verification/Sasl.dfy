/** Authentication payloads cut into lines, and the mechanism list (crates/obby-client/src/sasl.rs). */
module Sasl {
  import opened Wrappers
  import opened Text

  /** The most base64 one line carries. */
  const CHUNK: nat := 400

  /** The lines of an encoded payload. A last line that is full is followed by `+`, which stands for nothing. */
  function Lines(encoded: string): seq<string> {
    if |encoded| < CHUNK then (if encoded == "" then ["+"] else [encoded])
    else [encoded[..CHUNK]] + Lines(encoded[CHUNK..])
  }

  /** `encoded` is the base64 of the payload, empty only for an empty payload. */
  method EncodeResponse(encoded: string) returns (lines: seq<string>)
    ensures lines == Lines(encoded)
  {
    if encoded == "" {
      return ["+"];
    }
    lines := [];
    var rest := encoded;
    while |rest| > CHUNK
      invariant rest != "" && |rest| % CHUNK == |encoded| % CHUNK
      invariant lines + Lines(rest) == Lines(encoded)
      decreases |rest|
    {
      assert lines + Lines(rest) == lines + [rest[..CHUNK]] + Lines(rest[CHUNK..]);
      lines := lines + [rest[..CHUNK]];
      rest := rest[CHUNK..];
    }
    assert rest[..|rest|] == rest && rest[|rest|..] == "";
    assert Lines(rest) == [rest] + (if |rest| == CHUNK then ["+"] else []);
    lines := lines + [rest];
    if |encoded| % CHUNK == 0 {
      lines := lines + ["+"];
    }
  }

  /** What a receiver makes of a line, and whether it ends the payload: it does unless it is full. */
  function Content(line: string): string {
    if line == "+" then "" else line
  }

  predicate Ends(line: string) {
    |Content(line)| < CHUNK
  }

  /** The payload at the head of a stream of lines, once it is complete, and the lines after it. */
  function Received(lines: seq<string>): Option<(string, seq<string>)> {
    if lines == [] then None
    else if Ends(lines[0]) then Some((Content(lines[0]), lines[1..]))
    else
      match Received(lines[1..])
      case None => None
      case Some((payload, rest)) => Some((Content(lines[0]) + payload, rest))
  }

  /**
   A receiver that reads until a line is not full gets exactly the payload and stops exactly at its end, whatever
   lines follow. Base64 comes in fours, so no line of it is a lone `+`.
   */
  lemma {:induction false} LinesAreReceived(encoded: string, more: seq<string>)
    requires |encoded| % 4 == 0
    ensures Received(Lines(encoded) + more) == Some((encoded, more))
    decreases |encoded|
  {
    var lines := Lines(encoded) + more;
    if |encoded| < CHUNK {
      assert lines[1..] == more;
    } else {
      var rest := encoded[CHUNK..];
      LinesAreReceived(rest, more);
      assert lines[1..] == Lines(rest) + more;
      assert encoded == encoded[..CHUNK] + rest;
    }
  }

  /** An absent or empty list means the server did not say. */
  predicate Offers(advertised: Option<string>, mechanism: string) {
    advertised.None? || advertised.value == ""
    || exists m | m in Split(advertised.value, ',') :: Lower(m) == Lower(mechanism)
  }

  /** A list offers exactly the mechanisms in it, whatever their case; a server that lists none offers any. */
  lemma OffersWhatIsListed(names: seq<string>, mechanism: string)
    requires names != [] && forall n | n in names :: n != "" && ',' !in n
    ensures Offers(Some(Listed(names, ',')), mechanism) <==> exists n :: n in names && Lower(n) == Lower(mechanism)
    ensures Offers(None, mechanism) && Offers(Some(""), mechanism)
  {
    ListedIsSplit(names, ',');
    assert names[0] != "";
  }
}
