/**
 SCRAM-SHA-256 (crates/obby-client/src/scram.rs), following section 3 of RFC 5802. The hash, the keyed hash, base64 and
 the UTF-8 encoding are functions given from outside; everything built from them is here.
 */
module Scram {
  import opened Wrappers
  import opened Integers
  import opened Text
  import opened Numbers

  type octets = seq<bv8>

  /** What the exchange is computed with. */
  datatype Primitives = Primitives(
    hmac: (octets, octets) -> octets,
    hash: octets -> octets,
    utf8: string -> octets,
    encode64: octets -> string,
    decode64: string -> Option<octets>)

  /** Digests are 32 bytes, and base64 reads back what it writes, which never has a comma in it. */
  ghost predicate Sound(p: Primitives) {
    && (forall k, m :: |p.hmac(k, m)| == 32)
    && (forall m :: |p.hash(m)| == 32)
    && forall d :: p.decode64(p.encode64(d)) == Some(d) && ',' !in p.encode64(d)
  }

  datatype Error = Malformed | NonceMismatch | TooManyIterations | BadSalt | ServerProofInvalid

  const NONCE_LEN: nat := 24
  const MAX_ITERATIONS: nat := 1_000_000

  // ---- bytes ----

  function Xor(a: octets, b: octets): (r: octets)
    ensures |r| == if |a| <= |b| then |a| else |b|
  {
    seq(if |a| <= |b| then |a| else |b|, i requires 0 <= i < |a| && i < |b| => a[i] ^ b[i])
  }

  lemma XorUndoesXor(a: octets, b: octets)
    requires |a| == |b|
    ensures Xor(Xor(a, b), b) == a
  {
    forall i | 0 <= i < |a| ensures Xor(Xor(a, b), b)[i] == a[i] {
      BitsUndo(a[i], b[i]);
    }
  }

  lemma BitsUndo(x: bv8, y: bv8)
    ensures (x ^ y) ^ y == x
  {
  }

  // ---- Hi ----

  /** The rounds of section 2.2 of RFC 5802, counted from one. */
  function Round(p: Primitives, password: octets, salt: octets, k: nat): octets
    requires k >= 1
  {
    if k == 1 then p.hmac(password, salt + [0, 0, 0, 1]) else p.hmac(password, Round(p, password, salt, k - 1))
  }

  /** Hi: all the rounds up to a count, combined by exclusive or. */
  function Hi(p: Primitives, password: octets, salt: octets, count: nat): octets
    requires count >= 1
  {
    if count == 1 then Round(p, password, salt, 1)
    else Xor(Hi(p, password, salt, count - 1), Round(p, password, salt, count))
  }

  method Stretch(p: Primitives, password: octets, salt: octets, iterations: nat) returns (result: octets)
    requires iterations >= 1
    ensures result == Hi(p, password, salt, iterations)
  {
    var previous := p.hmac(password, salt + [0, 0, 0, 1]);
    result := previous;
    for k := 1 to iterations
      invariant previous == Round(p, password, salt, k)
      invariant result == Hi(p, password, salt, k)
    {
      previous := p.hmac(password, previous);
      result := Xor(result, previous);
    }
  }

  // ---- comparing ----

  /** Every difference gathered into one byte, so that the time does not depend on where they are. */
  method ConstantTimeEq(a: octets, b: octets) returns (same: bool)
    ensures same <==> a == b
  {
    if |a| != |b| {
      return false;
    }
    var difference: bv8 := 0;
    for i := 0 to |a|
      invariant difference == 0 <==> a[..i] == b[..i]
    {
      DifferenceShows(difference, a[i], b[i]);
      assert a[..i + 1] == a[..i] + [a[i]] && b[..i + 1] == b[..i] + [b[i]];
      difference := difference | (a[i] ^ b[i]);
    }
    assert a[..|a|] == a && b[..|b|] == b;
    return difference == 0;
  }

  lemma DifferenceShows(d: bv8, x: bv8, y: bv8)
    ensures (d | (x ^ y)) == 0 <==> d == 0 && x == y
  {
  }

  // ---- fields ----

  function FieldIn(parts: seq<string>, key: char): Option<string> {
    if parts == [] then None
    else if |parts[0]| >= 2 && parts[0][0] == key && parts[0][1] == '=' then Some(parts[0][2..])
    else FieldIn(parts[1..], key)
  }

  /** The first `k=value` of a comma-separated message. */
  function Field(message: string, key: char): Option<string> {
    FieldIn(Split(message, ','), key)
  }

  lemma FieldFirst(message: string, key: char, value: string, rest: string)
    requires message == [key] + "=" + value + [','] + rest && ',' !in value && key != ','
    ensures Field(message, key) == Some(value)
    ensures forall k :: k != key ==> Field(message, k) == Field(rest, k)
  {
    var part := [key] + "=" + value;
    SplitStep(part, ',', rest);
    assert part[2..] == value && ([part] + Split(rest, ','))[1..] == Split(rest, ',');
  }

  lemma FieldLast(message: string, key: char, value: string)
    requires message == [key] + "=" + value && ',' !in value && key != ','
    ensures Field(message, key) == Some(value)
  {
    SplitOnceMiss(message, ',');
    assert message[2..] == value;
  }

  // ---- names and nonces ----

  function Replaced(s: string, c: char, instead: string): string {
    if s == "" then "" else (if s[0] == c then instead else [s[0]]) + Replaced(s[1..], c, instead)
  }

  function Saslprep(username: string): string {
    Replaced(Replaced(username, '=', "=3D"), ',', "=2C")
  }

  /** The reading of section 5.1 of RFC 5802: only these two escapes exist. */
  function Unprepped(s: string): Option<string> {
    if s == "" then Some("")
    else if s[0] == '=' then
      if |s| < 3 then None
      else
        var c := if s[1..3] == "3D" then Some('=') else if s[1..3] == "2C" then Some(',') else None;
        match (c, Unprepped(s[3..]))
        case (Some(x), Some(rest)) => Some([x] + rest)
        case _ => None
    else
      match Unprepped(s[1..])
      case None => None
      case Some(rest) => Some([s[0]] + rest)
  }

  function PreppedChar(c: char): string {
    if c == '=' then "=3D" else if c == ',' then "=2C" else [c]
  }

  lemma PrepIsCharByChar(username: string)
    requires username != ""
    ensures Saslprep(username) == PreppedChar(username[0]) + Saslprep(username[1..])
  {
    var inner, c := Replaced(username[1..], '=', "=3D"), username[0];
    if c == '=' {
      assert Replaced(username, '=', "=3D") == "=3D" + inner;
      ReplacedSkips('=', "3D" + inner);
      ReplacedSkips('3', "D" + inner);
      ReplacedSkips('D', inner);
      assert "=3D" + inner == ['='] + ("3D" + inner) && "3D" + inner == ['3'] + ("D" + inner) && "D" + inner == ['D'] + inner;
    } else {
      assert Replaced(username, '=', "=3D") == [c] + inner;
      assert ([c] + inner)[1..] == inner;
    }
  }

  lemma ReplacedSkips(c: char, rest: string)
    requires c != ','
    ensures Replaced([c] + rest, ',', "=2C") == [c] + Replaced(rest, ',', "=2C")
  {
    assert ([c] + rest)[1..] == rest;
  }

  /** A username of any characters cannot end its field early, and reads back as itself. */
  lemma {:induction false} UsernameReadsBack(username: string)
    ensures ',' !in Saslprep(username) && Unprepped(Saslprep(username)) == Some(username)
  {
    if username != "" {
      PrepIsCharByChar(username);
      UsernameReadsBack(username[1..]);
      PreppedCharReadsBack(username[0], Saslprep(username[1..]), username[1..]);
      assert username == [username[0]] + username[1..];
    }
  }

  lemma PreppedCharReadsBack(c: char, rest: string, plain: string)
    requires Unprepped(rest) == Some(plain)
    ensures Unprepped(PreppedChar(c) + rest) == Some([c] + plain)
  {
    var s := PreppedChar(c) + rest;
    if c == '=' || c == ',' {
      assert s[3..] == rest && s[1..3] == PreppedChar(c)[1..];
    } else {
      assert s[1..] == rest;
    }
  }

  predicate AsciiAlphanumeric(c: char) {
    '0' <= c <= '9' || 'a' <= c <= 'z' || 'A' <= c <= 'Z'
  }

  function OnlyAlphanumeric(s: string): (r: string)
    ensures forall c | c in r :: AsciiAlphanumeric(c)
  {
    if s == "" then "" else (if AsciiAlphanumeric(s[0]) then [s[0]] else "") + OnlyAlphanumeric(s[1..])
  }

  function SanitisedNonce(nonce: string): (r: string)
    ensures r != "" && ',' !in r && |r| <= NONCE_LEN
  {
    var cleaned := OnlyAlphanumeric(nonce);
    var cut := if |cleaned| > NONCE_LEN then cleaned[..NONCE_LEN] else cleaned;
    assert forall c | c in cut :: c in cleaned;
    if cut == "" then "0" else cut
  }

  lemma {:induction false} FilterOfParts(a: string, b: string)
    ensures OnlyAlphanumeric(a + b) == OnlyAlphanumeric(a) + OnlyAlphanumeric(b)
  {
    if a == "" {
      assert a + b == b;
    } else {
      FilterOfParts(a[1..], b);
      assert (a + b)[1..] == a[1..] + b;
    }
  }

  lemma {:induction false} FilterKeepsAll(s: string)
    requires forall i | 0 <= i < |s| :: AsciiAlphanumeric(s[i])
    ensures OnlyAlphanumeric(s) == s
  {
    if s != "" {
      FilterKeepsAll(s[1..]);
      assert s == [s[0]] + s[1..];
    }
  }

  /** A nonce of letters and digits is kept, up to its first 24, and an empty one becomes `0`. */
  lemma NonceIsKept(nonce: string)
    requires forall i | 0 <= i < |nonce| :: AsciiAlphanumeric(nonce[i])
    ensures SanitisedNonce(nonce) == if nonce == "" then "0" else if |nonce| <= 24 then nonce else nonce[..24]
  {
    FilterKeepsAll(nonce);
  }

  /** Any other character might as well not be there. */
  lemma OthersAreDropped(a: string, c: char, b: string)
    requires !AsciiAlphanumeric(c)
    ensures SanitisedNonce(a + [c] + b) == SanitisedNonce(a + b)
  {
    FilterOfParts(a + [c], b);
    FilterOfParts(a, [c]);
    FilterOfParts(a, b);
    assert OnlyAlphanumeric([c]) == OnlyAlphanumeric([c][1..]);
    assert OnlyAlphanumeric(a) + OnlyAlphanumeric([c]) == OnlyAlphanumeric(a);
  }

  // ---- the exchange ----

  function FirstBare(username: string, nonce: string): string {
    "n=" + Saslprep(username) + [','] + ("r=" + SanitisedNonce(nonce))
  }

  function ClientKey(p: Primitives, salted: octets): octets {
    p.hmac(salted, p.utf8("Client Key"))
  }

  function ServerKey(p: Primitives, salted: octets): octets {
    p.hmac(salted, p.utf8("Server Key"))
  }

  function AuthMessage(first: string, serverFirst: string, finalBare: string): string {
    first + "," + serverFirst + "," + finalBare
  }

  /** What the server's first message says, or why it cannot be used. */
  datatype Challenge = Challenge(nonce: string, salt: octets, iterations: nat)

  function ReadChallenge(p: Primitives, clientNonce: string, serverFirst: string): Result<Challenge, Error> {
    match (Field(serverFirst, 'r'), Field(serverFirst, 's'), Field(serverFirst, 'i'))
    case (Some(nonce), Some(salt), Some(count)) =>
      (match ParseUnsigned(count, U32_MAX)
       case None => Err(Malformed)
       case Some(iterations) =>
         if !(clientNonce <= nonce) || nonce == clientNonce then Err(NonceMismatch)
         else if iterations == 0 || iterations > MAX_ITERATIONS then Err(TooManyIterations)
         else
           match p.decode64(salt)
           case None => Err(BadSalt)
           case Some(bytes) => Ok(Challenge(nonce, bytes, iterations)))
    case _ => Err(Malformed)
  }

  /** What a successful answer leaves behind for the server's own proof to be checked against. */
  datatype Proved = Proved(serverKey: octets, authMessage: string)

  function FinalBare(nonce: string): string {
    "c=biws" + [','] + ("r=" + nonce)
  }

  function Proof(p: Primitives, salted: octets, authMessage: string): octets {
    Xor(ClientKey(p, salted), p.hmac(p.hash(ClientKey(p, salted)), p.utf8(authMessage)))
  }

  function FinalMessage(p: Primitives, salted: octets, authMessage: string, nonce: string): string {
    "c=biws" + [','] + ("r=" + nonce + [','] + ("p=" + p.encode64(Proof(p, salted, authMessage))))
  }

  /** The answer to a server's first message, and what is kept to check the server with. */
  function Answered(p: Primitives, firstBare: string, clientNonce: string, password: string, serverFirst: string)
    : Result<(string, Proved), Error>
  {
    match ReadChallenge(p, clientNonce, serverFirst)
    case Err(e) => Err(e)
    case Ok(c) =>
      var salted := Hi(p, p.utf8(password), c.salt, c.iterations);
      var authMessage := AuthMessage(firstBare, serverFirst, FinalBare(c.nonce));
      Ok((FinalMessage(p, salted, authMessage, c.nonce), Proved(ServerKey(p, salted), authMessage)))
  }

  class Exchange {
    const primitives: Primitives
    const firstBare: string
    const clientNonce: string
    const password: string
    var proved: Option<Proved>

    constructor (primitives: Primitives, username: string, password: string, nonce: string)
      ensures this.primitives == primitives && this.password == password && proved == None
      ensures firstBare == FirstBare(username, nonce) && clientNonce == SanitisedNonce(nonce)
    {
      this.primitives, this.password := primitives, password;
      firstBare, clientNonce := FirstBare(username, nonce), SanitisedNonce(nonce);
      proved := None;
    }

    method ClientFinal(serverFirst: string) returns (r: Result<string, Error>)
      modifies this
      ensures match Answered(primitives, firstBare, clientNonce, password, serverFirst)
              case Err(e) => r == Err(e) && proved == old(proved)
              case Ok((final, kept)) => r == Ok(final) && proved == Some(kept)
    {
      var nonce, salt, count := Field(serverFirst, 'r'), Field(serverFirst, 's'), Field(serverFirst, 'i');
      if nonce == None || salt == None || count == None {
        return Err(Malformed);
      }
      var iterations := ParseUnsigned(count.value, U32_MAX);
      if iterations == None {
        return Err(Malformed);
      }
      if !(clientNonce <= nonce.value) || nonce.value == clientNonce {
        return Err(NonceMismatch);
      }
      if iterations.value == 0 || iterations.value > MAX_ITERATIONS {
        return Err(TooManyIterations);
      }
      var bytes := primitives.decode64(salt.value);
      if bytes == None {
        return Err(BadSalt);
      }
      var salted := Stretch(primitives, primitives.utf8(password), bytes.value, iterations.value);
      var authMessage := AuthMessage(firstBare, serverFirst, FinalBare(nonce.value));
      proved := Some(Proved(ServerKey(primitives, salted), authMessage));
      return Ok(FinalMessage(primitives, salted, authMessage, nonce.value));
    }

    method Verify(serverFinal: string) returns (r: Result<(), Error>)
      ensures r == Verified(primitives, proved, serverFinal)
      ensures r == Ok(()) <==>
        && proved.Some? && Field(serverFinal, 'v').Some?
        && primitives.decode64(Field(serverFinal, 'v').value)
           == Some(primitives.hmac(proved.value.serverKey, primitives.utf8(proved.value.authMessage)))
    {
      var signature := Field(serverFinal, 'v');
      if signature == None || proved == None {
        return Err(Malformed);
      }
      var expected := primitives.hmac(proved.value.serverKey, primitives.utf8(proved.value.authMessage));
      var given := primitives.decode64(signature.value);
      if given == None {
        return Err(Malformed);
      }
      var same := ConstantTimeEq(expected, given.value);
      return if same then Ok(()) else Err(ServerProofInvalid);
    }
  }

  function Verified(p: Primitives, proved: Option<Proved>, serverFinal: string): Result<(), Error> {
    match (Field(serverFinal, 'v'), proved)
    case (Some(signature), Some(k)) =>
      (match p.decode64(signature)
       case None => Err(Malformed)
       case Some(given) =>
         if p.hmac(k.serverKey, p.utf8(k.authMessage)) == given then Ok(()) else Err(ServerProofInvalid))
    case _ => Err(Malformed)
  }

  // ---- the server of RFC 5802, section 3 ----

  /** What a server stores about a user: never the password. */
  datatype Account = Account(salt: octets, iterations: nat, storedKey: octets, serverKey: octets)

  function AccountOf(p: Primitives, password: string, salt: octets, iterations: nat): Account
    requires iterations >= 1
  {
    var salted := Hi(p, p.utf8(password), salt, iterations);
    Account(salt, iterations, p.hash(p.hmac(salted, p.utf8("Client Key"))), p.hmac(salted, p.utf8("Server Key")))
  }

  function ServerFirst(p: Primitives, a: Account, clientNonce: string, extension: string): string {
    "r=" + (clientNonce + extension) + [','] + ("s=" + p.encode64(a.salt) + [','] + ("i=" + DecimalOf(a.iterations)))
  }

  /** What both sides sign: the three messages up to the proof, in the server's own reading. */
  function Transcript(firstBare: string, serverFirst: string, nonce: string): string {
    firstBare + "," + serverFirst + "," + ("c=biws" + [','] + ("r=" + nonce))
  }

  /** The server recovers the client key from the proof and accepts if it hashes to the stored one. */
  predicate ServerAccepts(p: Primitives, a: Account, firstBare: string, serverFirst: string, final: string) {
    && Field(final, 'c') == Some("biws")
    && Field(final, 'r').Some? && Field(final, 'r') == Field(serverFirst, 'r')
    && Field(final, 'p').Some?
    && var proof := p.decode64(Field(final, 'p').value);
       && proof.Some?
       && var transcript := Transcript(firstBare, serverFirst, Field(final, 'r').value);
          p.hash(Xor(proof.value, p.hmac(a.storedKey, p.utf8(transcript)))) == a.storedKey
  }

  function ServerFinal(p: Primitives, a: Account, authMessage: string): string {
    "v=" + p.encode64(p.hmac(a.serverKey, p.utf8(authMessage)))
  }

  // ---- the honest run ----

  /** The server reads the user's name and the client's nonce out of the first message unchanged. */
  lemma FirstMessageReadsBack(username: string, nonce: string)
    ensures var first := FirstBare(username, nonce);
            && Field(first, 'n').Some? && Unprepped(Field(first, 'n').value) == Some(username)
            && Field(first, 'r') == Some(SanitisedNonce(nonce))
  {
    UsernameReadsBack(username);
    var rest := "r=" + SanitisedNonce(nonce);
    assert FirstBare(username, nonce) == ['n'] + "=" + Saslprep(username) + [','] + rest;
    FieldFirst(FirstBare(username, nonce), 'n', Saslprep(username), rest);
    FieldLast(rest, 'r', SanitisedNonce(nonce));
  }

  lemma ThreeFields(message: string, nonce: string, salt: string, count: string)
    requires ',' !in nonce && ',' !in salt && ',' !in count
    requires message == "r=" + nonce + [','] + ("s=" + salt + [','] + ("i=" + count))
    ensures Field(message, 'r') == Some(nonce) && Field(message, 's') == Some(salt) && Field(message, 'i') == Some(count)
  {
    var last := "i=" + count;
    var middle := "s=" + salt + [','] + last;
    assert message == ['r'] + "=" + nonce + [','] + middle && middle == ['s'] + "=" + salt + [','] + last;
    FieldFirst(message, 'r', nonce, middle);
    FieldFirst(middle, 's', salt, last);
    FieldLast(last, 'i', count);
  }

  lemma CountReadsBack(n: nat)
    requires n <= U32_MAX
    ensures ParseUnsigned(DecimalOf(n), U32_MAX) == Some(n) && ',' !in DecimalOf(n)
  {
    DecimalReadsBack(n);
    assert IsDigit(DecimalOf(n)[0]);
  }

  // ---- which challenges are answered ----

  /** The nonce goes on from ours: at least one character more. */
  ghost predicate Extends(nonce: string, ours: string) {
    exists more :: more != "" && nonce == ours + more
  }

  /** How a count may be written: zeros in front, or a plus. */
  ghost predicate Counts(count: string, n: nat) {
    n <= U32_MAX && (Numeral(count, n) || (count != "" && count[0] == '+' && Numeral(count[1..], n)))
  }

  lemma ExtendsIff(nonce: string, ours: string)
    ensures Extends(nonce, ours) <==> ours <= nonce && nonce != ours
  {
    if ours <= nonce {
      assert nonce == ours + nonce[|ours|..];
    }
  }

  lemma CountsIff(count: string, n: nat)
    ensures Counts(count, n) <==> ParseUnsigned(count, U32_MAX) == Some(n)
  {
    UnsignedIsReadIff(count, U32_MAX, n);
  }

  /**
   A message of the three fields is answered if and only if its nonce goes on from ours, its count is from 1 to a million
   and its salt is base64; otherwise the error is that of the first of count, nonce, count's range and salt to fail.
   */
  lemma AnsweredIff(p: Primitives, firstBare: string, ours: string, password: string, nonce: string, salt: string, count: string)
    requires ',' !in nonce && ',' !in salt && ',' !in count
    ensures var r := Answered(p, firstBare, ours, password, "r=" + nonce + [','] + ("s=" + salt + [','] + ("i=" + count)));
            && (r.Ok? <==> Extends(nonce, ours) && (exists n: nat :: Counts(count, n) && 1 <= n <= 1_000_000) && p.decode64(salt).Some?)
            && (r == Err(Malformed) <==> forall n: nat :: !Counts(count, n))
            && (r == Err(NonceMismatch) <==> (exists n: nat :: Counts(count, n)) && !Extends(nonce, ours))
            && (r == Err(TooManyIterations) <==>
                  Extends(nonce, ours) && exists n: nat :: Counts(count, n) && !(1 <= n <= 1_000_000))
  {
    ThreeFields("r=" + nonce + [','] + ("s=" + salt + [','] + ("i=" + count)), nonce, salt, count);
    ExtendsIff(nonce, ours);
    forall n: nat ensures Counts(count, n) <==> ParseUnsigned(count, U32_MAX) == Some(n) {
      CountsIff(count, n);
    }
    if ParseUnsigned(count, U32_MAX).Some? {
      assert Counts(count, ParseUnsigned(count, U32_MAX).value);
    }
  }

  /** A server that does not go on from our nonce gets no proof, whatever its salt and its count. */
  lemma ForeignNonceIsRefused(p: Primitives, a: Account, firstBare: string, ours: string, password: string,
                              other: string, extension: string)
    requires Sound(p) && ',' !in other && ',' !in extension && a.iterations <= U32_MAX
    ensures Answered(p, firstBare, ours, password, ServerFirst(p, a, other, extension)) == Err(NonceMismatch)
       <==> !Extends(other + extension, ours)
  {
    CountReadsBack(a.iterations);
    CountsIff(DecimalOf(a.iterations), a.iterations);
    AnsweredIff(p, firstBare, ours, password, other + extension, p.encode64(a.salt), DecimalOf(a.iterations));
  }

  /** A server that goes on from our nonce is refused exactly for a count of zero or above the maximum. */
  lemma CountIsRefusedIff(p: Primitives, a: Account, firstBare: string, ours: string, password: string, extension: string)
    requires Sound(p) && ',' !in ours && ',' !in extension && extension != "" && a.iterations <= U32_MAX
    ensures var r := Answered(p, firstBare, ours, password, ServerFirst(p, a, ours, extension));
            && (r == Err(TooManyIterations) <==> a.iterations == 0 || a.iterations > 1_000_000)
            && (r.Ok? <==> 1 <= a.iterations <= 1_000_000)
  {
    CountReadsBack(a.iterations);
    forall n: nat ensures Counts(DecimalOf(a.iterations), n) <==> n == a.iterations {
      CountsIff(DecimalOf(a.iterations), n);
    }
    assert Counts(DecimalOf(a.iterations), a.iterations) && Extends(ours + extension, ours);
    AnsweredIff(p, firstBare, ours, password, ours + extension, p.encode64(a.salt), DecimalOf(a.iterations));
  }

  lemma ChallengeReadsBack(p: Primitives, a: Account, clientNonce: string, extension: string)
    requires Sound(p) && ',' !in clientNonce && ',' !in extension && extension != ""
    requires 1 <= a.iterations <= MAX_ITERATIONS
    ensures var first := ServerFirst(p, a, clientNonce, extension);
            && ReadChallenge(p, clientNonce, first) == Ok(Challenge(clientNonce + extension, a.salt, a.iterations))
            && Field(first, 'r') == Some(clientNonce + extension)
  {
    var nonce := clientNonce + extension;
    CountReadsBack(a.iterations);
    ThreeFields(ServerFirst(p, a, clientNonce, extension), nonce, p.encode64(a.salt), DecimalOf(a.iterations));
    assert |nonce| > |clientNonce|;
  }

  lemma FinalReadsBack(final: string, nonce: string, proof64: string)
    requires ',' !in nonce && ',' !in proof64
    requires final == "c=biws" + [','] + ("r=" + nonce + [','] + ("p=" + proof64))
    ensures Field(final, 'c') == Some("biws") && Field(final, 'r') == Some(nonce) && Field(final, 'p') == Some(proof64)
  {
    var last := "p=" + proof64;
    var middle := "r=" + nonce + [','] + last;
    assert final == ['c'] + "=" + "biws" + [','] + middle && middle == ['r'] + "=" + nonce + [','] + last;
    FieldFirst(final, 'c', "biws", middle);
    FieldFirst(middle, 'r', nonce, last);
    FieldLast(last, 'p', proof64);
  }

  /** The server recovers exactly the client key from an honest proof. */
  lemma ProofYieldsClientKey(p: Primitives, salted: octets, authMessage: string)
    requires Sound(p)
    ensures Xor(Proof(p, salted, authMessage), p.hmac(p.hash(ClientKey(p, salted)), p.utf8(authMessage))) == ClientKey(p, salted)
  {
    XorUndoesXor(ClientKey(p, salted), p.hmac(p.hash(ClientKey(p, salted)), p.utf8(authMessage)));
  }

  /**
   An honest run succeeds on both sides: the client answers the server's challenge, the server accepts the answer from
   what it stores, and the client accepts the server's closing message.
   */
  lemma HonestRunSucceeds(p: Primitives, username: string, password: string, nonce: string,
                          salt: octets, iterations: nat, extension: string)
    requires Sound(p) && 1 <= iterations <= MAX_ITERATIONS && ',' !in extension && extension != ""
    ensures var account, bare := AccountOf(p, password, salt, iterations), FirstBare(username, nonce);
            var first := ServerFirst(p, account, SanitisedNonce(nonce), extension);
            var r := Answered(p, bare, SanitisedNonce(nonce), password, first);
            && r.Ok?
            && ServerAccepts(p, account, bare, first, r.value.0)
            && Verified(p, Some(r.value.1), ServerFinal(p, account, Transcript(bare, first, SanitisedNonce(nonce) + extension)))
               == Ok(())
  {
    var account, bare := AccountOf(p, password, salt, iterations), FirstBare(username, nonce);
    var clientNonce := SanitisedNonce(nonce);
    var first := ServerFirst(p, account, clientNonce, extension);
    ChallengeReadsBack(p, account, clientNonce, extension);
    var salted := Hi(p, p.utf8(password), salt, iterations);
    var whole := clientNonce + extension;
    var authMessage := AuthMessage(bare, first, FinalBare(whole));
    FinalReadsBack(FinalMessage(p, salted, authMessage, whole), whole, p.encode64(Proof(p, salted, authMessage)));
    ProofYieldsClientKey(p, salted, authMessage);
    var signature := p.encode64(p.hmac(account.serverKey, p.utf8(authMessage)));
    FieldLast(ServerFinal(p, account, authMessage), 'v', signature);
  }
}
