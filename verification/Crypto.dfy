/**
 The primitives of the encryption core as a free term algebra: a key is the expression that made it,
 so two keys are equal exactly when they were derived the same way. Secrets are numbers, a public key
 names its secret, and a Diffie-Hellman output is the unordered pair of the two secrets.
 */
module Crypto {
  import opened Wrappers
  import opened Integers
  import opened Padding

  type Secret = nat

  /** A point somebody published, or one of the degenerate points no honest key is. */
  datatype PublicKey = Of(secret: Secret) | SmallOrder(code: nat)

  datatype Term =
    | Raw(code: nat)
    | Shared(low: Secret, high: Secret)
    | X3dhSecret(dh1: Term, dh2: Term, dh3: Term, dh4: Term)
    | RootHalf(root: Term, dh: Term)
    | ChainHalf(root: Term, dh: Term)
    | NextChain(chain: Term)
    | MessageKey(chain: Term)

  datatype Header = Header(dh: PublicKey, pn: u32, n: u32)

  datatype Ciphertext =
    | Sealed(key: Term, header: Header, padded: seq<byte>)
    | Noise(code: nat)

  /** A fingerprint is the hash of a signing key, so distinct keys have distinct fingerprints. */
  datatype Fingerprint = Fingerprint(code: nat)

  datatype Error =
    | InvalidSignature
    | NonContributoryDh
    | Aead
    | Padding
    | TooManySkipped
    | CounterOverflow
    | NoChain
    | FingerprintChanged(previous: Fingerprint, current: Fingerprint)
    | WrongState
    | Fragmentation

  datatype RatchetMessage = RatchetMessage(header: Header, ct: Ciphertext)

  function SharedSecret(a: Secret, b: Secret): Term {
    if a <= b then Shared(a, b) else Shared(b, a)
  }

  function DiffieHellman(secret: Secret, public: PublicKey): Result<Term, Error> {
    match public
    case Of(other) => Ok(SharedSecret(secret, other))
    case SmallOrder(_) => Err(NonContributoryDh)
  }

  function Seal(key: Term, header: Header, plaintext: seq<byte>): Ciphertext {
    Sealed(key, header, Padded(plaintext))
  }

  /** Open a message under one key: the tag binds key and header, and the padding must be well formed. */
  function Unseal(key: Term, msg: RatchetMessage): Result<seq<byte>, Error> {
    if msg.ct.Sealed? && msg.ct.key == key && msg.ct.header == msg.header then
      match Unpadded(msg.ct.padded)
      case Some(plaintext) => Ok(plaintext)
      case None => Err(Error.Padding)
    else
      Err(Aead)
  }

  /** `count` steps of a symmetric chain. */
  function Advance(chain: Term, count: nat): Term {
    if count == 0 then chain else NextChain(Advance(chain, count - 1))
  }

  function KeyAt(chain: Term, n: nat): Term {
    MessageKey(Advance(chain, n))
  }

  /** Two chains that started fresh agree at some position only when they are one chain at one position. */
  lemma {:induction false} AdvanceInjective(c: Term, d: Term, j: nat, k: nat)
    requires c.ChainHalf? && d.ChainHalf?
    requires Advance(c, j) == Advance(d, k)
    ensures c == d && j == k
  {
    if j > 0 && k > 0 {
      AdvanceInjective(c, d, j - 1, k - 1);
    }
  }
}
