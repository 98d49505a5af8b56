/**
  What the ledgers take from elsewhere: a hash, a reader of times and a test for canonical IP addresses.
  They stay parameters, so every result holds for SHA-256 and for `Instants.RequireTime` in particular.
 */
module Digests {
  import opened Prelude
  import opened CanonicalJson

  datatype Primitives = Primitives(hash: string -> string, time: string -> Option<int>, address: string -> bool) {

    /** `canonical_digest` without a domain prefix. */
    function Digest(v: Json): string {
      hash(Encode(v))
    }

    predicate IsTime(t: string) {
      time(t).Some?
    }

    function Instant(t: string): int
      requires IsTime(t)
    {
      time(t).value
    }

    /** The only property of the hash used unconditionally: its output has the form of a digest. */
    ghost predicate DigestValued() {
      forall t :: IsDigest(hash(t))
    }

    /** No two of the given texts share a digest: a hypothesis on the texts at hand, never on all texts. */
    ghost predicate CollisionFree(texts: set<string>) {
      forall a, b :: a in texts && b in texts && hash(a) == hash(b) ==> a == b
    }
  }

  const ZERO := "sha256:0000000000000000000000000000000000000000000000000000000000000000"

  /** `sha256:` and sixty-four hexadecimal digits (schema.py). */
  predicate IsDigest(t: string) {
    |t| == 71 && "sha256:" <= t && forall i :: 7 <= i < 71 ==> '0' <= t[i] <= '9' || 'a' <= t[i] <= 'f'
  }
}
