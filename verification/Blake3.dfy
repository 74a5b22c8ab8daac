/** Bytes, and the incremental hashing interface that the event chain and the archive reader share. */
module Blake3 {

  newtype byte = x: int | 0 <= x < 256

  type bytes = seq<byte>

  const DIGEST_BYTES: nat := 32

  type Digest = d: bytes | |d| == DIGEST_BYTES witness seq(DIGEST_BYTES, _ => 0)

  /** A hasher: a fresh state, feeding bytes into a state, and reading the digest off it. */
  datatype Hasher<!S> = Hasher(initial: S, update: (S, bytes) -> S, finalize: S -> Digest)

  /** Feeding in pieces is the same as feeding the whole. */
  ghost predicate Incremental<S(!new)>(h: Hasher<S>) {
    && (forall s :: h.update(s, []) == s)
    && (forall s, a, b {:trigger h.update(h.update(s, a), b)} :: h.update(h.update(s, a), b) == h.update(s, a + b))
  }

  /** The state of a hasher that has been fed `data`. */
  function Fed<S>(h: Hasher<S>, data: bytes): S {
    h.update(h.initial, data)
  }

  function Hash<S>(h: Hasher<S>, data: bytes): Digest {
    h.finalize(Fed(h, data))
  }

  method Begin<S(!new)>(h: Hasher<S>) returns (state: S)
    requires Incremental(h)
    ensures state == Fed(h, [])
  {
    state := h.initial;
  }

  /** One `update` of a hasher that has been fed `fed`. */
  method Feed<S(!new)>(h: Hasher<S>, state: S, data: bytes, ghost fed: bytes) returns (next: S)
    requires Incremental(h) && state == Fed(h, fed)
    ensures next == Fed(h, fed + data)
  {
    next := h.update(state, data);
  }

  method Digested<S>(h: Hasher<S>, state: S, ghost fed: bytes) returns (digest: Digest)
    requires state == Fed(h, fed)
    ensures digest == Hash(h, fed)
  {
    digest := h.finalize(state);
  }
}
