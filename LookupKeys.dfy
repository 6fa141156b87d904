/** The key under which the state table stores a state: the points of the
    server and of the receiver, each between 0 and 4. */
module LookupKeys {
  import opened Wrappers

  /** The largest score a key component may hold. */
  const MaxScore := 4

  datatype Key = Key(serverScore: int, receiverScore: int)

  predicate InRange(score: int) {
    0 <= score <= MaxScore
  }

  /** What the key constructor guarantees of every key it builds. */
  predicate Valid(k: Key) {
    InRange(k.serverScore) && InRange(k.receiverScore)
  }

  /** The constructor: it throws unless both components lie in [0, 4]. */
  function NewKey(serverScore: int, receiverScore: int): (r: Result<Key>)
    ensures r.Ok? <==> InRange(serverScore) && InRange(receiverScore)
    ensures r.Ok? ==> Valid(r.value)
    ensures r.Ok? ==> r.value.serverScore == serverScore && r.value.receiverScore == receiverScore
    ensures r.Err? ==> r.error == InvalidScore
  {
    if serverScore > 4 || serverScore < 0 then Err(InvalidScore)
    else if receiverScore > 4 || receiverScore < 0 then Err(InvalidScore)
    else Ok(Key(serverScore, receiverScore))
  }

  /** The key of the score after the server wins a point; fails past 4. */
  function IncrementServer(k: Key): (r: Result<Key>)
    requires Valid(k)
    ensures r.Ok? <==> k.serverScore < MaxScore
    ensures r.Ok? ==> r.value == Key(k.serverScore + 1, k.receiverScore)
  {
    NewKey(k.serverScore + 1, k.receiverScore)
  }

  /** The key of the score after the receiver wins a point; fails past 4. */
  function IncrementReceiver(k: Key): (r: Result<Key>)
    requires Valid(k)
    ensures r.Ok? <==> k.receiverScore < MaxScore
    ensures r.Ok? ==> r.value == Key(k.serverScore, k.receiverScore + 1)
  {
    NewKey(k.serverScore, k.receiverScore + 1)
  }

  /** The same score seen with server and receiver swapped; a valid key always
      flips to a valid key. */
  function FlipKey(k: Key): (r: Result<Key>)
    requires Valid(k)
    ensures r.Ok? && Valid(r.value)
    ensures r.value.serverScore == k.receiverScore && r.value.receiverScore == k.serverScore
  {
    NewKey(k.receiverScore, k.serverScore)
  }

  /** Flipping a key twice gives back an equal key. */
  lemma FlipKeyInvolutive(k: Key)
    requires Valid(k)
    ensures FlipKey(FlipKey(k).value) == Ok(k)
  {
  }

  /** `equals`: two keys are equal exactly when both components are. */
  predicate Equals(a: Key, b: Key): (eq: bool)
    ensures eq <==> a == b
  {
    a.serverScore == b.serverScore && a.receiverScore == b.receiverScore
  }

  /** `hashCode`: `Integer.rotateLeft(serverScore, 3) ^ receiverScore` on
      32-bit ints. */
  function Hash(k: Key): bv32
    requires Valid(k)
  {
    (k.serverScore as bv32).RotateLeft(3) ^ (k.receiverScore as bv32)
  }

  /** Two values side by side: `s` shifted left by three bits, `r` below it. */
  function Pack(s: bv32, r: bv32): bv32 {
    (s << 3) | r
  }

  /** On valid keys the rotation is a plain shift (no bit wraps round) and the
      xor touches only the three low bits the shift left free. */
  lemma HashIsPacked(k: Key)
    requires Valid(k)
    ensures Hash(k) == Pack(k.serverScore as bv32, k.receiverScore as bv32)
  {
  }

  /** Two values below 8 pack to `8 * s + r`. */
  lemma PackIsArithmetic(s: bv32, r: bv32)
    requires s < 8 && r < 8
    ensures Pack(s, r) == s * 8 + r
  {
  }

  /** The hash of a valid key is `8 * serverScore + receiverScore`. */
  lemma HashIsScoreTimesEight(k: Key)
    requires Valid(k)
    ensures Hash(k) == (k.serverScore as bv32) * 8 + (k.receiverScore as bv32)
  {
    HashIsPacked(k);
    ComponentInjective(k.serverScore, k.serverScore);
    ComponentInjective(k.receiverScore, k.receiverScore);
    PackIsArithmetic(k.serverScore as bv32, k.receiverScore as bv32);
  }

  /** Scores in range fit in three bits and have distinct 32-bit images. */
  lemma ComponentInjective(x: int, y: int)
    requires InRange(x) && InRange(y)
    ensures x as bv32 < 8
    ensures x as bv32 == y as bv32 ==> x == y
  {
  }

  /** Packing two values below 8 loses nothing. */
  lemma PackInjective(s1: bv32, r1: bv32, s2: bv32, r2: bv32)
    requires s1 < 8 && r1 < 8 && s2 < 8 && r2 < 8
    requires Pack(s1, r1) == Pack(s2, r2)
    ensures s1 == s2 && r1 == r2
  {
  }

  /** The hashes of the 25 valid keys are pairwise distinct, and equal keys
      hash equally. */
  lemma HashInjective(a: Key, b: Key)
    requires Valid(a) && Valid(b)
    ensures Hash(a) == Hash(b) <==> a == b
  {
    HashIsPacked(a);
    HashIsPacked(b);
    if Hash(a) == Hash(b) {
      ComponentInjective(a.serverScore, b.serverScore);
      ComponentInjective(a.receiverScore, b.receiverScore);
      ComponentInjective(b.serverScore, a.serverScore);
      ComponentInjective(b.receiverScore, a.receiverScore);
      PackInjective(a.serverScore as bv32, a.receiverScore as bv32, b.serverScore as bv32, b.receiverScore as bv32);
    }
  }
}
