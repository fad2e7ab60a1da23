/** The per-(user, item, hour) draw that seeds every price, and the hour index it is keyed by.

    The source hashes the key string "{userId}-{itemId}-{hour}" with SHA-256, reads the first
    eight hex digits as an unsigned 32-bit integer and divides it by 0xffffffff. SHA-256 itself is
    a library call: here it is the caller-supplied `Digest`, any total function from key strings
    to 32-bit words. */
module HourlyHash {
  import opened Text

  const MsPerHour: int := 1000 * 60 * 60
  const MsPerMinute: int := 1000 * 60
  const MaxWord32: int := 0xffff_ffff

  type Word32 = x: int | 0 <= x <= 0xffff_ffff

  /** The first 32 bits of the SHA-256 digest of a key's UTF-8 bytes. */
  type Digest = string -> Word32

  /** `${userId}-${itemId}-${hour}`; Python's f"{user_id}-{item_id}-{hour}" builds the same string. */
  function HashKey(userId: string, itemId: string, hour: int): (k: string)
    ensures |k| == |userId| + |itemId| + |DecimalString(hour)| + 2
    ensures k[..|userId|] == userId && k[|userId|] == '-'
    ensures k[|k| - |DecimalString(hour)|..] == DecimalString(hour)
  {
    userId + "-" + itemId + "-" + DecimalString(hour)
  }

  /** `createHourlyRandom`: the hash word scaled into [0, 1]. */
  function HourlyRandom(sha: Digest, userId: string, itemId: string, hour: int): (r: real)
    ensures 0.0 <= r <= 1.0
    ensures r == 1.0 <==> sha(HashKey(userId, itemId, hour)) == MaxWord32
    ensures r == 0.0 <==> sha(HashKey(userId, itemId, hour)) == 0
  {
    sha(HashKey(userId, itemId, hour)) as real / MaxWord32 as real
  }

  /** The key joins its parts with '-', which ids may themselves contain: user "a-b" buying
      item "c" draws exactly what user "a" buying item "b-c" draws, at every hour and under
      every digest. */
  lemma KeysCollideAcrossDashes(sha: Digest, hour: int)
    ensures HashKey("a-b", "c", hour) == HashKey("a", "b-c", hour)
    ensures HourlyRandom(sha, "a-b", "c", hour) == HourlyRandom(sha, "a", "b-c", hour)
  {
  }

  /** `Math.floor(now / (1000 * 60 * 60))`: the index of the hour containing the instant nowMs. */
  function CurrentHour(nowMs: int): (h: int)
    ensures h * MsPerHour <= nowMs < (h + 1) * MsPerHour
  {
    nowMs / MsPerHour
  }

  /** Every instant of one hour maps to that hour's index. */
  lemma CurrentHourOfHour(h: int, nowMs: int)
    requires h * MsPerHour <= nowMs < (h + 1) * MsPerHour
    ensures CurrentHour(nowMs) == h
  {
  }
}
