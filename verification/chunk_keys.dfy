/**
 * Chunk identity: the key string `"{source}::page{page}::{idx}"` and the
 * chunk id, the first ten characters of the key's MD5 hex digest.
 * MD5 itself is not modelled: it is a parameter of type `string -> HexDigest`,
 * standing for `hashlib.md5(key.encode()).hexdigest()`.
 */
module ChunkKeys {
  import opened PyStr

  /** The characters `hexdigest()` produces. */
  predicate IsLowerHex(c: char) {
    ('0' <= c <= '9') || ('a' <= c <= 'f')
  }

  predicate AllLowerHex(s: string) {
    forall i | 0 <= i < |s| :: IsLowerHex(s[i])
  }

  /** An MD5 hex digest: 32 lower-case hexadecimal characters. */
  type HexDigest = s: string | |s| == 32 && AllLowerHex(s)
    witness "00000000000000000000000000000000"

  /** Length of a chunk id: the digest is cut to its first ten characters. */
  const ChunkIdLength := 10

  /** The string that is hashed: `f"{source}::page{page}::{idx}"`. */
  function ChunkKey(source: string, page: int, idx: nat): string {
    source + "::page" + IntToString(page) + "::" + NatToString(idx)
  }

  /** Splits a string at its last ':' (the text before it, the text after it). */
  function SplitAtLastColon(s: string): (string, string) {
    if s == [] then ([], [])
    else if s[|s| - 1] == ':' then (s[..|s| - 1], [])
    else
      var (before, after) := SplitAtLastColon(s[..|s| - 1]);
      (before, after + [s[|s| - 1]])
  }

  lemma {:induction false} SplitAtLastColonOf(before: string, after: string)
    requires ':' !in after
    ensures SplitAtLastColon(before + [':'] + after) == (before, after)
  {
    var s := before + [':'] + after;
    if after != [] {
      var a' := after[..|after| - 1];
      assert s[..|s| - 1] == before + [':'] + a';
      SplitAtLastColonOf(before, a');
      assert a' + [after[|after| - 1]] == after;
    } else {
      assert s[..|s| - 1] == before;
    }
  }

  /** Reads a key back into (source, page, idx), as far as a key is well formed. */
  function ParseChunkKey(key: string): (string, int, int) {
    var (front, idxText) := SplitAtLastColon(key);
    var front' := if front == [] then [] else front[..|front| - 1];
    var (sourceColon, pageText) := SplitAtLastColon(front');
    var source := if sourceColon == [] then [] else sourceColon[..|sourceColon| - 1];
    var pageDigits := if |pageText| < 4 then [] else pageText[4..];
    (source, ParseInt(pageDigits), ParseDigits(idxText))
  }

  lemma NoColonInNumbers(page: int, idx: nat)
    ensures ':' !in IntToString(page) && ':' !in NatToString(idx)
    ensures ':' !in "page" + IntToString(page)
  {
  }

  /** The key loses nothing: (source, page, idx) can be read back from it. */
  lemma ParseChunkKeyRoundTrip(source: string, page: int, idx: nat)
    ensures ParseChunkKey(ChunkKey(source, page, idx)) == (source, page, idx as int)
  {
    var p := IntToString(page);
    var n := NatToString(idx);
    NoColonInNumbers(page, idx);
    var key := ChunkKey(source, page, idx);
    var front := source + "::page" + p + ":";
    assert key == front + [':'] + n;
    SplitAtLastColonOf(front, n);
    var front' := front[..|front| - 1];
    assert front' == (source + [':']) + [':'] + ("page" + p);
    SplitAtLastColonOf(source + [':'], "page" + p);
    assert (source + [':'])[..|source|] == source;
    assert ("page" + p)[4..] == p;
    ParseIntToString(page);
    ParseNatToString(idx);
  }

  /** Distinct (source, page, idx) triples give distinct keys. */
  lemma ChunkKeyInjective(s1: string, p1: int, i1: nat, s2: string, p2: int, i2: nat)
    ensures ChunkKey(s1, p1, i1) == ChunkKey(s2, p2, i2) <==> s1 == s2 && p1 == p2 && i1 == i2
  {
    ParseChunkKeyRoundTrip(s1, p1, i1);
    ParseChunkKeyRoundTrip(s2, p2, i2);
  }

  /** `make_chunk_id`: the first ten characters of the MD5 hex digest of the key. */
  function MakeChunkId(md5: string -> HexDigest, source: string, page: int, idx: nat): (id: string)
    ensures |id| == ChunkIdLength
    ensures AllLowerHex(id)
    ensures id <= md5(ChunkKey(source, page, idx))
  {
    md5(ChunkKey(source, page, idx))[..ChunkIdLength]
  }
}
