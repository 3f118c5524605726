/**
 * gRPC metadata as the repository's code sees it: a map from keys to value
 * lists. Keys read through Get are lower-cased first, and values appended to
 * an outgoing context land under the lower-cased key, after the values
 * already there.
 */
module GrpcMetadata {
  import opened Text

  type MD = map<string, seq<string>>

  /** md[k] with nil for an absent key. */
  function Lookup(md: MD, k: string): seq<string> {
    if k in md then md[k] else []
  }

  /** MD.Get: the values under the lower-cased key. */
  function Get(md: MD, key: string): seq<string> {
    Lookup(md, ToLower(key))
  }

  /** metadata.Pairs(key, v): one value under the lower-cased key. */
  function Pairs(key: string, v: string): (md: MD)
    ensures md.Keys == {ToLower(key)}
    ensures Get(md, key) == [v]
  {
    map[ToLower(key) := [v]]
  }

  /**
   * AppendToOutgoingContext(ctx, key, v) as seen by FromOutgoingContext:
   * v is added after the values under the lower-cased key; every other key
   * keeps its values.
   */
  function Append(md: MD, key: string, v: string): (r: MD)
    ensures r.Keys == md.Keys + {ToLower(key)}
    ensures Get(r, key) == Get(md, key) + [v]
    ensures forall k :: k != ToLower(key) ==> Lookup(r, k) == Lookup(md, k)
  {
    md[ToLower(key) := Lookup(md, ToLower(key)) + [v]]
  }
}
