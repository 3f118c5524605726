/**
 * bootstrap/header: copying metadata into an outgoing context and reading
 * typed values back out of it. A context is represented by its outgoing
 * metadata as FromOutgoingContext reports it: None when the context has no
 * outgoing metadata at all.
 */
module HeaderMetadata {
  import opened Wrappers
  import opened Text
  import opened GrpcMetadata

  type OutCtx = Option<MD>

  const UserIdKey := "userId"

  /** The outgoing metadata of a context, empty when there is none. */
  function Out(ctx: OutCtx): MD {
    if ctx.Some? then ctx.value else map[]
  }

  /** Every key of md is already lower-case, as metadata.Pairs and MD.Set produce. */
  predicate AllLower(md: MD) {
    forall k :: k in md ==> ToLower(k) == k
  }

  /** k is not where any key of md lands after lower-casing. */
  predicate Untouched(md: MD, k: string) {
    forall j :: j in md ==> ToLower(j) != k
  }

  /**
   * AddMetadata: every value of every key of md is appended to the outgoing
   * context. Keys md does not touch keep their values; with lower-case keys,
   * each key ends with its earlier values followed by md's, in order. A
   * context stays without metadata only when md holds no value at all.
   */
  method AddMetadata(ctx: OutCtx, md: MD) returns (r: OutCtx)
    ensures r.None? <==> ctx.None? && forall k :: k in md ==> md[k] == []
    ensures forall k :: Untouched(md, k) ==> Lookup(Out(r), k) == Lookup(Out(ctx), k)
    ensures AllLower(md) ==> forall k :: k in md ==> Lookup(Out(r), k) == Lookup(Out(ctx), k) + md[k]
  {
    r := ctx;
    var todo := md.Keys;
    ghost var done: set<string> := {};
    while todo != {}
      invariant todo + done == md.Keys && todo !! done
      invariant forall k :: Untouched(md, k) ==> Lookup(Out(r), k) == Lookup(Out(ctx), k)
      invariant AllLower(md) ==> forall k :: k in done ==> Lookup(Out(r), k) == Lookup(Out(ctx), k) + md[k]
      invariant AllLower(md) ==> forall k :: k in todo ==> Lookup(Out(r), k) == Lookup(Out(ctx), k)
      invariant r.None? <==> ctx.None? && forall k :: k in done ==> md[k] == []
      decreases |todo|
    {
      var key :| key in todo;
      r := AppendValues(r, key, md[key]);
      forall k | Untouched(md, k) ensures Lookup(Out(r), k) == Lookup(Out(ctx), k) {
        assert ToLower(key) != k;
      }
      if AllLower(md) {
        assert ToLower(key) == key;
        forall k | k in todo - {key} ensures Lookup(Out(r), k) == Lookup(Out(ctx), k) {
          assert k != key;
        }
        forall k | k in done ensures Lookup(Out(r), k) == Lookup(Out(ctx), k) + md[k] {
          assert k != key;
        }
      }
      todo := todo - {key};
      done := done + {key};
    }
  }

  /** The inner loop of AddMetadata: the values of one key appended one at a time. */
  method AppendValues(ctx: OutCtx, key: string, vals: seq<string>) returns (r: OutCtx)
    ensures Lookup(Out(r), ToLower(key)) == Lookup(Out(ctx), ToLower(key)) + vals
    ensures forall k :: k != ToLower(key) ==> Lookup(Out(r), k) == Lookup(Out(ctx), k)
    ensures r.None? <==> ctx.None? && vals == []
  {
    r := ctx;
    var j := 0;
    while j < |vals|
      invariant 0 <= j <= |vals|
      invariant Lookup(Out(r), ToLower(key)) == Lookup(Out(ctx), ToLower(key)) + vals[..j]
      invariant forall k :: k != ToLower(key) ==> Lookup(Out(r), k) == Lookup(Out(ctx), k)
      invariant j == 0 ==> r == ctx
      invariant j > 0 ==> r.Some?
    {
      r := Some(Append(Out(r), key, vals[j]));
      assert vals[..j + 1] == vals[..j] + [vals[j]];
      j := j + 1;
    }
    assert vals[..j] == vals;
  }

  /** getMetadataKey: the first outgoing value under the key, if there is one. */
  function GetMetadataKey(ctx: OutCtx, key: string): (r: Option<string>)
    ensures r.Some? <==> ctx.Some? && |Get(ctx.value, key)| > 0
    ensures r.Some? ==> r.value == Get(ctx.value, key)[0]
  {
    if ctx.None? then None
    else
      var data := Get(ctx.value, key);
      if |data| > 0 then Some(data[0]) else None
  }

  /** GetMetadataUID: the "userId" value read as a signed 64-bit decimal; absence or a bad number gives (0, false). */
  function GetMetadataUID(ctx: OutCtx): (r: Option<int>)
    ensures r.Some? ==> GetMetadataKey(ctx, UserIdKey).Some? && ParseInt64(GetMetadataKey(ctx, UserIdKey).value) == r
    ensures GetMetadataKey(ctx, UserIdKey).None? ==> r.None?
    ensures r.Some? ==> INT64_MIN <= r.value <= INT64_MAX
  {
    match GetMetadataKey(ctx, UserIdKey)
    case None => None
    case Some(s) => ParseInt64(s)
  }

  /** The key under which a user's cluster id is kept: "APP-<appid>-<userId>". */
  function ClusterKey(appid: nat, userId: int): (k: string)
    ensures HasPrefix(k, "APP-")
  {
    "APP-" + FormatInt(appid) + "-" + FormatInt(userId)
  }

  /** GetClusterId: the value under ClusterKey read as an unsigned 64-bit decimal and truncated to 8 bits. */
  function GetClusterId(ctx: OutCtx, appid: nat, userId: int): (r: Option<nat>)
    requires appid < 256
    ensures r.Some? ==> r.value < 256
    ensures r.Some? <==> (GetMetadataKey(ctx, ClusterKey(appid, userId)).Some?
      && ParseUintDecimal(GetMetadataKey(ctx, ClusterKey(appid, userId)).value, UINT64_LIMIT).Some?)
    ensures r.Some? ==> r.value == ParseUintDecimal(GetMetadataKey(ctx, ClusterKey(appid, userId)).value, UINT64_LIMIT).value % 256
  {
    match GetMetadataKey(ctx, ClusterKey(appid, userId))
    case None => None
    case Some(s) =>
      match ParseUintDecimal(s, UINT64_LIMIT)
      case None => None
      case Some(c) => Some(c % 256)
  }

  /** No value is stored under the key yet, so an appended value becomes the first. */
  predicate NoValue(ctx: OutCtx, key: string) {
    ctx.None? || |Get(ctx.value, key)| == 0
  }

  /** A key given to Pairs is lower-case, so AddMetadata appends its value under exactly that key. */
  lemma PairsAllLower(key: string, v: string)
    ensures AllLower(Pairs(key, v))
  {
    var s := ToLower(key);
    assert forall i :: 0 <= i < |key| ==> LowerChar(LowerChar(key[i])) == LowerChar(key[i]);
    assert ToLower(s) == s;
  }

  /**
   * AddMetadata of metadata.Pairs(key, v) leaves v as the first value
   * under key when there was none, and leaves an existing first value alone.
   */
  method AddPair(ctx: OutCtx, key: string, v: string) returns (r: OutCtx)
    ensures NoValue(ctx, key) ==> GetMetadataKey(r, key) == Some(v)
    ensures !NoValue(ctx, key) ==> GetMetadataKey(r, key) == GetMetadataKey(ctx, key)
  {
    var pairs := Pairs(key, v);
    PairsAllLower(key, v);
    r := AddMetadata(ctx, pairs);
    assert ToLower(key) in pairs;
    assert Lookup(Out(r), ToLower(key)) == Lookup(Out(ctx), ToLower(key)) + [v];
  }

  /** SetMetadataUID: the uid in decimal under "userId"; read back it is the same uid when no earlier value shadows it. */
  method SetMetadataUID(ctx: OutCtx, uid: int) returns (r: OutCtx)
    requires INT64_MIN <= uid <= INT64_MAX
    ensures NoValue(ctx, UserIdKey) ==> GetMetadataUID(r) == Some(uid)
    ensures !NoValue(ctx, UserIdKey) ==> GetMetadataUID(r) == GetMetadataUID(ctx)
  {
    r := AddPair(ctx, UserIdKey, FormatInt(uid));
    ParseFormatInt(uid);
  }

  /** SetClusterId: the cluster id in decimal under ClusterKey; GetClusterId reads it back when nothing shadows it. */
  method SetClusterId(ctx: OutCtx, appid: nat, userId: int, clusterId: nat) returns (r: OutCtx)
    requires appid < 256 && clusterId < 256
    ensures NoValue(ctx, ClusterKey(appid, userId)) ==> GetClusterId(r, appid, userId) == Some(clusterId)
    ensures !NoValue(ctx, ClusterKey(appid, userId)) ==> GetClusterId(r, appid, userId) == GetClusterId(ctx, appid, userId)
  {
    r := AddPair(ctx, ClusterKey(appid, userId), FormatInt(clusterId));
    ParseFormatUint(clusterId, UINT64_LIMIT);
  }
}
