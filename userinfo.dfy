/**
 * app/header/userinfo.go: the caller's identity read from the incoming
 * metadata. Every getter panics when its value is missing or does not
 * parse; a panic is a Failed result here.
 */
module UserInfo {
  import opened Wrappers
  import opened Text
  import opened GrpcMetadata

  datatype Panic =
    | NoMetadataInContext
    | NoKeyInMetadata(key: string)
    | AtoiFailed(text: string)

  const TenantIDKey := "tenant_id"

  /** GetUserInfoFromIncomingCtx: panics without incoming metadata. */
  function FromIncomingContext(incoming: Option<MD>): (r: Result<Info, Panic>)
    ensures incoming.None? <==> r == Err(NoMetadataInContext)
    ensures incoming.Some? ==> r == Ok(Info(incoming.value))
  {
    if incoming.None? then Err(NoMetadataInContext) else Ok(Info(incoming.value))
  }

  /**
   * strconv.Atoi followed by Must and a uint32 conversion: an int64 in
   * decimal, truncated to its low 32 bits.
   */
  function AtoiUint32(s: string): (r: Result<nat, Panic>)
    ensures r.Ok? ==> ParseInt64(s).Some? && r.value < UINT32_LIMIT && (r.value - ParseInt64(s).value) % UINT32_LIMIT == 0
    ensures r.Err? <==> ParseInt64(s).None?
    ensures r.Err? ==> r.error == AtoiFailed(s)
  {
    match ParseInt64(s)
    case None => Err(AtoiFailed(s))
    case Some(v) => Ok(v % UINT32_LIMIT)
  }

  datatype Info = Info(md: MD) {
    /**
     * get as written: it reads the first "tenant_id" value whatever key it
     * is asked for, and names the key only in the panic.
     */
    function Get(key: string): (r: Result<string, Panic>)
      ensures GrpcMetadata.Get(md, TenantIDKey) == [] <==> r == Err(NoKeyInMetadata(key))
      ensures r.Ok? ==> r.value == GrpcMetadata.Get(md, TenantIDKey)[0]
    {
      var ret := GrpcMetadata.Get(md, TenantIDKey);
      if |ret| == 0 then Err(NoKeyInMetadata(key)) else Ok(ret[0])
    }

    /** The read get evidently means: the first value of the key it is given. */
    function GetKey(key: string): (r: Result<string, Panic>)
      ensures GrpcMetadata.Get(md, key) == [] <==> r == Err(NoKeyInMetadata(key))
      ensures r.Ok? ==> r.value == GrpcMetadata.Get(md, key)[0]
    {
      var ret := GrpcMetadata.Get(md, key);
      if |ret| == 0 then Err(NoKeyInMetadata(key)) else Ok(ret[0])
    }

    function Then(v: Result<string, Panic>): Result<nat, Panic> {
      if v.Err? then Err(v.error) else AtoiUint32(v.value)
    }

    function GetTenantID(): Result<nat, Panic> { Then(Get("tenant_id")) }
    function GetUserID(): Result<nat, Panic> { Then(Get("user_id")) }
    function GetGameID(): Result<nat, Panic> { Then(Get("game_id")) }
    function GetVersion(): Result<nat, Panic> { Then(Get("version")) }
    function GetSource(): Result<string, Panic> { Get("source") }

    /** The user id read from its own key. */
    function GetUserIDByKey(): Result<nat, Panic> { Then(GetKey("user_id")) }
  }

  /**
   * The four numeric getters and GetSource agree with one another: they all
   * answer from the tenant id, whatever the other keys hold; only the key
   * named in a panic differs.
   */
  lemma GettersReadTenantID(u: Info)
    ensures u.GetTenantID().Ok? ==> u.GetUserID() == u.GetTenantID() && u.GetGameID() == u.GetTenantID() && u.GetVersion() == u.GetTenantID()
    ensures u.GetUserID().Ok? || u.GetGameID().Ok? || u.GetVersion().Ok? ==> u.GetTenantID().Ok?
    ensures u.GetSource().Ok? ==> u.GetTenantID() == AtoiUint32(u.GetSource().value)
    ensures u.GetSource().Ok? <==> GrpcMetadata.Get(u.md, TenantIDKey) != []
  {
  }

  /**
   * With tenant "7" and user "9" in the metadata, GetUserID answers 7;
   * reading the user id from its own key answers 9.
   */
  lemma {:induction false} UserIDIsTenantID(tenant: nat, user: nat)
    requires tenant < UINT32_LIMIT && user < UINT32_LIMIT
    ensures var u := Info(map["tenant_id" := [FormatInt(tenant)], "user_id" := [FormatInt(user)]]);
      u.GetUserID() == Ok(tenant) && u.GetUserIDByKey() == Ok(user)
  {
    var u := Info(map["tenant_id" := [FormatInt(tenant)], "user_id" := [FormatInt(user)]]);
    LowerOfLower("tenant_id");
    LowerOfLower("user_id");
    ParseFormatInt(tenant);
    ParseFormatInt(user);
  }
}
