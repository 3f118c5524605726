/**
 * driver/redis/redis.go, server side: the part of a Redis store the
 * repository's Lua scripts touch, the five scripts as functions on it,
 * and the replies they produce. String values and hashes of integers are
 * represented; expiry is a recorded time-to-live in milliseconds.
 */
module RedisStore {
  import opened Wrappers
  import opened Text

  datatype Value = Str(s: string) | Hash(fields: map<string, int>)

  datatype Store = Store(data: map<string, Value>, ttl: map<string, int>)

  datatype RedisError =
    | ConnectionRefused
    | NoScript
    | WrongType
    | NotAnInteger
    | IncrementOverflow
    | ArgumentCount
    | RedisNil
    | ConversionError(text: string)

  /** A reply as go-redis reads it. */
  datatype Reply = NilReply | IntReply(i: int) | BulkReply(s: string) | StatusReply(status: string) | ErrorReply(e: RedisError)

  /** The scripts of the driver; CmpSetScriptCounted is the corrected cmpSet script (see Findings). */
  datatype Script = HashSafelyDecrScript | GetDelScript | DelScript | RefreshScript | CmpSetScript | CmpSetScriptCounted

  /** A distinct name standing in for the SHA1 digest SCRIPT LOAD answers. */
  function Digest(s: Script): (h: string)
    ensures h != ""
    ensures forall t :: Digest'(t) == h ==> t == s
  {
    Digest'(s)
  }

  function Digest'(s: Script): string {
    match s
    case HashSafelyDecrScript => "sha1:hashSafelyDecr"
    case GetDelScript => "sha1:getDel"
    case DelScript => "sha1:del"
    case RefreshScript => "sha1:refresh"
    case CmpSetScript => "sha1:cmpSet"
    case CmpSetScriptCounted => "sha1:cmpSetCounted"
  }

  // ---------------------------------------------------------------- commands

  /** GET: the string under the key, none when absent, WRONGTYPE on a hash. */
  function Get(st: Store, key: string): (r: Result<Option<string>, RedisError>)
    ensures key !in st.data ==> r == Ok(None)
    ensures key in st.data && st.data[key].Str? ==> r == Ok(Some(st.data[key].s))
    ensures key in st.data && st.data[key].Hash? ==> r == Err(WrongType)
  {
    if key !in st.data then Ok(None)
    else if st.data[key].Hash? then Err(WrongType)
    else Ok(Some(st.data[key].s))
  }

  /** DEL of one key, with its time-to-live. */
  function Del(st: Store, key: string): (r: Store)
    ensures key !in r.data && key !in r.ttl
    ensures forall k :: k != key ==> (k in r.data <==> k in st.data) && (k in r.data ==> r.data[k] == st.data[k])
  {
    Store(st.data - {key}, st.ttl - {key})
  }

  /** The field's value for HINCRBY: 0 when the key or field is absent. */
  function FieldValue(st: Store, key: string, field: string): int {
    if key in st.data && st.data[key].Hash? && field in st.data[key].fields then st.data[key].fields[field] else 0
  }

  /** The field of the hash under key, none when the key, a hash or the field is missing. */
  function FieldOpt(st: Store, key: string, field: string): Option<int> {
    if key in st.data && st.data[key].Hash? && field in st.data[key].fields then Some(st.data[key].fields[field]) else None
  }

  /** st2 agrees with st on every other key, on every other field of key, and on every expiry. */
  ghost predicate OnlyField(st: Store, st2: Store, key: string, field: string) {
    && st2.ttl == st.ttl
    && (forall k :: k != key ==> (k in st2.data <==> k in st.data))
    && (forall k :: k != key && k in st.data ==> st2.data[k] == st.data[k])
    && (forall f :: f != field ==> FieldOpt(st2, key, f) == FieldOpt(st, key, f))
  }

  /**
   * HINCRBY: adds to the field, creating key and field; WRONGTYPE on a
   * string, an error when the stored value or the sum is not an int64.
   * Nothing but the one field changes.
   */
  function HIncrBy(st: Store, key: string, field: string, inc: int): (r: Result<(Store, int), RedisError>)
    ensures key in st.data && st.data[key].Str? ==> r == Err(WrongType)
    ensures !(key in st.data && st.data[key].Str?) && !(INT64_MIN <= FieldValue(st, key, field) <= INT64_MAX) ==>
      r == Err(NotAnInteger)
    ensures (&& !(key in st.data && st.data[key].Str?)
             && INT64_MIN <= FieldValue(st, key, field) <= INT64_MAX
             && !(INT64_MIN <= FieldValue(st, key, field) + inc <= INT64_MAX)) ==> r == Err(IncrementOverflow)
    ensures r.Ok? ==> r.value.1 == FieldValue(st, key, field) + inc && INT64_MIN <= r.value.1 <= INT64_MAX
    ensures r.Ok? ==> INT64_MIN <= FieldValue(st, key, field) <= INT64_MAX
    ensures r.Ok? ==> key in r.value.0.data && r.value.0.data[key].Hash? && FieldValue(r.value.0, key, field) == r.value.1
    ensures r.Ok? ==> field in r.value.0.data[key].fields && OnlyField(st, r.value.0, key, field)
    ensures !(key in st.data && st.data[key].Str?) ==>
      (r.Err? <==> !(INT64_MIN <= FieldValue(st, key, field) <= INT64_MAX && INT64_MIN <= FieldValue(st, key, field) + inc <= INT64_MAX))
  {
    if key in st.data && st.data[key].Str? then Err(WrongType)
    else if !(INT64_MIN <= FieldValue(st, key, field) <= INT64_MAX) then Err(NotAnInteger)
    else
      var h := if key in st.data then st.data[key].fields else map[];
      var v := FieldValue(st, key, field) + inc;
      if !(INT64_MIN <= v <= INT64_MAX) then Err(IncrementOverflow)
      else Ok((st.(data := st.data[key := Hash(h[field := v])]), v))
  }

  // ----------------------------------------------------------------- scripts

  /**
   * hashSafelyDecrScript: HINCRBY the field; when the result is negative,
   * HINCRBY it back and still return the negative result.
   */
  function RunHashSafelyDecr(st: Store, keys: seq<string>, args: seq<string>): (r: (Reply, Store))
    ensures |keys| >= 2 && |args| >= 1 && ParseInt64(args[0]).Some? && HIncrBy(st, keys[0], keys[1], ParseInt64(args[0]).value).Ok? ==>
      var inc := ParseInt64(args[0]).value;
      var v := FieldValue(st, keys[0], keys[1]) + inc;
      r.0 == (if v < 0 && inc == INT64_MIN then ErrorReply(NotAnInteger) else IntReply(v)) &&
      keys[0] in r.1.data && r.1.data[keys[0]].Hash? &&
      FieldValue(r.1, keys[0], keys[1]) == (if v < 0 && inc != INT64_MIN then FieldValue(st, keys[0], keys[1]) else v)
    ensures |keys| < 2 || |args| < 1 ==> r == (ErrorReply(ArgumentCount), st)
    ensures |keys| >= 2 && |args| >= 1 && ParseInt64(args[0]).None? ==> r == (ErrorReply(NotAnInteger), st)
    ensures |keys| >= 2 && |args| >= 1 && ParseInt64(args[0]).Some? && HIncrBy(st, keys[0], keys[1], ParseInt64(args[0]).value).Err? ==>
      r == (ErrorReply(HIncrBy(st, keys[0], keys[1], ParseInt64(args[0]).value).error), st)
    ensures |keys| >= 2 ==> OnlyField(st, r.1, keys[0], keys[1])
  {
    if |keys| < 2 || |args| < 1 then (ErrorReply(ArgumentCount), st)
    else match ParseInt64(args[0])
      case None => (ErrorReply(NotAnInteger), st)
      case Some(inc) =>
        match HIncrBy(st, keys[0], keys[1], inc)
        case Err(e) => (ErrorReply(e), st)
        case Ok((st1, v)) =>
          if v >= 0 then (IntReply(v), st1)
          else if -inc > INT64_MAX then (ErrorReply(NotAnInteger), st1)
          else match HIncrBy(st1, keys[0], keys[1], -inc)
            case Err(e) => (ErrorReply(e), st1)
            case Ok((st2, _)) => (IntReply(v), st2)
  }

  /** getDelScript: GET the key; when it has a value, DEL it and return the value, else nil. */
  function RunGetDel(st: Store, keys: seq<string>): (r: (Reply, Store))
    ensures |keys| >= 1 && keys[0] in st.data && st.data[keys[0]].Str? ==>
      r == (BulkReply(st.data[keys[0]].s), Del(st, keys[0]))
    ensures |keys| >= 1 && keys[0] !in st.data ==> r == (NilReply, st)
    ensures r.1 != st ==> |keys| >= 1 && r.1 == Del(st, keys[0])
  {
    if |keys| < 1 then (ErrorReply(ArgumentCount), st)
    else match Get(st, keys[0])
      case Err(e) => (ErrorReply(e), st)
      case Ok(None) => (NilReply, st)
      case Ok(Some(v)) => (BulkReply(v), Del(st, keys[0]))
  }

  /** Whether the key holds exactly the string v. */
  predicate Holds(st: Store, key: string, v: string) {
    key in st.data && st.data[key] == Str(v)
  }

  /** delScript: DEL the key only when it holds the given value; 1 then, 0 otherwise. */
  function RunCmpDel(st: Store, keys: seq<string>, args: seq<string>): (r: (Reply, Store))
    ensures |keys| >= 1 && |args| >= 1 && Holds(st, keys[0], args[0]) ==> r == (IntReply(1), Del(st, keys[0]))
    ensures |keys| >= 1 && |args| >= 1 && !Holds(st, keys[0], args[0]) ==> r.1 == st
    ensures |keys| >= 1 && |args| >= 1 && !Holds(st, keys[0], args[0]) && Get(st, keys[0]).Ok? ==> r.0 == IntReply(0)
  {
    if |keys| < 1 || |args| < 1 then (ErrorReply(ArgumentCount), st)
    else match Get(st, keys[0])
      case Err(e) => (ErrorReply(e), st)
      case Ok(v) => if v == Some(args[0]) then (IntReply(1), Del(st, keys[0])) else (IntReply(0), st)
  }

  /**
   * refreshScript: PEXPIRE the key only when it holds the given value; a
   * time-to-live that is not positive deletes the key.
   */
  function RunCmpRefresh(st: Store, keys: seq<string>, args: seq<string>): (r: (Reply, Store))
    ensures |keys| >= 1 && |args| >= 2 && Holds(st, keys[0], args[0]) && ParseInt64(args[1]).Some? ==>
      var ms := ParseInt64(args[1]).value;
      r == (IntReply(1), if ms <= 0 then Del(st, keys[0]) else st.(ttl := st.ttl[keys[0] := ms]))
    ensures |keys| >= 1 && |args| >= 2 && !Holds(st, keys[0], args[0]) ==> r.1 == st
    ensures r.1.data != st.data ==> |keys| >= 1 && r.1 == Del(st, keys[0])
  {
    if |keys| < 1 || |args| < 2 then (ErrorReply(ArgumentCount), st)
    else match Get(st, keys[0])
      case Err(e) => (ErrorReply(e), st)
      case Ok(v) =>
        if v != Some(args[0]) then (IntReply(0), st)
        else match ParseInt64(args[1])
          case None => (ErrorReply(NotAnInteger), st)
          case Some(ms) => if ms <= 0 then (IntReply(1), Del(st, keys[0])) else (IntReply(1), st.(ttl := st.ttl[keys[0] := ms]))
  }

  /** SET: the new string, with any time-to-live dropped. */
  function Set(st: Store, key: string, v: string): (r: Store)
    ensures Holds(r, key, v) && key !in r.ttl
  {
    Store(st.data[key := Str(v)], st.ttl - {key})
  }

  /**
   * cmpSetScript: SET the new value only when the key holds the old one.
   * The script returns SET's own status reply, "OK".
   */
  function RunCmpSet(st: Store, keys: seq<string>, args: seq<string>): (r: (Reply, Store))
    ensures |keys| >= 1 && |args| >= 2 && Holds(st, keys[0], args[0]) ==> r == (StatusReply("OK"), Set(st, keys[0], args[1]))
    ensures |keys| >= 1 && |args| >= 2 && !Holds(st, keys[0], args[0]) ==> r.1 == st
    ensures |keys| >= 1 && |args| >= 2 && !Holds(st, keys[0], args[0]) && Get(st, keys[0]).Ok? ==> r.0 == IntReply(0)
  {
    if |keys| < 1 || |args| < 2 then (ErrorReply(ArgumentCount), st)
    else match Get(st, keys[0])
      case Err(e) => (ErrorReply(e), st)
      case Ok(v) => if v == Some(args[0]) then (StatusReply("OK"), Set(st, keys[0], args[1])) else (IntReply(0), st)
  }

  /** The corrected cmpSet script: the same compare-and-set, answering 1 after the SET. */
  function RunCmpSetCounted(st: Store, keys: seq<string>, args: seq<string>): (r: (Reply, Store))
    ensures |keys| >= 1 && |args| >= 2 && Holds(st, keys[0], args[0]) ==> r == (IntReply(1), Set(st, keys[0], args[1]))
    ensures r.1 == RunCmpSet(st, keys, args).1
  {
    var (rep, st1) := RunCmpSet(st, keys, args);
    (if rep == StatusReply("OK") then IntReply(1) else rep, st1)
  }

  /** Running a script on the store: its reply and the store afterwards. */
  function Run(s: Script, st: Store, keys: seq<string>, args: seq<string>): (Reply, Store) {
    match s
    case HashSafelyDecrScript => RunHashSafelyDecr(st, keys, args)
    case GetDelScript => RunGetDel(st, keys)
    case DelScript => RunCmpDel(st, keys, args)
    case RefreshScript => RunCmpRefresh(st, keys, args)
    case CmpSetScript => RunCmpSet(st, keys, args)
    case CmpSetScriptCounted => RunCmpSetCounted(st, keys, args)
  }

  /**
   * go-redis Cmd.Int / Cmd.Int64: an integer reply as is, a string reply
   * through strconv, nil as redis.Nil, an error reply as its error.
   */
  function ToInt(rep: Reply): (r: Result<int, RedisError>)
    ensures rep.IntReply? ==> r == Ok(rep.i)
    ensures rep.NilReply? ==> r == Err(RedisNil)
    ensures rep.ErrorReply? ==> r == Err(rep.e)
    ensures rep.StatusReply? ==> (r.Ok? <==> ParseInt64(rep.status).Some?)
    ensures rep.BulkReply? ==> (r.Ok? <==> ParseInt64(rep.s).Some?)
  {
    match rep
    case IntReply(i) => Ok(i)
    case NilReply => Err(RedisNil)
    case ErrorReply(e) => Err(e)
    case BulkReply(s) => if ParseInt64(s).Some? then Ok(ParseInt64(s).value) else Err(ConversionError(s))
    case StatusReply(s) => if ParseInt64(s).Some? then Ok(ParseInt64(s).value) else Err(ConversionError(s))
  }

  /** "OK" is not a number, so a status reply of SET never converts. */
  lemma {:induction false} OKIsNotAnInt()
    ensures ToInt(StatusReply("OK")) == Err(ConversionError("OK"))
  {
    assert !IsDigit("OK"[0]);
    assert !AllDigits("OK");
  }
}
