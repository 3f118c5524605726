/**
 * driver/redis/redis.go, client side: the script helpers. Each keeps the
 * digest of its script once loaded; an evaluation that fails while using
 * a digest kept from before clears it and starts over once, loading the
 * script again. The network and the server are one Server object.
 */
module RedisClient {
  import opened Wrappers
  import opened Text
  import opened RedisStore

  /** What EVALSHA does on the server: NOSCRIPT for an unknown digest, else the script's run. */
  function Exec(up: bool, scripts: map<string, Script>, h: string, st: Store, keys: seq<string>, args: seq<string>): (r: (Reply, Store))
    ensures !up ==> r == (ErrorReply(ConnectionRefused), st)
    ensures up && h !in scripts ==> r == (ErrorReply(NoScript), st)
    ensures up && h in scripts ==> r == Run(scripts[h], st, keys, args)
  {
    if !up then (ErrorReply(ConnectionRefused), st)
    else if h !in scripts then (ErrorReply(NoScript), st)
    else Run(scripts[h], st, keys, args)
  }

  class Server {
    var store: Store
    var scripts: map<string, Script>
    const up: bool
    /** How many SCRIPT LOAD and EVALSHA requests were sent. */
    var loads: nat
    var evals: nat

    /** Every loaded script is kept under its own digest. */
    predicate Valid()
      reads this
    {
      forall h :: h in scripts ==> h == Digest(scripts[h])
    }

    constructor (store: Store, up: bool)
      ensures this.store == store && this.up == up && scripts == map[] && loads == 0 && evals == 0
      ensures Valid()
    {
      this.store := store;
      this.up := up;
      scripts := map[];
      loads := 0;
      evals := 0;
    }

    /** SCRIPT LOAD: the script's digest, or the connection error. */
    method ScriptLoad(s: Script) returns (r: Result<string, RedisError>)
      requires Valid()
      modifies this
      ensures Valid() && loads == old(loads) + 1 && evals == old(evals) && store == old(store)
      ensures !up ==> r == Err(ConnectionRefused) && scripts == old(scripts)
      ensures up ==> r == Ok(Digest(s)) && scripts == old(scripts)[Digest(s) := s]
    {
      loads := loads + 1;
      if !up {
        return Err(ConnectionRefused);
      }
      scripts := scripts[Digest(s) := s];
      return Ok(Digest(s));
    }

    /** EVALSHA: runs the script with that digest on the store. */
    method EvalSha(h: string, keys: seq<string>, args: seq<string>) returns (rep: Reply)
      modifies this
      ensures evals == old(evals) + 1 && loads == old(loads) && scripts == old(scripts)
      ensures (rep, store) == Exec(up, old(scripts), h, old(store), keys, args)
    {
      evals := evals + 1;
      var (r, st) := Exec(up, scripts, h, store, keys, args);
      rep := r;
      store := st;
    }
  }

  /**
   * The result and store one helper call leaves, from the digest kept
   * before the call (h0, "" when none).
   */
  function Outcome(up: bool, scripts: map<string, Script>, h0: string, st: Store, s: Script, keys: seq<string>, args: seq<string>): (Result<int, RedisError>, Store) {
    if h0 == "" then
      if !up then (Err(ConnectionRefused), st)
      else var (rep, st1) := Run(s, st, keys, args); (ToInt(rep), st1)
    else
      var (rep1, st1) := Exec(up, scripts, h0, st, keys, args);
      if ToInt(rep1).Ok? then (ToInt(rep1), st1)
      else if !up then (Err(ConnectionRefused), st1)
      else var (rep2, st2) := Run(s, st1, keys, args); (ToInt(rep2), st2)
  }

  /**
   * A digest the server has forgotten (NOSCRIPT) costs nothing: the
   * script then runs exactly once, on the store as it was.
   */
  lemma StaleDigestRunsOnce(scripts: map<string, Script>, h0: string, st: Store, s: Script, keys: seq<string>, args: seq<string>)
    requires h0 != "" && h0 !in scripts
    ensures Outcome(true, scripts, h0, st, s, keys, args) == (ToInt(Run(s, st, keys, args).0), Run(s, st, keys, args).1)
  {
  }

  /** With no digest kept, the script runs at most once and its error is the result. */
  lemma FreshLoadRunsOnce(scripts: map<string, Script>, st: Store, s: Script, keys: seq<string>, args: seq<string>)
    ensures Outcome(true, scripts, "", st, s, keys, args) == (ToInt(Run(s, st, keys, args).0), Run(s, st, keys, args).1)
    ensures Outcome(false, scripts, "", st, s, keys, args) == (Err(ConnectionRefused), st)
  {
  }

  /**
   * A valid kept digest whose reply converts: one run; a reply that does
   * not convert (as SET's "OK") runs the script a second time on the
   * store the first run left.
   */
  lemma {:induction false} ValidDigestRetriesOnConversionError(scripts: map<string, Script>, st: Store, s: Script, keys: seq<string>, args: seq<string>)
    requires Digest(s) in scripts && scripts[Digest(s)] == s
    ensures var (rep1, st1) := Run(s, st, keys, args);
      Outcome(true, scripts, Digest(s), st, s, keys, args) ==
        (if ToInt(rep1).Ok? then (ToInt(rep1), st1) else (ToInt(Run(s, st1, keys, args).0), Run(s, st1, keys, args).1))
  {
    assert Exec(true, scripts, Digest(s), st, keys, args) == Run(s, st, keys, args);
  }

  class Client {
    const server: Server
    /** The five cached digest fields, one per script; "" until loaded. */
    var cached: map<Script, string>

    predicate Valid()
      reads this, server
    {
      server.Valid() && forall s :: s in cached ==> cached[s] == "" || cached[s] == Digest(s)
    }

    function Cached(s: Script): string
      reads this
    {
      if s in cached then cached[s] else ""
    }

    constructor (server: Server)
      requires server.Valid()
      ensures this.server == server && cached == map[] && Valid()
    {
      this.server := server;
      cached := map[];
    }

    /** Loads the script when no digest is kept; answers whether it loaded now. */
    method EnsureLoaded(s: Script) returns (err: Option<RedisError>, reloaded: bool)
      requires Valid()
      modifies this, server
      ensures Valid() && server.evals == old(server.evals) && server.store == old(server.store)
      ensures reloaded <==> old(Cached(s)) == ""
      ensures reloaded ==> server.loads == old(server.loads) + 1
      ensures !reloaded ==> server.loads == old(server.loads) && cached == old(cached) && server.scripts == old(server.scripts)
      ensures reloaded && !server.up ==> err == Some(ConnectionRefused) && cached == old(cached) && server.scripts == old(server.scripts)
      ensures reloaded && server.up ==>
        err.None? && cached == old(cached)[s := Digest(s)] && server.scripts == old(server.scripts)[Digest(s) := s]
      ensures !reloaded ==> err.None?
    {
      reloaded := false;
      err := None;
      if Cached(s) == "" {
        reloaded := true;
        var h := server.ScriptLoad(s);
        if h.Err? {
          return Some(h.error), reloaded;
        }
        cached := cached[s := h.value];
      }
    }

    /**
     * The shared body of the five helpers: load when needed, EVALSHA,
     * convert; on an error with a digest kept from before, clear it and
     * go round once more.
     */
    method EvalScript(s: Script, keys: seq<string>, args: seq<string>) returns (r: Result<int, RedisError>)
      requires Valid()
      modifies this, server
      ensures Valid()
      ensures (r, server.store) == Outcome(server.up, old(server.scripts), old(Cached(s)), old(server.store), s, keys, args)
      ensures server.loads <= old(server.loads) + 1 && server.evals <= old(server.evals) + 2
      ensures old(Cached(s)) == "" ==> server.evals <= old(server.evals) + 1
    {
      var err, reloaded := EnsureLoaded(s);
      if err.Some? {
        return Err(err.value);
      }
      var rep := server.EvalSha(Cached(s), keys, args);
      if reloaded {
        assert server.scripts[Digest(s)] == s;
        return ToInt(rep);
      }
      if ToInt(rep).Ok? {
        return ToInt(rep);
      }
      cached := cached[s := ""];
      ghost var st1 := server.store;
      err, reloaded := EnsureLoaded(s);
      if err.Some? {
        return Err(err.value);
      }
      assert server.scripts[Digest(s)] == s;
      rep := server.EvalSha(Cached(s), keys, args);
      assert (rep, server.store) == Run(s, st1, keys, args);
      return ToInt(rep);
    }

    /** HashSafelyDecr: the hash script with (key, field) and the increment in decimal. */
    method HashSafelyDecr(key: string, field: string, increment: int) returns (r: Result<int, RedisError>)
      requires Valid() && INT64_MIN <= increment <= INT64_MAX
      modifies this, server
      ensures Valid()
      ensures (r, server.store) == Outcome(server.up, old(server.scripts), old(Cached(HashSafelyDecrScript)), old(server.store),
                                           HashSafelyDecrScript, [key, field], [FormatInt(increment)])
    {
      r := EvalScript(HashSafelyDecrScript, [key, field], [FormatInt(increment)]);
    }

    /** GetDel: the get-and-delete script on the key. */
    method GetDel(key: string) returns (r: Result<int, RedisError>)
      requires Valid()
      modifies this, server
      ensures Valid()
      ensures (r, server.store) == Outcome(server.up, old(server.scripts), old(Cached(GetDelScript)), old(server.store), GetDelScript, [key], [])
    {
      r := EvalScript(GetDelScript, [key], []);
    }

    /** CmpDel: the compare-and-delete script on the key and the expected value. */
    method CmpDel(key: string, v: string) returns (r: Result<int, RedisError>)
      requires Valid()
      modifies this, server
      ensures Valid()
      ensures (r, server.store) == Outcome(server.up, old(server.scripts), old(Cached(DelScript)), old(server.store), DelScript, [key], [v])
    {
      r := EvalScript(DelScript, [key], [v]);
    }

    /** CmpRefresh: the compare-and-expire script; the duration is given in milliseconds. */
    method CmpRefresh(key: string, v: string, durationMs: int) returns (r: Result<int, RedisError>)
      requires Valid()
      modifies this, server
      ensures Valid()
      ensures (r, server.store) == Outcome(server.up, old(server.scripts), old(Cached(RefreshScript)), old(server.store),
                                           RefreshScript, [key], [v, FormatInt(durationMs)])
    {
      r := EvalScript(RefreshScript, [key], [v, FormatInt(durationMs)]);
    }

    /** CmpSet as written: the compare-and-set script answering SET's status. */
    method CmpSet(key: string, oldV: string, v: string) returns (r: Result<int, RedisError>)
      requires Valid()
      modifies this, server
      ensures Valid()
      ensures (r, server.store) == Outcome(server.up, old(server.scripts), old(Cached(CmpSetScript)), old(server.store),
                                           CmpSetScript, [key], [oldV, v])
    {
      r := EvalScript(CmpSetScript, [key], [oldV, v]);
    }

    /** CmpSet with the corrected script that answers 1 after setting. */
    method CmpSetCounted(key: string, oldV: string, v: string) returns (r: Result<int, RedisError>)
      requires Valid()
      modifies this, server
      ensures Valid()
      ensures (r, server.store) == Outcome(server.up, old(server.scripts), old(Cached(CmpSetScriptCounted)), old(server.store),
                                           CmpSetScriptCounted, [key], [oldV, v])
    {
      r := EvalScript(CmpSetScriptCounted, [key], [oldV, v]);
    }
  }

  /**
   * hashSafelyDecr never leaves a non-negative field negative: with the
   * script loaded (or not yet loaded) and the server up, the answer is the
   * sum, and the field holds the sum when it is not negative and its old
   * value otherwise.
   */
  lemma {:induction false} SafelyDecrKeepsFieldNonNegative(scripts: map<string, Script>, h0: string, st: Store, key: string, field: string, inc: int)
    requires h0 == "" || (h0 in scripts && scripts[h0] == HashSafelyDecrScript)
    requires INT64_MIN < inc <= INT64_MAX
    requires !(key in st.data && st.data[key].Str?)
    requires 0 <= FieldValue(st, key, field) <= INT64_MAX && FieldValue(st, key, field) + inc <= INT64_MAX
    ensures var (r, st') := Outcome(true, scripts, h0, st, HashSafelyDecrScript, [key, field], [FormatInt(inc)]);
      && r == Ok(FieldValue(st, key, field) + inc)
      && FieldValue(st', key, field) == (if FieldValue(st, key, field) + inc < 0 then FieldValue(st, key, field) else FieldValue(st, key, field) + inc)
      && FieldValue(st', key, field) >= 0
  {
    ParseFormatInt(inc);
    var keys, args := [key, field], [FormatInt(inc)];
    assert HIncrBy(st, key, field, inc).Ok?;
    var (rep, st1) := RunHashSafelyDecr(st, keys, args);
    assert rep == IntReply(FieldValue(st, key, field) + inc);
    if h0 != "" {
      assert Exec(true, scripts, h0, st, keys, args) == (rep, st1);
    }
  }

  /**
   * CmpSet as written never answers 1 for a successful set: with a digest
   * kept from before it sets, fails to convert "OK", sets again (now a
   * mismatch) and answers 0; right after loading it answers the conversion
   * error. The corrected script answers 1 in both cases.
   */
  lemma {:induction false} CmpSetNeverAnswersOne(key: string, oldV: string, v: string, st: Store, scripts: map<string, Script>)
    requires Holds(st, key, oldV) && oldV != v
    requires Digest(CmpSetScript) in scripts && scripts[Digest(CmpSetScript)] == CmpSetScript
    requires Digest(CmpSetScriptCounted) in scripts && scripts[Digest(CmpSetScriptCounted)] == CmpSetScriptCounted
    ensures Outcome(true, scripts, Digest(CmpSetScript), st, CmpSetScript, [key], [oldV, v]) == (Ok(0), Set(st, key, v))
    ensures Outcome(true, scripts, "", st, CmpSetScript, [key], [oldV, v]) == (Err(ConversionError("OK")), Set(st, key, v))
    ensures Outcome(true, scripts, Digest(CmpSetScriptCounted), st, CmpSetScriptCounted, [key], [oldV, v]) == (Ok(1), Set(st, key, v))
    ensures Outcome(true, scripts, "", st, CmpSetScriptCounted, [key], [oldV, v]) == (Ok(1), Set(st, key, v))
  {
    OKIsNotAnInt();
    var keys, args := [key], [oldV, v];
    var st1 := Set(st, key, v);
    assert RunCmpSet(st, keys, args) == (StatusReply("OK"), st1);
    assert !Holds(st1, key, oldV);
    assert Get(st1, key).Ok?;
    assert RunCmpSet(st1, keys, args) == (IntReply(0), st1);
    assert Exec(true, scripts, Digest(CmpSetScript), st, keys, args) == (StatusReply("OK"), st1);
    assert Exec(true, scripts, Digest(CmpSetScriptCounted), st, keys, args) == (IntReply(1), st1);
  }
}
