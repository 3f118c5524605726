/**
 * app/resources/resources.go: the configured databases, Redis servers and
 * Kafka brokers, each looked up by name. The returned records are values,
 * so a caller changing one cannot change the configuration.
 */
module Resources {
  import opened Wrappers

  datatype DBConfig = DBConfig(name: string, driver: string, dataSourceName: string)
  datatype RedisConfig = RedisConfig(name: string, addr: string, username: string, password: string)
  datatype KafkaConfig = KafkaConfig(name: string, addr: string)

  datatype Config = Config(redis: seq<RedisConfig>, db: seq<DBConfig>, kafka: seq<KafkaConfig>)

  /**
   * The linear search the three getters share: the position of the first
   * item whose name is the one asked for, or none.
   */
  function FirstNamed<T>(items: seq<T>, nameOf: T -> string, name: string): (r: Option<nat>)
    ensures r.None? <==> forall i :: 0 <= i < |items| ==> nameOf(items[i]) != name
    ensures r.Some? ==> (r.value < |items| && nameOf(items[r.value]) == name &&
                         forall j :: 0 <= j < r.value ==> nameOf(items[j]) != name)
  {
    if items == [] then None
    else if nameOf(items[0]) == name then Some(0)
    else
      var rest := FirstNamed(items[1..], nameOf, name);
      assert forall i :: 1 <= i < |items| ==> items[i] == items[1..][i - 1];
      if rest.Some? then Some(rest.value + 1) else None
  }

  /** The item at the position found, if any. */
  function At<T>(items: seq<T>, i: Option<nat>): Option<T>
    requires i.Some? ==> i.value < |items|
  {
    if i.Some? then Some(items[i.value]) else None
  }

  function DBName(c: DBConfig): string { c.name }
  function RedisName(c: RedisConfig): string { c.name }
  function KafkaName(c: KafkaConfig): string { c.name }

  /** GetDBConfig: the first DB entry with the name, else nil. */
  function GetDBConfig(c: Config, name: string): (r: Option<DBConfig>)
    ensures r.None? <==> forall i :: 0 <= i < |c.db| ==> c.db[i].name != name
    ensures r.Some? ==> r.value.name == name
    ensures r.Some? ==> exists i :: (0 <= i < |c.db| && c.db[i] == r.value &&
                                     forall j :: 0 <= j < i ==> c.db[j].name != name)
  {
    At(c.db, FirstNamed(c.db, DBName, name))
  }

  /** GetRedisConfig: the first Redis entry with the name, else nil. */
  function GetRedisConfig(c: Config, name: string): (r: Option<RedisConfig>)
    ensures r.None? <==> forall i :: 0 <= i < |c.redis| ==> c.redis[i].name != name
    ensures r.Some? ==> r.value.name == name
    ensures r.Some? ==> exists i :: (0 <= i < |c.redis| && c.redis[i] == r.value &&
                                     forall j :: 0 <= j < i ==> c.redis[j].name != name)
  {
    At(c.redis, FirstNamed(c.redis, RedisName, name))
  }

  /** GetKafkaConfig: the first Kafka entry with the name, else nil. */
  function GetKafkaConfig(c: Config, name: string): (r: Option<KafkaConfig>)
    ensures r.None? <==> forall i :: 0 <= i < |c.kafka| ==> c.kafka[i].name != name
    ensures r.Some? ==> r.value.name == name
    ensures r.Some? ==> exists i :: (0 <= i < |c.kafka| && c.kafka[i] == r.value &&
                                     forall j :: 0 <= j < i ==> c.kafka[j].name != name)
  {
    At(c.kafka, FirstNamed(c.kafka, KafkaName, name))
  }
}
