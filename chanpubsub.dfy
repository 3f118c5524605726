/**
 * pkg/chanpubsub/broker.go: the broker's bookkeeping of publishers,
 * subscriber channels and subscription counts per topic. A channel is an
 * object with the values queued in it and whether it was closed; the
 * delivery goroutine and the locks are not modelled.
 */
module ChanPubSub {
  import opened Wrappers

  class Chan<U> {
    var queue: seq<U>
    var closed: bool

    constructor ()
      ensures queue == [] && !closed
    {
      queue := [];
      closed := false;
    }
  }

  /** The key of a subscription: its own channel, or the channel name it shares. */
  datatype SubKey<U> = Anonymous(ch: Chan<U>) | Named(name: string)

  type Subscribers<U> = map<string, map<SubKey<U>, Chan<U>>>
  type Counters<U> = map<string, map<SubKey<U>, int>>

  /**
   * subscribers and counts have the same topics and, per topic, the same
   * keys; every count is positive; an anonymous key holds its own channel.
   */
  ghost predicate Aligned<U>(subs: Subscribers<U>, cnts: Counters<U>) {
    && subs.Keys == cnts.Keys
    && (forall t :: t in subs ==> subs[t].Keys == cnts[t].Keys)
    && (forall t, k :: t in cnts && k in cnts[t] ==> cnts[t][k] >= 1)
    && (forall t, k :: t in subs && k in subs[t] && k.Anonymous? ==> subs[t][k] == k.ch)
  }

  function SubsOf<U>(subs: Subscribers<U>, topic: string): map<SubKey<U>, Chan<U>> {
    if topic in subs then subs[topic] else map[]
  }

  function CountsOf<U>(cnts: Counters<U>, topic: string): map<SubKey<U>, int> {
    if topic in cnts then cnts[topic] else map[]
  }

  /** Recording a key with a positive count keeps the maps aligned. */
  lemma AlignedPut<U>(subs: Subscribers<U>, cnts: Counters<U>, topic: string, key: SubKey<U>, ch: Chan<U>, n: int)
    requires Aligned(subs, cnts)
    requires n >= 1
    requires key.Anonymous? ==> ch == key.ch
    ensures Aligned(subs[topic := SubsOf(subs, topic)[key := ch]], cnts[topic := CountsOf(cnts, topic)[key := n]])
  {
  }

  /** Changing the positive count of a recorded key keeps the maps aligned. */
  lemma AlignedRecount<U>(subs: Subscribers<U>, cnts: Counters<U>, topic: string, key: SubKey<U>, n: int)
    requires Aligned(subs, cnts)
    requires key in SubsOf(subs, topic)
    requires n >= 1
    ensures Aligned(subs, cnts[topic := CountsOf(cnts, topic)[key := n]])
  {
  }

  /** Forgetting a key keeps the maps aligned. */
  lemma AlignedDrop<U>(subs: Subscribers<U>, cnts: Counters<U>, topic: string, key: SubKey<U>)
    requires Aligned(subs, cnts)
    requires topic in subs
    ensures Aligned(subs[topic := subs[topic] - {key}], cnts[topic := cnts[topic] - {key}])
  {
  }

  class Broker<U> {
    var publishers: map<string, Chan<U>>
    var subscribers: map<string, map<SubKey<U>, Chan<U>>>
    var counts: map<string, map<SubKey<U>, int>>

    ghost predicate Valid()
      reads this
    {
      Aligned(subscribers, counts)
    }

    function Subs(topic: string): map<SubKey<U>, Chan<U>>
      reads this
    {
      SubsOf(subscribers, topic)
    }

    function Counts(topic: string): map<SubKey<U>, int>
      reads this
    {
      CountsOf(counts, topic)
    }

    /** NewBroker. */
    constructor ()
      ensures Valid()
      ensures publishers == map[] && subscribers == map[] && counts == map[]
    {
      publishers := map[];
      subscribers := map[];
      counts := map[];
    }

    /** Topic: the topic's publisher, created and recorded when there is none. */
    method Topic(topic: string) returns (ch: Chan<U>)
      modifies this
      ensures topic in old(publishers) ==> ch == old(publishers)[topic] && publishers == old(publishers)
      ensures topic !in old(publishers) ==> fresh(ch) && ch.queue == [] && !ch.closed && publishers == old(publishers)[topic := ch]
      ensures subscribers == old(subscribers) && counts == old(counts)
    {
      if topic in publishers {
        return publishers[topic];
      }
      ch := new Chan();
      publishers := publishers[topic := ch];
    }

    /** The channel a named subscription already has, if any. */
    function Existing(topic: string, channel: string): set<Chan<U>>
      reads this
    {
      if Named(channel) in Subs(topic) then {Subs(topic)[Named(channel)]} else {}
    }

    /**
     * Subscribe: with no channel name a fresh channel of its own, counted
     * once; a named channel that exists is shared and its count goes up;
     * a new named channel starts at one. The first message, when given,
     * is queued on the returned channel. The key returned is what the
     * cancel function unsubscribes.
     */
    method Subscribe(topic: string, channel: string, message: Option<U>) returns (updates: Chan<U>, key: SubKey<U>)
      requires Valid()
      modifies this, Existing(topic, channel)
      ensures Valid()
      ensures publishers == old(publishers)
      ensures channel == "" ==> key == Anonymous(updates)
      ensures channel != "" ==> key == Named(channel)
      ensures key in old(Subs(topic)) ==> (updates == old(Subs(topic))[key]
        && subscribers == old(subscribers)
        && counts == old(counts)[topic := old(Counts(topic))[key := old(Counts(topic))[key] + 1]])
      ensures key !in old(Subs(topic)) ==> (fresh(updates) && !updates.closed
        && subscribers == old(subscribers)[topic := old(Subs(topic))[key := updates]]
        && counts == old(counts)[topic := old(Counts(topic))[key := 1]])
      ensures updates.queue == old(if updates in Existing(topic, channel) then updates.queue else []) + (if message.Some? then [message.value] else [])
    {
      var subs := Subs(topic);
      var cnts := Counts(topic);
      if channel == "" {
        updates := new Chan();
        key := Anonymous(updates);
        AlignedPut(subscribers, counts, topic, key, updates, 1);
        subscribers := subscribers[topic := subs[key := updates]];
        counts := counts[topic := cnts[key := 1]];
      } else if Named(channel) in subs {
        key := Named(channel);
        updates := subs[key];
        AlignedRecount(subscribers, counts, topic, key, cnts[key] + 1);
        counts := counts[topic := cnts[key := cnts[key] + 1]];
      } else {
        updates := new Chan();
        key := Named(channel);
        AlignedPut(subscribers, counts, topic, key, updates, 1);
        subscribers := subscribers[topic := subs[key := updates]];
        counts := counts[topic := cnts[key := 1]];
      }
      if message.Some? {
        updates.queue := updates.queue + [message.value];
      }
    }

    /** The channel an unsubscribe may close. */
    function Target(topic: string, key: SubKey<U>): set<Chan<U>>
      reads this
    {
      if key in Subs(topic) then {Subs(topic)[key]} else {}
    }

    /**
     * unsubscribe: the count goes down; at zero the channel is closed and
     * the key leaves both maps. An unknown topic or key changes nothing.
     */
    method Unsubscribe(topic: string, key: SubKey<U>)
      requires Valid()
      modifies this, Target(topic, key)
      ensures Valid()
      ensures publishers == old(publishers)
      ensures key !in old(Subs(topic)) ==> subscribers == old(subscribers) && counts == old(counts)
      ensures key in old(Subs(topic)) && old(Counts(topic))[key] > 1 ==>
        subscribers == old(subscribers) && counts == old(counts)[topic := old(Counts(topic))[key := old(Counts(topic))[key] - 1]]
        && old(Subs(topic))[key].closed == old(Subs(topic)[key].closed)
      ensures key in old(Subs(topic)) && old(Counts(topic))[key] == 1 ==>
        old(Subs(topic))[key].closed
        && subscribers == old(subscribers)[topic := old(Subs(topic)) - {key}]
        && counts == old(counts)[topic := old(Counts(topic)) - {key}]
    ensures forall ch :: ch in old(Target(topic, key)) ==> ch.queue == old(ch.queue)
    {
      if topic in subscribers {
        if key in subscribers[topic] {
          var cnts := counts[topic];
          var n := cnts[key] - 1;
          if n == 0 {
            var ch := subscribers[topic][key];
            ch.closed := true;
            AlignedDrop(subscribers, counts, topic, key);
            subscribers := subscribers[topic := subscribers[topic] - {key}];
            counts := counts[topic := cnts - {key}];
          } else {
            AlignedRecount(subscribers, counts, topic, key, n);
            counts := counts[topic := cnts[key := n]];
          }
        }
      }
    }

    /** The channels removeTopic closes. */
    function TopicChans(topic: string): set<Chan<U>>
      reads this
    {
      Subs(topic).Values
    }

    /**
     * removeTopic: every subscriber channel of the topic is closed and the
     * topic leaves the subscribers, the counts and the publishers.
     */
    method RemoveTopic(topic: string)
      requires Valid()
      modifies this, TopicChans(topic)
      ensures Valid()
      ensures forall ch :: ch in old(TopicChans(topic)) ==> ch.closed
      ensures forall ch :: ch in old(TopicChans(topic)) ==> ch.queue == old(ch.queue)
      ensures subscribers == old(subscribers) - {topic}
      ensures counts == old(counts) - {topic}
      ensures publishers == old(publishers) - {topic}
    {
      var remaining := TopicChans(topic);
      ghost var all := remaining;
      while remaining != {}
        invariant remaining <= all
        invariant forall ch :: ch in all - remaining ==> ch.closed
        invariant forall ch :: ch in all ==> ch.queue == old(ch.queue)
        invariant subscribers == old(subscribers) && counts == old(counts) && publishers == old(publishers)
        modifies all
        decreases remaining
      {
        var ch :| ch in remaining;
        ch.closed := true;
        remaining := remaining - {ch};
      }
      subscribers := subscribers - {topic};
      counts := counts - {topic};
      publishers := publishers - {topic};
    }
  }
}
