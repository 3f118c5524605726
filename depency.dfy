/**
 * app/depency/depency.go: the allow-list of which resources a module may
 * use, kept as module -> kind -> set of names, and the package-level
 * configuration it is read from.
 */
module Depency {
  import opened Text

  type Allows = map<string, map<string, set<string>>>

  /** Whether the allow-list grants (moduleName, kind, name). */
  predicate AllowIn(allows: Allows, moduleName: string, kind: string, name: string) {
    moduleName in allows && kind in allows[moduleName] && name in allows[moduleName][kind]
  }

  /**
   * strings.SplitN(rule, ":", 2) read as (kind, name): split at the first
   * ":", and a rule without ":" is a kind with the empty name.
   */
  function SplitRule(rule: string): (r: (string, string))
    ensures ':' in rule ==> r.0 + ":" + r.1 == rule && ':' !in r.0
    ensures ':' !in rule ==> r == (rule, "")
  {
    var (kind, name, found) := Cut(rule, ':');
    if found then (kind, name) else (rule, "")
  }

  /** The moduleName's entry, added empty when absent. */
  function EnsureModule(allows: Allows, moduleName: string): (r: Allows)
    ensures moduleName in r
    ensures forall m, k, n :: AllowIn(r, m, k, n) <==> AllowIn(allows, m, k, n)
  {
    if moduleName in allows then allows else allows[moduleName := map[]]
  }

  /** One rule's grant added to a module already present. */
  function Grant(allows: Allows, moduleName: string, rule: string): (r: Allows)
    requires moduleName in allows
    ensures moduleName in r
    ensures forall m, k, n :: AllowIn(r, m, k, n) <==> AllowIn(allows, m, k, n) || (m == moduleName && (k, n) == SplitRule(rule))
  {
    var (kind, name) := SplitRule(rule);
    var inner := allows[moduleName];
    var names := if kind in inner then inner[kind] else {};
    allows[moduleName := inner[kind := names + {name}]]
  }

  /** The allow-list after the rules one by one, in order. */
  function Granted(allows: Allows, moduleName: string, rules: seq<string>): (r: Allows)
    ensures moduleName in r
  {
    if rules == [] then EnsureModule(allows, moduleName)
    else Grant(Granted(allows, moduleName, rules[..|rules| - 1]), moduleName, rules[|rules| - 1])
  }

  /**
   * After SetModuleConfig(moduleName, rules) exactly the earlier grants and
   * the grant of each rule hold.
   */
  lemma {:induction false} GrantedIff(allows: Allows, moduleName: string, rules: seq<string>, m: string, k: string, n: string)
    ensures AllowIn(Granted(allows, moduleName, rules), m, k, n) <==>
      AllowIn(allows, m, k, n) || (m == moduleName && exists i :: 0 <= i < |rules| && SplitRule(rules[i]) == (k, n))
  {
    if rules != [] {
      var front := rules[..|rules| - 1];
      GrantedIff(allows, moduleName, front, m, k, n);
      if m == moduleName && (exists i :: 0 <= i < |rules| && SplitRule(rules[i]) == (k, n)) {
        var i :| 0 <= i < |rules| && SplitRule(rules[i]) == (k, n);
        if i < |rules| - 1 {
          assert front[i] == rules[i];
        }
      }
      if exists i :: 0 <= i < |front| && SplitRule(front[i]) == (k, n) {
        var i :| 0 <= i < |front| && SplitRule(front[i]) == (k, n);
        assert rules[i] == front[i];
      }
    }
  }

  /** A rule "kind:name" grants (kind, name); a rule without ":" grants (rule, ""). */
  lemma RuleGranted(allows: Allows, moduleName: string, rules: seq<string>, i: nat)
    requires i < |rules|
    ensures ':' in rules[i] ==> exists name :: AllowIn(Granted(allows, moduleName, rules), moduleName, SplitRule(rules[i]).0, name) && SplitRule(rules[i]).0 + ":" + name == rules[i]
    ensures ':' !in rules[i] ==> AllowIn(Granted(allows, moduleName, rules), moduleName, rules[i], "")
  {
    GrantedIff(allows, moduleName, rules, moduleName, SplitRule(rules[i]).0, SplitRule(rules[i]).1);
  }

  class Config {
    var allows: Allows

    constructor (allows: Allows)
      ensures this.allows == allows
    {
      this.allows := allows;
    }

    /** Config.Allow: false for an unknown module or kind, else whether the name was granted. */
    predicate Allow(moduleName: string, kind: string, name: string)
      reads this
    {
      AllowIn(allows, moduleName, kind, name)
    }

    /**
     * One rule added to a module already present, as the loop of
     * SetModuleConfig does it.
     */
    method AddRule(moduleName: string, rule: string)
      requires moduleName in allows
      modifies this
      ensures allows == Grant(old(allows), moduleName, rule)
    {
      var r := SplitN2(rule);
      var kind := r[0];
      var name := "";
      if |r| == 2 {
        name := r[1];
      }
      assert (kind, name) == SplitRule(rule);
      if kind !in allows[moduleName] {
        allows := allows[moduleName := allows[moduleName][kind := {}]];
      }
      ghost var names := if kind in old(allows)[moduleName] then old(allows)[moduleName][kind] else {};
      assert allows[moduleName][kind] == names;
      assert allows[moduleName][kind := names + {name}] == old(allows)[moduleName][kind := names + {name}];
      allows := allows[moduleName := allows[moduleName][kind := allows[moduleName][kind] + {name}]];
    }
  }

  /** strings.SplitN(s, ":", 2): the text before the first ":" and the rest, or s alone. */
  function SplitN2(s: string): (r: seq<string>)
    ensures |r| == 1 || |r| == 2
    ensures |r| == 2 <==> ':' in s
    ensures (r[0], if |r| == 2 then r[1] else "") == SplitRule(s)
  {
    var (before, after, found) := Cut(s, ':');
    if found then [before, after] else [s]
  }

  /** The package-level configuration, held by reference. */
  class Package {
    var config: Config

    constructor ()
      ensures fresh(config) && config.allows == map[]
    {
      config := new Config(map[]);
    }

    /** SetConfig: later reads go to the given configuration. */
    method SetConfig(c: Config)
      modifies this
      ensures config == c
    {
      config := c;
    }

    /** SetModuleConfig: adds the moduleName, then each rule's grant in order. */
    method SetModuleConfig(moduleName: string, rules: seq<string>)
      modifies config
      ensures config.allows == Granted(old(config.allows), moduleName, rules)
    {
      var start := config.allows;
      if moduleName !in config.allows {
        config.allows := config.allows[moduleName := map[]];
      }
      var i := 0;
      while i < |rules|
        invariant 0 <= i <= |rules|
        invariant config.allows == Granted(start, moduleName, rules[..i])
      {
        assert rules[..i + 1][..i] == rules[..i];
        config.AddRule(moduleName, rules[i]);
        i := i + 1;
      }
      assert rules[..i] == rules;
    }

    /** The package-level Allow asks the installed configuration. */
    predicate Allow(moduleName: string, kind: string, name: string)
      reads this, config
    {
      config.Allow(moduleName, kind, name)
    }
  }
}
