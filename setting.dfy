/**
 * runtime/setting.go: the process-wide namespace and the service entry
 * this process registers, with their setters and getters. The package
 * variables are the fields of one Settings object.
 */
module Settings {
  import opened Wrappers
  import opened Text
  import opened Component

  const HostNameKey := "hostname"
  const DefaultNamespace := "default"

  /** One key/value pair of the build information's settings. */
  datatype BuildSetting = BuildSetting(key: string, value: string)

  /** The value of the first setting with the key, or "" when there is none. */
  function SettingOf(settings: seq<BuildSetting>, key: string): (r: string)
    ensures (forall i :: 0 <= i < |settings| ==> settings[i].key != key) ==> r == ""
    ensures forall i :: 0 <= i < |settings| && settings[i].key == key && (forall j :: 0 <= j < i ==> settings[j].key != key) ==>
      r == settings[i].value
  {
    if |settings| == 0 then ""
    else if settings[0].key == key then settings[0].value
    else SettingOf(settings[1..], key)
  }

  /**
   * getSettingFromDebugInfo: the value of the first setting with the key,
   * or "" when there is none.
   */
  method GetSettingFromDebugInfo(settings: seq<BuildSetting>, key: string) returns (r: string)
    ensures r == SettingOf(settings, key)
  {
    var i := 0;
    while i < |settings|
      invariant 0 <= i <= |settings|
      invariant SettingOf(settings, key) == SettingOf(settings[i..], key)
    {
      assert settings[i..][1..] == settings[i + 1..];
      if settings[i].key == key {
        return settings[i].value;
      }
      i := i + 1;
    }
    return "";
  }

  /** execname: the executable's base name, lower-cased, without a ".exe" suffix. */
  function ExecName(exeBase: string): (r: string)
    ensures HasSuffix(ToLower(exeBase), ".exe") ==> r + ".exe" == ToLower(exeBase)
    ensures !HasSuffix(ToLower(exeBase), ".exe") ==> r == ToLower(exeBase)
  {
    TrimSuffix(ToLower(exeBase), ".exe")
  }

  class Settings {
    var namespace: string
    var serviceEntry: ServiceEntry

    /** Once set, the namespace is never empty again. */
    predicate Valid()
      reads this
    {
      namespace != ""
    }

    /**
     * init: namespace "default", the executable's name as name and alias, a
     * fresh id, and the uptime, Go version, build and host metadata. What the
     * operating system and the clock provide are parameters; the build's
     * vcs.time is passed already converted to local time.
     */
    constructor (exeBase: string, id: string, uptime: string, goVersion: string,
                 buildSettings: Option<seq<BuildSetting>>, vcsTime: string, hostname: Option<string>, pid: int)
      ensures Valid() && namespace == DefaultNamespace
      ensures serviceEntry.name == ExecName(exeBase) && serviceEntry.alias == ExecName(exeBase)
      ensures serviceEntry.id == id && serviceEntry.version == "" && serviceEntry.endpoints == []
      ensures "uptime" in serviceEntry.metadata && serviceEntry.metadata["uptime"] == uptime
      ensures "go" in serviceEntry.metadata && serviceEntry.metadata["go"] == goVersion
      ensures "process" in serviceEntry.metadata && serviceEntry.metadata["process"] == FormatInt(pid)
      ensures serviceEntry.metadata.Keys ==
        {"uptime", "go", "process"}
        + (if buildSettings.Some? then {"vcs.revision", "vcs.time", "vcs.modified"} else {})
        + (if hostname.Some? then {HostNameKey} else {})
      ensures buildSettings.Some? ==>
        && serviceEntry.metadata["vcs.revision"] == SettingOf(buildSettings.value, "vcs.revision")
        && serviceEntry.metadata["vcs.time"] == vcsTime
        && serviceEntry.metadata["vcs.modified"] == SettingOf(buildSettings.value, "vcs.modified")
      ensures hostname.Some? ==> GetHostName() == hostname.value
      ensures hostname.None? ==> GetHostName() == ""
    {
      namespace := DefaultNamespace;
      var name := ExecName(exeBase);
      var md: map<string, string> := map["uptime" := uptime, "go" := goVersion];
      if buildSettings.Some? {
        var rev := GetSettingFromDebugInfo(buildSettings.value, "vcs.revision");
        var modified := GetSettingFromDebugInfo(buildSettings.value, "vcs.modified");
        md := md["vcs.revision" := rev]["vcs.time" := vcsTime]["vcs.modified" := modified];
      }
      if hostname.Some? {
        md := md[HostNameKey := hostname.value];
      }
      md := md["process" := FormatInt(pid)];
      serviceEntry := ServiceEntry(id, name, name, "", [], md);
    }

    /** SetNamespace: takes effect only while the namespace is still empty. */
    method SetNamespace(ns: string)
      modifies this`namespace
      ensures old(namespace) == "" ==> namespace == ns
      ensures old(namespace) != "" ==> namespace == old(namespace)
    {
      if namespace == "" {
        namespace := ns;
      }
    }

    /** GetNamespace: "default" while empty, else the namespace. */
    function GetNamespace(): (r: string)
      reads this
      ensures r != ""
      ensures namespace != "" ==> r == namespace
      ensures namespace == "" ==> r == DefaultNamespace
    {
      if namespace == "" then DefaultNamespace else namespace
    }

    /** AddServiceEndpoint: appends at the end, keeping the earlier endpoints. */
    method AddServiceEndpoint(endpoint: string)
      modifies this`serviceEntry
      ensures serviceEntry == old(serviceEntry).(endpoints := old(serviceEntry).endpoints + [endpoint])
    {
      serviceEntry := serviceEntry.(endpoints := serviceEntry.endpoints + [endpoint]);
    }

    method SetServiceID(id: string)
      modifies this`serviceEntry
      ensures serviceEntry == old(serviceEntry).(id := id)
    {
      serviceEntry := serviceEntry.(id := id);
    }

    method SetServiceName(name: string)
      modifies this`serviceEntry
      ensures serviceEntry == old(serviceEntry).(name := name)
    {
      serviceEntry := serviceEntry.(name := name);
    }

    method SetServiceAlias(alias: string)
      modifies this`serviceEntry
      ensures serviceEntry == old(serviceEntry).(alias := alias)
    {
      serviceEntry := serviceEntry.(alias := alias);
    }

    method SetServiceVersion(ver: string)
      modifies this`serviceEntry
      ensures serviceEntry == old(serviceEntry).(version := ver)
    {
      serviceEntry := serviceEntry.(version := ver);
    }

    /** SetServiceMetadata: overwrites the one key. */
    method SetServiceMetadata(k: string, v: string)
      modifies this`serviceEntry
      ensures serviceEntry == old(serviceEntry).(metadata := old(serviceEntry).metadata[k := v])
    {
      serviceEntry := serviceEntry.(metadata := serviceEntry.metadata[k := v]);
    }

    /** GetName: the alias. */
    function GetName(): string
      reads this
    {
      serviceEntry.alias
    }

    /** GetHostName: the "hostname" metadata, or "" when absent. */
    function GetHostName(): (r: string)
      reads this
      ensures HostNameKey in serviceEntry.metadata ==> r == serviceEntry.metadata[HostNameKey]
      ensures HostNameKey !in serviceEntry.metadata ==> r == ""
    {
      if HostNameKey in serviceEntry.metadata then serviceEntry.metadata[HostNameKey] else ""
    }
  }

  /**
   * After init the namespace is "default" for good: SetNamespace cannot
   * change it and the other setters do not touch it.
   */
  method NamespaceIsFirstWins(s: Settings, ns: string, ep: string)
    requires s.Valid()
    modifies s
    ensures s.GetNamespace() == old(s.GetNamespace())
    ensures s.serviceEntry.endpoints == old(s.serviceEntry.endpoints) + [ep]
    ensures s.serviceEntry.id == old(s.serviceEntry.id)
  {
    s.SetNamespace(ns);
    s.AddServiceEndpoint(ep);
  }
}
