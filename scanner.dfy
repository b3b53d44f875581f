/**
  RegistryAutoStartScanner (src/main.cpp:16-341): it scans the nine auto-start locations
  into a list of entries, and adds or removes one registry value. Each method is proved
  against a pure function of the registry state (ScanKey, ScanAll, AddEffect,
  RemoveEffect), and the properties of the scanner are lemmas about those functions.
 */
module AutoStart {
  import opened Optional
  import opened CommandLine
  import opened Registry
  import opened Locations

  datatype AutoStartEntry = AutoStartEntry(name: string, path: string, location: string, parameters: string)

  /** The root, subkey and display name one Scan* method passes to ScanRegistryKey. */
  datatype ScanTarget = ScanTarget(root: Root, subKey: string, location: string)

  /** The keys in the order ScanAllLocations visits them; their positions give removal its indices. */
  const ScanTargets: seq<ScanTarget> := [
    ScanTarget(CurrentUser, RunKey, HkcuRun),
    ScanTarget(LocalMachine, RunKey, HklmRun),
    ScanTarget(CurrentUser, RunOnceKey, HkcuRunOnce),
    ScanTarget(LocalMachine, RunOnceKey, HklmRunOnce),
    ScanTarget(LocalMachine, Wow64RunKey, HklmWow64Run),
    ScanTarget(CurrentUser, Wow64RunKey, HkcuWow64Run),
    ScanTarget(CurrentUser, ExplorerRunKey, HkcuExplorerRun),
    ScanTarget(CurrentUser, PoliciesRunKey, HkcuPoliciesRun),
    ScanTarget(LocalMachine, PoliciesRunKey, HklmPoliciesRun)
  ]

  function TargetKey(t: ScanTarget): KeyPath {
    KeyPath(t.root, t.subKey)
  }

  /** The entry the scanner makes of a string value found under `location`. */
  function EntryFor(v: RegValue, location: string, expand: Expander): AutoStartEntry {
    var c := ParseCommand(v.data, expand);
    AutoStartEntry(v.name, c.path, location, c.parameters)
  }

  /** One entry per string-typed value, in the order of the values. */
  function StringEntries(values: seq<RegValue>, location: string, expand: Expander): (r: seq<AutoStartEntry>)
    ensures |r| <= |values|
  {
    if values == [] then []
    else
      var last := values[|values| - 1];
      StringEntries(values[..|values| - 1], location, expand)
        + (if IsStringType(last.kind) then [EntryFor(last, location, expand)] else [])
  }

  /** Scanning one more value appends its entry, if it is a string. */
  lemma StringEntriesSnoc(values: seq<RegValue>, i: nat, location: string, expand: Expander)
    requires i < |values|
    ensures StringEntries(values[..i + 1], location, expand)
         == StringEntries(values[..i], location, expand)
            + (if IsStringType(values[i].kind) then [EntryFor(values[i], location, expand)] else [])
  {
    assert values[..i + 1][..i] == values[..i];
  }

  /** The position of the first unsuccessful RegEnumValueW at or after `i`. */
  function EnumLimit(values: seq<RegValue>, fault: Faults, key: KeyPath, i: nat): (n: nat)
    requires i <= |values|
    decreases |values| - i
    ensures i <= n <= |values|
    ensures forall j :: i <= j < n ==> EnumStatus(values, fault, key, j) == ERROR_SUCCESS
    ensures EnumStatus(values, fault, key, n) != ERROR_SUCCESS
  {
    if EnumStatus(values, fault, key, i) != ERROR_SUCCESS then i
    else EnumLimit(values, fault, key, i + 1)
  }

  /** What ScanRegistryKey appends for `key` under the name `location`. */
  function ScanKey(keys: Keys, fault: Faults, key: KeyPath, location: string, expand: Expander): (r: seq<AutoStartEntry>)
    ensures key !in keys ==> r == []
    ensures key in keys ==> |r| <= |keys[key]|
  {
    if OpenStatus(keys, fault, key, KeyRead) != ERROR_SUCCESS then []
    else
      var values := keys[key];
      StringEntries(values[..EnumLimit(values, fault, key, 0)], location, expand)
  }

  /** What one Scan* method appends. */
  function ScanTargetEntries(keys: Keys, fault: Faults, expand: Expander, t: ScanTarget): seq<AutoStartEntry> {
    ScanKey(keys, fault, TargetKey(t), t.location, expand)
  }

  /** What ScanAllLocations appends: the nine keys scanned in the order of ScanTargets. */
  function ScanAll(keys: Keys, fault: Faults, expand: Expander): (r: seq<AutoStartEntry>)
    ensures (forall k :: 0 <= k < |ScanTargets| ==> TargetKey(ScanTargets[k]) !in keys) ==> r == []
  {
    ScanTargetEntries(keys, fault, expand, ScanTargets[0]) + ScanTargetEntries(keys, fault, expand, ScanTargets[1])
      + ScanTargetEntries(keys, fault, expand, ScanTargets[2]) + ScanTargetEntries(keys, fault, expand, ScanTargets[3])
      + ScanTargetEntries(keys, fault, expand, ScanTargets[4]) + ScanTargetEntries(keys, fault, expand, ScanTargets[5])
      + ScanTargetEntries(keys, fault, expand, ScanTargets[6]) + ScanTargetEntries(keys, fault, expand, ScanTargets[7])
      + ScanTargetEntries(keys, fault, expand, ScanTargets[8])
  }

  lemma AppendAssoc<T>(a: seq<T>, b: seq<T>, c: seq<T>)
    ensures a + (b + c) == a + b + c
  {
  }

  /** Appending nine pieces at once is appending them one after the other. */
  lemma AppendNine<T>(p: seq<T>, x0: seq<T>, x1: seq<T>, x2: seq<T>, x3: seq<T>, x4: seq<T>, x5: seq<T>, x6: seq<T>, x7: seq<T>, x8: seq<T>)
    ensures p + (x0 + x1 + x2 + x3 + x4 + x5 + x6 + x7 + x8) == p + x0 + x1 + x2 + x3 + x4 + x5 + x6 + x7 + x8
  {
    AppendAssoc(p, x0 + x1 + x2 + x3 + x4 + x5 + x6 + x7, x8);
    AppendAssoc(p, x0 + x1 + x2 + x3 + x4 + x5 + x6, x7);
    AppendAssoc(p, x0 + x1 + x2 + x3 + x4 + x5, x6);
    AppendAssoc(p, x0 + x1 + x2 + x3 + x4, x5);
    AppendAssoc(p, x0 + x1 + x2 + x3, x4);
    AppendAssoc(p, x0 + x1 + x2, x3);
    AppendAssoc(p, x0 + x1, x2);
    AppendAssoc(p, x0, x1);
  }

  /** The outcome of AddEntry and the registry it leaves. */
  function AddEffect(keys: Keys, fault: Faults, location: string, name: string, path: string, parameters: string): (r: (bool, Keys))
    ensures ResolveLocation(location).None? ==> r == (false, keys)
    ensures r.0 ==> ResolveLocation(location).Some? && ResolveLocation(location).value in r.1
  {
    match ResolveLocation(location)
    case None => (false, keys)
    case Some(key) =>
      if OpenStatus(keys, fault, key, KeySetValue) != ERROR_SUCCESS && fault(CreateCall(key)) != ERROR_SUCCESS then
        (false, keys)
      else
        var current := if key in keys then keys else keys[key := []];
        if fault(SetCall(key, name)) != ERROR_SUCCESS then (false, current)
        else (true, current[key := Put(current[key], RegValue(name, RegSz, BuildCommand(path, parameters)))])
  }

  /** The outcome of RemoveEntry on the list `entries` and the registry it leaves. */
  function RemoveEffect(keys: Keys, fault: Faults, entries: seq<AutoStartEntry>, index: int): (r: (bool, Keys))
    ensures !r.0 ==> r.1 == keys
    ensures r.0 ==> 1 <= index <= |entries|
  {
    if index < 1 || index > |entries| then (false, keys)
    else
      var entry := entries[index - 1];
      match ResolveLocation(entry.location)
      case None => (false, keys)
      case Some(key) =>
        if OpenStatus(keys, fault, key, KeySetValue) != ERROR_SUCCESS then (false, keys)
        else if DeleteStatus(keys[key], fault, key, entry.name) != ERROR_SUCCESS then (false, keys)
        else (true, keys[key := Without(keys[key], entry.name)])
  }

  class RegistryAutoStartScanner {
    var entries: seq<AutoStartEntry>
    /** ExpandEnvironmentStringsW, as the environment of this process answers it. */
    const expand: Expander

    constructor (environment: Expander)
      ensures entries == [] && expand == environment
    {
      entries := [];
      expand := environment;
    }

    method ScanAllLocations(reg: RegistryStore)
      modifies this
      ensures entries == old(entries) + ScanAll(reg.keys, reg.fault, expand)
    {
      ghost var before, keys, fault := entries, reg.keys, reg.fault;
      ScanHKCURun(reg);
      ScanHKLMRun(reg);
      ScanHKCURunOnce(reg);
      ScanHKLMRunOnce(reg);
      ScanHKLMWow6432Run(reg);
      ScanHKCUWow6432Run(reg);
      ScanExplorerRun(reg);
      ScanPoliciesExplorerRun(reg);
      AppendNine(before,
        ScanTargetEntries(keys, fault, expand, ScanTargets[0]),
        ScanTargetEntries(keys, fault, expand, ScanTargets[1]),
        ScanTargetEntries(keys, fault, expand, ScanTargets[2]),
        ScanTargetEntries(keys, fault, expand, ScanTargets[3]),
        ScanTargetEntries(keys, fault, expand, ScanTargets[4]),
        ScanTargetEntries(keys, fault, expand, ScanTargets[5]),
        ScanTargetEntries(keys, fault, expand, ScanTargets[6]),
        ScanTargetEntries(keys, fault, expand, ScanTargets[7]),
        ScanTargetEntries(keys, fault, expand, ScanTargets[8]));
    }

    method RemoveEntry(reg: RegistryStore, index: int) returns (ok: bool)
      requires reg.Valid()
      modifies reg
      ensures reg.Valid()
      ensures (ok, reg.keys) == RemoveEffect(old(reg.keys), reg.fault, entries, index)
    {
      if index < 1 || index > |entries| {
        return false;
      }
      var entry := entries[index - 1];
      var hRoot := GetRootKeyFromLocation(entry.location);
      var subKey := GetSubKeyFromLocation(entry.location);
      if hRoot.None? {
        return false;
      }
      var hKey := KeyPath(hRoot.value, subKey);
      var result := reg.OpenKey(hKey, KeySetValue);
      if result != ERROR_SUCCESS {
        return false;
      }
      result := reg.DeleteValue(hKey, entry.name);
      ok := result == ERROR_SUCCESS;
    }

    method AddEntry(reg: RegistryStore, location: string, name: string, path: string, parameters: string) returns (ok: bool)
      requires reg.Valid()
      modifies reg
      ensures reg.Valid()
      ensures (ok, reg.keys) == AddEffect(old(reg.keys), reg.fault, location, name, path, parameters)
    {
      var hRoot := GetRootKeyFromLocation(location);
      var subKey := GetSubKeyFromLocation(location);
      if hRoot.None? {
        return false;
      }
      var hKey := KeyPath(hRoot.value, subKey);
      var result := reg.OpenKey(hKey, KeySetValue);
      if result != ERROR_SUCCESS {
        result := reg.CreateKey(hKey);
        if result != ERROR_SUCCESS {
          return false;
        }
      }
      var fullCommand := path;
      if parameters != [] {
        if ' ' in path {
          fullCommand := "\"" + path + "\" " + parameters;
        } else {
          fullCommand := path + " " + parameters;
        }
      } else if ' ' in path {
        fullCommand := "\"" + path + "\"";
      }
      result := reg.SetValue(hKey, RegValue(name, RegSz, fullCommand));
      ok := result == ERROR_SUCCESS;
    }

    method ScanRegistryKey(reg: RegistryStore, hKey: Root, keyPath: string, locationName: string)
      modifies this
      ensures entries == old(entries) + ScanKey(reg.keys, reg.fault, KeyPath(hKey, keyPath), locationName, expand)
    {
      var key := KeyPath(hKey, keyPath);
      var result := reg.OpenKey(key, KeyRead);
      if result != ERROR_SUCCESS {
        return;
      }
      ghost var values := reg.keys[key];
      ghost var n := EnumLimit(values, reg.fault, key, 0);
      var index: nat := 0;
      while true
        invariant index <= n
        invariant entries == old(entries) + StringEntries(values[..index], locationName, expand)
        decreases |values| - index
      {
        var value;
        result, value := reg.EnumValue(key, index);
        if result != ERROR_SUCCESS {
          assert index == n;
          break;
        }
        StringEntriesSnoc(values, index, locationName, expand);
        if IsStringType(value.kind) {
          var entry := AutoStartEntry(value.name, value.data, locationName, []);
          entry := ParseCommandLine(entry);
          assert entry == EntryFor(value, locationName, expand);
          entries := entries + [entry];
        }
        index := index + 1;
      }
    }

    /** Rewrites the path and parameters of `entry` from its raw command line, which sits in `path`. */
    method ParseCommandLine(entry: AutoStartEntry) returns (e: AutoStartEntry)
      ensures e.name == entry.name && e.location == entry.location
      ensures e.path == ParseCommand(entry.path, expand).path
      ensures e.parameters == if SplitsAtQuote(entry.path) then ParseCommand(entry.path, expand).parameters else entry.parameters
    {
      e := entry;
      var cmdLine := entry.path;
      if |cmdLine| > 1 && cmdLine[0] == '\"' {
        var endQuote := Text.Find(cmdLine, '\"', 1);
        if endQuote.Some? {
          e := e.(parameters := cmdLine[endQuote.value + 1..]);
          var firstNonSpace := Text.FindFirstNotOf(e.parameters, ' ');
          if firstNonSpace.Some? {
            e := e.(parameters := e.parameters[firstNonSpace.value..]);
          }
          e := e.(path := cmdLine[1..endQuote.value]);
        }
      } else if '%' in cmdLine {
        var expandedPath := expand(cmdLine);
        if 0 < expandedPath.length <= MAX_PATH {
          e := e.(path := expandedPath.text);
        }
      }
    }

    method ScanHKCURun(reg: RegistryStore)
      modifies this
      ensures entries == old(entries) + ScanTargetEntries(reg.keys, reg.fault, expand, ScanTargets[0])
    {
      ScanRegistryKey(reg, CurrentUser, RunKey, HkcuRun);
    }

    method ScanHKLMRun(reg: RegistryStore)
      modifies this
      ensures entries == old(entries) + ScanTargetEntries(reg.keys, reg.fault, expand, ScanTargets[1])
    {
      ScanRegistryKey(reg, LocalMachine, RunKey, HklmRun);
    }

    method ScanHKCURunOnce(reg: RegistryStore)
      modifies this
      ensures entries == old(entries) + ScanTargetEntries(reg.keys, reg.fault, expand, ScanTargets[2])
    {
      ScanRegistryKey(reg, CurrentUser, RunOnceKey, HkcuRunOnce);
    }

    method ScanHKLMRunOnce(reg: RegistryStore)
      modifies this
      ensures entries == old(entries) + ScanTargetEntries(reg.keys, reg.fault, expand, ScanTargets[3])
    {
      ScanRegistryKey(reg, LocalMachine, RunOnceKey, HklmRunOnce);
    }

    method ScanHKLMWow6432Run(reg: RegistryStore)
      modifies this
      ensures entries == old(entries) + ScanTargetEntries(reg.keys, reg.fault, expand, ScanTargets[4])
    {
      ScanRegistryKey(reg, LocalMachine, Wow64RunKey, HklmWow64Run);
    }

    method ScanHKCUWow6432Run(reg: RegistryStore)
      modifies this
      ensures entries == old(entries) + ScanTargetEntries(reg.keys, reg.fault, expand, ScanTargets[5])
    {
      ScanRegistryKey(reg, CurrentUser, Wow64RunKey, HkcuWow64Run);
    }

    method ScanExplorerRun(reg: RegistryStore)
      modifies this
      ensures entries == old(entries) + ScanTargetEntries(reg.keys, reg.fault, expand, ScanTargets[6])
    {
      ScanRegistryKey(reg, CurrentUser, ExplorerRunKey, HkcuExplorerRun);
    }

    method ScanPoliciesExplorerRun(reg: RegistryStore)
      modifies this
      ensures entries == old(entries)
        + ScanTargetEntries(reg.keys, reg.fault, expand, ScanTargets[7])
        + ScanTargetEntries(reg.keys, reg.fault, expand, ScanTargets[8])
    {
      ScanRegistryKey(reg, CurrentUser, PoliciesRunKey, HkcuPoliciesRun);
      ScanRegistryKey(reg, LocalMachine, PoliciesRunKey, HklmPoliciesRun);
    }
  }
}
