/** What AddEntry and RemoveEntry do to the registry, through the functions that specify them. */
module EntryEdits {
  import opened Optional
  import opened CommandLine
  import opened Registry
  import opened Locations
  import opened AutoStart
  import opened ScanProperties

  /**
    RemoveEntry succeeds exactly when the index is in range, the entry's location has a
    root, its key exists and opens for writing, holds a value with the entry's name and
    the delete is granted. On failure nothing changes; on success that one value is gone
    from that one key. Distinct names per key are kept either way.
   */
  lemma RemoveEffectOutcome(keys: Keys, fault: Faults, entries: seq<AutoStartEntry>, index: int)
    requires WellFormed(keys)
    ensures WellFormed(RemoveEffect(keys, fault, entries, index).1)
    ensures !RemoveEffect(keys, fault, entries, index).0 ==> RemoveEffect(keys, fault, entries, index).1 == keys
    ensures (index < 1 || index > |entries|) ==> !RemoveEffect(keys, fault, entries, index).0
    ensures 1 <= index <= |entries| ==>
      var e := entries[index - 1];
      (RemoveEffect(keys, fault, entries, index).0 <==>
        && ResolveLocation(e.location).Some?
        && ResolveLocation(e.location).value in keys
        && Lookup(keys[ResolveLocation(e.location).value], e.name).Some?
        && fault(OpenCall(ResolveLocation(e.location).value, KeySetValue)) == ERROR_SUCCESS
        && fault(DeleteCall(ResolveLocation(e.location).value, e.name)) == ERROR_SUCCESS)
    ensures RemoveEffect(keys, fault, entries, index).0 ==>
      var e := entries[index - 1];
      var key := ResolveLocation(e.location).value;
      var after := RemoveEffect(keys, fault, entries, index).1;
      && key in keys && key in after
      && after == keys[key := after[key]]
      && |after[key]| == |keys[key]| - 1
      && Lookup(after[key], e.name) == None
      && forall n :: n != e.name ==> Lookup(after[key], n) == Lookup(keys[key], n)
  {
    var r := RemoveEffect(keys, fault, entries, index);
    if r.0 {
      var e := entries[index - 1];
      var key := ResolveLocation(e.location).value;
      WithoutUnique(keys[key], e.name);
      forall n ensures Lookup(r.1[key], n) == if n == e.name then None else Lookup(keys[key], n) {
        WithoutLookup(keys[key], e.name, n);
      }
    }
  }

  /** Removing an entry whose value exists fails only on a refused open or delete. */
  lemma RemoveExisting(keys: Keys, fault: Faults, entries: seq<AutoStartEntry>, index: int, key: KeyPath)
    requires WellFormed(keys)
    requires 1 <= index <= |entries|
    requires ResolveLocation(entries[index - 1].location) == Some(key)
    requires key in keys && Lookup(keys[key], entries[index - 1].name).Some?
    ensures RemoveEffect(keys, fault, entries, index).0
        <==> fault(OpenCall(key, KeySetValue)) == ERROR_SUCCESS && fault(DeleteCall(key, entries[index - 1].name)) == ERROR_SUCCESS
  {
    RemoveEffectOutcome(keys, fault, entries, index);
  }

  /**
    Right after a full scan, the value behind any listed entry exists, so removing it by
    its index fails only when the key will not open for writing or the delete is refused.
   */
  lemma RemoveAfterScan(keys: Keys, fault: Faults, expand: Expander, index: int)
    requires WellFormed(keys)
    requires 1 <= index <= |ScanAll(keys, fault, expand)|
    ensures var entries := ScanAll(keys, fault, expand);
      var e := entries[index - 1];
      && ResolveLocation(e.location).Some?
      && var key := ResolveLocation(e.location).value;
      && key in keys && Lookup(keys[key], e.name).Some?
      && (RemoveEffect(keys, fault, entries, index).0
          <==> fault(OpenCall(key, KeySetValue)) == ERROR_SUCCESS && fault(DeleteCall(key, e.name)) == ERROR_SUCCESS)
  {
    var entries := ScanAll(keys, fault, expand);
    var e := entries[index - 1];
    ScannedEntryOrigin(keys, fault, expand, e);
    var key := ResolveLocation(e.location).value;
    var i :| 0 <= i < |keys[key]| && keys[key][i].name == e.name && IsStringType(keys[key][i].kind)
             && e == EntryFor(keys[key][i], e.location, expand);
    assert Lookup(keys[key], e.name).Some?;
    RemoveExisting(keys, fault, entries, index, key);
  }

  /** The command line AddEntry stores for a path and its parameters. */
  function StoredValue(name: string, path: string, parameters: string): RegValue {
    RegValue(name, RegSz, BuildCommand(path, parameters))
  }

  /**
    AddEntry refuses a location without a root prefix. Otherwise it succeeds exactly when
    the key opens for writing or can be created, and the write is granted; then the name
    reads back a REG_SZ holding the built command line, every other name of that key and
    every other key is as before. A failure leaves the registry as it was, except that a
    key created before a refused write stays behind, empty. Distinct names are kept.
   */
  lemma AddEffectOutcome(keys: Keys, fault: Faults, location: string, name: string, path: string, parameters: string)
    requires WellFormed(keys)
    ensures var r := AddEffect(keys, fault, location, name, path, parameters);
      && WellFormed(r.1)
      && (ResolveLocation(location).None? ==> r == (false, keys))
      && (ResolveLocation(location).Some? ==>
            var key := ResolveLocation(location).value;
            var before := if key in keys then keys[key] else [];
            && (r.0 <==> (OpenStatus(keys, fault, key, KeySetValue) == ERROR_SUCCESS || fault(CreateCall(key)) == ERROR_SUCCESS)
                         && fault(SetCall(key, name)) == ERROR_SUCCESS)
            && (r.0 ==> && key in r.1 && r.1 == keys[key := r.1[key]]
                        && Lookup(r.1[key], name) == Some(StoredValue(name, path, parameters))
                        && forall n :: n != name ==> Lookup(r.1[key], n) == Lookup(before, n))
            && (!r.0 ==> r.1 == keys || (key !in keys && r.1 == keys[key := []])))
  {
    var r := AddEffect(keys, fault, location, name, path, parameters);
    if r.0 {
      var key := ResolveLocation(location).value;
      var before := if key in keys then keys[key] else [];
      var v := StoredValue(name, path, parameters);
      assert r.1[key] == Put(before, v);
      PutUnique(before, v);
      forall n ensures Lookup(r.1[key], n) == if n == name then Some(v) else Lookup(before, n) {
        PutLookup(before, v, n);
      }
    }
  }

  /**
    A name with a root prefix that is not one of the nine listed is still accepted, and the
    value lands in the root key itself (an empty subkey) rather than in any Run key.
   */
  lemma AddUnlistedWritesRootKey(keys: Keys, fault: Faults, location: string, name: string, path: string, parameters: string)
    requires WellFormed(keys)
    requires CurrentUserPrefix <= location || LocalMachinePrefix <= location
    requires location !in AvailableLocations
    requires AddEffect(keys, fault, location, name, path, parameters).0
    ensures var after := AddEffect(keys, fault, location, name, path, parameters).1;
      var root := GetRootKeyFromLocation(location).value;
      && KeyPath(root, []) in after
      && Lookup(after[KeyPath(root, [])], name) == Some(StoredValue(name, path, parameters))
      && forall k :: k in keys && k.subKey != [] ==> k in after && after[k] == keys[k]
  {
    UnlistedNameResolvesToRootKey(location);
    AddEffectOutcome(keys, fault, location, name, path, parameters);
  }

  /**
    After a successful add to one of the nine scanned locations, a rescan that is granted
    the open and every enumeration of that key reports the new entry, and it is the only
    entry with that name (no two entries of the rescan share a name). When the path contains
    a space and no quote and the parameters do not start with a space, the entry reads back
    exactly the path and parameters that were added.
   */
  lemma AddThenRescan(keys: Keys, fault: Faults, expand: Expander, k: nat, name: string, path: string, parameters: string)
    requires WellFormed(keys)
    requires k < |ScanTargets|
    requires AddEffect(keys, fault, ScanTargets[k].location, name, path, parameters).0
    requires fault(OpenCall(TargetKey(ScanTargets[k]), KeyRead)) == ERROR_SUCCESS
    requires forall j :: fault(EnumCall(TargetKey(ScanTargets[k]), j)) == ERROR_SUCCESS
    ensures var t := ScanTargets[k];
      var after := AddEffect(keys, fault, t.location, name, path, parameters).1;
      var rescan := ScanTargetEntries(after, fault, expand, t);
      && EntryFor(StoredValue(name, path, parameters), t.location, expand) in rescan
      && (forall e :: e in rescan && e.name == name ==> e == EntryFor(StoredValue(name, path, parameters), t.location, expand))
      && (forall i, j :: 0 <= i < j < |rescan| ==> rescan[i].name != rescan[j].name)
      && (' ' in path && '\"' !in path && (parameters == [] || parameters[0] != ' ') ==>
            AutoStartEntry(name, path, t.location, parameters) in ScanTargetEntries(after, fault, expand, t))
  {
    var t := ScanTargets[k];
    var after := AddEffect(keys, fault, t.location, name, path, parameters).1;
    ScanTargetsResolve(k);
    var key := TargetKey(t);
    AddEffectOutcome(keys, fault, t.location, name, path, parameters);
    var v := StoredValue(name, path, parameters);
    var values := after[key];
    assert Lookup(values, name) == Some(v);
    var i :| 0 <= i < |values| && values[i] == v;
    ScanKeyReports(after, fault, key, t.location, expand);
    assert ScanTargetEntries(after, fault, expand, t) == StringEntries(values, t.location, expand);
    ReportedOnce(values, i, t.location, expand);
    if ' ' in path && '\"' !in path && (parameters == [] || parameters[0] != ' ') {
      ParseBuildRoundTrip(path, parameters, expand);
    }
  }
}
