/** What a scan reports, and how removal by index relates to the scan it follows. */
module ScanProperties {
  import opened Optional
  import opened CommandLine
  import opened Registry
  import opened Locations
  import opened AutoStart

  /** Scanning values in two runs gives the entries of the first run followed by those of the second. */
  lemma {:induction false} StringEntriesAppend(a: seq<RegValue>, b: seq<RegValue>, location: string, expand: Expander)
    ensures StringEntries(a + b, location, expand) == StringEntries(a, location, expand) + StringEntries(b, location, expand)
  {
    if b != [] {
      var b' := b[..|b| - 1];
      assert (a + b)[..|a + b| - 1] == a + b';
      StringEntriesAppend(a, b', location, expand);
    } else {
      assert a + b == a;
    }
  }

  /** Every reported entry comes from a string-typed value, carries its name and the given location. */
  lemma {:induction false} StringEntriesOrigin(values: seq<RegValue>, location: string, expand: Expander, e: AutoStartEntry)
    requires e in StringEntries(values, location, expand)
    ensures e.location == location
    ensures exists i :: 0 <= i < |values| && IsStringType(values[i].kind) && e == EntryFor(values[i], location, expand)
  {
    var init := values[..|values| - 1];
    if e in StringEntries(init, location, expand) {
      StringEntriesOrigin(init, location, expand, e);
      var i :| 0 <= i < |init| && IsStringType(init[i].kind) && e == EntryFor(init[i], location, expand);
      assert values[i] == init[i];
    } else {
      assert e == EntryFor(values[|values| - 1], location, expand);
    }
  }

  /** Values that are all strings give one entry each, position by position. */
  lemma {:induction false} StringEntriesOfStrings(values: seq<RegValue>, location: string, expand: Expander)
    requires forall i :: 0 <= i < |values| ==> IsStringType(values[i].kind)
    ensures |StringEntries(values, location, expand)| == |values|
    ensures forall i :: 0 <= i < |values| ==> StringEntries(values, location, expand)[i] == EntryFor(values[i], location, expand)
  {
    if values != [] {
      var init := values[..|values| - 1];
      StringEntriesOfStrings(init, location, expand);
      var r := StringEntries(values, location, expand);
      assert r == StringEntries(init, location, expand) + [EntryFor(values[|values| - 1], location, expand)];
      forall i | 0 <= i < |values| ensures r[i] == EntryFor(values[i], location, expand) {
        if i < |init| {
          assert values[i] == init[i];
        }
      }
    }
  }

  /** Every string-typed value is reported. */
  lemma {:induction false} StringEntriesContains(values: seq<RegValue>, i: nat, location: string, expand: Expander)
    requires i < |values| && IsStringType(values[i].kind)
    ensures EntryFor(values[i], location, expand) in StringEntries(values, location, expand)
  {
    var init := values[..|values| - 1];
    if i < |init| {
      StringEntriesContains(init, i, location, expand);
      assert init[i] == values[i];
    }
  }

  /** Values with distinct names give entries with distinct names. */
  lemma {:induction false} StringEntriesUnique(values: seq<RegValue>, location: string, expand: Expander)
    requires UniqueNames(values)
    ensures var r := StringEntries(values, location, expand);
      forall i, j :: 0 <= i < j < |r| ==> r[i].name != r[j].name
  {
    if values != [] {
      var init := values[..|values| - 1];
      var last := values[|values| - 1];
      assert UniqueNames(init) by {
        forall i, j | 0 <= i < j < |init| ensures init[i].name != init[j].name {
          assert init[i] == values[i] && init[j] == values[j];
        }
      }
      StringEntriesUnique(init, location, expand);
      var s := StringEntries(init, location, expand);
      var r := StringEntries(values, location, expand);
      if IsStringType(last.kind) {
        assert r == s + [EntryFor(last, location, expand)];
        forall i | 0 <= i < |s| ensures s[i].name != last.name {
          StringEntriesOrigin(init, location, expand, s[i]);
          var k :| 0 <= k < |init| && IsStringType(init[k].kind) && s[i] == EntryFor(init[k], location, expand);
          assert init[k] == values[k];
        }
      } else {
        assert r == s;
      }
    }
  }

  /**
    In a key with distinct names, a string value is reported once: its entry is in the
    scan, and it is the only entry that carries its name.
   */
  lemma ReportedOnce(values: seq<RegValue>, i: nat, location: string, expand: Expander)
    requires UniqueNames(values)
    requires i < |values| && IsStringType(values[i].kind)
    ensures var r := StringEntries(values, location, expand);
      && EntryFor(values[i], location, expand) in r
      && (forall e :: e in r && e.name == values[i].name ==> e == EntryFor(values[i], location, expand))
      && (forall j, k :: 0 <= j < k < |r| ==> r[j].name != r[k].name)
  {
    var r := StringEntries(values, location, expand);
    StringEntriesContains(values, i, location, expand);
    StringEntriesUnique(values, location, expand);
    forall e | e in r && e.name == values[i].name ensures e == EntryFor(values[i], location, expand) {
      StringEntriesOrigin(values, location, expand, e);
      var k :| 0 <= k < |values| && IsStringType(values[k].kind) && e == EntryFor(values[k], location, expand);
      assert values[k].name == values[i].name;
    }
  }

  /** A value of any other type is skipped without a trace. */
  lemma NonStringSkipped(values: seq<RegValue>, v: RegValue, location: string, expand: Expander)
    requires !IsStringType(v.kind)
    ensures StringEntries(values + [v], location, expand) == StringEntries(values, location, expand)
  {
    assert (values + [v])[..|values|] == values;
  }

  /**
    ScanRegistryKey reports nothing for a key it cannot open. Otherwise it reports values
    only from positions before the first failed enumeration, and when every
    enumeration succeeds it reports every string-typed value of the key.
   */
  lemma ScanKeyReports(keys: Keys, fault: Faults, key: KeyPath, location: string, expand: Expander)
    ensures OpenStatus(keys, fault, key, KeyRead) != ERROR_SUCCESS ==> ScanKey(keys, fault, key, location, expand) == []
    ensures forall e :: e in ScanKey(keys, fault, key, location, expand) ==>
      && key in keys && e.location == location
      && exists i :: 0 <= i < EnumLimit(keys[key], fault, key, 0) && IsStringType(keys[key][i].kind)
                     && e == EntryFor(keys[key][i], location, expand)
    ensures OpenStatus(keys, fault, key, KeyRead) == ERROR_SUCCESS
         && (forall j :: 0 <= j < |keys[key]| ==> fault(EnumCall(key, j)) == ERROR_SUCCESS)
        ==> ScanKey(keys, fault, key, location, expand) == StringEntries(keys[key], location, expand)
  {
    if OpenStatus(keys, fault, key, KeyRead) == ERROR_SUCCESS {
      var values := keys[key];
      var n := EnumLimit(values, fault, key, 0);
      forall e | e in ScanKey(keys, fault, key, location, expand)
        ensures exists i :: 0 <= i < n && IsStringType(values[i].kind) && e == EntryFor(values[i], location, expand)
        ensures e.location == location
      {
        StringEntriesOrigin(values[..n], location, expand, e);
        var i :| 0 <= i < n && IsStringType(values[..n][i].kind) && e == EntryFor(values[..n][i], location, expand);
        assert values[..n][i] == values[i];
      }
      if forall j :: 0 <= j < |values| ==> fault(EnumCall(key, j)) == ERROR_SUCCESS {
        assert values[..n] == values;
      }
    }
  }

  lemma ScanTargetsRoot(k: nat)
    requires k < |ScanTargets|
    ensures GetRootKeyFromLocation(ScanTargets[k].location) == Some(ScanTargets[k].root)
  {
  }

  lemma ScanTargetsSubKey(k: nat)
    requires k < |ScanTargets|
    ensures GetSubKeyFromLocation(ScanTargets[k].location) == ScanTargets[k].subKey
  {
    ListedSubKeys();
  }

  /**
    Each Scan* method reports its entries under a name that resolves, through the location
    mapping RemoveEntry uses, to exactly the key it scanned.
   */
  lemma ScanTargetsResolve(k: nat)
    requires k < |ScanTargets|
    ensures ResolveLocation(ScanTargets[k].location) == Some(TargetKey(ScanTargets[k]))
    ensures ScanTargets[k].subKey != []
  {
    ScanTargetsRoot(k);
    ScanTargetsSubKey(k);
  }

  /** The nine scanned keys are distinct, so no value is reported twice by one scan. */
  lemma ScanTargetsDistinct(i: nat, j: nat)
    requires i < j < |ScanTargets|
    ensures TargetKey(ScanTargets[i]) != TargetKey(ScanTargets[j])
    ensures ScanTargets[i].location != ScanTargets[j].location
  {
    assert |RunKey| < |RunOnceKey| < |ExplorerRunKey| < |Wow64RunKey| < |PoliciesRunKey|;
  }

  /**
    The scan visits the nine names `-l` lists, but the 5th and 6th (the two WOW6432Node
    locations) in the opposite order: the indices `-r` takes are those of the scan.
   */
  lemma ScanOrderSwapsListedFifthAndSixth(k: nat)
    requires k < |ScanTargets|
    ensures k != 4 && k != 5 ==> ScanTargets[k].location == AvailableLocations[k]
    ensures ScanTargets[4].location == AvailableLocations[5] && ScanTargets[5].location == AvailableLocations[4]
    ensures AvailableLocations[4] != AvailableLocations[5]
  {
  }

  lemma InNine<T>(e: T, x0: seq<T>, x1: seq<T>, x2: seq<T>, x3: seq<T>, x4: seq<T>, x5: seq<T>, x6: seq<T>, x7: seq<T>, x8: seq<T>)
    requires e in x0 + x1 + x2 + x3 + x4 + x5 + x6 + x7 + x8
    ensures e in x0 || e in x1 || e in x2 || e in x3 || e in x4 || e in x5 || e in x6 || e in x7 || e in x8
  {
  }

  /** An entry of a full scan comes from the scan of one of the nine keys. */
  lemma InScanAll(keys: Keys, fault: Faults, expand: Expander, e: AutoStartEntry) returns (k: nat)
    requires e in ScanAll(keys, fault, expand)
    ensures k < |ScanTargets| && e in ScanTargetEntries(keys, fault, expand, ScanTargets[k])
  {
    InNine(e, ScanTargetEntries(keys, fault, expand, ScanTargets[0]), ScanTargetEntries(keys, fault, expand, ScanTargets[1]), ScanTargetEntries(keys, fault, expand, ScanTargets[2]), ScanTargetEntries(keys, fault, expand, ScanTargets[3]), ScanTargetEntries(keys, fault, expand, ScanTargets[4]), ScanTargetEntries(keys, fault, expand, ScanTargets[5]), ScanTargetEntries(keys, fault, expand, ScanTargets[6]), ScanTargetEntries(keys, fault, expand, ScanTargets[7]), ScanTargetEntries(keys, fault, expand, ScanTargets[8]));
    k := if e in ScanTargetEntries(keys, fault, expand, ScanTargets[0]) then 0
      else if e in ScanTargetEntries(keys, fault, expand, ScanTargets[1]) then 1
      else if e in ScanTargetEntries(keys, fault, expand, ScanTargets[2]) then 2
      else if e in ScanTargetEntries(keys, fault, expand, ScanTargets[3]) then 3
      else if e in ScanTargetEntries(keys, fault, expand, ScanTargets[4]) then 4
      else if e in ScanTargetEntries(keys, fault, expand, ScanTargets[5]) then 5
      else if e in ScanTargetEntries(keys, fault, expand, ScanTargets[6]) then 6
      else if e in ScanTargetEntries(keys, fault, expand, ScanTargets[7]) then 7
      else 8;
  }

  /**
    Every entry of a full scan names one of the nine scanned locations and comes from a
    string-typed value of the key that name resolves to, carrying the value's name.
   */
  lemma ScannedEntryOrigin(keys: Keys, fault: Faults, expand: Expander, e: AutoStartEntry)
    requires e in ScanAll(keys, fault, expand)
    ensures exists k :: 0 <= k < |ScanTargets| && e.location == ScanTargets[k].location
    ensures ResolveLocation(e.location).Some?
    ensures var key := ResolveLocation(e.location).value;
      && key in keys
      && (exists i :: 0 <= i < |keys[key]| && keys[key][i].name == e.name
            && IsStringType(keys[key][i].kind) && e == EntryFor(keys[key][i], e.location, expand))
  {
    var k := InScanAll(keys, fault, expand, e);
    var t := ScanTargets[k];
    ScanKeyReports(keys, fault, TargetKey(t), t.location, expand);
    ScanTargetsResolve(k);
  }
}
