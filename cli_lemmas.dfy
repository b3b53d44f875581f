/** Properties of a whole run of RegiStart, from argv to exit code and registry. */
module RunProperties {
  import opened Optional
  import opened CommandLine
  import opened Registry
  import opened Locations
  import opened AutoStart
  import opened ScanProperties
  import opened EntryEdits
  import opened Cli

  /**
    A run exits with 0 or 1 and keeps distinct value names per key. Help, the location
    list, a scan and display and every argument error leave the registry as it was;
    otherwise at most one key is changed or created.
   */
  lemma RunOutcome(argv: seq<string>, keys: Keys, fault: Faults, expand: Expander, atoi: Atoi)
    requires WellFormed(keys)
    ensures var r := RunEffect(argv, keys, fault, expand, atoi);
      && r.0 in {0, 1}
      && WellFormed(r.1)
      && (ParseFlags(argv, atoi).Exit? ==> r.1 == keys)
      && (ParseFlags(argv, atoi).Proceed? && AddArgsShape(ParseFlags(argv, atoi).flags)
          && (Decide(ParseFlags(argv, atoi).flags).ListLocations? || Decide(ParseFlags(argv, atoi).flags).DisplayAction?)
          ==> r == (0, keys))
      && (r.1 == keys || exists key :: key in r.1 && r.1 == keys[key := r.1[key]])
  {
    ArgScanExits(argv, 1, InitialFlags, atoi);
    ArgScanAddArgs(argv, 1, InitialFlags, atoi);
    match ParseFlags(argv, atoi)
    case Exit(_) =>
    case Proceed(f) =>
      match Decide(f)
      case ListLocations =>
      case DisplayAction =>
      case AddAction(location, name, path, parameters) =>
        AddEffectOutcome(keys, fault, location, name, path, parameters);
        var r := AddEffect(keys, fault, location, name, path, parameters);
        if r.1 != keys {
          var key := ResolveLocation(location).value;
          assert key in r.1 && r.1 == keys[key := r.1[key]];
        }
      case RemoveAction(index) =>
        var entries := ScanAll(keys, fault, expand);
        if entries != [] {
          RemoveEffectOutcome(keys, fault, entries, index);
          var r := RemoveEffect(keys, fault, entries, index);
          if r.0 {
            var key := ResolveLocation(entries[index - 1].location).value;
            assert key in r.1 && r.1 == keys[key := r.1[key]];
          }
        }
  }

  /** Once the options are read without an error, the run is what main does with them. */
  lemma RunIsPerform(argv: seq<string>, keys: Keys, fault: Faults, expand: Expander, atoi: Atoi)
    requires ParseFlags(argv, atoi).Proceed?
    ensures AddArgsShape(ParseFlags(argv, atoi).flags)
    ensures RunEffect(argv, keys, fault, expand, atoi) == Perform(ParseFlags(argv, atoi).flags, keys, fault, expand)
  {
    ArgScanAddArgs(argv, 1, InitialFlags, atoi);
  }

  /** Removal of a listed entry, once the options are read. */
  lemma PerformRemovesListedEntry(f: Flags, keys: Keys, fault: Faults, expand: Expander)
    requires WellFormed(keys)
    requires !f.showLocations && f.addArgs == [] && 1 <= f.removeIndex <= |ScanAll(keys, fault, expand)|
    ensures var e := ScanAll(keys, fault, expand)[f.removeIndex - 1];
      && ResolveLocation(e.location).Some?
      && var key := ResolveLocation(e.location).value;
      && (Perform(f, keys, fault, expand).0 == 0
          <==> fault(OpenCall(key, KeySetValue)) == ERROR_SUCCESS && fault(DeleteCall(key, e.name)) == ERROR_SUCCESS)
  {
    RemoveAfterScan(keys, fault, expand, f.removeIndex);
  }

  /**
    `-r` with an index of a listed entry removes the value behind it: the run ends with 0
    exactly when its key opens for writing and the delete is granted.
   */
  lemma RunRemovesListedEntry(argv: seq<string>, f: Flags, keys: Keys, fault: Faults, expand: Expander, atoi: Atoi)
    requires WellFormed(keys)
    requires ParseFlags(argv, atoi) == Proceed(f)
    requires !f.showLocations && f.addArgs == [] && 1 <= f.removeIndex <= |ScanAll(keys, fault, expand)|
    ensures var e := ScanAll(keys, fault, expand)[f.removeIndex - 1];
      && ResolveLocation(e.location).Some?
      && var key := ResolveLocation(e.location).value;
      && (RunEffect(argv, keys, fault, expand, atoi).0 == 0
          <==> fault(OpenCall(key, KeySetValue)) == ERROR_SUCCESS && fault(DeleteCall(key, e.name)) == ERROR_SUCCESS)
  {
    RunIsPerform(argv, keys, fault, expand, atoi);
    PerformRemovesListedEntry(f, keys, fault, expand);
  }

  /** After `-r`, a `-h` is read as the index (atoi gives 0 for it), so help is not shown and the run fails. */
  lemma RemoveSwallowsHelp(keys: Keys, fault: Faults, expand: Expander, atoi: Atoi)
    requires atoi("-h") == 0
    ensures ParseFlags(["RegiStart", "-r", "-h"], atoi) == Proceed(InitialFlags.(removeIndex := 0))
    ensures RunEffect(["RegiStart", "-r", "-h"], keys, fault, expand, atoi) == (1, keys)
  {
    var argv := ["RegiStart", "-r", "-h"];
    assert !IsHelp(argv[1]) && IsRemove(argv[1]);
    assert ArgScan(argv, 3, InitialFlags.(removeIndex := 0), atoi) == Proceed(InitialFlags.(removeIndex := 0));
  }

  /** `-r -1` asks for nothing: -1 is the value meaning "no removal", so the entries are displayed. */
  lemma MinusOneIndexDisplays(keys: Keys, fault: Faults, expand: Expander, atoi: Atoi)
    requires atoi("-1") == -1
    ensures RunEffect(["RegiStart", "-r", "-1"], keys, fault, expand, atoi) == (0, keys)
  {
    var argv := ["RegiStart", "-r", "-1"];
    assert !IsHelp(argv[1]) && IsRemove(argv[1]);
    assert ParseFlags(argv, atoi) == Proceed(InitialFlags);
  }

  /**
    Two `-a` options collect seven values, and main reads the fourth as the parameters:
    the second option's location becomes the parameters of the first entry.
   */
  lemma SecondAddBecomesParameters(l1: string, n1: string, p1: string, l2: string, n2: string, p2: string, atoi: Atoi)
    ensures var argv := ["RegiStart", "-a", l1, n1, p1, "-a", l2, n2, p2];
      && ParseFlags(argv, atoi).Proceed?
      && AddArgsShape(ParseFlags(argv, atoi).flags)
      && Decide(ParseFlags(argv, atoi).flags) == AddAction(l1, n1, p1, l2)
  {
    var argv := ["RegiStart", "-a", l1, n1, p1, "-a", l2, n2, p2];
    assert IsAdd(argv[1]) && !IsHelp(argv[1]) && !IsNoBanner(argv[1]) && !IsLocations(argv[1]) && !IsRemove(argv[1]);
    assert !TakesAsParameters(argv[5]);
    var f1 := InitialFlags.(addArgs := [l1, n1, p1]);
    assert InitialFlags.addArgs + argv[2..5] == [l1, n1, p1] && f1.addArgs + argv[6..9] == [l1, n1, p1, l2, n2, p2];
    assert ParseFlags(argv, atoi) == ArgScan(argv, 1, InitialFlags, atoi) == ArgScan(argv, 5, f1, atoi);
    assert IsAdd(argv[5]) && !IsHelp(argv[5]) && !IsNoBanner(argv[5]) && !IsLocations(argv[5]) && !IsRemove(argv[5]);
    assert ArgScan(argv, 5, f1, atoi) == Proceed(f1.(addArgs := [l1, n1, p1, l2, n2, p2]));
  }

  /**
    With one `-a` among the options the loop reads and no `-l`, main adds exactly that
    option's location, name and path, with the fourth argument after it as the parameters
    when the loop takes it, and empty parameters otherwise: `RegiStart -a L N P` adds an
    entry without parameters.
   */
  lemma LoneAddDecides(argv: seq<string>, atoi: Atoi, p: nat)
    requires p in ReadPositions(argv, 1) && p < |argv| && IsAdd(argv[p])
    requires forall q :: q in ReadPositions(argv, 1) && IsAdd(argv[q]) ==> q == p
    requires forall q :: q in ReadPositions(argv, 1) ==> !IsLocations(argv[q])
    ensures ParseFlags(argv, atoi).Proceed? ==>
      && p + 3 < |argv|
      && AddArgsShape(ParseFlags(argv, atoi).flags)
      && Decide(ParseFlags(argv, atoi).flags)
         == AddAction(argv[p + 1], argv[p + 2], argv[p + 3], if Stride(argv, p) == 5 then argv[p + 4] else [])
  {
    LoneAddValues(argv, 1, InitialFlags, atoi, p);
    ArgScanLocations(argv, 1, InitialFlags, atoi);
    if ParseFlags(argv, atoi).Proceed? {
      var g := ParseFlags(argv, atoi).flags;
      assert InitialFlags.addArgs + AddedValues(argv, p) == AddedValues(argv, p);
      DecideAddedValues(argv, p, g);
    }
  }

  /** `-l` after a complete `-a` still wins: the locations are listed and nothing is written. */
  lemma LocationsWinOverAdd(l: string, n: string, p: string, keys: Keys, fault: Faults, expand: Expander, atoi: Atoi)
    ensures RunEffect(["RegiStart", "-a", l, n, p, "-l"], keys, fault, expand, atoi) == (0, keys)
  {
    var argv := ["RegiStart", "-a", l, n, p, "-l"];
    assert IsAdd(argv[1]) && !IsHelp(argv[1]) && !IsNoBanner(argv[1]) && !IsLocations(argv[1]) && !IsRemove(argv[1]);
    assert !TakesAsParameters(argv[5]);
    assert IsLocations(argv[5]) && !IsHelp(argv[5]) && !IsNoBanner(argv[5]);
    var f := Flags(true, NoRemoval, false, [l, n, p]);
    assert InitialFlags.addArgs + argv[2..5] == [l, n, p];
    assert ParseFlags(argv, atoi) == ArgScan(argv, 1, InitialFlags, atoi) == ArgScan(argv, 5, f, atoi);
    assert ArgScan(argv, 5, f, atoi) == ArgScan(argv, 6, f.(showLocations := true), atoi);
    assert ParseFlags(argv, atoi) == Proceed(Flags(true, NoRemoval, true, [l, n, p]));
  }

  /** Of two `-r` options the second wins, whatever the first one's value is. */
  lemma LastRemoveWins(a: string, b: string, atoi: Atoi)
    ensures ParseFlags(["RegiStart", "-r", a, "-r", b], atoi) == Proceed(InitialFlags.(removeIndex := atoi(b)))
  {
    var argv := ["RegiStart", "-r", a, "-r", b];
    assert IsRemove(argv[1]) && !IsHelp(argv[1]) && !IsNoBanner(argv[1]) && !IsLocations(argv[1]);
    assert IsRemove(argv[3]) && !IsHelp(argv[3]) && !IsNoBanner(argv[3]) && !IsLocations(argv[3]);
    var f := InitialFlags.(removeIndex := atoi(a));
    assert ParseFlags(argv, atoi) == ArgScan(argv, 3, f, atoi);
    assert ArgScan(argv, 3, f, atoi) == ArgScan(argv, 5, f.(removeIndex := atoi(b)), atoi);
  }

  /**
    The `-a` example of the help text passes "--silent" as its parameters, but a fourth
    value that starts with '-' is not taken: the entry is added without parameters and
    "--silent" is then skipped as an unknown option.
   */
  lemma HelpExampleDropsParameters(atoi: Atoi)
    ensures var argv := ["RegiStart", "-a", HkcuRun, "MyApp", "C:\\MyApp.exe", "--silent"];
      && ParseFlags(argv, atoi).Proceed?
      && AddArgsShape(ParseFlags(argv, atoi).flags)
      && Decide(ParseFlags(argv, atoi).flags) == AddAction(HkcuRun, "MyApp", "C:\\MyApp.exe", "")
  {
    var argv := ["RegiStart", "-a", HkcuRun, "MyApp", "C:\\MyApp.exe", "--silent"];
    assert IsAdd(argv[1]) && !IsHelp(argv[1]) && !IsNoBanner(argv[1]) && !IsLocations(argv[1]) && !IsRemove(argv[1]);
    assert !TakesAsParameters(argv[5]) && !IsOption(argv[5]);
    var f := InitialFlags.(addArgs := [HkcuRun, "MyApp", "C:\\MyApp.exe"]);
    assert InitialFlags.addArgs + argv[2..5] == f.addArgs;
    assert ParseFlags(argv, atoi) == ArgScan(argv, 5, f, atoi) == ArgScan(argv, 6, f, atoi);
  }
}
