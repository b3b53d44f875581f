/**
  The command line of RegiStart (main, src/main.cpp:379-475): the loop over argv that
  collects the options, and the dispatch that picks one action among them. `atoi` is a
  parameter: the number a string reads as is not modelled.
 */
module Cli {
  import opened Optional
  import opened CommandLine
  import opened Registry
  import opened Locations
  import opened AutoStart

  type Atoi = string -> int

  /** What the options ask for once they are all read; -1 is "no removal asked". */
  datatype Flags = Flags(showBanner: bool, removeIndex: int, showLocations: bool, addArgs: seq<string>)

  const NoRemoval: int := -1
  const InitialFlags: Flags := Flags(true, NoRemoval, false, [])

  /** The loop either returns from main at once with an exit code, or ends with its flags. */
  datatype ArgOutcome = Exit(code: int) | Proceed(flags: Flags)

  predicate IsHelp(arg: string) { arg == "-h" || arg == "--help" }
  predicate IsNoBanner(arg: string) { arg == "-n" || arg == "--nobanner" }
  predicate IsLocations(arg: string) { arg == "-l" || arg == "--locations" }
  predicate IsRemove(arg: string) { arg == "-r" || arg == "--remove" }
  predicate IsAdd(arg: string) { arg == "-a" || arg == "--add" }

  /** An argument the loop acts on; every other argument (`-s` among them) is skipped. */
  predicate IsOption(arg: string) {
    IsHelp(arg) || IsNoBanner(arg) || IsLocations(arg) || IsRemove(arg) || IsAdd(arg)
  }

  /** The optional fourth value of `-a` is taken when it does not start with '-' (an empty one is taken). */
  predicate TakesAsParameters(arg: string) {
    arg == [] || arg[0] != '-'
  }

  /** The loop over argv from position `i` on, with the flags gathered so far. */
  function ArgScan(argv: seq<string>, i: nat, f: Flags, atoi: Atoi): (r: ArgOutcome)
    decreases |argv| - i
    ensures r.Exit? ==> r.code == 0 || r.code == 1
  {
    if i >= |argv| then Proceed(f)
    else
      var arg := argv[i];
      if IsHelp(arg) then Exit(0)
      else if IsNoBanner(arg) then ArgScan(argv, i + 1, f.(showBanner := false), atoi)
      else if IsLocations(arg) then ArgScan(argv, i + 1, f.(showLocations := true), atoi)
      else if IsRemove(arg) then
        if i + 1 < |argv| then ArgScan(argv, i + 2, f.(removeIndex := atoi(argv[i + 1])), atoi)
        else Exit(1)
      else if IsAdd(arg) then
        if i + 3 < |argv| then
          var three := f.addArgs + argv[i + 1..i + 4];
          if i + 4 < |argv| && TakesAsParameters(argv[i + 4]) then
            ArgScan(argv, i + 5, f.(addArgs := three + [argv[i + 4]]), atoi)
          else ArgScan(argv, i + 4, f.(addArgs := three), atoi)
        else Exit(1)
      else ArgScan(argv, i + 1, f, atoi)
  }

  /** argv[0] is the program's name; the options start at position 1. */
  function ParseFlags(argv: seq<string>, atoi: Atoi): (r: ArgOutcome)
    ensures |argv| <= 1 ==> r == Proceed(InitialFlags)
  {
    ArgScan(argv, 1, InitialFlags, atoi)
  }

  /** The values of one or more `-a` options: none, or at least a location, a name and a path. */
  predicate AddArgsShape(f: Flags) {
    f.addArgs == [] || |f.addArgs| >= 3
  }

  /** How far the loop moves past the option at `i`: the option and the values it takes. */
  function Stride(argv: seq<string>, i: nat): nat
    requires i < |argv|
  {
    if IsRemove(argv[i]) then 2
    else if IsAdd(argv[i]) then (if i + 4 < |argv| && TakesAsParameters(argv[i + 4]) then 5 else 4)
    else 1
  }

  /**
    The values the option at `i` appends to the add values: for an `-a` with its three
    values, those three and, when the loop takes it, the fourth; nothing for any other.
   */
  function AddedValues(argv: seq<string>, i: nat): seq<string>
    requires i < |argv|
  {
    if IsAdd(argv[i]) && i + 3 < |argv| then argv[i + 1..i + Stride(argv, i)] else []
  }

  /** The option at `p` ends the loop: a help option, or an option that lacks its values. */
  predicate Stops(argv: seq<string>, p: nat) {
    && p < |argv|
    && (IsHelp(argv[p]) || (IsRemove(argv[p]) && p + 1 >= |argv|) || (IsAdd(argv[p]) && p + 3 >= |argv|))
  }

  /** The option at `p` is a `-r` that ends argv or an `-a` followed by fewer than three values. */
  predicate LacksValues(argv: seq<string>, p: nat) {
    p < |argv| && ((IsRemove(argv[p]) && p + 1 == |argv|) || (IsAdd(argv[p]) && p + 3 >= |argv|))
  }

  /**
    The positions, from `i` on, that the loop reads as options rather than as values of
    an option. Reading stops at a help option and at an option that lacks its values.
   */
  function ReadPositions(argv: seq<string>, i: nat): (r: seq<nat>)
    decreases |argv| - i
    ensures forall p :: p in r ==> i <= p < |argv|
  {
    if i >= |argv| then []
    else if IsHelp(argv[i]) then [i]
    else if IsRemove(argv[i]) && i + 1 >= |argv| then [i]
    else if IsAdd(argv[i]) && i + 3 >= |argv| then [i]
    else [i] + ReadPositions(argv, i + Stride(argv, i))
  }

  /**
    Of the positions the loop reads, only the last can end it; and reading ends either at
    an option that ends the loop or because the next position lies past argv.
   */
  lemma {:induction false} ReadStopsLast(argv: seq<string>, i: nat)
    ensures var rs := ReadPositions(argv, i);
      && (forall k :: 0 <= k < |rs| - 1 ==> !Stops(argv, rs[k]))
      && (rs == [] <==> i >= |argv|)
      && (rs != [] ==> var last := rs[|rs| - 1]; last < |argv| && (Stops(argv, last) || last + Stride(argv, last) >= |argv|))
    decreases |argv| - i
  {
    if i < |argv| && !Stops(argv, i) {
      var next := i + Stride(argv, i);
      ReadStopsLast(argv, next);
      var rs, rest := ReadPositions(argv, i), ReadPositions(argv, next);
      assert rs == [i] + rest;
      forall k | 0 <= k < |rs| - 1 ensures !Stops(argv, rs[k]) {
        if k > 0 { assert rs[k] == rest[k - 1]; }
      }
    }
  }

  /**
    One pass of the loop over an option that has its values: the flags it leaves and the
    position it moves on to.
   */
  lemma ArgScanStep(argv: seq<string>, i: nat, f: Flags, atoi: Atoi) returns (f': Flags)
    requires i < |argv| && !IsHelp(argv[i])
    requires !(IsRemove(argv[i]) && i + 1 >= |argv|) && !(IsAdd(argv[i]) && i + 3 >= |argv|)
    ensures ArgScan(argv, i, f, atoi) == ArgScan(argv, i + Stride(argv, i), f', atoi)
    ensures ReadPositions(argv, i) == [i] + ReadPositions(argv, i + Stride(argv, i))
    ensures f'.showBanner == (f.showBanner && !IsNoBanner(argv[i]))
    ensures f'.showLocations == (f.showLocations || IsLocations(argv[i]))
    ensures f'.removeIndex == if IsRemove(argv[i]) then atoi(argv[i + 1]) else f.removeIndex
    ensures f'.addArgs == f.addArgs + AddedValues(argv, i)
  {
    var arg := argv[i];
    if IsNoBanner(arg) {
      f' := f.(showBanner := false);
    } else if IsLocations(arg) {
      f' := f.(showLocations := true);
    } else if IsRemove(arg) {
      f' := f.(removeIndex := atoi(argv[i + 1]));
    } else if IsAdd(arg) {
      var three := f.addArgs + argv[i + 1..i + 4];
      if i + 4 < |argv| && TakesAsParameters(argv[i + 4]) {
        f' := f.(addArgs := three + [argv[i + 4]]);
        assert argv[i + 1..i + 5] == argv[i + 1..i + 4] + [argv[i + 4]];
      } else {
        f' := f.(addArgs := three);
      }
    } else {
      f' := f;
    }
  }

  /**
    The loop exits with 0 only at a help option it reads, and with 1 only at a `-r`
    that ends argv or an `-a` followed by fewer than three values.
   */
  lemma {:induction false} ArgScanExits(argv: seq<string>, i: nat, f: Flags, atoi: Atoi)
    ensures ArgScan(argv, i, f, atoi).Exit? ==> ArgScan(argv, i, f, atoi).code in {0, 1}
    ensures ArgScan(argv, i, f, atoi) == Exit(0) ==>
      exists p :: p in ReadPositions(argv, i) && IsHelp(argv[p])
    ensures ArgScan(argv, i, f, atoi) == Exit(1) ==>
      exists p :: p in ReadPositions(argv, i)
        && ((IsRemove(argv[p]) && p + 1 == |argv|) || (IsAdd(argv[p]) && p + 3 >= |argv|))
    decreases |argv| - i
  {
    if i < |argv| {
      var arg := argv[i];
      if IsHelp(arg) || (IsRemove(arg) && i + 1 >= |argv|) || (IsAdd(arg) && i + 3 >= |argv|) {
        assert i in ReadPositions(argv, i);
      } else {
        var next := i + Stride(argv, i);
        var f' := ArgScanStep(argv, i, f, atoi);
        ArgScanExits(argv, next, f', atoi);
      }
    }
  }

  /** When the loop ends normally, it read no help option. */
  lemma {:induction false} ArgScanReadNoHelp(argv: seq<string>, i: nat, f: Flags, atoi: Atoi)
    ensures ArgScan(argv, i, f, atoi).Proceed? ==> forall p :: p in ReadPositions(argv, i) ==> !IsHelp(argv[p])
    decreases |argv| - i
  {
    if i < |argv| {
      var arg := argv[i];
      if !IsHelp(arg) && !(IsRemove(arg) && i + 1 >= |argv|) && !(IsAdd(arg) && i + 3 >= |argv|) {
        var next := i + Stride(argv, i);
        var f' := ArgScanStep(argv, i, f, atoi);
        ArgScanReadNoHelp(argv, next, f', atoi);
      }
    }
  }

  /** When the loop ends normally, the banner stays on exactly when it was on and no `-n` was read. */
  lemma {:induction false} ArgScanBanner(argv: seq<string>, i: nat, f: Flags, atoi: Atoi)
    ensures ArgScan(argv, i, f, atoi).Proceed? ==>
      var flags := ArgScan(argv, i, f, atoi).flags;
      flags.showBanner <==> f.showBanner && forall p :: p in ReadPositions(argv, i) ==> !IsNoBanner(argv[p])
    decreases |argv| - i
  {
    if i < |argv| {
      var arg := argv[i];
      if !IsHelp(arg) && !(IsRemove(arg) && i + 1 >= |argv|) && !(IsAdd(arg) && i + 3 >= |argv|) {
        var next := i + Stride(argv, i);
        var f' := ArgScanStep(argv, i, f, atoi);
        ArgScanBanner(argv, next, f', atoi);
        var rs, rest := ReadPositions(argv, i), ReadPositions(argv, next);
        assert i in rs;
        assert (forall p :: p in rs ==> !IsNoBanner(argv[p]))
           <==> !IsNoBanner(argv[i]) && forall p :: p in rest ==> !IsNoBanner(argv[p]);
      }
    }
  }

  /** When the loop ends normally, the locations flag is set exactly when it was set or a `-l` was read. */
  lemma {:induction false} ArgScanLocations(argv: seq<string>, i: nat, f: Flags, atoi: Atoi)
    ensures ArgScan(argv, i, f, atoi).Proceed? ==>
      var flags := ArgScan(argv, i, f, atoi).flags;
      flags.showLocations <==> f.showLocations || exists p :: p in ReadPositions(argv, i) && IsLocations(argv[p])
    decreases |argv| - i
  {
    if i < |argv| {
      var arg := argv[i];
      if !IsHelp(arg) && !(IsRemove(arg) && i + 1 >= |argv|) && !(IsAdd(arg) && i + 3 >= |argv|) {
        var next := i + Stride(argv, i);
        var f' := ArgScanStep(argv, i, f, atoi);
        ArgScanLocations(argv, next, f', atoi);
        LocationsReadStep(argv, i, ReadPositions(argv, next));
      }
    }
  }

  /** A `-l` is among the positions `[i] + rest` exactly when it is at `i` or among `rest`. */
  lemma LocationsReadStep(argv: seq<string>, i: nat, rest: seq<nat>)
    requires i < |argv| && forall q :: q in rest ==> q < |argv|
    ensures (exists p :: p in [i] + rest && IsLocations(argv[p]))
        <==> IsLocations(argv[i]) || exists p :: p in rest && IsLocations(argv[p])
  {
    var rs := [i] + rest;
    assert i in rs;
    if exists p :: p in rest && IsLocations(argv[p]) {
      var p :| p in rest && IsLocations(argv[p]);
      assert p in rs;
    }
  }

  /** Position `p` holds the last `-r` among the positions `rs` that the loop reads. */
  predicate LastRemoveRead(argv: seq<string>, rs: seq<nat>, p: nat) {
    && p in rs && p < |argv| && IsRemove(argv[p])
    && forall q :: q in rs && p < q < |argv| ==> !IsRemove(argv[q])
  }

  /** When the loop ends normally without reading a `-r`, the removal index is left alone. */
  lemma {:induction false} ArgScanKeepsIndex(argv: seq<string>, i: nat, f: Flags, atoi: Atoi)
    requires forall p :: p in ReadPositions(argv, i) ==> !IsRemove(argv[p])
    ensures ArgScan(argv, i, f, atoi).Proceed? ==> ArgScan(argv, i, f, atoi).flags.removeIndex == f.removeIndex
    decreases |argv| - i
  {
    if i < |argv| {
      var arg := argv[i];
      if !IsHelp(arg) && !(IsRemove(arg) && i + 1 >= |argv|) && !(IsAdd(arg) && i + 3 >= |argv|) {
        var next := i + Stride(argv, i);
        var f' := ArgScanStep(argv, i, f, atoi);
        assert i in ReadPositions(argv, i);
        ArgScanKeepsIndex(argv, next, f', atoi);
      }
    }
  }

  /** When the loop ends normally, the removal index is the value after the last `-r` it read. */
  lemma {:induction false} ArgScanRemoval(argv: seq<string>, i: nat, f: Flags, atoi: Atoi, p: nat)
    requires LastRemoveRead(argv, ReadPositions(argv, i), p)
    ensures ArgScan(argv, i, f, atoi).Proceed? ==>
      p + 1 < |argv| && ArgScan(argv, i, f, atoi).flags.removeIndex == atoi(argv[p + 1])
    decreases |argv| - i
  {
    var rs := ReadPositions(argv, i);
    var arg := argv[i];
    if !IsHelp(arg) && !(IsRemove(arg) && i + 1 >= |argv|) && !(IsAdd(arg) && i + 3 >= |argv|) {
      var next := i + Stride(argv, i);
      var f' := ArgScanStep(argv, i, f, atoi);
      var rest := ReadPositions(argv, next);
      if p == i {
        forall q | q in rest ensures !IsRemove(argv[q]) {
          assert q in rs && p < q;
        }
        ArgScanKeepsIndex(argv, next, f', atoi);
      } else {
        assert p in rest;
        forall q | q in rest && p < q < |argv| ensures !IsRemove(argv[q]) {
          assert q in rs;
        }
        ArgScanRemoval(argv, next, f', atoi, p);
      }
    }
  }

  /** When the loop ends normally, the add values only grow, and keep their shape. */
  lemma {:induction false} ArgScanAddArgs(argv: seq<string>, i: nat, f: Flags, atoi: Atoi)
    requires AddArgsShape(f)
    ensures ArgScan(argv, i, f, atoi).Proceed? ==>
      var g := ArgScan(argv, i, f, atoi).flags;
      AddArgsShape(g) && f.addArgs <= g.addArgs
    decreases |argv| - i
  {
    if i < |argv| {
      var arg := argv[i];
      if IsNoBanner(arg) && !IsHelp(arg) {
        ArgScanAddArgs(argv, i + 1, f.(showBanner := false), atoi);
      } else if IsLocations(arg) && !IsHelp(arg) {
        ArgScanAddArgs(argv, i + 1, f.(showLocations := true), atoi);
      } else if IsRemove(arg) && i + 1 < |argv| {
        ArgScanAddArgs(argv, i + 2, f.(removeIndex := atoi(argv[i + 1])), atoi);
      } else if IsAdd(arg) && i + 3 < |argv| {
        var three := f.addArgs + argv[i + 1..i + 4];
        if i + 4 < |argv| && TakesAsParameters(argv[i + 4]) {
          ArgScanAddArgs(argv, i + 5, f.(addArgs := three + [argv[i + 4]]), atoi);
        } else {
          ArgScanAddArgs(argv, i + 4, f.(addArgs := three), atoi);
        }
      } else if !IsOption(arg) {
        ArgScanAddArgs(argv, i + 1, f, atoi);
      }
    }
  }

  /** When the loop ends normally, the add values it started with are a prefix of those it ends with. */
  lemma {:induction false} ArgScanAddGrows(argv: seq<string>, i: nat, f: Flags, atoi: Atoi)
    ensures ArgScan(argv, i, f, atoi).Proceed? ==> f.addArgs <= ArgScan(argv, i, f, atoi).flags.addArgs
    decreases |argv| - i
  {
    if i < |argv| && !Stops(argv, i) {
      var f' := ArgScanStep(argv, i, f, atoi);
      ArgScanAddGrows(argv, i + Stride(argv, i), f', atoi);
    }
  }

  /** Position `p` holds the first `-a` among the positions `rs` that the loop reads. */
  predicate FirstAddRead(argv: seq<string>, rs: seq<nat>, p: nat) {
    && p in rs && p < |argv| && IsAdd(argv[p])
    && forall q :: q in rs && q < p ==> !IsAdd(argv[q])
  }

  /**
    `g` starts with `a`, then the location, name and path after the `-a` at `p`, then, when
    the loop takes it as the parameters, the fourth argument after that `-a`.
   */
  predicate StartsWithAddValues(argv: seq<string>, p: nat, a: seq<string>, g: seq<string>) {
    && p + 3 < |argv|
    && |g| >= |a| + 3
    && g[..|a| + 3] == a + argv[p + 1..p + 4]
    && (Stride(argv, p) == 5 ==> |g| >= |a| + 4 && g[|a| + 3] == argv[p + 4])
  }

  /** Add values that extend `a` by what the `-a` at `p` appends start with `a` and that option's values. */
  lemma AddedPrefix(argv: seq<string>, p: nat, a: seq<string>, g: seq<string>)
    requires p + 3 < |argv| && IsAdd(argv[p])
    requires a + AddedValues(argv, p) <= g
    ensures StartsWithAddValues(argv, p, a, g)
  {
    var v := AddedValues(argv, p);
    assert g[..|a| + |v|] == a + v;
    assert v[..3] == argv[p + 1..p + 4];
    assert g[..|a| + 3] == (a + v)[..|a| + 3];
  }

  /**
    When the loop ends normally, its add values start with the location, name and path
    that follow the first `-a` it read, and the next value is the fourth argument after
    that `-a` whenever the loop took it as the parameters.
   */
  lemma {:induction false} FirstAddValues(argv: seq<string>, i: nat, f: Flags, atoi: Atoi, p: nat)
    requires FirstAddRead(argv, ReadPositions(argv, i), p)
    ensures ArgScan(argv, i, f, atoi).Proceed? ==>
      StartsWithAddValues(argv, p, f.addArgs, ArgScan(argv, i, f, atoi).flags.addArgs)
    decreases |argv| - i
  {
    if p == i {
      FirstAddHere(argv, i, f, atoi);
    } else {
      FirstAddReadOnTo(argv, i, p);
      var f' := ArgScanStep(argv, i, f, atoi);
      assert AddedValues(argv, i) == [];
      assert f'.addArgs == f.addArgs + [] == f.addArgs;
      FirstAddValues(argv, i + Stride(argv, i), f', atoi, p);
    }
  }

  /** An `-a` at `i` puts its values right after the add values gathered before it. */
  lemma FirstAddHere(argv: seq<string>, i: nat, f: Flags, atoi: Atoi)
    requires i < |argv| && IsAdd(argv[i])
    ensures ArgScan(argv, i, f, atoi).Proceed? ==>
      StartsWithAddValues(argv, i, f.addArgs, ArgScan(argv, i, f, atoi).flags.addArgs)
  {
    if i + 3 >= |argv| {
      MissingValueExits(argv, i, i, f, atoi);
    } else {
      var next := i + Stride(argv, i);
      var f' := ArgScanStep(argv, i, f, atoi);
      ArgScanAddGrows(argv, next, f', atoi);
      var g := ArgScan(argv, next, f', atoi);
      if g.Proceed? {
        AddedPrefix(argv, i, f.addArgs, g.flags.addArgs);
      }
    }
  }

  /** Reading on to the first `-a` at `p` past `i`: the option at `i` is no `-a` and does not end the loop. */
  lemma FirstAddReadOnTo(argv: seq<string>, i: nat, p: nat)
    requires FirstAddRead(argv, ReadPositions(argv, i), p) && p != i
    ensures i < |argv| && !Stops(argv, i) && !IsAdd(argv[i])
    ensures FirstAddRead(argv, ReadPositions(argv, i + Stride(argv, i)), p)
  {
    ReadOnTo(argv, i, p);
    var rs, rest := ReadPositions(argv, i), ReadPositions(argv, i + Stride(argv, i));
    assert i in rs;
    forall q | q in rest && q < p ensures !IsAdd(argv[q]) {
      assert q in rs;
    }
  }

  /** What the options at the positions `rs` append to the add values, position by position. */
  function AddedAlong(argv: seq<string>, rs: seq<nat>): seq<string>
    requires forall q :: q in rs ==> q < |argv|
  {
    if rs == [] then []
    else
      assert rs[0] in rs;
      assert forall q :: q in rs[1..] ==> q in rs;
      AddedValues(argv, rs[0]) + AddedAlong(argv, rs[1..])
  }

  /**
    When the loop ends normally, its add values are those it started with followed by
    what every option it read appended, in order, and nothing else.
   */
  lemma {:induction false} ArgScanAddValues(argv: seq<string>, i: nat, f: Flags, atoi: Atoi)
    ensures ArgScan(argv, i, f, atoi).Proceed? ==>
      ArgScan(argv, i, f, atoi).flags.addArgs == f.addArgs + AddedAlong(argv, ReadPositions(argv, i))
    decreases |argv| - i
  {
    if i >= |argv| {
      assert ReadPositions(argv, i) == [];
      assert f.addArgs + [] == f.addArgs;
    } else if !Stops(argv, i) {
      var next := i + Stride(argv, i);
      var f' := ArgScanStep(argv, i, f, atoi);
      ArgScanAddValues(argv, next, f', atoi);
      AddedAlongStep(argv, i);
      var g := ArgScan(argv, next, f', atoi);
      if g.Proceed? {
        var v, w := AddedValues(argv, i), AddedAlong(argv, ReadPositions(argv, next));
        assert g.flags.addArgs == f.addArgs + v + w;
        assert f.addArgs + v + w == f.addArgs + (v + w);
      }
    }
  }

  /** Reading on past an option that does not end the loop appends that option's values first. */
  lemma AddedAlongStep(argv: seq<string>, i: nat)
    requires i < |argv| && !Stops(argv, i)
    ensures AddedAlong(argv, ReadPositions(argv, i))
      == AddedValues(argv, i) + AddedAlong(argv, ReadPositions(argv, i + Stride(argv, i)))
  {
    var rs, rest := ReadPositions(argv, i), ReadPositions(argv, i + Stride(argv, i));
    assert rs == [i] + rest;
    assert rs[0] == i && rs[1..] == rest;
  }

  /** Positions none of which holds an `-a` append nothing. */
  lemma {:induction false} AddedAlongNone(argv: seq<string>, rs: seq<nat>)
    requires forall q :: q in rs ==> q < |argv| && !IsAdd(argv[q])
    ensures AddedAlong(argv, rs) == []
    decreases |rs|
  {
    if rs != [] {
      assert rs[0] in rs;
      assert forall q :: q in rs[1..] ==> q in rs;
      AddedAlongNone(argv, rs[1..]);
    }
  }

  /**
    When the `-a` at `p` is the only one the loop reads and the loop ends normally, the
    add values gained are exactly that option's values: its location, name and path, and
    the fourth argument after it only when the loop takes it as the parameters.
   */
  lemma {:induction false} LoneAddValues(argv: seq<string>, i: nat, f: Flags, atoi: Atoi, p: nat)
    requires p in ReadPositions(argv, i) && p < |argv| && IsAdd(argv[p])
    requires forall q :: q in ReadPositions(argv, i) && IsAdd(argv[q]) ==> q == p
    ensures ArgScan(argv, i, f, atoi).Proceed? ==>
      p + 3 < |argv| && ArgScan(argv, i, f, atoi).flags.addArgs == f.addArgs + AddedValues(argv, p)
    decreases |argv| - i
  {
    var rs := ReadPositions(argv, i);
    if p == i {
      if !Stops(argv, i) {
        var next := i + Stride(argv, i);
        var f' := ArgScanStep(argv, i, f, atoi);
        var rest := ReadPositions(argv, next);
        assert rs == [i] + rest;
        forall q | q in rest ensures q < |argv| && !IsAdd(argv[q]) {
          assert q in rs && q != p;
        }
        AddedAlongNone(argv, rest);
        ArgScanAddValues(argv, next, f', atoi);
        var g := ArgScan(argv, next, f', atoi);
        if g.Proceed? {
          assert g.flags.addArgs == f'.addArgs + [];
          assert f'.addArgs + [] == f'.addArgs;
        }
      }
    } else {
      ReadOnTo(argv, i, p);
      var next := i + Stride(argv, i);
      var f' := ArgScanStep(argv, i, f, atoi);
      assert i in rs;
      assert AddedValues(argv, i) == [];
      assert f'.addArgs == f.addArgs + [] == f.addArgs;
      forall q | q in ReadPositions(argv, next) && IsAdd(argv[q]) ensures q == p {
        assert q in rs;
      }
      LoneAddValues(argv, next, f', atoi, p);
    }
  }

  /** A read position past `i` means the option at `i` does not end the loop, and reading goes on to it. */
  lemma ReadOnTo(argv: seq<string>, i: nat, p: nat)
    requires p in ReadPositions(argv, i) && p != i
    ensures i < |argv| && !Stops(argv, i)
    ensures p in ReadPositions(argv, i + Stride(argv, i))
  {
    assert Stops(argv, i) ==> ReadPositions(argv, i) == [i];
  }

  /** A help option the loop reads ends it with 0. */
  lemma {:induction false} ReadHelpExits(argv: seq<string>, i: nat, f: Flags, atoi: Atoi, p: nat)
    requires p in ReadPositions(argv, i) && p < |argv| && IsHelp(argv[p])
    ensures ArgScan(argv, i, f, atoi) == Exit(0)
    decreases |argv| - i
  {
    if p != i {
      ReadOnTo(argv, i, p);
      var f' := ArgScanStep(argv, i, f, atoi);
      ReadHelpExits(argv, i + Stride(argv, i), f', atoi, p);
    } else {
      HelpBeforeAnyOptionExits(argv, i, i, f, atoi);
    }
  }

  /** A read `-r` that ends argv, or a read `-a` with fewer than three values after it, ends the loop with 1. */
  lemma {:induction false} ReadMissingValueExits(argv: seq<string>, i: nat, f: Flags, atoi: Atoi, p: nat)
    requires p in ReadPositions(argv, i) && LacksValues(argv, p)
    ensures ArgScan(argv, i, f, atoi) == Exit(1)
    decreases |argv| - i
  {
    if p != i {
      ReadOnTo(argv, i, p);
      var f' := ArgScanStep(argv, i, f, atoi);
      ReadMissingValueExits(argv, i + Stride(argv, i), f', atoi, p);
    } else {
      MissingValueExits(argv, i, i, f, atoi);
    }
  }

  /**
    How the loop ends, from position `i` with flags `f`. It exits with 0 only at a help
    option it reads, and with 1 only at a `-r` that ends argv or an `-a` followed by fewer
    than three values. Otherwise it read no help option; the banner stays on exactly when
    it was on and no `-n` was read; the locations flag is set exactly when it was set or
    a `-l` was read; the add values only grow, keeping their shape, and start with the
    values of the first `-a` read, and are exactly what the options read appended; and the removal index is the value after the last `-r`
    read, or is left alone when none was read. Conversely, a help option it reads gives
    0, and a `-r` or `-a` it reads without its values gives 1.
   */
  lemma ArgScanOutcome(argv: seq<string>, i: nat, f: Flags, atoi: Atoi)
    requires AddArgsShape(f)
    ensures ArgScan(argv, i, f, atoi).Exit? ==> ArgScan(argv, i, f, atoi).code in {0, 1}
    ensures ArgScan(argv, i, f, atoi) == Exit(0) ==>
      exists p :: p in ReadPositions(argv, i) && IsHelp(argv[p])
    ensures ArgScan(argv, i, f, atoi) == Exit(1) ==>
      exists p :: p in ReadPositions(argv, i)
        && ((IsRemove(argv[p]) && p + 1 == |argv|) || (IsAdd(argv[p]) && p + 3 >= |argv|))
    ensures forall p: nat :: p in ReadPositions(argv, i) && IsHelp(argv[p]) ==> ArgScan(argv, i, f, atoi) == Exit(0)
    ensures forall p: nat :: p in ReadPositions(argv, i) && LacksValues(argv, p) ==> ArgScan(argv, i, f, atoi) == Exit(1)
    ensures ArgScan(argv, i, f, atoi).Proceed? ==>
      var g := ArgScan(argv, i, f, atoi).flags;
      var rs := ReadPositions(argv, i);
      && AddArgsShape(g)
      && f.addArgs <= g.addArgs
      && (forall p :: p in rs ==> !IsHelp(argv[p]))
      && (g.showBanner <==> f.showBanner && forall p :: p in rs ==> !IsNoBanner(argv[p]))
      && (g.showLocations <==> f.showLocations || exists p :: p in rs && IsLocations(argv[p]))
      && ((forall p :: p in rs ==> !IsRemove(argv[p])) ==> g.removeIndex == f.removeIndex)
      && (forall p: nat :: LastRemoveRead(argv, rs, p) ==> p + 1 < |argv| && g.removeIndex == atoi(argv[p + 1]))
      && (forall p: nat :: FirstAddRead(argv, rs, p) ==> StartsWithAddValues(argv, p, f.addArgs, g.addArgs))
      && g.addArgs == f.addArgs + AddedAlong(argv, rs)
  {
    ArgScanAddValues(argv, i, f, atoi);
    ArgScanExits(argv, i, f, atoi);
    ArgScanReadNoHelp(argv, i, f, atoi);
    ArgScanBanner(argv, i, f, atoi);
    ArgScanLocations(argv, i, f, atoi);
    if forall p :: p in ReadPositions(argv, i) ==> !IsRemove(argv[p]) {
      ArgScanKeepsIndex(argv, i, f, atoi);
    }
    forall p: nat | LastRemoveRead(argv, ReadPositions(argv, i), p)
      ensures ArgScan(argv, i, f, atoi).Proceed? ==>
        p + 1 < |argv| && ArgScan(argv, i, f, atoi).flags.removeIndex == atoi(argv[p + 1])
    {
      ArgScanRemoval(argv, i, f, atoi, p);
    }
    ArgScanAddArgs(argv, i, f, atoi);
    forall p: nat | p in ReadPositions(argv, i) && IsHelp(argv[p])
      ensures ArgScan(argv, i, f, atoi) == Exit(0)
    {
      ReadHelpExits(argv, i, f, atoi, p);
    }
    forall p: nat | p in ReadPositions(argv, i) && LacksValues(argv, p)
      ensures ArgScan(argv, i, f, atoi) == Exit(1)
    {
      ReadMissingValueExits(argv, i, f, atoi, p);
    }
    forall p: nat | FirstAddRead(argv, ReadPositions(argv, i), p)
      ensures ArgScan(argv, i, f, atoi).Proceed? ==>
        StartsWithAddValues(argv, p, f.addArgs, ArgScan(argv, i, f, atoi).flags.addArgs)
    {
      FirstAddValues(argv, i, f, atoi, p);
    }
  }

  /** Arguments none of which is an option leave the flags as they are. */
  lemma {:induction false} PlainArgumentsIgnored(argv: seq<string>, i: nat, f: Flags, atoi: Atoi)
    requires forall j :: i <= j < |argv| ==> !IsOption(argv[j])
    ensures ArgScan(argv, i, f, atoi) == Proceed(f)
    decreases |argv| - i
  {
    if i < |argv| {
      PlainArgumentsIgnored(argv, i + 1, f, atoi);
    }
  }

  /** A help option reached with only plain arguments before it ends the program with 0, whatever follows. */
  lemma {:induction false} HelpBeforeAnyOptionExits(argv: seq<string>, i: nat, k: nat, f: Flags, atoi: Atoi)
    requires i <= k < |argv| && IsHelp(argv[k])
    requires forall j :: i <= j < k ==> !IsOption(argv[j])
    ensures ArgScan(argv, i, f, atoi) == Exit(0)
    decreases k - i
  {
    if i < k {
      HelpBeforeAnyOptionExits(argv, i + 1, k, f, atoi);
    }
  }

  /**
    A `-r` that ends argv, or an `-a` with fewer than three values after it, reached with
    only plain arguments before it, ends the program with 1.
   */
  lemma {:induction false} MissingValueExits(argv: seq<string>, i: nat, k: nat, f: Flags, atoi: Atoi)
    requires i <= k < |argv|
    requires (IsRemove(argv[k]) && k + 1 == |argv|) || (IsAdd(argv[k]) && k + 3 >= |argv|)
    requires forall j :: i <= j < k ==> !IsOption(argv[j])
    ensures ArgScan(argv, i, f, atoi) == Exit(1)
    decreases k - i
  {
    if i < k {
      MissingValueExits(argv, i + 1, k, f, atoi);
    }
  }

  /** The action main takes once the loop has ended with flags `f`. */
  datatype Action =
    | ListLocations
    | AddAction(location: string, name: string, path: string, parameters: string)
    | RemoveAction(index: int)
    | DisplayAction

  /** `-l` wins over `-a`, which wins over `-r`; with none of them the entries are displayed. */
  function Decide(f: Flags): (a: Action)
    requires AddArgsShape(f)
    ensures a.ListLocations? <==> f.showLocations
    ensures a.AddAction? <==> !f.showLocations && f.addArgs != []
    ensures a.AddAction? ==> a.location == f.addArgs[0] && a.name == f.addArgs[1] && a.path == f.addArgs[2]
    ensures a.AddAction? ==> a.parameters == if |f.addArgs| > 3 then f.addArgs[3] else []
    ensures a.RemoveAction? <==> !f.showLocations && f.addArgs == [] && f.removeIndex != NoRemoval
    ensures a.DisplayAction? <==> !f.showLocations && f.addArgs == [] && f.removeIndex == NoRemoval
  {
    if f.showLocations then ListLocations
    else if f.addArgs != [] then
      AddAction(f.addArgs[0], f.addArgs[1], f.addArgs[2], if |f.addArgs| > 3 then f.addArgs[3] else [])
    else if f.removeIndex != NoRemoval then RemoveAction(f.removeIndex)
    else DisplayAction
  }

  /**
    Flags whose add values are just what the `-a` at `p` appended, with no `-l`, make main
    add that option's location, name and path, with its fourth value as the parameters
    when it was taken and empty parameters otherwise.
   */
  lemma DecideAddedValues(argv: seq<string>, p: nat, g: Flags)
    requires p + 3 < |argv| && IsAdd(argv[p])
    requires !g.showLocations && g.addArgs == AddedValues(argv, p)
    ensures AddArgsShape(g)
    ensures Decide(g) == AddAction(argv[p + 1], argv[p + 2], argv[p + 3], if Stride(argv, p) == 5 then argv[p + 4] else [])
  {
    assert g.addArgs == argv[p + 1..p + Stride(argv, p)];
    assert g.addArgs[0] == argv[p + 1] && g.addArgs[1] == argv[p + 2] && g.addArgs[2] == argv[p + 3];
    if Stride(argv, p) == 5 {
      assert g.addArgs[3] == argv[p + 4];
    }
  }

  function ToCode(ok: bool): int {
    if ok then 0 else 1
  }

  /** The exit code of main and the registry it leaves, once the options are read. */
  function Perform(f: Flags, keys: Keys, fault: Faults, expand: Expander): (r: (int, Keys))
    requires AddArgsShape(f)
    ensures r.0 == 0 || r.0 == 1
    ensures Decide(f).ListLocations? || Decide(f).DisplayAction? ==> r == (0, keys)
  {
    match Decide(f)
    case ListLocations => (0, keys)
    case AddAction(location, name, path, parameters) =>
      var r := AddEffect(keys, fault, location, name, path, parameters);
      (ToCode(r.0), r.1)
    case RemoveAction(index) => RemoveOrDisplay(index, keys, fault, expand)
    case DisplayAction => (0, keys)
  }

  /** The exit code of main and the registry it leaves. */
  function RunEffect(argv: seq<string>, keys: Keys, fault: Faults, expand: Expander, atoi: Atoi): (r: (int, Keys))
    ensures r.0 == 0 || r.0 == 1
    ensures ParseFlags(argv, atoi).Exit? ==> r.1 == keys
  {
    match ParseFlags(argv, atoi)
    case Exit(code) => (code, keys)
    case Proceed(f) =>
      ArgScanAddArgs(argv, 1, InitialFlags, atoi);
      Perform(f, keys, fault, expand)
  }

  /** The option loop of main, position by position. */
  method ParseArguments(argv: seq<string>, atoi: Atoi) returns (outcome: ArgOutcome)
    ensures outcome == ParseFlags(argv, atoi)
  {
    var showBanner := true;
    var removeIndex := NoRemoval;
    var showLocations := false;
    var addArgs: seq<string> := [];
    var i := 1;
    while i < |argv|
      invariant 1 <= i
      invariant ParseFlags(argv, atoi) == ArgScan(argv, i, Flags(showBanner, removeIndex, showLocations, addArgs), atoi)
      decreases |argv| - i
    {
      var arg := argv[i];
      if IsHelp(arg) {
        return Exit(0);
      } else if IsNoBanner(arg) {
        showBanner := false;
      } else if IsLocations(arg) {
        showLocations := true;
      } else if IsRemove(arg) {
        if i + 1 < |argv| {
          i := i + 1;
          removeIndex := atoi(argv[i]);
        } else {
          return Exit(1);
        }
      } else if IsAdd(arg) {
        if i + 3 < |argv| {
          ghost var before := addArgs;
          addArgs := addArgs + [argv[i + 1]];
          addArgs := addArgs + [argv[i + 2]];
          addArgs := addArgs + [argv[i + 3]];
          assert addArgs == before + argv[i + 1..i + 4];
          i := i + 3;
          if i + 1 < |argv| && TakesAsParameters(argv[i + 1]) {
            i := i + 1;
            addArgs := addArgs + [argv[i]];
          }
        } else {
          return Exit(1);
        }
      }
      i := i + 1;
    }
    outcome := Proceed(Flags(showBanner, removeIndex, showLocations, addArgs));
  }

  /** main: read the options, then act on them. */
  method Run(argv: seq<string>, reg: RegistryStore, environment: Expander, atoi: Atoi) returns (code: int)
    requires reg.Valid()
    modifies reg
    ensures reg.Valid()
    ensures (code, reg.keys) == RunEffect(argv, old(reg.keys), reg.fault, environment, atoi)
  {
    var outcome := ParseArguments(argv, atoi);
    if outcome.Exit? {
      return outcome.code;
    }
    ArgScanAddArgs(argv, 1, InitialFlags, atoi);
    code := Dispatch(outcome.flags, reg, environment);
  }

  /** List the locations, add, remove by index, or scan and display, in that order of precedence. */
  method Dispatch(f: Flags, reg: RegistryStore, environment: Expander) returns (code: int)
    requires AddArgsShape(f)
    requires reg.Valid()
    modifies reg
    ensures reg.Valid()
    ensures (code, reg.keys) == Perform(f, old(reg.keys), reg.fault, environment)
  {
    var scanner := new RegistryAutoStartScanner(environment);
    if f.showLocations {
      return 0;
    }
    if f.addArgs != [] {
      var parameters := if |f.addArgs| > 3 then f.addArgs[3] else [];
      code := AddFromArguments(scanner, reg, f.addArgs[0], f.addArgs[1], f.addArgs[2], parameters);
      return;
    }
    code := ScanThenRemove(scanner, reg, f.removeIndex);
  }

  /** The `-a` branch of main. */
  method AddFromArguments(scanner: RegistryAutoStartScanner, reg: RegistryStore, location: string, name: string, path: string, parameters: string)
    returns (code: int)
    requires reg.Valid()
    modifies reg
    ensures reg.Valid()
    ensures (code, reg.keys) == (ToCode(AddEffect(old(reg.keys), reg.fault, location, name, path, parameters).0),
                                 AddEffect(old(reg.keys), reg.fault, location, name, path, parameters).1)
  {
    var ok := scanner.AddEntry(reg, location, name, path, parameters);
    code := ToCode(ok);
  }

  /** What main does after a scan: remove by index when `-r` gave one, else display (exit 0). */
  function RemoveOrDisplay(index: int, keys: Keys, fault: Faults, expand: Expander): (r: (int, Keys))
    ensures r.0 == 0 || r.0 == 1
    ensures r.0 == 1 ==> r.1 == keys
    ensures index == NoRemoval ==> r == (0, keys)
  {
    if index == NoRemoval then (0, keys)
    else
      var entries := ScanAll(keys, fault, expand);
      if entries == [] then (1, keys)
      else (ToCode(RemoveEffect(keys, fault, entries, index).0), RemoveEffect(keys, fault, entries, index).1)
  }

  /** The scan of main, then the `-r` branch or the display. */
  method ScanThenRemove(scanner: RegistryAutoStartScanner, reg: RegistryStore, index: int) returns (code: int)
    requires scanner.entries == []
    requires reg.Valid()
    modifies reg, scanner
    ensures reg.Valid()
    ensures (code, reg.keys) == RemoveOrDisplay(index, old(reg.keys), reg.fault, scanner.expand)
  {
    scanner.ScanAllLocations(reg);
    assert scanner.entries == ScanAll(reg.keys, reg.fault, scanner.expand);
    if index != NoRemoval {
      if scanner.entries == [] {
        return 1;
      }
      var ok := scanner.RemoveEntry(reg, index);
      return ToCode(ok);
    }
    code := 0;
  }
}
