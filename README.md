# RegiStart, modelled in Dafny

RegiStart is a small Windows command-line tool, a single file (`src/main.cpp`). It lists
the programs that the registry starts at logon and can add or remove one of them. Its
core is the class `RegistryAutoStartScanner` and the `main` function:

- The scanner knows nine auto-start locations. Each is a root (`HKEY_CURRENT_USER` or
  `HKEY_LOCAL_MACHINE`) with a `Run`-style subkey.
- It reads every `REG_SZ` and `REG_EXPAND_SZ` value of those keys into a list of
  entries, in a fixed order of keys.
- It splits each value's command line into an executable path and its parameters.
- It deletes a value named by its 1-based index in that list.
- It writes a new `REG_SZ` value, quoting a path that contains a blank.
- `main` reads the options `-h`, `-n`, `-l`, `-r <index>` and
  `-a <location> <name> <path> [parameters]`, then does exactly one of: list the
  locations, add, scan and remove, or scan and display.

How the model is laid out:

- `optional.dfy`, `text.dfy`: an `Option` type, and the two `std::wstring` searches the
  scanner uses, as total functions.
- `command_line.dfy`: `ParseCommand`, the effect of `ParseCommandLine`, and
  `BuildCommand`, the command line `AddEntry` builds. Then the lemmas that relate the
  two: when the round trip holds, and exactly when it fails.
- `registry.dfy`: the registry. Each key holds an ordered list of named, typed values.
  `RegistryStore` is a class with one method per registry call the tool makes. The
  outcome of every call is an arbitrary function `fault` of the call, so every result
  holds for every pattern of operating-system failures. A missing key or value, and
  enumeration past the last value, give `ERROR_FILE_NOT_FOUND` and `ERROR_NO_MORE_ITEMS`.
- `locations.dfy`: the location-name mapping and the nine listed names.
- `scanner.dfy`: `RegistryAutoStartScanner` as a class whose `entries` field its methods
  extend. Each method is proved against a pure function of the registry: `ScanKey`,
  `ScanAll`, `AddEffect`, `RemoveEffect`.
- `scan_lemmas.dfy`, `edits.dfy`: what a scan reports, what an add or a remove does to
  the registry, and how removal by index relates to the scan before it.
- `cli.dfy`, `cli_lemmas.dfy`: the option loop of `main` as a method proved against a
  recursive function, the dispatch, and properties of a whole run from `argv` to exit
  code and registry.

Behaviour of the code that a reader might not expect, each stated as a lemma:

- A location name that starts with one of the two root prefixes but is not one of the
  nine still resolves, to the root key with an empty subkey. So `AddEntry` accepts such
  a name and writes into the root key itself
  (`Locations.UnlistedNameResolvesToRootKey`, `EntryEdits.AddUnlistedWritesRootKey`).
- The scan visits the two `WOW6432Node` keys in the opposite order from the `-l` list.
  The indices `-r` takes follow the scan
  (`ScanProperties.ScanOrderSwapsListedFifthAndSixth`).
- With no `%` and no quote in the path, the stored line parses back to the
  added path and parameters exactly when the parameters are empty, or the path has a
  blank and the parameters do not start with one. A path without a blank is stored
  unquoted, and if it has parameters they come back glued to the path
  (`CommandLine.ParseBuildExactly`, `CommandLine.UnquotedBuildStaysWhole`).
- The `-a` example of the help text (src/main.cpp:365) passes `--silent` as the
  parameters. The loop does not take a fourth value that starts with `-`, so the entry
  is added without parameters (`RunProperties.HelpExampleDropsParameters`).

## Model

| member | source | states |
|---|---|---|
| Text.Find | src/main.cpp:259 | the first position at or after `from` holding the character, with none before it, or none at all |
| Text.FindFirstNotOf | src/main.cpp:262 | the first position not holding the character, every earlier one holding it, or none when all do |
| Text.FindAt | src/main.cpp:259 | a position holding the character with none between `from` and it is the one found |
| Text.FindFirstNotOfAt | src/main.cpp:262 | a non-matching position preceded only by matches is the one found |
| CommandLine.ParseCommand | src/main.cpp:254-280 | an unsplit line gets empty parameters; a split line loses at least its two quotes |
| CommandLine.BuildCommand | src/main.cpp:125-143 | a path with a blank is wrapped in quotes, otherwise it is a prefix; the exact length; non-empty parameters follow one blank at the end |
| CommandLine.QuotedPrefixParse | src/main.cpp:256-269 | with the first closing quote at `q`, the path is the text between the quotes. The parameters are what follows with leading blanks removed, or kept whole when it is all blanks |
| CommandLine.UnsplitParse | src/main.cpp:254-280 | without a split, the parameters are empty and the path is the raw line, or the expansion when it is accepted (length 1..MAX_PATH); a line with an unclosed quote is left whole |
| CommandLine.ParseBuildRoundTrip | src/main.cpp:125-143 | parsing the line built for a path with a blank and no quote, with parameters empty or not opening with a blank, gives back that path and those parameters |
| CommandLine.ParseBuildExactly | src/main.cpp:125-143 | with no `%` and no quote in the path, whatever the parameters hold, the round trip holds if and only if the parameters are empty, or the path has a blank and the parameters do not open with a blank |
| CommandLine.UnquotedBuildStaysWhole | src/main.cpp:125-143 | a path with no blank, quote or `%`, with parameters free of `%`, is stored unquoted and parsed back as the whole stored line, with no parameters |
| CommandLine.QuotedExample | src/main.cpp:256-269 | a quoted path followed by flags is split at the closing quote |
| CommandLine.UnquotedExample | src/main.cpp:254-280 | an unquoted path followed by a flag is not split |
| Registry.Lookup | src/main.cpp:85 | finds a value of that name in the key, or reports that no value carries it |
| Registry.Put | src/main.cpp:145-147 | an existing name is overwritten in place; a new name is appended; other values stay; nothing else appears |
| Registry.Without | src/main.cpp:85 | a missing name changes nothing; a present one shortens the key by one; nothing new appears |
| Registry.PutLookup | src/main.cpp:145-147 | after a write, the written name reads the new value and every other name reads as before |
| Registry.PutUnique | src/main.cpp:145-147 | a write keeps the value names of a key distinct |
| Registry.WithoutLookup | src/main.cpp:85 | after a delete, the name reads as absent and every other name reads as before |
| Registry.WithoutUnique | src/main.cpp:85 | a delete keeps the value names of a key distinct |
| Registry.WithoutSplits | src/main.cpp:85 | a delete removes exactly the first value of that name and keeps the order of the rest |
| Registry.OpenStatus | src/main.cpp:219-222 | a key opens successfully only if it exists |
| Registry.EnumStatus | src/main.cpp:234-238 | enumeration succeeds only at a position that holds a value |
| Registry.DeleteStatus | src/main.cpp:85 | a delete succeeds only for a name the key holds |
| Registry.RegistryStore.OpenKey | src/main.cpp:219-222 | returns the open status, success only for an existing key; the registry is unchanged |
| Registry.RegistryStore.CreateKey | src/main.cpp:117 | on success the key exists, created empty if missing; otherwise nothing changes |
| Registry.RegistryStore.EnumValue | src/main.cpp:234-238 | on success returns the value at that position |
| Registry.RegistryStore.SetValue | src/main.cpp:145-147 | on success the key becomes the write of the value into it; otherwise nothing changes; names stay distinct |
| Registry.RegistryStore.DeleteValue | src/main.cpp:85 | on success the named value is deleted from the key; otherwise nothing changes; names stay distinct |
| Locations.GetRootKeyFromLocation | src/main.cpp:182-190 | the current-user root exactly when the name starts with that prefix, likewise the machine root, none exactly when it has neither prefix |
| Locations.GetSubKeyFromLocation | src/main.cpp:192-214 | no contract of its own; its table is stated by SubKeyOnlyForListed and ListedSubKeys below |
| Locations.SubKeyOnlyForListed | src/main.cpp:192-214 | the subkey is non-empty if and only if the name is one of the nine listed |
| Locations.ListedSubKeys | src/main.cpp:192-214 | the subkey of each of the nine names; the two roots' forms of a name share it |
| Locations.ResolveLocation | src/main.cpp:64-77 | a name resolves to a key exactly when it has a root |
| Locations.ListedLocationsResolve | src/main.cpp:162-174 | each listed name resolves to a non-empty subkey under the root its prefix names |
| Locations.UnlistedNameResolvesToRootKey | src/main.cpp:182-214 | a prefixed name that is not listed still resolves, to the root key with an empty subkey |
| Locations.UnprefixedNameIsRefused | src/main.cpp:182-190 | a name with neither prefix does not resolve |
| AutoStart.StringEntries | src/main.cpp:239-248 | no more entries than values |
| AutoStart.StringEntriesSnoc | src/main.cpp:239-249 | scanning one more value appends its entry exactly when it is a string |
| AutoStart.EnumLimit | src/main.cpp:230-238 | every enumeration before the limit succeeds and the one at the limit fails |
| AutoStart.ScanKey | src/main.cpp:216-252 | a missing key gives no entries, and a key never gives more entries than it has values; ScanRegistryKey is proved equal to it and ScanKeyReports states what it reports |
| AutoStart.ScanAll | src/main.cpp:22-32 | when none of the nine keys exists the scan is empty; ScanAllLocations is proved equal to it and ScannedEntryOrigin states where its entries come from |
| AutoStart.AddEffect | src/main.cpp:100-160 | an unprefixed name is refused with the registry unchanged; on success the resolved key exists; AddEffectOutcome states the rest |
| AutoStart.RemoveEffect | src/main.cpp:57-98 | a failure leaves the registry unchanged, and success needs an index in 1..count; RemoveEffectOutcome states the rest |
| AutoStart.RegistryAutoStartScanner.constructor | src/main.cpp:19 | the scanner starts with no entries |
| AutoStart.RegistryAutoStartScanner.ScanAllLocations | src/main.cpp:22-32 | appends the entries of the nine keys, in scan order |
| AutoStart.RegistryAutoStartScanner.RemoveEntry | src/main.cpp:57-98 | the outcome and the new registry are those of RemoveEffect on the current entries; names stay distinct |
| AutoStart.RegistryAutoStartScanner.AddEntry | src/main.cpp:100-160 | the outcome and the new registry are those of AddEffect; names stay distinct |
| AutoStart.RegistryAutoStartScanner.ScanRegistryKey | src/main.cpp:216-252 | appends the string values of the key, before the first failed enumeration, each parsed; nothing for a key that will not open |
| AutoStart.RegistryAutoStartScanner.ParseCommandLine | src/main.cpp:254-280 | name and location kept; the path is the parsed path; the parameters change only when the line is split at a quote |
| AutoStart.RegistryAutoStartScanner.ScanHKCURun | src/main.cpp:282-287 | appends the entries of the current-user Run key |
| AutoStart.RegistryAutoStartScanner.ScanHKLMRun | src/main.cpp:289-294 | appends the entries of the machine Run key |
| AutoStart.RegistryAutoStartScanner.ScanHKCURunOnce | src/main.cpp:296-301 | appends the entries of the current-user RunOnce key |
| AutoStart.RegistryAutoStartScanner.ScanHKLMRunOnce | src/main.cpp:303-308 | appends the entries of the machine RunOnce key |
| AutoStart.RegistryAutoStartScanner.ScanHKLMWow6432Run | src/main.cpp:310-315 | appends the entries of the machine WOW6432Node Run key |
| AutoStart.RegistryAutoStartScanner.ScanHKCUWow6432Run | src/main.cpp:317-322 | appends the entries of the current-user WOW6432Node Run key |
| AutoStart.RegistryAutoStartScanner.ScanExplorerRun | src/main.cpp:324-329 | appends the entries of the current-user Explorer Run key |
| AutoStart.RegistryAutoStartScanner.ScanPoliciesExplorerRun | src/main.cpp:331-340 | appends the entries of the current-user, then the machine, Policies Explorer Run key |
| ScanProperties.StringEntriesAppend | src/main.cpp:226-249 | scanning two runs of values reports the first run's entries, then the second's |
| ScanProperties.StringEntriesOrigin | src/main.cpp:239-248 | every reported entry carries the location and comes from a string value of the key |
| ScanProperties.StringEntriesOfStrings | src/main.cpp:239-248 | values that are all strings give one entry each, position by position |
| ScanProperties.StringEntriesContains | src/main.cpp:239-248 | every string value is reported |
| ScanProperties.StringEntriesUnique | src/main.cpp:239-248 | values with distinct names give entries with distinct names |
| ScanProperties.ReportedOnce | src/main.cpp:239-248 | in a key with distinct names, a string value's entry is reported, and it is the only entry carrying that name |
| ScanProperties.NonStringSkipped | src/main.cpp:239 | a value of any other type adds nothing |
| ScanProperties.ScanKeyReports | src/main.cpp:216-252 | nothing for an unopenable key; entries only from string values before the first failed enumeration; all string values when every enumeration succeeds |
| ScanProperties.ScanTargetsRoot | src/main.cpp:282-340 | each scanned name has the root of the key scanned under it |
| ScanProperties.ScanTargetsSubKey | src/main.cpp:282-340 | each scanned name maps to the subkey scanned under it |
| ScanProperties.ScanTargetsResolve | src/main.cpp:282-340 | each scanned name resolves, as removal resolves it, to exactly the key scanned, with a non-empty subkey |
| ScanProperties.ScanTargetsDistinct | src/main.cpp:282-340 | the nine scanned keys and their names are pairwise distinct |
| ScanProperties.ScanOrderSwapsListedFifthAndSixth | src/main.cpp:22-32 | the scan order is the listed order except that the 5th and 6th names swap places |
| ScanProperties.InScanAll | src/main.cpp:22-32 | an entry of a full scan comes from the scan of one of the nine keys |
| ScanProperties.ScannedEntryOrigin | src/main.cpp:22-32 | every scanned entry names a scanned location that resolves to an existing key holding a string value of that name, from which the entry was made |
| EntryEdits.RemoveEffectOutcome | src/main.cpp:57-98 | fails for an index out of 1..count. Succeeds exactly when the location resolves, the key exists and holds the name, and the open and the delete are granted. Failure changes nothing; success deletes just that value of that key; names stay distinct |
| EntryEdits.RemoveExisting | src/main.cpp:77-91 | removing an existing value fails only on a refused open or delete |
| EntryEdits.RemoveAfterScan | src/main.cpp:457-465 | right after a scan, any listed entry's value exists, so removal fails only on a refused open or delete |
| EntryEdits.AddEffectOutcome | src/main.cpp:100-160 | refuses an unprefixed name. Succeeds exactly when the key opens or is created and the write is granted; the name then reads back the built REG_SZ and everything else is unchanged. A failure leaves at most a newly created empty key; names stay distinct |
| EntryEdits.AddUnlistedWritesRootKey | src/main.cpp:100-121 | an unlisted prefixed name is accepted, and the value lands in the root key, leaving every subkey alone |
| EntryEdits.AddThenRescan | src/main.cpp:100-160 | after a successful add, a rescan granted the open and every enumeration reports the new entry, and it is the only entry with that name (no two rescanned entries share a name). Under the round-trip conditions it carries exactly the added path and parameters |
| Cli.ReadPositions | src/main.cpp:386-432 | defines the positions the loop reads as options, not as values of an option; its contract keeps them within argv |
| Cli.ReadStopsLast | src/main.cpp:385-432 | of the read positions only the last can be a help option or an option missing its values, and reading ends either at such an option or because the next position lies past argv |
| Cli.ArgScanStep | src/main.cpp:386-432 | one pass over an option with its values: the loop moves past the option and its values and reads on, the banner is cleared by `-n`, the locations flag set by `-l`, the index set by `-r`, and `-a` appends its location, name and path, then the fourth value when it does not start with `-` |
| Cli.ArgScanExits | src/main.cpp:386-432 | the loop exits only with 0 or 1: 0 only at a help option it reads, 1 only at a read `-r` that ends argv or a read `-a` with fewer than three values after it |
| Cli.ReadHelpExits | src/main.cpp:388-392 | a help option the loop reads ends it with 0, whatever came before it |
| Cli.ReadMissingValueExits | src/main.cpp:401-430 | a `-r` that ends argv, or an `-a` with fewer than three values after it, read by the loop, ends it with 1 |
| Cli.ArgScanReadNoHelp | src/main.cpp:388-392 | when the loop ends normally it read no help option |
| Cli.ArgScanBanner | src/main.cpp:393-396 | when the loop ends normally the banner stays on if and only if it was on and no `-n` was read |
| Cli.ArgScanLocations | src/main.cpp:397-400 | when the loop ends normally the locations flag is set if and only if it was set or a `-l` was read |
| Cli.ArgScanKeepsIndex | src/main.cpp:401-411 | when the loop reads no `-r`, the removal index is left as it was |
| Cli.ArgScanRemoval | src/main.cpp:401-411 | when the loop ends normally, the removal index is the value after the last `-r` it read |
| Cli.ArgScanAddArgs | src/main.cpp:413-430 | when the loop ends normally, the add values only grow, and are none or at least three |
| Cli.ArgScanAddGrows | src/main.cpp:413-424 | when the loop ends normally, the add values it started with are a prefix of those it ends with |
| Cli.FirstAddValues | src/main.cpp:413-424 | when the loop ends normally, the add values start with the location, name and path after the first `-a` read, followed by the fourth argument after it whenever the loop took that as the parameters |
| Cli.ArgScanAddValues | src/main.cpp:413-424 | when the loop ends normally, its add values are those it started with followed by exactly what each option it read appended, in the order read, and nothing else |
| Cli.AddedAlongNone | src/main.cpp:413-424 | options none of which is `-a` append no add values |
| Cli.LoneAddValues | src/main.cpp:413-424 | when one `-a` is the only one read, the loop gains exactly its location, name and path, and the fourth value only when it takes it |
| Cli.DecideAddedValues | src/main.cpp:441-452 | add values that are one `-a`'s values, with no `-l`, make main add that option's location, name and path, with its fourth value as the parameters or empty parameters |
| Cli.ArgScanOutcome | src/main.cpp:386-432 | the conjunction of the loop facts above: exit 0 if and only if the loop reads a help option, exit 1 if and only if it reads a `-r` or `-a` missing its values; no help read; the banner and locations flags as iff; the add values' growth and shape, the first `-a`'s values at their head, and the whole list as what the read options appended; the index set by the last `-r` read, or unchanged |
| Cli.MissingValueExits | src/main.cpp:401-430 | a `-r` ending argv, or an `-a` with fewer than three values after it, reached after only plain arguments, exits with 1 |
| Cli.ArgScan | src/main.cpp:386-432 | the loop exits only with 0 or 1; ParseArguments is proved equal to it and the ArgScan lemmas state how it ends |
| Cli.ParseFlags | src/main.cpp:385-432 | the options start at position 1, so argv with at most the program name gives the initial flags |
| Cli.PlainArgumentsIgnored | src/main.cpp:386-432 | arguments that are not options leave the flags unchanged |
| Cli.HelpBeforeAnyOptionExits | src/main.cpp:388-392 | a help option preceded only by plain arguments exits with 0 whatever follows |
| Cli.Decide | src/main.cpp:441-470 | lists the locations exactly when `-l` was given; otherwise adds exactly when add values exist, with the fourth as parameters; otherwise removes exactly when the index is not -1; otherwise displays |
| Cli.Perform | src/main.cpp:439-474 | exits with 0 or 1; listing the locations and displaying exit 0 with the registry unchanged |
| Cli.RemoveOrDisplay | src/main.cpp:457-470 | exits with 0 or 1; exit 1 leaves the registry unchanged; with the index -1 it displays, exit 0, registry unchanged |
| Cli.RunEffect | src/main.cpp:379-475 | exits with 0 or 1; an argument error or help leaves the registry unchanged; RunProperties.RunOutcome states the rest |
| Cli.ParseArguments | src/main.cpp:381-432 | the loop's outcome is ParseFlags of argv |
| Cli.Run | src/main.cpp:379-475 | the exit code and the new registry are RunEffect of argv and the old registry; names stay distinct |
| Cli.Dispatch | src/main.cpp:439-474 | the exit code and the new registry are Perform of the flags |
| Cli.AddFromArguments | src/main.cpp:447-455 | exits with 0 exactly when AddEffect succeeds, leaving its registry |
| Cli.ScanThenRemove | src/main.cpp:457-474 | scans, then exits with 1 on an empty scan, else with the removal's outcome when an index was given; with no index, exits 0 and changes nothing |
| RunProperties.RunOutcome | src/main.cpp:379-475 | a run exits with 0 or 1 and keeps names distinct. Help, argument errors, the location list and the display leave the registry unchanged; otherwise at most one key changes |
| RunProperties.RunIsPerform | src/main.cpp:379-475 | once the options are read without error, the run is the dispatch on them |
| RunProperties.PerformRemovesListedEntry | src/main.cpp:457-465 | removing a listed index exits with 0 exactly when its key opens for writing and the delete is granted |
| RunProperties.RunRemovesListedEntry | src/main.cpp:379-475 | `-r` with a listed index exits with 0 exactly when its key opens for writing and the delete is granted |
| RunProperties.RemoveSwallowsHelp | src/main.cpp:402-406 | `-r -h` reads `-h` as index 0, so help is not shown, the run fails, and nothing changes |
| RunProperties.MinusOneIndexDisplays | src/main.cpp:459-470 | `-r -1` asks for no removal: the entries are displayed, exit 0, nothing changes |
| RunProperties.SecondAddBecomesParameters | src/main.cpp:413-421 | two `-a` options give the first entry the second option's location as its parameters |
| RunProperties.LoneAddDecides | src/main.cpp:413-452 | with one `-a` among the options read and no `-l`, main adds that option's location, name and path, with the fourth argument as the parameters when taken and empty parameters otherwise (so `-a L N P` alone adds no parameters) |
| RunProperties.LocationsWinOverAdd | src/main.cpp:441-445 | `-l` after a complete `-a` lists the locations, exits 0 and writes nothing |
| RunProperties.LastRemoveWins | src/main.cpp:401-406 | of two `-r` options the second one's value is the index, whatever the first one's value |
| RunProperties.HelpExampleDropsParameters | src/main.cpp:413-424 | the help text's `-a` example (src/main.cpp:365) adds its entry with empty parameters, because `--silent` starts with `-` |

## Left out

- The Windows registry API is a class over a map from keys to value lists. The outcome
  of each call is an arbitrary fixed function of the call. Handles and `RegCloseKey`
  are not modelled: closing never changes what the tool does.
- `Registry.Put`: Windows leaves the enumeration order of a key's values undefined. The
  model chooses one: a write overwrites a value in place and appends a new name at the
  end. Only `Put`'s own contract speaks of positions; the lemmas about adds speak of
  which values a key holds and which entries a rescan reports, not of where they sit.
- Registry value names are compared case-sensitively. Windows compares them without
  regard to case.
- `RegCreateKeyExW` also creates missing intermediate keys. The model creates only the
  key itself.
- Registry views (WOW64 redirection for 32-bit processes) and access rights are not
  modelled. A refused access is one of the failures `fault` may return.
- The 256-character name buffer and the 1024-character (2048-byte) data buffer of
  `ScanRegistryKey` (src/main.cpp:225-226, 231-232) are not modelled. A value too long for them makes
  `RegEnumValueW` fail and end the enumeration; this is one of the failures `fault` may
  return.
- Value data is modelled as a string. Raw bytes, missing terminators and embedded NULs
  are not modelled.
- `ExpandEnvironmentStringsW` is a parameter of the model (`Expander`): what the
  environment expands to is outside the program.
- `std::atoi` is a parameter of the model (`Atoi`). Which number a string reads as is
  not modelled; the lemmas that need it assume the value `atoi` gives.
- `StringToWString` (src/main.cpp:370-376) is left out. The model has one string type,
  with no narrow/wide conversion.
- Console output is left out: `DisplayResults` (src/main.cpp:34-55), `ShowBanner`,
  `ShowHelp` and every message printed. `ShowAvailableLocations` (src/main.cpp:162-174)
  is modelled only as the list `AvailableLocations`. The `-n` flag is tracked, but
  printing the banner is not.
- `GetEntries` (src/main.cpp:176-179) is the scanner's `entries` field itself.
- `main` is split into `Run`, `Dispatch`, `AddFromArguments` and `ScanThenRemove`, and
  its pure counterpart into `Perform` and `RemoveOrDisplay`. Together they do what
  src/main.cpp:379-475 does, in the same order.
