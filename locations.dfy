/**
  How a location name such as `HKEY_CURRENT_USER\Run` is turned into a registry key
  (GetRootKeyFromLocation and GetSubKeyFromLocation, src/main.cpp:182-214), and the
  nine names `-l` lists (src/main.cpp:162-174).
 */
module Locations {
  import opened Optional
  import opened Registry

  const CurrentUserPrefix: string := "HKEY_CURRENT_USER"
  const LocalMachinePrefix: string := "HKEY_LOCAL_MACHINE"

  const RunKey: string := "Software\\Microsoft\\Windows\\CurrentVersion\\Run"
  const RunOnceKey: string := "Software\\Microsoft\\Windows\\CurrentVersion\\RunOnce"
  const Wow64RunKey: string := "Software\\WOW6432Node\\Microsoft\\Windows\\CurrentVersion\\Run"
  const ExplorerRunKey: string := "Software\\Microsoft\\Windows\\CurrentVersion\\Explorer\\Run"
  const PoliciesRunKey: string := "Software\\Microsoft\\Windows\\CurrentVersion\\Policies\\Explorer\\Run"

  /** The nine location names, each a root prefix followed by the name of its Run key. */
  const HkcuRun: string := CurrentUserPrefix + "\\Run"
  const HklmRun: string := LocalMachinePrefix + "\\Run"
  const HkcuRunOnce: string := CurrentUserPrefix + "\\RunOnce"
  const HklmRunOnce: string := LocalMachinePrefix + "\\RunOnce"
  const HkcuWow64Run: string := CurrentUserPrefix + "\\WOW6432Node\\Run"
  const HklmWow64Run: string := LocalMachinePrefix + "\\WOW6432Node\\Run"
  const HkcuExplorerRun: string := CurrentUserPrefix + "\\Explorer\\Run"
  const HkcuPoliciesRun: string := CurrentUserPrefix + "\\Policies\\Explorer\\Run"
  const HklmPoliciesRun: string := LocalMachinePrefix + "\\Policies\\Explorer\\Run"

  /** The location names in the order ShowAvailableLocations prints them, numbered from 1. */
  const AvailableLocations: seq<string> := [
    HkcuRun,
    HklmRun,
    HkcuRunOnce,
    HklmRunOnce,
    HkcuWow64Run,
    HklmWow64Run,
    HkcuExplorerRun,
    HkcuPoliciesRun,
    HklmPoliciesRun
  ]

  /** The root is chosen by a prefix test alone. */
  function GetRootKeyFromLocation(location: string): (r: Option<Root>)
    ensures r == Some(CurrentUser) <==> CurrentUserPrefix <= location
    ensures r == Some(LocalMachine) <==> LocalMachinePrefix <= location
    ensures r == None <==> !(CurrentUserPrefix <= location) && !(LocalMachinePrefix <= location)
  {
    if CurrentUserPrefix <= location then
      assert !(LocalMachinePrefix <= location) by {
        assert location[5] == CurrentUserPrefix[5] != LocalMachinePrefix[5];
      }
      Some(CurrentUser)
    else if LocalMachinePrefix <= location then Some(LocalMachine)
    else None
  }

  /** The subkey is found by an exact match over the nine names; any other name gets "". */
  function GetSubKeyFromLocation(location: string): string {
    if location == HkcuRun then RunKey
    else if location == HklmRun then RunKey
    else if location == HkcuRunOnce then RunOnceKey
    else if location == HklmRunOnce then RunOnceKey
    else if location == HkcuWow64Run then Wow64RunKey
    else if location == HklmWow64Run then Wow64RunKey
    else if location == HkcuExplorerRun then ExplorerRunKey
    else if location == HkcuPoliciesRun then PoliciesRunKey
    else if location == HklmPoliciesRun then PoliciesRunKey
    else []
  }

  /** Exactly the nine listed names get a subkey; every other name gets the empty string. */
  lemma SubKeyOnlyForListed(location: string)
    ensures GetSubKeyFromLocation(location) != [] <==> location in AvailableLocations
  {
  }

  /** The subkey each listed name maps to: the HKCU and HKLM forms of a name share their key. */
  lemma ListedSubKeys()
    ensures GetSubKeyFromLocation(HkcuRun) == RunKey
    ensures GetSubKeyFromLocation(HklmRun) == RunKey
    ensures GetSubKeyFromLocation(HkcuRunOnce) == RunOnceKey
    ensures GetSubKeyFromLocation(HklmRunOnce) == RunOnceKey
    ensures GetSubKeyFromLocation(HkcuWow64Run) == Wow64RunKey
    ensures GetSubKeyFromLocation(HklmWow64Run) == Wow64RunKey
    ensures GetSubKeyFromLocation(HkcuExplorerRun) == ExplorerRunKey
    ensures GetSubKeyFromLocation(HkcuPoliciesRun) == PoliciesRunKey
    ensures GetSubKeyFromLocation(HklmPoliciesRun) == PoliciesRunKey
  {
  }

  /** The key AddEntry and RemoveEntry act on for a location name, when it has a root. */
  function ResolveLocation(location: string): (r: Option<KeyPath>)
    ensures r.Some? <==> GetRootKeyFromLocation(location).Some?
  {
    match GetRootKeyFromLocation(location)
    case Some(root) => Some(KeyPath(root, GetSubKeyFromLocation(location)))
    case None => None
  }

  /** Each of the nine listed names resolves to its root and a non-empty subkey. */
  lemma ListedLocationsResolve(i: nat)
    requires i < |AvailableLocations|
    ensures ResolveLocation(AvailableLocations[i]).Some?
    ensures ResolveLocation(AvailableLocations[i]).value.subKey != []
    ensures ResolveLocation(AvailableLocations[i]).value.root
         == if i in {1, 3, 5, 8} then LocalMachine else CurrentUser
  {
    SubKeyOnlyForListed(AvailableLocations[i]);
  }

  /**
    A name with a root prefix that is not one of the nine still resolves, to the root
    key itself: it is accepted by AddEntry, which then writes into the root key.
   */
  lemma UnlistedNameResolvesToRootKey(location: string)
    requires CurrentUserPrefix <= location || LocalMachinePrefix <= location
    requires location !in AvailableLocations
    ensures ResolveLocation(location).Some? && ResolveLocation(location).value.subKey == []
  {
    SubKeyOnlyForListed(location);
  }

  /** Only a name with one of the two root prefixes resolves, so these are refused. */
  lemma UnprefixedNameIsRefused(location: string)
    requires !(CurrentUserPrefix <= location) && !(LocalMachinePrefix <= location)
    ensures ResolveLocation(location) == None
  {
  }
}
