/**
  The Windows registry as the scanner sees it: each key, named by a root and a subkey
  path, holds an ordered list of named, typed values. The outcome of every registry
  call is given by an arbitrary function `fault` of the call (0 is ERROR_SUCCESS), so
  what is proved here holds for every pattern of failures the operating system may show.
 */
module Registry {
  import opened Optional

  datatype Root = CurrentUser | LocalMachine

  datatype KeyPath = KeyPath(root: Root, subKey: string)

  datatype ValueType = RegNone | RegSz | RegExpandSz | RegBinary | RegDword | RegMultiSz | RegQword

  datatype RegValue = RegValue(name: string, kind: ValueType, data: string)

  /** The access a key is opened with: KEY_READ for scanning, KEY_SET_VALUE for changes. */
  datatype Access = KeyRead | KeySetValue

  /** A registry call, as far as its outcome may depend on it. */
  datatype Call =
    | OpenCall(key: KeyPath, access: Access)    // RegOpenKeyExW
    | CreateCall(key: KeyPath)                  // RegCreateKeyExW
    | EnumCall(key: KeyPath, index: nat)        // RegEnumValueW
    | SetCall(key: KeyPath, name: string)       // RegSetValueExW
    | DeleteCall(key: KeyPath, name: string)    // RegDeleteValueW

  type Keys = map<KeyPath, seq<RegValue>>

  /** The status code the operating system gives a call on an existing key or value. */
  type Faults = Call -> int

  const ERROR_SUCCESS: int := 0
  const ERROR_FILE_NOT_FOUND: int := 2
  const ERROR_NO_MORE_ITEMS: int := 259

  /** REG_SZ and REG_EXPAND_SZ: the value types the scanner reports. */
  predicate IsStringType(kind: ValueType) {
    kind == RegSz || kind == RegExpandSz
  }

  /** The value of a key that carries `name`, if any. */
  function Lookup(values: seq<RegValue>, name: string): (r: Option<RegValue>)
    ensures r.Some? ==> r.value in values && r.value.name == name
    ensures r.None? <==> forall i :: 0 <= i < |values| ==> values[i].name != name
  {
    if values == [] then None
    else if values[0].name == name then Some(values[0])
    else Lookup(values[1..], name)
  }

  /** No two values of a key share a name. */
  predicate UniqueNames(values: seq<RegValue>) {
    forall i, j :: 0 <= i < j < |values| ==> values[i].name != values[j].name
  }

  /** Every key of the store satisfies UniqueNames. */
  predicate WellFormed(keys: Keys) {
    forall k :: k in keys ==> UniqueNames(keys[k])
  }

  /**
    Writing `v`: the value with the same name is overwritten where it stands, and
    a new name is added after the existing values.
   */
  function Put(values: seq<RegValue>, v: RegValue): (r: seq<RegValue>)
    ensures Lookup(values, v.name).Some? ==> |r| == |values|
    ensures Lookup(values, v.name).None? ==> r == values + [v]
    ensures forall i :: 0 <= i < |values| && values[i].name != v.name ==> r[i] == values[i]
    ensures forall x :: x in r ==> x in values || x == v
  {
    if values == [] then [v]
    else if values[0].name == v.name then [v] + values[1..]
    else [values[0]] + Put(values[1..], v)
  }

  /** Deleting the value named `name`; nothing changes when there is none. */
  function Without(values: seq<RegValue>, name: string): (r: seq<RegValue>)
    ensures Lookup(values, name).None? ==> r == values
    ensures Lookup(values, name).Some? ==> |r| == |values| - 1
    ensures forall x :: x in r ==> x in values
  {
    if values == [] then []
    else if values[0].name == name then values[1..]
    else [values[0]] + Without(values[1..], name)
  }

  /** After a write, the written name reads back the new value and every other name reads as before. */
  lemma {:induction false} PutLookup(values: seq<RegValue>, v: RegValue, n: string)
    ensures Lookup(Put(values, v), n) == if n == v.name then Some(v) else Lookup(values, n)
  {
    if values != [] && values[0].name != v.name {
      PutLookup(values[1..], v, n);
    }
  }

  /** A write keeps the names of a key distinct. */
  lemma {:induction false} PutUnique(values: seq<RegValue>, v: RegValue)
    requires UniqueNames(values)
    ensures UniqueNames(Put(values, v))
  {
    if values != [] && values[0].name != v.name {
      var tail := values[1..];
      PutUnique(tail, v);
      var r := Put(values, v);
      assert r == [values[0]] + Put(tail, v);
      forall i, j | 0 <= i < j < |r| ensures r[i].name != r[j].name {
        if i == 0 {
          assert r[j] in Put(tail, v);
          if r[j] != v {
            var k :| 0 <= k < |tail| && tail[k] == r[j];
            assert values[k + 1] == r[j];
          }
        }
      }
    } else if values != [] {
      var r := Put(values, v);
      forall i, j | 0 <= i < j < |r| ensures r[i].name != r[j].name {
        if i == 0 {
          assert r[j] == values[j];
        } else {
          assert r[i] == values[i] && r[j] == values[j];
        }
      }
    }
  }

  /** After a delete in a key with distinct names, the name is gone and every other name reads as before. */
  lemma {:induction false} WithoutLookup(values: seq<RegValue>, name: string, n: string)
    requires UniqueNames(values)
    ensures Lookup(Without(values, name), n) == if n == name then None else Lookup(values, n)
  {
    if values != [] {
      var tail := values[1..];
      assert UniqueNames(tail) by {
        forall i, j | 0 <= i < j < |tail| ensures tail[i].name != tail[j].name {
          assert tail[i] == values[i + 1] && tail[j] == values[j + 1];
        }
      }
      if values[0].name == name {
        if n == name {
          forall i | 0 <= i < |tail| ensures tail[i].name != n {
            assert tail[i] == values[i + 1];
          }
        }
      } else {
        WithoutLookup(tail, name, n);
      }
    }
  }

  /** A delete keeps the names of a key distinct. */
  lemma {:induction false} WithoutUnique(values: seq<RegValue>, name: string)
    requires UniqueNames(values)
    ensures UniqueNames(Without(values, name))
  {
    if values != [] {
      var tail := values[1..];
      assert UniqueNames(tail) by {
        forall i, j | 0 <= i < j < |tail| ensures tail[i].name != tail[j].name {
          assert tail[i] == values[i + 1] && tail[j] == values[j + 1];
        }
      }
      if values[0].name != name {
        WithoutUnique(tail, name);
        var r := Without(values, name);
        assert r == [values[0]] + Without(tail, name);
        forall i, j | 0 <= i < j < |r| ensures r[i].name != r[j].name {
          if i == 0 {
            assert r[j] in Without(tail, name);
            var k :| 0 <= k < |tail| && tail[k] == r[j];
            assert values[k + 1] == r[j];
          }
        }
      }
    }
  }

  /** Deleting removes exactly the first value that carries the name, keeping the order of the rest. */
  lemma {:induction false} WithoutSplits(values: seq<RegValue>, name: string, k: nat)
    requires k < |values| && values[k].name == name
    requires forall j :: 0 <= j < k ==> values[j].name != name
    ensures Without(values, name) == values[..k] + values[k + 1..]
  {
    if k == 0 {
      assert values[..0] + values[1..] == values[1..];
    } else {
      var tail := values[1..];
      assert values[0].name != name;
      assert tail[k - 1] == values[k];
      forall j | 0 <= j < k - 1 ensures tail[j].name != name {
        assert tail[j] == values[j + 1];
      }
      WithoutSplits(tail, name, k - 1);
      calc {
        Without(values, name);
        [values[0]] + Without(tail, name);
        [values[0]] + (tail[..k - 1] + tail[k..]);
        ([values[0]] + tail[..k - 1]) + tail[k..];
        { assert [values[0]] + tail[..k - 1] == values[..k] && tail[k..] == values[k + 1..]; }
        values[..k] + values[k + 1..];
      }
    }
  }

  /** What RegOpenKeyExW returns: a missing key cannot be opened. */
  function OpenStatus(keys: Keys, fault: Faults, key: KeyPath, access: Access): (status: int)
    ensures status == ERROR_SUCCESS ==> key in keys
  {
    if key !in keys then ERROR_FILE_NOT_FOUND else fault(OpenCall(key, access))
  }

  /** What RegEnumValueW returns for position `index`: past the last value there are no more items. */
  function EnumStatus(values: seq<RegValue>, fault: Faults, key: KeyPath, index: nat): (status: int)
    ensures status == ERROR_SUCCESS ==> index < |values|
  {
    if index < |values| then fault(EnumCall(key, index)) else ERROR_NO_MORE_ITEMS
  }

  /** What RegDeleteValueW returns: a missing value cannot be deleted. */
  function DeleteStatus(values: seq<RegValue>, fault: Faults, key: KeyPath, name: string): (status: int)
    ensures status == ERROR_SUCCESS ==> Lookup(values, name).Some?
  {
    if Lookup(values, name).None? then ERROR_FILE_NOT_FOUND else fault(DeleteCall(key, name))
  }

  /** The registry: its keys, and the outcomes the operating system gives its calls. */
  class RegistryStore {
    var keys: Keys
    const fault: Faults

    ghost predicate Valid()
      reads this
    {
      WellFormed(keys)
    }

    constructor (initial: Keys, outcomes: Faults)
      requires WellFormed(initial)
      ensures Valid() && keys == initial && fault == outcomes
    {
      keys := initial;
      fault := outcomes;
    }

    /** RegOpenKeyExW; the key itself stands for the handle it returns. */
    method OpenKey(key: KeyPath, access: Access) returns (status: int)
      ensures status == OpenStatus(keys, fault, key, access)
      ensures status == ERROR_SUCCESS ==> key in keys
    {
      status := if key !in keys then ERROR_FILE_NOT_FOUND else fault(OpenCall(key, access));
    }

    /** RegCreateKeyExW: opens the key, creating it empty when it is missing. */
    method CreateKey(key: KeyPath) returns (status: int)
      requires Valid()
      modifies this
      ensures Valid()
      ensures status == fault(CreateCall(key))
      ensures status == ERROR_SUCCESS ==> key in keys
      ensures keys == if status == ERROR_SUCCESS && key !in old(keys) then old(keys)[key := []] else old(keys)
    {
      status := fault(CreateCall(key));
      if status == ERROR_SUCCESS && key !in keys {
        keys := keys[key := []];
      }
    }

    /** RegEnumValueW on an open key: the value at position `index`. */
    method EnumValue(key: KeyPath, index: nat) returns (status: int, value: RegValue)
      requires key in keys
      ensures status == EnumStatus(keys[key], fault, key, index)
      ensures status == ERROR_SUCCESS ==> index < |keys[key]| && value == keys[key][index]
    {
      status := EnumStatus(keys[key], fault, key, index);
      value := if status == ERROR_SUCCESS then keys[key][index] else RegValue([], RegNone, []);
    }

    /** RegSetValueExW on an open key: writes `v`, overwriting a value of the same name. */
    method SetValue(key: KeyPath, v: RegValue) returns (status: int)
      requires Valid() && key in keys
      modifies this
      ensures Valid()
      ensures status == fault(SetCall(key, v.name))
      ensures keys == if status == ERROR_SUCCESS then old(keys)[key := Put(old(keys)[key], v)] else old(keys)
    {
      status := fault(SetCall(key, v.name));
      if status == ERROR_SUCCESS {
        PutUnique(keys[key], v);
        keys := keys[key := Put(keys[key], v)];
      }
    }

    /** RegDeleteValueW on an open key. */
    method DeleteValue(key: KeyPath, name: string) returns (status: int)
      requires Valid() && key in keys
      modifies this
      ensures Valid()
      ensures status == DeleteStatus(old(keys)[key], fault, key, name)
      ensures keys == if status == ERROR_SUCCESS then old(keys)[key := Without(old(keys)[key], name)] else old(keys)
    {
      status := DeleteStatus(keys[key], fault, key, name);
      if status == ERROR_SUCCESS {
        WithoutUnique(keys[key], name);
        keys := keys[key := Without(keys[key], name)];
      }
    }
  }
}
