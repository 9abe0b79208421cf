/**
 * The handle to a longest-prefix-match trie map. The kernel does the
 * matching; this handle only checks its types against the map definition,
 * hands keys and values to the `bpf` syscalls and turns their outcomes into
 * `MapError`s. Every syscall is a function parameter (an oracle) standing
 * for whatever the kernel answers.
 */
module LpmTrie {
  import opened Wrappers
  import opened Bytes
  import opened Maps

  const LOOKUP_CALL := "bpf_map_lookup_elem"
  const UPDATE_CALL := "bpf_map_update_elem"
  const DELETE_CALL := "bpf_map_delete_elem"
  const NEXT_KEY_CALL := "bpf_map_get_next_key"

  // ---------------------------------------------------------------------
  // Keys
  // ---------------------------------------------------------------------

  /** A trie key: the prefix length to match, and the data. */
  datatype Key<K> = Key(prefixLen: u32, data: K)

  /** Creates a key; both fields are stored as given. */
  function NewKey<K>(prefixLen: u32, data: K): (k: Key<K>)
    ensures k.prefixLen == prefixLen && k.data == data
  {
    Key(prefixLen, data)
  }

  /** The size of a packed key whose data occupies dataSize bytes. */
  function SizeOfKey(dataSize: nat): nat
  {
    4 + dataSize
  }

  /**
   * The in-memory image of a packed key: the prefix length in host byte
   * order immediately followed by the image of the data, with no padding
   * between or after the fields. `pod` gives the image of a data value.
   */
  function KeyBytes<K>(k: Key<K>, e: Endian, pod: K -> seq<byte>): (b: seq<byte>)
    ensures |b| == SizeOfKey(|pod(k.data)|)
    ensures FromBytes(b[..4], e) == k.prefixLen
    ensures b[4..] == pod(k.data)
  {
    RoundTrip(k.prefixLen, 4, e);
    var b := ToBytes(k.prefixLen, 4, e) + pod(k.data);
    assert b[..4] == ToBytes(k.prefixLen, 4, e);
    b
  }

  function U16Bytes(x: u16, e: Endian): seq<byte> { ToBytes(x, 2, e) }

  function U32Bytes(x: u32, e: Endian): seq<byte> { ToBytes(x, 4, e) }

  /** `Key<u16>` occupies 6 bytes and `Key<u32>` occupies 8. */
  lemma KeySizes(k16: Key<u16>, k32: Key<u32>, e: Endian)
    ensures |KeyBytes(k16, e, x => U16Bytes(x, e))| == 6
    ensures |KeyBytes(k32, e, x => U32Bytes(x, e))| == 8
  {
  }

  /** Two `Key<u32>` values with the same packed image are the same key. */
  lemma {:induction false} KeyBytesInjective(k: Key<u32>, k': Key<u32>, e: Endian)
    requires KeyBytes(k, e, x => U32Bytes(x, e)) == KeyBytes(k', e, x => U32Bytes(x, e))
    ensures k == k'
  {
    var b := KeyBytes(k, e, x => U32Bytes(x, e));
    assert b[4..] == U32Bytes(k.data, e) == U32Bytes(k'.data, e);
    RoundTrip(k.data, 4, e);
    RoundTrip(k'.data, 4, e);
  }

  // ---------------------------------------------------------------------
  // The map handle
  // ---------------------------------------------------------------------

  /**
   * A handle to an LPM-trie map. The source's phantom key and value types
   * are represented by the sizes the handle was checked for: dataSize is
   * the size of a key's data and valueSize the size of a value.
   */
  datatype LpmTrie = LpmTrie(inner: MapData, dataSize: nat, valueSize: nat)

  /**
   * Builds a handle over a map whose data occupy dataSize bytes and whose
   * values occupy valueSize bytes. The sizes are checked before the
   * descriptor.
   */
  function New(mapData: MapData, dataSize: nat, valueSize: nat): (r: Result<LpmTrie, MapError>)
    ensures r.Ok? <==> SizeOfKey(dataSize) == mapData.keySize && valueSize == mapData.valueSize && mapData.fd.Some?
    ensures r.Ok? ==> r.value == LpmTrie(mapData, dataSize, valueSize)
    ensures SizeOfKey(dataSize) != mapData.keySize ==> r == Err(InvalidKeySize(SizeOfKey(dataSize), mapData.keySize))
    ensures SizeOfKey(dataSize) == mapData.keySize && valueSize != mapData.valueSize ==>
              r == Err(InvalidValueSize(valueSize, mapData.valueSize))
    ensures SizeOfKey(dataSize) == mapData.keySize && valueSize == mapData.valueSize ==>
              (r == Err(NotCreated) <==> mapData.fd.None?)
  {
    match CheckKvSize(mapData, SizeOfKey(dataSize), valueSize)
    case Err(e) => Err(e)
    case Ok(_) =>
      match FdOrErr(mapData)
      case Err(e) => Err(e)
      case Ok(_) => Ok(LpmTrie(mapData, dataSize, valueSize))
  }

  /**
   * Looks up the value the kernel associates with key. `lookup` is the
   * `bpf_map_lookup_elem` syscall: no value, a value, or a failure.
   */
  function Get<K, V>(t: LpmTrie, key: Key<K>, flags: u64,
                     lookup: (Fd, Key<K>, u64) -> SysResult<Option<V>>): (r: Result<V, MapError>)
    ensures r.Ok? <==> t.inner.fd.Some? && lookup(t.inner.fd.value, key, flags).SysOk?
                       && lookup(t.inner.fd.value, key, flags).value.Some?
    ensures r.Ok? ==> lookup(t.inner.fd.value, key, flags) == SysOk(Some(r.value))
    ensures r == Err(NotCreated) <==> t.inner.fd.None?
    ensures r == Err(KeyNotFound) <==> t.inner.fd.Some? && lookup(t.inner.fd.value, key, flags) == SysOk(None)
    ensures r.Err? && r.error.SyscallError? <==> t.inner.fd.Some? && lookup(t.inner.fd.value, key, flags).SysErr?
    ensures r.Err? && r.error.SyscallError? ==>
              r.error == SyscallError(LOOKUP_CALL, lookup(t.inner.fd.value, key, flags).ioError)
  {
    match FdOrErr(t.inner)
    case Err(e) => Err(e)
    case Ok(fd) =>
      match lookup(fd, key, flags)
      case SysErr(_, io) => Err(SyscallError(LOOKUP_CALL, io))
      case SysOk(None) => Err(KeyNotFound)
      case SysOk(Some(v)) => Ok(v)
  }

  /** The map-generic lookup: a lookup with no flags. */
  function IterableMapGet<K, V>(t: LpmTrie, key: Key<K>,
                                lookup: (Fd, Key<K>, u64) -> SysResult<Option<V>>): (r: Result<V, MapError>)
    ensures r.Ok? <==> t.inner.fd.Some? && lookup(t.inner.fd.value, key, 0).SysOk?
                       && lookup(t.inner.fd.value, key, 0).value.Some?
    ensures r.Ok? ==> lookup(t.inner.fd.value, key, 0) == SysOk(Some(r.value))
    ensures r == Err(KeyNotFound) <==> t.inner.fd.Some? && lookup(t.inner.fd.value, key, 0) == SysOk(None)
    ensures r == Err(NotCreated) <==> t.inner.fd.None?
    ensures t.inner.fd.Some? && lookup(t.inner.fd.value, key, 0).SysErr? ==>
              r == Err(SyscallError(LOOKUP_CALL, lookup(t.inner.fd.value, key, 0).ioError))
  {
    Get(t, key, 0, lookup)
  }

  /**
   * Inserts or replaces the value for key. `update` is the
   * `bpf_map_update_elem` syscall; its success value is discarded.
   */
  function Insert<K, V>(t: LpmTrie, key: Key<K>, value: V, flags: u64,
                        update: (Fd, Key<K>, V, u64) -> SysResult<int>): (r: Result<(), MapError>)
    ensures r.Ok? <==> t.inner.fd.Some? && update(t.inner.fd.value, key, value, flags).SysOk?
    ensures r == Err(NotCreated) <==> t.inner.fd.None?
    ensures t.inner.fd.Some? && update(t.inner.fd.value, key, value, flags).SysErr? ==>
              r == Err(SyscallError(UPDATE_CALL, update(t.inner.fd.value, key, value, flags).ioError))
  {
    match FdOrErr(t.inner)
    case Err(e) => Err(e)
    case Ok(fd) =>
      match update(fd, key, value, flags)
      case SysErr(_, io) => Err(SyscallError(UPDATE_CALL, io))
      case SysOk(_) => Ok(())
  }

  /**
   * Removes the entry whose prefix and data equal key exactly. `delete` is
   * the `bpf_map_delete_elem` syscall; its success value is discarded.
   */
  function Remove<K>(t: LpmTrie, key: Key<K>,
                        delete: (Fd, Key<K>) -> SysResult<int>): (r: Result<(), MapError>)
    ensures r.Ok? <==> t.inner.fd.Some? && delete(t.inner.fd.value, key).SysOk?
    ensures r == Err(NotCreated) <==> t.inner.fd.None?
    ensures t.inner.fd.Some? && delete(t.inner.fd.value, key).SysErr? ==>
              r == Err(SyscallError(DELETE_CALL, delete(t.inner.fd.value, key).ioError))
  {
    match FdOrErr(t.inner)
    case Err(e) => Err(e)
    case Ok(fd) =>
      match delete(fd, key)
      case SysErr(_, io) => Err(SyscallError(DELETE_CALL, io))
      case SysOk(_) => Ok(())
  }

  /** Wrong sizes are reported even when the map has no descriptor. */
  lemma NewChecksSizeFirst(mapData: MapData, dataSize: nat, valueSize: nat)
    requires mapData.fd.None?
    requires SizeOfKey(dataSize) != mapData.keySize || valueSize != mapData.valueSize
    ensures New(mapData, dataSize, valueSize).Err?
    ensures New(mapData, dataSize, valueSize).error != NotCreated
    ensures New(mapData, dataSize, valueSize).error.InvalidKeySize?
            || New(mapData, dataSize, valueSize).error.InvalidValueSize?
  {
  }

  /**
   * A handle that `New` returned has a descriptor, so none of its
   * operations reports NotCreated.
   */
  lemma CreatedHandleHasDescriptor<K, V>(
    mapData: MapData, dataSize: nat, valueSize: nat, key: Key<K>, value: V, flags: u64,
    lookup: (Fd, Key<K>, u64) -> SysResult<Option<V>>,
    update: (Fd, Key<K>, V, u64) -> SysResult<int>,
    delete: (Fd, Key<K>) -> SysResult<int>)
    requires New(mapData, dataSize, valueSize).Ok?
    ensures Get(New(mapData, dataSize, valueSize).value, key, flags, lookup) != Err(NotCreated)
    ensures Insert(New(mapData, dataSize, valueSize).value, key, value, flags, update) != Err(NotCreated)
    ensures Remove(New(mapData, dataSize, valueSize).value, key, delete) != Err(NotCreated)
  {
    var t := New(mapData, dataSize, valueSize).value;
    assert t.inner.fd.Some?;
  }

  /**
   * The key and value types of a handle are those `New` checked: a key
   * whose data image has the checked data size has an image exactly as
   * long as the map's keys, and a value of the checked size is as long as
   * the map's values.
   */
  lemma CreatedHandleSizesMatchMap<K, V>(
    mapData: MapData, dataSize: nat, valueSize: nat, t: LpmTrie,
    k: Key<K>, v: V, e: Endian, keyPod: K -> seq<byte>, valuePod: V -> seq<byte>)
    requires New(mapData, dataSize, valueSize) == Ok(t)
    requires |keyPod(k.data)| == t.dataSize && |valuePod(v)| == t.valueSize
    ensures |KeyBytes(k, e, keyPod)| == t.inner.keySize
    ensures |valuePod(v)| == t.inner.valueSize
  {
  }

  // Scenarios of the handle's unit tests: a map defined with 8-byte keys
  // and 4-byte values.

  lemma WrongKeySizeScenario()
    ensures New(MapData(8, 4, None), 2, 4) == Err(InvalidKeySize(6, 8))
  {
  }

  lemma WrongValueSizeScenario()
    ensures New(MapData(8, 4, None), 4, 2) == Err(InvalidValueSize(2, 4))
  {
  }

  lemma NotCreatedAndOkScenario()
    ensures New(MapData(8, 4, None), 4, 4) == Err(NotCreated)
    ensures New(MapData(8, 4, Some(42)), 4, 4).Ok?
  {
  }

  // ---------------------------------------------------------------------
  // The key iterator
  // ---------------------------------------------------------------------

  /** What the iterator yields: nothing, a key, or an error. */
  type Item<K> = Option<Result<Key<K>, MapError>>

  /** The `bpf_map_get_next_key` syscall: the next key, none, or a failure. */
  type NextKeyOracle<!K> = (Fd, Key<K>) -> SysResult<Option<Key<K>>>

  /** The iterator's mutable state: the latched error flag and the cursor key. */
  datatype Cursor<K> = Cursor(err: bool, key: Key<K>)

  /** One call of the iterator's `next` on state c over mapData. */
  function Step<K>(c: Cursor<K>, mapData: MapData, nextKey: NextKeyOracle<K>): (r: (Cursor<K>, Item<K>))
    ensures c.err ==> r == (c, None)
    ensures r.1.Some? && r.1.value.Err? <==> !c.err && r.0.err
    ensures r.1.Some? && r.1.value.Ok? ==> r.0 == Cursor(false, r.1.value.value)
    ensures r.1.None? ==> r.0 == c
    ensures r.1.Some? && r.1.value.Ok? <==>
              !c.err && mapData.fd.Some? && nextKey(mapData.fd.value, c.key).SysOk? && nextKey(mapData.fd.value, c.key).value.Some?
    ensures r.1.Some? && r.1.value.Ok? ==> r.1.value.value == nextKey(mapData.fd.value, c.key).value.value
    ensures !c.err && mapData.fd.None? ==> r == (Cursor(true, c.key), Some(Err(NotCreated)))
    ensures !c.err && mapData.fd.Some? && nextKey(mapData.fd.value, c.key).SysErr? ==>
              r.1 == Some(Err(SyscallError(NEXT_KEY_CALL, nextKey(mapData.fd.value, c.key).ioError)))
    ensures !c.err && mapData.fd.Some? && nextKey(mapData.fd.value, c.key) == SysOk(None) ==> r == (c, None)
    ensures r.1.Some? && r.1.value.Err? ==> r.0 == Cursor(true, c.key)
  {
    if c.err then (c, None)
    else
      match FdOrErr(mapData)
      case Err(e) => (Cursor(true, c.key), Some(Err(e)))
      case Ok(fd) =>
        match nextKey(fd, c.key)
        case SysOk(Some(k)) => (Cursor(c.err, k), Some(Ok(k)))
        case SysOk(None) => (c, None)
        case SysErr(_, io) => (Cursor(true, c.key), Some(Err(SyscallError(NEXT_KEY_CALL, io))))
  }

  /** Iterator returned by `IterKey`: all keys after a starting key. */
  class LpmTrieKeys<K> {
    const mapData: MapData
    var err: bool
    var key: Key<K>

    function State(): Cursor<K>
      reads this
    {
      Cursor(err, key)
    }

    constructor (mapData: MapData, key: Key<K>)
      ensures this.mapData == mapData
      ensures State() == Cursor(false, key)
    {
      this.mapData := mapData;
      this.err := false;
      this.key := key;
    }

    /** Advances the cursor by one key, as `Step` describes. */
    method Next(nextKey: NextKeyOracle<K>) returns (item: Item<K>)
      modifies this
      ensures (State(), item) == Step(old(State()), mapData, nextKey)
    {
      if err {
        return None;
      }
      var fd;
      match FdOrErr(mapData) {
        case Err(e) =>
          err := true;
          return Some(Err(e));
        case Ok(f) =>
          fd := f;
      }
      match nextKey(fd, key) {
        case SysOk(Some(k)) =>
          key := k;
          item := Some(Ok(k));
        case SysOk(None) =>
          item := None;
        case SysErr(_, io) =>
          err := true;
          item := Some(Err(SyscallError(NEXT_KEY_CALL, io)));
      }
    }
  }

  /** An iterator over the keys after key, with its error flag clear. */
  method IterKey<K>(t: LpmTrie, key: Key<K>) returns (it: LpmTrieKeys<K>)
    ensures fresh(it)
    ensures it.mapData == t.inner && it.State() == Cursor(false, key)
  {
    it := new LpmTrieKeys(t.inner, key);
  }

  /**
   * Successive calls of `next`, the i-th answered by oracles[i]: the final
   * state and the items yielded.
   */
  function Run<K>(c: Cursor<K>, mapData: MapData, oracles: seq<NextKeyOracle<K>>): (r: (Cursor<K>, seq<Item<K>>))
    ensures |r.1| == |oracles|
    decreases |oracles|
  {
    if oracles == [] then (c, [])
    else
      var (c', item) := Step(c, mapData, oracles[0]);
      var (final, items) := Run(c', mapData, oracles[1..]);
      (final, [item] + items)
  }

  /** Once the error flag is set, every later call yields nothing and changes nothing. */
  lemma {:induction false} RunAfterError<K>(c: Cursor<K>, mapData: MapData, oracles: seq<NextKeyOracle<K>>)
    requires c.err
    ensures Run(c, mapData, oracles).0 == c
    ensures forall i :: 0 <= i < |oracles| ==> Run(c, mapData, oracles).1[i] == None
    decreases |oracles|
  {
    if oracles != [] {
      RunAfterError(c, mapData, oracles[1..]);
    }
  }

  /** After an error is yielded, every later item is None. */
  lemma {:induction false} NothingAfterError<K>(c: Cursor<K>, mapData: MapData, oracles: seq<NextKeyOracle<K>>, i: nat, j: nat)
    requires i < j < |oracles|
    requires Run(c, mapData, oracles).1[i].Some? && Run(c, mapData, oracles).1[i].value.Err?
    ensures Run(c, mapData, oracles).1[j] == None
    decreases |oracles|
  {
    var (c', item) := Step(c, mapData, oracles[0]);
    if i == 0 {
      RunAfterError(c', mapData, oracles[1..]);
      assert Run(c, mapData, oracles).1[j] == Run(c', mapData, oracles[1..]).1[j - 1];
    } else {
      assert Run(c, mapData, oracles).1[i] == Run(c', mapData, oracles[1..]).1[i - 1];
      NothingAfterError(c', mapData, oracles[1..], i - 1, j - 1);
    }
  }

  /** A yielded key is the cursor from then on, until another key is yielded. */
  lemma {:induction false} LastKeyIsCursor<K>(c: Cursor<K>, mapData: MapData, oracles: seq<NextKeyOracle<K>>, i: nat)
    requires i < |oracles|
    requires Run(c, mapData, oracles).1[i].Some? && Run(c, mapData, oracles).1[i].value.Ok?
    requires forall j :: i < j < |oracles| ==> !(Run(c, mapData, oracles).1[j].Some? && Run(c, mapData, oracles).1[j].value.Ok?)
    ensures Run(c, mapData, oracles).0.key == Run(c, mapData, oracles).1[i].value.value
    decreases |oracles|
  {
    var (c', item) := Step(c, mapData, oracles[0]);
    var rest := Run(c', mapData, oracles[1..]);
    if i == 0 {
      assert c' == Cursor(false, item.value.value);
      forall j | 0 <= j < |rest.1|
        ensures !(rest.1[j].Some? && rest.1[j].value.Ok?)
      {
        assert rest.1[j] == Run(c, mapData, oracles).1[j + 1];
      }
      NoKeyKeepsCursor(c', mapData, oracles[1..]);
    } else {
      assert Run(c, mapData, oracles).1[i] == rest.1[i - 1];
      forall j | i - 1 < j < |rest.1|
        ensures !(rest.1[j].Some? && rest.1[j].value.Ok?)
      {
        assert rest.1[j] == Run(c, mapData, oracles).1[j + 1];
      }
      LastKeyIsCursor(c', mapData, oracles[1..], i - 1);
    }
  }

  /** Calls that yield no key leave the cursor where it was. */
  lemma {:induction false} NoKeyKeepsCursor<K>(c: Cursor<K>, mapData: MapData, oracles: seq<NextKeyOracle<K>>)
    requires forall j :: 0 <= j < |oracles| ==> !(Run(c, mapData, oracles).1[j].Some? && Run(c, mapData, oracles).1[j].value.Ok?)
    ensures Run(c, mapData, oracles).0.key == c.key
    decreases |oracles|
  {
    if oracles != [] {
      var (c', item) := Step(c, mapData, oracles[0]);
      assert Run(c, mapData, oracles).1[0] == item;
      forall j | 0 <= j < |oracles| - 1
        ensures !(Run(c', mapData, oracles[1..]).1[j].Some? && Run(c', mapData, oracles[1..]).1[j].value.Ok?)
      {
        assert Run(c', mapData, oracles[1..]).1[j] == Run(c, mapData, oracles).1[j + 1];
      }
      NoKeyKeepsCursor(c', mapData, oracles[1..]);
    }
  }
}
