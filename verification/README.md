# aya: cgroup-socket attach types and the LPM-trie map handle

This project models two self-contained pieces of the aya eBPF library in
Dafny and proves properties of them.

- **Cgroup-socket attach types** (`aya-obj/src/programs/cgroup_sock.rs`).
  `CgroupSockAttachType` has four variants: `PostBind4`, `PostBind6`,
  `SockCreate` and `SockRelease`. The default is `SockCreate`. `try_from`
  parses a variant from its exact name and rejects every other string with
  an `InvalidAttachType` that carries the input. The `From` conversion maps
  each variant to one kernel `bpf_attach_type` constant. The model is pure:
  a datatype, three functions, and lemmas about totality, injectivity and
  rejection (module `CgroupSock`).
- **The LPM-trie map handle** (`aya/src/maps/lpm_trie.rs`). The model
  covers the packed `Key` layout and `Key::new`. `LpmTrie::new` checks the
  key and value sizes before it checks for a descriptor. `get`, `insert`
  and `remove` turn syscall outcomes into `MapError`s, and
  `IterableMap::get` calls `get` with flags 0. These are functions over
  abstract syscall outcomes (module `LpmTrie`). Each `bpf` syscall is
  passed in as a function from its arguments to an outcome, which stands
  for whatever the kernel answers. The key iterator `LpmTrieKeys` is a
  class with the mutable fields `err` and `key`. Its `Next` method is
  proved against the pure step function `Step`, and the lemmas about
  `Run` show that an error latches across any sequence of calls.
- Supporting modules: `Wrappers` (Option and Result), `Maps` (the map
  data, syscall outcomes and `MapError` used by the handle) and `Bytes`
  (fixed-width integers as bytes in either byte order, with both
  round-trips proved; used to state the packed key layout).

The kernel does the longest-prefix matching. The model makes no claim
about which value a lookup returns.

## Model

| member | source | states |
|---|---|---|
| CgroupSock.Default | aya-obj/src/programs/cgroup_sock.rs:22-27 | The default attach type converts to BPF_CGROUP_INET_SOCK_CREATE and is the one named "sock_create". |
| CgroupSock.IntoBpfAttachType | aya-obj/src/programs/cgroup_sock.rs:30-39 | The conversion is total, and every variant lands on one of the four cgroup-socket kernel constants. |
| CgroupSock.TryFrom | aya-obj/src/programs/cgroup_sock.rs:45-54 | The parse succeeds exactly on the four names, and a success is the variant whose name is the input. Any other string gives InvalidAttachType holding exactly that string. |
| CgroupSock.TryFromName | aya-obj/src/programs/cgroup_sock.rs:47-51 | Each variant's name parses back to that variant. |
| CgroupSock.TryFromInjective | aya-obj/src/programs/cgroup_sock.rs:47-51 | Distinct accepted strings parse to distinct variants. |
| CgroupSock.IntoBpfAttachTypeInjective | aya-obj/src/programs/cgroup_sock.rs:32-37 | The four variants map to four distinct kernel constants. |
| CgroupSock.ParseThenConvert | aya-obj/src/programs/cgroup_sock.rs:31-54 | Parsing a name and then converting it gives a fixed constant per name, e.g. "post_bind6" gives BPF_CGROUP_INET6_POST_BIND. |
| Maps.FdOrErr | aya/src/maps/lpm_trie.rs:342-367 | A map yields its descriptor when it has one and NotCreated otherwise. |
| Maps.CheckKvSize | aya/src/maps/lpm_trie.rs:279-311 | The sizes pass exactly when both match the map definition. A key mismatch reports the handle's key size and the expected size. A value mismatch with a matching key reports the value sizes. |
| LpmTrie.NewKey | aya/src/maps/lpm_trie.rs:86-88 | A new key holds the given prefix length and data unchanged. |
| LpmTrie.KeyBytes | aya/src/maps/lpm_trie.rs:66-72 | The packed image is 4 + size(data) bytes. The first 4 bytes decode to the prefix length in host byte order and the rest is exactly the data's image, with no padding. |
| LpmTrie.KeySizes | aya/src/maps/lpm_trie.rs:279-294 | Every `Key<u16>` occupies 6 bytes and every `Key<u32>` occupies 8. |
| LpmTrie.KeyBytesInjective | aya/src/maps/lpm_trie.rs:66-72 | Two `Key<u32>` values with the same packed image are equal, so the layout loses nothing. |
| LpmTrie.New | aya/src/maps/lpm_trie.rs:103-114 | New succeeds exactly when both sizes match and a descriptor exists. The handle then wraps the given map and records the checked data and value sizes, which stand for the source's phantom key and value types. A wrong key size or value size is reported before the descriptor is looked at. With correct sizes, New fails with NotCreated exactly when the descriptor is absent. |
| LpmTrie.NewChecksSizeFirst | aya/src/maps/lpm_trie.rs:105-107 | Wrong sizes on a map without a descriptor give a size error, never NotCreated. |
| LpmTrie.WrongKeySizeScenario | aya/src/maps/lpm_trie.rs:279-294 | A `Key<u16>` handle on a map of 8-byte keys fails with InvalidKeySize { size: 6, expected: 8 }. |
| LpmTrie.WrongValueSizeScenario | aya/src/maps/lpm_trie.rs:296-311 | A 2-byte value handle on a map of 4-byte values fails with InvalidValueSize { size: 2, expected: 4 }. |
| LpmTrie.NotCreatedAndOkScenario | aya/src/maps/lpm_trie.rs:342-367 | With matching sizes, no descriptor gives NotCreated and descriptor 42 gives a handle. |
| LpmTrie.Get | aya/src/maps/lpm_trie.rs:117-126 | Get succeeds exactly when the lookup on the handle's descriptor, key and flags returns a value, and then returns that value. A lookup with no value gives KeyNotFound. A failed lookup gives SyscallError naming "bpf_map_lookup_elem" with the syscall's io error. A missing descriptor gives NotCreated. |
| LpmTrie.IterableMapGet | aya/src/maps/lpm_trie.rs:185-187 | The map-generic lookup gives exactly what a lookup with flags 0 gives. That is the value when one is found and KeyNotFound when none is. A failed syscall gives SyscallError naming "bpf_map_lookup_elem" with its io error. A missing descriptor gives NotCreated. |
| LpmTrie.Insert | aya/src/maps/lpm_trie.rs:149-164 | Insert returns Ok(()) exactly when the update syscall succeeds. A failed update gives SyscallError naming "bpf_map_update_elem" with its io error. A missing descriptor gives NotCreated. |
| LpmTrie.Remove | aya/src/maps/lpm_trie.rs:169-177 | Remove returns Ok(()) exactly when the delete syscall succeeds. A failed delete gives SyscallError naming "bpf_map_delete_elem" with its io error. A missing descriptor gives NotCreated. |
| LpmTrie.CreatedHandleSizesMatchMap | aya/src/maps/lpm_trie.rs:102-105 | On a handle New returned, a key whose data has the checked size has a packed image exactly as long as the map's keys. A value of the checked size is exactly as long as the map's values. |
| LpmTrie.CreatedHandleHasDescriptor | aya/src/maps/lpm_trie.rs:103-177 | On a handle New returned, get, insert and remove never report NotCreated, whatever the kernel answers. |
| LpmTrie.Step | aya/src/maps/lpm_trie.rs:210-237 | With the flag set, a step yields None and changes nothing. An error is yielded exactly when the step sets the flag: a missing descriptor gives NotCreated, and a failed next-key call gives SyscallError naming "bpf_map_get_next_key". A key is yielded exactly when the kernel returns one, and that key becomes the cursor. End of keys yields None and leaves the flag and the cursor unchanged. |
| LpmTrie.LpmTrieKeys.constructor | aya/src/maps/lpm_trie.rs:198-204 | A new iterator holds the map and the start key, with the error flag clear. |
| LpmTrie.LpmTrieKeys.Next | aya/src/maps/lpm_trie.rs:210-237 | One call updates the fields `err` and `key` and returns the item exactly as Step gives them from the old state. |
| LpmTrie.IterKey | aya/src/maps/lpm_trie.rs:142-144 | The iterator is new, is over the handle's map, and starts at the given key with the flag clear. |
| LpmTrie.RunAfterError | aya/src/maps/lpm_trie.rs:211-213 | Once the flag is set, every later call yields None and the state never changes, whatever the kernel answers. |
| LpmTrie.NothingAfterError | aya/src/maps/lpm_trie.rs:217-233 | In any sequence of calls, every item after a yielded error is None, so at most one error is ever yielded. |
| LpmTrie.LastKeyIsCursor | aya/src/maps/lpm_trie.rs:224-227 | After any sequence of calls, the cursor is the last key yielded. |
| LpmTrie.NoKeyKeepsCursor | aya/src/maps/lpm_trie.rs:228-233 | Calls that yield no key never move the cursor. |

## Left out

- The `bpf` syscalls themselves (`bpf_map_lookup_elem`, `bpf_map_update_elem`, `bpf_map_delete_elem`, `bpf_map_get_next_key`) and the test hook that overrides them. They are kernel I/O, so each one is a function parameter returning an abstract outcome. The lookup wrapper turns ENOENT into "no value". That wrapper is not part of this model; the model starts from its outcome.
- Longest-prefix-match semantics. The kernel does the matching, so the model states nothing about which value a lookup returns.
- Maps.CheckKvSize: the map layer that defines it is not part of this model. It is stated by the outcomes the tests assert. Checking the key size before the value size is an assumption, because no test has both sizes wrong.
- Maps.FdOrErr: the map layer that defines it is not part of this model. It is stated by the NotCreated outcome the tests assert.
- `iter` and `keys` of the handle, which delegate to `MapIter` and `MapKeys`, and the map-type check of the conversion from a generic map (the wrong-map-type test). The code for all of these is not part of this model.
- LpmTrie.Get, LpmTrie.Insert, LpmTrie.Remove: they accept a key and value of any type on any handle. In the source the type system restricts them to the `Key<K>` and `V` that `new` checked. The model states that link separately, in CreatedHandleSizesMatchMap, for keys and values whose images have the checked sizes.
- `IterableMap::map`, a plain accessor for the handle's `inner` map, and the `Clone`, `Copy` and `Pod` implementations of `Key`, which have no behaviour to state.
- The `#[error(...)]` display messages of `InvalidAttachType` and `MapError`.
- MapData fields other than the key size, value size and descriptor (pinning, type-info descriptor, section and symbol indexes). `MapError` is reduced to the variants this handle produces.
- The generated `bpf_attach_type` bindings are not part of this model. Their values are taken from the kernel's `enum bpf_attach_type` in `include/uapi/linux/bpf.h`.
- Byte order of the key's prefix length is a parameter (host order), and a key's data is given by its byte image. Sizes are unbounded naturals rather than `usize`, and descriptors are unbounded integers rather than `i32`.
- The type-info (BTF) parser, CO-RE relocation and object-file decomposition are not part of this model. Their source is not among the modelled files.
- The doc comments on `SockCreate` and `SockRelease` speak of IPv4/IPv6 connect events. The model follows the `match` arms and the variant names, which say socket creation and release.
