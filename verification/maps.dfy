/**
 * What the LPM-trie handle needs from the generic map layer: the map's
 * descriptor data, the outcome of a `bpf` syscall, and the error type.
 * The map layer's own source is not part of this model; `FdOrErr` and
 * `CheckKvSize` are stated by the outcomes the LPM-trie tests assert.
 */
module Maps {
  import opened Wrappers

  /** A raw file descriptor. */
  type Fd = int

  /** The operating-system error a failed syscall reports. */
  datatype IoError = IoError(rawOsError: int)

  /**
   * The outcome of a `bpf` syscall wrapper: a value, or the syscall's
   * return code together with the operating-system error.
   */
  datatype SysResult<T> = SysOk(value: T) | SysErr(code: int, ioError: IoError)

  datatype MapError =
    | InvalidKeySize(size: nat, expected: nat)
    | InvalidValueSize(size: nat, expected: nat)
    | NotCreated
    | KeyNotFound
    | SyscallError(call: string, ioError: IoError)

  /**
   * A map as the loader holds it: the key and value sizes of its
   * definition, and its descriptor once the map has been created.
   */
  datatype MapData = MapData(keySize: nat, valueSize: nat, fd: Option<Fd>)

  /** The map's descriptor, or NotCreated when the map has none. */
  function FdOrErr(m: MapData): (r: Result<Fd, MapError>)
    ensures r.Ok? <==> m.fd.Some?
    ensures r.Ok? ==> r.value == m.fd.value
    ensures r.Err? ==> r.error == NotCreated
  {
    match m.fd
    case Some(fd) => Ok(fd)
    case None => Err(NotCreated)
  }

  /**
   * Checks a handle's key and value sizes against the map definition. An
   * error reports the handle's size and the size the definition expects.
   */
  function CheckKvSize(m: MapData, keySize: nat, valueSize: nat): (r: Result<(), MapError>)
    ensures r.Ok? <==> keySize == m.keySize && valueSize == m.valueSize
    ensures keySize != m.keySize ==> r == Err(InvalidKeySize(keySize, m.keySize))
    ensures keySize == m.keySize && valueSize != m.valueSize ==> r == Err(InvalidValueSize(valueSize, m.valueSize))
  {
    if keySize != m.keySize then Err(InvalidKeySize(keySize, m.keySize))
    else if valueSize != m.valueSize then Err(InvalidValueSize(valueSize, m.valueSize))
    else Ok(())
  }
}
