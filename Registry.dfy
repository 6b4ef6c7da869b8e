/**
 * The machine's configuration store (the Windows registry) as the hardening
 * engine sees it: two roots, key paths under them, and named values of two
 * types. Key paths and value names compare case-insensitively, as in the
 * registry, so the store is indexed by their case-folded forms. A key may
 * refuse to be opened (reading it throws), and a key may refuse writes
 * while still reading fine; the store records the message of each such
 * exception.
 */
module Registry {
  import opened Wrappers
  import opened Decimal
  import opened Ascii

  datatype Hive = LocalMachine | CurrentUser

  datatype KeyPath = KeyPath(hive: Hive, path: string)

  /** REG_DWORD values come back as `int`, REG_SZ values as `string`. */
  datatype RegValue = DWord(n: int32) | Str(s: string)

  function Canonical(p: KeyPath): KeyPath {
    KeyPath(p.hive, Fold(p.path))
  }

  /**
   * keys: canonical key path to its values, indexed by folded value name.
   * readDenied: canonical key paths whose opening throws, with the exception message.
   * writeDenied: canonical key paths where creating the key or setting a value throws, with the message.
   */
  datatype Store = Store(keys: map<KeyPath, map<string, RegValue>>,
                         readDenied: map<KeyPath, string>,
                         writeDenied: map<KeyPath, string>)

  /** `OpenSubKey`: the key's values, null (Absent), or an exception (Denied). */
  datatype Opened = Denied(message: string) | Absent | Values(values: map<string, RegValue>)

  function OpenSubKey(st: Store, p: KeyPath): Opened {
    var k := Canonical(p);
    if k in st.readDenied then Denied(st.readDenied[k])
    else if k in st.keys then Values(st.keys[k])
    else Absent
  }

  /** `GetValue(name)` on an open key: null when the value does not exist. */
  function GetValue(values: map<string, RegValue>, name: string): Option<RegValue> {
    if Fold(name) in values then Some(values[Fold(name)]) else None
  }

  /** The four outcomes of opening a key and reading one value from it. */
  datatype Lookup = KeyDenied(message: string) | KeyMissing | ValueMissing | Found(value: RegValue)

  function Read(st: Store, p: KeyPath, name: string): Lookup {
    match OpenSubKey(st, p)
    case Denied(msg) => KeyDenied(msg)
    case Absent => KeyMissing
    case Values(vs) => if GetValue(vs, name).Some? then Found(GetValue(vs, name).value) else ValueMissing
  }

  /** `val.ToString()`. */
  function ValueText(v: RegValue): string {
    match v
    case DWord(n) => IntToString(n)
    case Str(s) => s
  }

  datatype WriteResult = Written(store: Store) | WriteFailed(message: string)

  /** A write to the key goes through: the key can be opened and accepts writes. */
  predicate Writable(st: Store, p: KeyPath) {
    Canonical(p) !in st.readDenied && Canonical(p) !in st.writeDenied
  }

  /** `Registry.SetValue`: creates the key when missing; throws on a key that cannot be opened or written. */
  function SetValue(st: Store, p: KeyPath, name: string, v: RegValue): WriteResult {
    var k := Canonical(p);
    if k in st.readDenied then WriteFailed(st.readDenied[k])
    else if k in st.writeDenied then WriteFailed(st.writeDenied[k])
    else
      var current := if k in st.keys then st.keys[k] else map[];
      Written(Store(st.keys[k := current[Fold(name) := v]], st.readDenied, st.writeDenied))
  }

  /** The store after a write attempt: unchanged when the write threw. */
  function AfterWrite(st: Store, p: KeyPath, name: string, v: RegValue): Store {
    match SetValue(st, p, name, v)
    case Written(s) => s
    case WriteFailed(_) => st
  }

  /**
   * A write fails exactly on a key that is unreadable or refuses writes,
   * an unreadable key among them, and never changes which keys refuse.
   */
  lemma SetValueFails(st: Store, p: KeyPath, name: string, v: RegValue)
    ensures SetValue(st, p, name, v).WriteFailed? <==> !Writable(st, p)
    ensures Read(st, p, name).KeyDenied? ==> SetValue(st, p, name, v).WriteFailed?
    ensures AfterWrite(st, p, name, v).readDenied == st.readDenied
    ensures AfterWrite(st, p, name, v).writeDenied == st.writeDenied
  {
  }

  /** What was written is what is read back, unless the write threw; then the old value is read. */
  lemma ReadAfterWrite(st: Store, p: KeyPath, name: string, v: RegValue)
    ensures Read(AfterWrite(st, p, name, v), p, name)
         == if Writable(st, p) then Found(v) else Read(st, p, name)
  {
  }

  /**
   * A write leaves every other value as it was. The one visible change for a
   * different name under the same key is that a missing key now exists.
   */
  lemma WriteFrame(st: Store, p: KeyPath, name: string, v: RegValue, q: KeyPath, other: string)
    requires Canonical(q) != Canonical(p) || Fold(other) != Fold(name)
    ensures Read(AfterWrite(st, p, name, v), q, other)
         == if Canonical(q) == Canonical(p) && Writable(st, p) && Read(st, q, other) == KeyMissing then ValueMissing
            else Read(st, q, other)
  {
  }

  /** Writing a value that is already there changes nothing. */
  lemma WriteExisting(st: Store, p: KeyPath, name: string, v: RegValue)
    requires Read(st, p, name) == Found(v)
    ensures AfterWrite(st, p, name, v) == st
  {
    var k := Canonical(p);
    if Writable(st, p) {
      assert st.keys[k][Fold(name) := v] == st.keys[k];
      assert st.keys[k := st.keys[k]] == st.keys;
    }
  }
}
