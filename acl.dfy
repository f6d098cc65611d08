/**
 * Validation of the cached access-control list (acl.c).
 *
 * The ACL data file is trusted only if the hash file next to it holds the
 * lower-case hex SHA-224 of the data.  The digest algorithm is a parameter
 * `H`; the check streams the data file through it in 256-byte reads.  Any
 * failure or mismatch removes both files.
 */
module Acl {
  import opened Base
  import opened Events
  import opened Fs
  import Config

  /** The 28 bytes of a SHA-224 digest. */
  type Digest = d: Bytes | |d| == 28 witness seq(28, _ => 0)

  /** `sha224_len`: 56 hex digits and a terminator. */
  const HashBufLen := 57
  const ReadChunk := 256

  const DefaultDataFile := "/config/acl.csv"
  const DefaultHashFile := "/config/acl.sha"

  /** The bytes of an ASCII string. */
  function Ascii(s: string): (r: Bytes)
    requires forall i :: 0 <= i < |s| ==> s[i] as int < 256
    ensures |r| == |s| && forall i :: 0 <= i < |s| ==> r[i] as int == s[i] as int
  {
    seq(|s|, i requires 0 <= i < |s| => s[i] as int as uint8)
  }

  lemma HexIsAscii(d: Bytes)
    ensures forall i :: 0 <= i < |HexOf(d)| ==> HexOf(d)[i] as int < 128
  {
    HexOfDigits(d);
  }

  /** The 56 hex digits the hash file is expected to start with. */
  function HashText(d: Digest): (r: Bytes)
    ensures |r| == 56
  {
    HexIsAscii(d);
    Ascii(HexOf(d))
  }

  /** The hash text never holds a NUL, so it reads back whole as a C string. */
  lemma HashTextNoNul(d: Digest)
    ensures 0 !in HashText(d)
  {
    HexOfDigits(d);
    var t := HashText(d);
    forall i | 0 <= i < |t|
      ensures t[i] != 0
    {
      assert IsLowerHex(HexOf(d)[i]);
    }
  }

  /** Equal hash texts come from equal digests. */
  lemma HashTextInjective(a: Digest, b: Digest)
    requires HashText(a) == HashText(b)
    ensures a == b
  {
    HexIsAscii(a);
    HexIsAscii(b);
    assert forall i :: 0 <= i < 56 ==> HexOf(a)[i] as int == HashText(a)[i] as int == HashText(b)[i] as int == HexOf(b)[i] as int;
    assert HexOf(a) == HexOf(b);
    HexOfInjective(a, b);
  }

  // ---------------------------------------------------------------------
  // Reading the stored hash
  // ---------------------------------------------------------------------

  /**
   * The stored-hash buffer after `read(fd, hash, 57)` and the NUL fence at
   * index 56; `junk` is what the buffer held before.  A short read leaves
   * the rest of the old contents in place.
   */
  function StoredBuffer(junk: Bytes, file: Bytes): (r: Bytes)
    requires |junk| == HashBufLen
    ensures |r| == HashBufLen && r[56] == 0
  {
    var n := Min(HashBufLen, |file|);
    (file[..n] + junk[n..])[..56] + [0]
  }

  /** A hash file of at least 56 NUL-free bytes is read as exactly those bytes. */
  lemma StoredBufferFull(junk: Bytes, file: Bytes)
    requires |junk| == HashBufLen && |file| >= 56 && 0 !in file[..56]
    ensures CStr(StoredBuffer(junk, file), 0) == file[..56]
  {
    var b := StoredBuffer(junk, file);
    assert b == file[..56] + [0] + [];
    CStrTerminated(file[..56], 0, []);
  }

  /** `acl_get_stored_hash__acl_mutex(filename, hash)`. */
  method ReadStoredHash(fs: FileSystem, path: string, readFails: bool, hash: array<uint8>)
    returns (err: EspErr)
    requires hash.Length == HashBufLen
    modifies hash
    ensures err == Ok <==> (path in fs.files && !readFails)
    ensures err != Ok ==> err == Fail && hash[..] == old(hash[..])
    ensures err == Ok ==> hash[..] == StoredBuffer(old(hash[..]), fs.files[path])
  {
    if path !in fs.files || readFails {
      return Fail;
    }
    var file := fs.files[path];
    var n := Min(HashBufLen, |file|);
    forall i | 0 <= i < n {
      hash[i] := file[i];
    }
    hash[HashBufLen - 1] := 0;
    err := Ok;
  }

  // ---------------------------------------------------------------------
  // Hashing the data file
  // ---------------------------------------------------------------------

  /**
   * The I/O results one validation sees; `…At(k)` means the k-th call (from
   * 0) fails, and the last two say whether the removal of the data file and
   * of the hash file fails.
   */
  datatype AclIo = AclIo(
    hashReadFails: bool,
    mdSetupFails: bool,
    dataReadFailsAt: Option<nat>,
    mdUpdateFailsAt: Option<nat>,
    dataUnlinkFails: bool,
    hashUnlinkFails: bool)

  /** Number of non-empty 256-byte reads of a file of `len` bytes. */
  function Chunks(len: nat): nat
  {
    (len + ReadChunk - 1) / ReadChunk
  }

  /**
   * The streaming loop ends with `read` returning 0: every read up to and
   * including that last one, and every update before it, must succeed.
   */
  predicate StreamOk(io: AclIo, len: nat)
  {
    && !io.mdSetupFails
    && (io.dataReadFailsAt.None? || io.dataReadFailsAt.value > Chunks(len))
    && (io.mdUpdateFailsAt.None? || io.mdUpdateFailsAt.value >= Chunks(len))
  }

  /** `acl_compute_stored_hash__acl_mutex(filename, hash)`. */
  method ComputeStoredHash(fs: FileSystem, path: string, H: Bytes -> Digest, io: AclIo, hash: array<uint8>)
    returns (err: EspErr)
    requires hash.Length == HashBufLen
    modifies hash
    ensures err == Ok <==> (path in fs.files && StreamOk(io, |fs.files[path]|))
    ensures err != Ok ==> err == Fail && hash[..] == old(hash[..])
    ensures err == Ok ==> hash[..] == HashText(H(fs.files[path])) + [0]
  {
    if path !in fs.files || io.mdSetupFails {
      return Fail;
    }
    var file := fs.files[path];
    var fed: Bytes := [];   // what the digest context has absorbed
    var pos, k := 0, 0;
    var r := -1;
    while true
      invariant 0 <= pos <= |file| && k <= Chunks(|file|)
      invariant pos == Min(k * ReadChunk, |file|)
      invariant fed == file[..pos]
      invariant io.dataReadFailsAt.None? || io.dataReadFailsAt.value >= k
      invariant io.mdUpdateFailsAt.None? || io.mdUpdateFailsAt.value >= k
      decreases |file| - pos
    {
      if io.dataReadFailsAt == Some(k) {
        r := -1;
        break;
      }
      var n := Min(ReadChunk, |file| - pos);
      if n == 0 {
        r := 0;
        break;
      }
      if io.mdUpdateFailsAt == Some(k) {
        r := -1;
        break;
      }
      fed := fed + file[pos..pos + n];
      pos, k := pos + n, k + 1;
    }
    if r != 0 {
      return Fail;
    }
    assert pos == |file| && k == Chunks(|file|);
    assert fed == file;
    var hbuf := H(fed);
    var text := HashText(hbuf);
    var idx := 0;
    while idx < 28
      invariant 0 <= idx <= 28
      invariant forall j :: 0 <= j < 2 * idx ==> hash[j] == text[j]
    {
      var h := Hex2(hbuf[idx], false);
      HexOfAt(hbuf, idx);
      hash[2 * idx], hash[2 * idx + 1], hash[2 * idx + 2] := h[0] as int as uint8, h[1] as int as uint8, 0;
      idx := idx + 1;
    }
    hash[HashBufLen - 1] := 0;
    assert hash[..56] == text;
    assert hash[..] == hash[..56] + [hash[56]];
    err := Ok;
  }

  // ---------------------------------------------------------------------
  // Validation
  // ---------------------------------------------------------------------

  /** When `acl_validate` accepts the installed files. */
  ghost predicate Accepts(files: map<string, Bytes>, dataPath: string, hashPath: string,
                          H: Bytes -> Digest, io: AclIo, junk: Bytes)
    requires |junk| == HashBufLen
  {
    && hashPath in files && !io.hashReadFails
    && dataPath in files && StreamOk(io, |files[dataPath]|)
    && CStr(StoredBuffer(junk, files[hashPath]), 0) == HashText(H(files[dataPath]))
  }

  /** The files a rejection removes: each one whose `unlink` succeeds. */
  function Unlinked(dataPath: string, hashPath: string, io: AclIo): set<string>
  {
    (if io.dataUnlinkFails then {} else {dataPath}) + (if io.hashUnlinkFails then {} else {hashPath})
  }

  /**
   * `acl_validate()` on the files the configuration names; `junk` is the
   * uninitialised contents of the freshly allocated stored-hash buffer.
   */
  method Validate(fs: FileSystem, dataPath: string, hashPath: string, H: Bytes -> Digest,
                  io: AclIo, junk: Bytes)
    returns (r: EspErr)
    requires |junk| == HashBufLen
    modifies fs
    ensures r == Ok || r == Fail
    ensures r == Ok <==> Accepts(old(fs.files), dataPath, hashPath, H, io, junk)
    ensures fs.files == if r == Ok then old(fs.files) else old(fs.files) - Unlinked(dataPath, hashPath, io)
  {
    var stored := new uint8[HashBufLen](i requires 0 <= i < HashBufLen => junk[i]);
    var computed := new uint8[HashBufLen];
    assert stored[..] == junk;
    r := Fail;
    var e := ReadStoredHash(fs, hashPath, io.hashReadFails, stored);
    if e == Ok {
      e := ComputeStoredHash(fs, dataPath, H, io, computed);
      if e == Ok {
        HashTextNoNul(H(fs.files[dataPath]));
        CStrTerminated(HashText(H(fs.files[dataPath])), 0, []);
        assert CStr(computed[..], 0) == HashText(H(fs.files[dataPath]));
        if CStr(stored[..], 0) == CStr(computed[..], 0) {
          return Ok;
        }
      }
    }
    ghost var m0 := fs.files;
    var _ := fs.Unlink(dataPath, io.dataUnlinkFails);
    ghost var m1 := fs.files;
    var _ := fs.Unlink(hashPath, io.hashUnlinkFails);
    UnlinkBoth(m0, m1, fs.files, dataPath, hashPath, io);
  }

  /**
   * A failed removal is only logged: that file stays, and the other
   * removal still happens.
   */
  lemma FailedUnlinkKeepsFile(files: map<string, Bytes>, dataPath: string, hashPath: string, io: AclIo)
    requires dataPath != hashPath
    ensures var left := files - Unlinked(dataPath, hashPath, io);
      && (dataPath in left <==> dataPath in files && io.dataUnlinkFails)
      && (hashPath in left <==> hashPath in files && io.hashUnlinkFails)
  {
  }

  /** Two removals, each only logged when it fails, remove the files whose removal succeeds. */
  lemma UnlinkBoth(m0: map<string, Bytes>, m1: map<string, Bytes>, m2: map<string, Bytes>,
                   dataPath: string, hashPath: string, io: AclIo)
    requires m1 == if dataPath in m0 && !io.dataUnlinkFails then m0 - {dataPath} else m0
    requires m2 == if hashPath in m1 && !io.hashUnlinkFails then m1 - {hashPath} else m1
    ensures m2 == m0 - Unlinked(dataPath, hashPath, io)
  {
  }

  /**
   * Round trip: a hash file that starts with the hex digest of the data file
   * is accepted when the I/O succeeds, whatever follows the 56 digits and
   * whatever the buffer held before.
   */
  lemma AcceptsOwnDigest(files: map<string, Bytes>, dataPath: string, hashPath: string,
                         H: Bytes -> Digest, io: AclIo, junk: Bytes, trailer: Bytes)
    requires |junk| == HashBufLen && dataPath in files && !io.hashReadFails && StreamOk(io, |files[dataPath]|)
    requires hashPath in files && files[hashPath] == HashText(H(files[dataPath])) + trailer
    ensures Accepts(files, dataPath, hashPath, H, io, junk)
  {
    var t := HashText(H(files[dataPath]));
    HashTextNoNul(H(files[dataPath]));
    assert files[hashPath][..56] == t;
    StoredBufferFull(junk, files[hashPath]);
  }

  /**
   * For a hash file of at least 56 NUL-free bytes, acceptance means exactly
   * that the I/O succeeded and those bytes equal the data file's hex digest.
   */
  lemma AcceptsIff(files: map<string, Bytes>, dataPath: string, hashPath: string,
                   H: Bytes -> Digest, io: AclIo, junk: Bytes)
    requires |junk| == HashBufLen && hashPath in files
    requires |files[hashPath]| >= 56 && 0 !in files[hashPath][..56]
    ensures Accepts(files, dataPath, hashPath, H, io, junk) <==>
            (!io.hashReadFails && dataPath in files && StreamOk(io, |files[dataPath]|)
             && files[hashPath][..56] == HashText(H(files[dataPath])))
  {
    StoredBufferFull(junk, files[hashPath]);
  }

  /** Changed data whose digest differs from the recorded one is refused. */
  lemma RejectsChangedData(files: map<string, Bytes>, dataPath: string, hashPath: string,
                           H: Bytes -> Digest, io: AclIo, junk: Bytes, original: Bytes)
    requires |junk| == HashBufLen && hashPath in files && dataPath in files
    requires files[hashPath] == HashText(H(original))
    requires H(files[dataPath]) != H(original)
    ensures !Accepts(files, dataPath, hashPath, H, io, junk)
  {
    HashTextNoNul(H(original));
    StoredBufferFull(junk, files[hashPath]);
    if Accepts(files, dataPath, hashPath, H, io, junk) {
      HashTextInjective(H(files[dataPath]), H(original));
    }
  }

  /** An empty hash file over a zeroed buffer never validates. */
  lemma EmptyHashFileRejected(files: map<string, Bytes>, dataPath: string, hashPath: string,
                              H: Bytes -> Digest, io: AclIo)
    requires hashPath in files && files[hashPath] == []
    ensures !Accepts(files, dataPath, hashPath, H, io, seq(HashBufLen, _ => 0))
  {
    var b := StoredBuffer(seq(HashBufLen, _ => 0), []);
    assert b[0] == 0;
    assert CStr(b, 0) == [];
  }

  // ---------------------------------------------------------------------
  // Start-up
  // ---------------------------------------------------------------------

  /** `acl_get_data_filename(&s)`. */
  method DataFilename(store: Config.NvsStore, f: Config.NvsFaults) returns (err: EspErr, s: Config.CfgStr)
    modifies store
    ensures Config.Lookup(err, s, store.entries) ==
            Config.GetString(old(store.entries), "acl_file", Some(DefaultDataFile), f)
  {
    err, s := store.Get("acl_file", Some(DefaultDataFile), f);
  }

  /** `acl_get_hash_filename(&s)`. */
  method HashFilename(store: Config.NvsStore, f: Config.NvsFaults) returns (err: EspErr, s: Config.CfgStr)
    modifies store
    ensures Config.Lookup(err, s, store.entries) ==
            Config.GetString(old(store.entries), "acl_hash_file", Some(DefaultHashFile), f)
  {
    err, s := store.Get("acl_hash_file", Some(DefaultHashFile), f);
  }

  /** A fresh configuration names the default files and records them. */
  lemma DefaultFilenames(entries: map<string, string>)
    requires "acl_file" !in entries && "acl_hash_file" !in entries
    ensures Config.GetString(entries, "acl_file", Some(DefaultDataFile), Config.NoFaults).str
            == Config.Value(DefaultDataFile)
    ensures Config.GetString(entries, "acl_hash_file", Some(DefaultHashFile), Config.NoFaults).str
            == Config.Value(DefaultHashFile)
  {
    Config.MissingKeyWithDefault(entries, "acl_file", DefaultDataFile);
    Config.MissingKeyWithDefault(entries, "acl_hash_file", DefaultHashFile);
  }

  /** The ACL status `acl_init` shows for a validation result. */
  function InitStatus(validated: EspErr): (AclStatus, int)
  {
    if validated == Ok then (AclCached, 100) else (AclError, 0)
  }

  /**
   * `acl_init()`: without its mutex it fails and shows nothing; otherwise it
   * validates the cache, shows the outcome, and succeeds either way.
   */
  method Init(fs: FileSystem, dataPath: string, hashPath: string, H: Bytes -> Digest,
              io: AclIo, junk: Bytes, mutexCreated: bool)
    returns (r: EspErr, shown: Option<(AclStatus, int)>)
    requires |junk| == HashBufLen
    modifies fs
    ensures !mutexCreated ==> r == Fail && shown == None && fs.files == old(fs.files)
    ensures mutexCreated ==> r == Ok
    ensures mutexCreated ==> var ok := Accepts(old(fs.files), dataPath, hashPath, H, io, junk);
      && shown == Some(if ok then (AclCached, 100) else (AclError, 0))
      && fs.files == if ok then old(fs.files) else old(fs.files) - Unlinked(dataPath, hashPath, io)
  {
    if !mutexCreated {
      return Fail, None;
    }
    var v := Validate(fs, dataPath, hashPath, H, io, junk);
    shown := Some(InitStatus(v));
    r := Ok;
  }
}
