/**
 * Configuration strings kept in the "config" NVS namespace (config.c).
 *
 * `config_get_string` returns the stored value of a key; a missing key with
 * a default is first created with the default.  The NVS operations that can
 * fail are reported by an `NvsFaults` value.
 */
module Config {
  import opened Base

  /** The error, if any, each NVS call of one lookup reports. */
  datatype NvsFaults = NvsFaults(
    openErr: Option<EspErr>,    // nvs_open
    lookupErr: Option<EspErr>,  // first nvs_get_str on a present key: an error other than "not found"
    setErr: Option<EspErr>,     // nvs_set_str of the default
    commitErr: Option<EspErr>,  // nvs_commit
    allocFails: bool,           // malloc(req_len)
    readErr: Option<EspErr>)    // second nvs_get_str into the buffer

  const NoFaults := NvsFaults(None, None, None, None, false, None)

  /** What `*str` points to on return. */
  datatype CfgStr = NullStr | Unfilled | Value(s: string)

  /** The returned code, `*str`, and the namespace's entries afterwards. */
  datatype Lookup = Lookup(err: EspErr, str: CfgStr, entries: map<string, string>)

  /** An NVS error is never `ESP_OK`. */
  predicate WellFormed(f: NvsFaults)
  {
    (f.openErr == None || f.openErr != Some(Ok)) && (f.lookupErr == None || f.lookupErr !in {Some(Ok), Some(NvsNotFound)})
    && (f.setErr == None || f.setErr != Some(Ok)) && (f.commitErr == None || f.commitErr != Some(Ok))
    && (f.readErr == None || f.readErr != Some(Ok))
  }

  /**
   * The steps of `config_get_string` up to the allocation: the error so far,
   * whether the function has already given up, and the entries afterwards.
   */
  function Prepare(entries: map<string, string>, key: string, def: Option<string>, f: NvsFaults): (r: Lookup)
  {
    if f.openErr.Some? then Lookup(f.openErr.value, NullStr, entries)
    else if key in entries then
      if f.lookupErr.Some? then Lookup(f.lookupErr.value, NullStr, entries)
      else Lookup(Ok, Unfilled, entries)
    else if def.None? then Lookup(NvsNotFound, NullStr, entries)
    else if f.setErr.Some? then Lookup(f.setErr.value, NullStr, entries)
    else if f.commitErr.Some? then Lookup(f.commitErr.value, NullStr, entries[key := def.value])
    else Lookup(Ok, Unfilled, entries[key := def.value])
  }

  /**
   * `config_get_string(key, &str, def)` as the source is written: a failed
   * allocation leaves `*str` NULL but still returns `ESP_OK`.
   */
  function GetStringAsWritten(entries: map<string, string>, key: string, def: Option<string>, f: NvsFaults): Lookup
  {
    var p := Prepare(entries, key, def, f);
    if p.str != Unfilled then p
    else if f.allocFails then Lookup(Ok, NullStr, p.entries)
    else if f.readErr.Some? then Lookup(f.readErr.value, Unfilled, p.entries)
    else Lookup(Ok, Value(p.entries[key]), p.entries)
  }

  /** The as-written lookup can report success while handing back no string. */
  lemma AllocFailureReportsOk()
    ensures var r := GetStringAsWritten(map["acl_file" := "/config/acl.csv"], "acl_file", None,
                                        NvsFaults(None, None, None, None, true, None));
      r.err == Ok && r.str == NullStr
  {
  }

  /** `config_get_string` with a failed allocation reported as `ESP_ERR_NO_MEM`. */
  function GetString(entries: map<string, string>, key: string, def: Option<string>, f: NvsFaults): Lookup
  {
    var p := Prepare(entries, key, def, f);
    if p.str != Unfilled then p
    else if f.allocFails then Lookup(NoMem, NullStr, p.entries)
    else if f.readErr.Some? then Lookup(f.readErr.value, Unfilled, p.entries)
    else Lookup(Ok, Value(p.entries[key]), p.entries)
  }

  /** Corrected: success and a returned string go together, and the string is the stored value. */
  lemma GetStringOkIffValue(entries: map<string, string>, key: string, def: Option<string>, f: NvsFaults)
    requires WellFormed(f)
    ensures var r := GetString(entries, key, def, f);
      (r.err == Ok <==> r.str.Value?) && (r.str.Value? ==> key in r.entries && r.str.s == r.entries[key])
  {
  }

  /** A stored key is returned as stored, and the namespace is left unchanged. */
  lemma PresentKey(entries: map<string, string>, key: string, def: Option<string>)
    requires key in entries
    ensures GetString(entries, key, def, NoFaults) == Lookup(Ok, Value(entries[key]), entries)
  {
  }

  /** A missing key with a default is created with the default, which is returned. */
  lemma MissingKeyWithDefault(entries: map<string, string>, key: string, d: string)
    requires key !in entries
    ensures GetString(entries, key, Some(d), NoFaults) == Lookup(Ok, Value(d), entries[key := d])
  {
  }

  /** A missing key without a default is "not found", whatever else would fail. */
  lemma MissingKeyNoDefault(entries: map<string, string>, key: string, f: NvsFaults)
    requires key !in entries && f.openErr.None?
    ensures GetString(entries, key, None, f) == Lookup(NvsNotFound, NullStr, entries)
  {
  }

  /**
   * Only a default can change the namespace, only for a missing key, and
   * only by adding that key.
   */
  lemma StoreChangesOnlyByDefault(entries: map<string, string>, key: string, def: Option<string>, f: NvsFaults)
    ensures var r := GetString(entries, key, def, f);
      r.entries == entries || (key !in entries && def.Some? && r.entries == entries[key := def.value])
  {
  }

  /**
   * Repeating a successful lookup returns the same value and changes nothing,
   * whatever default the second call offers.
   */
  lemma RepeatedLookup(entries: map<string, string>, key: string, d1: Option<string>, d2: Option<string>)
    requires GetString(entries, key, d1, NoFaults).err == Ok
    ensures var r1 := GetString(entries, key, d1, NoFaults);
      GetString(r1.entries, key, d2, NoFaults) == r1
  {
    var r1 := GetString(entries, key, d1, NoFaults);
    assert key in r1.entries;
  }

  /** The NVS namespace "config". */
  class NvsStore {
    var entries: map<string, string>

    constructor (entries: map<string, string>)
      ensures this.entries == entries
    {
      this.entries := entries;
    }

    /** `config_get_string(key, &str, def)`, with the allocation failure reported. */
    method Get(key: string, def: Option<string>, f: NvsFaults) returns (err: EspErr, str: CfgStr)
      modifies this
      ensures Lookup(err, str, entries) == GetString(old(entries), key, def, f)
    {
      str := NullStr;
      if f.openErr.Some? {
        return f.openErr.value, str;
      }
      if key !in entries {
        if def.None? {
          return NvsNotFound, str;
        }
        if f.setErr.Some? {
          return f.setErr.value, str;
        }
        entries := entries[key := def.value];
        if f.commitErr.Some? {
          return f.commitErr.value, str;
        }
      } else if f.lookupErr.Some? {
        return f.lookupErr.value, str;
      }
      if f.allocFails {
        return NoMem, str;
      }
      str := Unfilled;
      if f.readErr.Some? {
        return f.readErr.value, str;
      }
      str := Value(entries[key]);
      err := Ok;
    }
  }
}
