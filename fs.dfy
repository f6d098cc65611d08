/**
 * The files the firmware keeps on its FAT volumes (`/config`, `/sdcard`), and
 * the mutexes that serialise access to them.
 */
module Fs {
  import opened Base

  /** Regular files by absolute path.  A `fault` flag stands for any I/O error the volume reports. */
  class FileSystem {
    var files: map<string, Bytes>

    constructor (files: map<string, Bytes>)
      ensures this.files == files
    {
      this.files := files;
    }

    /** `unlink(path) == 0`: fails when the file is missing or the volume refuses. */
    method Unlink(path: string, fault: bool) returns (ok: bool)
      modifies this
      ensures ok == (path in old(files) && !fault)
      ensures files == if ok then old(files) - {path} else old(files)
    {
      ok := path in files && !fault;
      if ok {
        files := files - {path};
      }
    }

    /**
     * `rename(src, dst) == 0` on a FAT volume: the source must exist and the
     * destination must not.
     */
    method Rename(src: string, dst: string, fault: bool) returns (ok: bool)
      modifies this
      ensures ok == (src in old(files) && dst !in old(files) && !fault)
      ensures ok ==> files == (old(files) - {src})[dst := old(files)[src]]
      ensures !ok ==> files == old(files)
    {
      ok := src in files && dst !in files && !fault;
      if ok {
        files := (files - {src})[dst := files[src]];
      }
    }

    /** `open(path, O_WRONLY | O_CREAT | O_TRUNC)`: the file exists and is empty. */
    method Truncate(path: string, fault: bool) returns (ok: bool)
      modifies this
      ensures ok == !fault
      ensures files == if ok then old(files)[path := []] else old(files)
    {
      ok := !fault;
      if ok {
        files := files[path := []];
      }
    }

    /** `write(fd, data, len)` at the end of an open file. */
    method Append(path: string, data: Bytes)
      requires path in files
      modifies this
      ensures files == old(files)[path := old(files)[path] + data]
    {
      files := files[path := files[path] + data];
    }
  }

  /**
   * The FreeRTOS mutexes around the files: `g_sdcard_mutex` (the SD card),
   * `g_acl_mutex` (the installed ACL) and `s_fd_mutex` (the one download
   * file the HTTP client writes).  `true` means some task holds it.
   */
  class Locks {
    var sdcardHeld: bool
    var aclHeld: bool
    var fdHeld: bool

    constructor ()
      ensures !sdcardHeld && !aclHeld && !fdHeld
    {
      sdcardHeld, aclHeld, fdHeld := false, false, false;
    }
  }
}
