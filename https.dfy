/**
 * The HTTP file fetcher (net/https.c): one request whose response body is
 * written to a file as it arrives.  What the network delivers is given as
 * an `Exchange`.
 */
module Https {
  import opened Base
  import opened Fs

  /** One `HTTP_EVENT_ON_DATA` delivery and whether writing it to the file failed. */
  datatype DataChunk = DataChunk(bytes: Bytes, writeFails: bool)

  /**
   * The outcome of `esp_http_client_perform` for one request: whether the
   * download file could be opened, the client's error, the HTTP status, whether
   * the response is chunked, and the body deliveries the handler saw.
   */
  datatype Exchange = Exchange(openFails: bool, performErr: EspErr, status: int, chunked: bool, data: seq<DataChunk>)

  /** The bytes that reach the file: every delivery whose write succeeded, in order. */
  function Written(data: seq<DataChunk>): Bytes
    decreases |data|
  {
    if data == [] then []
    else
      var last := data[|data| - 1];
      Written(data[..|data| - 1]) + (if last.writeFails then [] else last.bytes)
  }

  /** The file's contents after the exchange: a chunked response writes nothing. */
  function Sink(x: Exchange): Bytes
  {
    if x.chunked then [] else Written(x.data)
  }

  /** The whole response body, as the server sent it. */
  function Body(data: seq<DataChunk>): Bytes
    decreases |data|
  {
    if data == [] then [] else Body(data[..|data| - 1]) + data[|data| - 1].bytes
  }

  /** When no write fails, the file holds the response body exactly. */
  lemma {:induction false} WrittenIsBody(data: seq<DataChunk>)
    requires forall i :: 0 <= i < |data| ==> !data[i].writeFails
    ensures Written(data) == Body(data)
    decreases |data|
  {
    if data != [] {
      WrittenIsBody(data[..|data| - 1]);
    }
  }

  /** A failed write loses bytes and never adds any: the file is never longer than the body. */
  lemma {:induction false} WrittenWithinBody(data: seq<DataChunk>)
    ensures |Written(data)| <= |Body(data)|
    decreases |data|
  {
    if data != [] {
      WrittenWithinBody(data[..|data| - 1]);
    }
  }

  /** The `HTTP_EVENT_ON_DATA` branch of `http_get_event_handler`. */
  method OnData(fs: FileSystem, path: string, chunk: DataChunk, chunked: bool)
    requires path in fs.files
    modifies fs
    ensures fs.files == if chunked || chunk.writeFails then old(fs.files)
                        else old(fs.files)[path := old(fs.files)[path] + chunk.bytes]
  {
    if !chunked && !chunk.writeFails {
      fs.Append(path, chunk.bytes);
    }
  }

  /**
   * `http_get_file(id, url, user, pass, filename, &result)`: `result` is the
   * caller's variable, overwritten only when the request completed.
   */
  method GetFile(fs: FileSystem, locks: Locks, url: string, user: string, pass: string,
                 filename: string, x: Exchange, result: int)
    returns (err: EspErr, status: int)
    requires !locks.fdHeld
    modifies fs, locks`fdHeld
    ensures !locks.fdHeld
    ensures x.openFails ==> err == Fail && status == result && fs.files == old(fs.files)
    ensures !x.openFails ==> err == x.performErr && fs.files == old(fs.files)[filename := Sink(x)]
    ensures !x.openFails ==> status == if err == Ok then x.status else result
  {
    locks.fdHeld := true;
    var isOpen := fs.Truncate(filename, x.openFails);
    if !isOpen {
      locks.fdHeld := false;
      return Fail, result;
    }
    var i := 0;
    while i < |x.data|
      invariant 0 <= i <= |x.data|
      invariant fs.files == old(fs.files)[filename := if x.chunked then [] else Written(x.data[..i])]
    {
      assert x.data[..i + 1][..i] == x.data[..i];
      assert Written(x.data[..i + 1]) ==
             Written(x.data[..i]) + (if x.data[i].writeFails then [] else x.data[i].bytes);
      ghost var before := fs.files;
      OnData(fs, filename, x.data[i], x.chunked);
      if !x.chunked && !x.data[i].writeFails {
        assert fs.files == before[filename := before[filename] + x.data[i].bytes];
        assert fs.files == old(fs.files)[filename := Written(x.data[..i + 1])];
      } else if !x.chunked {
        assert Written(x.data[..i + 1]) == Written(x.data[..i]);
      }
      i := i + 1;
    }
    assert x.data[..i] == x.data;
    err, status := x.performErr, result;
    if err == Ok {
      status := x.status;
    }
    locks.fdHeld := false;
  }

  /** `http_post`: not implemented by the firmware. */
  function Post(url: string, data: string, size: int): EspErr
  {
    Fail
  }

  lemma PostAlwaysFails(url: string, data: string, size: int)
    ensures Post(url, data, size) == Fail
  {
  }
}
