/** `InMemoryJavaFileObject`: one in-memory file, identified by its URI, holding
    an optional byte payload and a last-modified time. The payload is replaced
    when a stream or writer opened on the file is closed; `delete` clears it.
    The platform clock and the platform charset are parameters. */
module FileObjects {
  import opened Common

  newtype byte = b: int | 0 <= b < 256

  /** `Charset.defaultCharset()`, reduced to its two conversions. */
  datatype Charset = Charset(encode: string -> seq<byte>, decode: seq<byte> -> string)

  /** `javax.tools.JavaFileObject.Kind`, in declaration order. */
  datatype Kind = SOURCE | CLASS | HTML | OTHER

  /** `kind.extension` */
  function Extension(kind: Kind): string
  {
    match kind
    case SOURCE => ".java"
    case CLASS => ".class"
    case HTML => ".html"
    case OTHER => ""
  }

  /** `Kind.values()` */
  const KINDS: seq<Kind> := [SOURCE, CLASS, HTML, OTHER]

  /** The position of a kind in `Kind.values()`. */
  function Ordinal(kind: Kind): (i: nat)
    ensures i < |KINDS| && KINDS[i] == kind
  {
    match kind
    case SOURCE => 0
    case CLASS => 1
    case HTML => 2
    case OTHER => 3
  }

  /** The loop of `getKindFromExtension` from position `from` of `Kind.values()` on:
      the first kind whose extension ends the path, else OTHER. */
  function FirstKindFrom(path: string, from: nat): (kind: Kind)
    requires from <= |KINDS|
    ensures EndsWith(path, Extension(kind))
    ensures kind == OTHER || from <= Ordinal(kind)
    ensures forall j :: from <= j < Ordinal(kind) ==> !EndsWith(path, Extension(KINDS[j]))
    decreases |KINDS| - from
  {
    if from == |KINDS| then OTHER
    else if EndsWith(path, Extension(KINDS[from])) then KINDS[from]
    else FirstKindFrom(path, from + 1)
  }

  /** `getKindFromExtension`: the first kind, in declaration order, whose
      extension the path ends with. OTHER has the empty extension, so it is the
      answer exactly when the path has none of the other three extensions. */
  function KindFromExtension(path: string): (kind: Kind)
    ensures EndsWith(path, Extension(kind))
    ensures forall k :: Ordinal(k) < Ordinal(kind) ==> !EndsWith(path, Extension(k))
    ensures kind == OTHER <==> !EndsWith(path, ".java") && !EndsWith(path, ".class") && !EndsWith(path, ".html")
  {
    var kind := FirstKindFrom(path, 0);
    assert forall k :: Ordinal(k) < Ordinal(kind) ==> !EndsWith(path, Extension(KINDS[Ordinal(k)]));
    kind
  }

  /** The scheme and empty authority every URI of the in-memory store starts with. */
  const MEMORY_SCHEME_PREFIX: string := "memory://"

  /** `uri.getPath()` for the URIs the in-memory store builds: what follows
      `memory://` (a path starting with '/'); any other text is taken whole. */
  function UriPath(uri: string): (path: string)
    ensures StartsWith(uri, MEMORY_SCHEME_PREFIX) ==> MEMORY_SCHEME_PREFIX + path == uri
    ensures !StartsWith(uri, MEMORY_SCHEME_PREFIX) ==> path == uri
  {
    if StartsWith(uri, MEMORY_SCHEME_PREFIX) then uri[|MEMORY_SCHEME_PREFIX|..] else uri
  }

  const NULL_URI_MESSAGE: string := "Argument 'uri' cannot be null."

  class InMemoryJavaFileObject {
    const uri: string
    const kind: Kind
    /** The charset fixed when the file was made. */
    const charset: Charset
    /** The contents of the file; None until a stream or writer has been closed. */
    var data: Option<seq<byte>>
    /** Milliseconds since the epoch of the last close, 0 when never written or deleted. */
    var lastModified: int

    constructor (uri: string, charset: Charset)
      ensures this.uri == uri && this.charset == charset
      ensures kind == KindFromExtension(UriPath(uri))
      ensures data == None && lastModified == 0
    {
      this.uri := uri;
      this.kind := KindFromExtension(UriPath(uri));
      this.charset := charset;
      data := None;
      lastModified := 0;
    }

    /** `new InMemoryJavaFileObject(uri)`, which rejects a `null` URI. */
    static method Create(uri: Option<string>, charset: Charset) returns (r: Result<InMemoryJavaFileObject>)
      ensures uri.None? ==> r == Err(IllegalArgument(NULL_URI_MESSAGE))
      ensures uri.Some? ==> r.Ok? && fresh(r.value) && r.value.uri == uri.value && r.value.charset == charset
      ensures uri.Some? ==> r.value.kind == KindFromExtension(UriPath(uri.value))
      ensures uri.Some? ==> r.value.data == None && r.value.lastModified == 0
    {
      if uri.None? {
        return Err(IllegalArgument(NULL_URI_MESSAGE));
      }
      var file := new InMemoryJavaFileObject(uri.value, charset);
      return Ok(file);
    }

    /** `openInputStream()`: the bytes a fresh stream would yield. */
    method OpenInputStream() returns (r: Result<seq<byte>>)
      ensures data.None? ==> r == Err(FileNotFound)
      ensures data.Some? ==> r == Ok(data.value)
    {
      if data.None? {
        return Err(FileNotFound);
      }
      return Ok(data.value);
    }

    /** `openReader(ignoreEncodingErrors)`: the characters a fresh reader would yield. */
    method OpenReader(ignoreEncodingErrors: bool) returns (r: Result<string>)
      ensures data.None? ==> r == Err(FileNotFound)
      ensures data.Some? ==> r == Ok(charset.decode(data.value))
    {
      if data.None? {
        return Err(FileNotFound);
      }
      return Ok(charset.decode(data.value));
    }

    /** `getCharContent(ignoreEncodingErrors)`: the whole payload, decoded. */
    method GetCharContent(ignoreEncodingErrors: bool) returns (r: Result<string>)
      ensures data.None? ==> r == Err(FileNotFound)
      ensures data.Some? ==> r == Ok(charset.decode(data.value))
      ensures r.Ok? <==> data.Some?
    {
      match data
      case None =>
        r := Err(FileNotFound);
      case Some(bytes) =>
        r := Ok(charset.decode(bytes));
    }

    /** `openOutputStream()`: an empty buffer that saves itself into this file on close. */
    method OpenOutputStream() returns (stream: ByteArrayOutput)
      ensures fresh(stream) && stream.target == this && stream.buffer == []
    {
      stream := new ByteArrayOutput(this);
    }

    /** `openWriter()`: an empty text buffer that saves its encoding into this file on close. */
    method OpenWriter() returns (writer: StringOutput)
      ensures fresh(writer) && writer.target == this && writer.text == []
    {
      writer := new StringOutput(this);
    }

    /** `getLastModified()` */
    method GetLastModified() returns (t: int)
      ensures t == lastModified
    {
      t := lastModified;
    }

    /** `delete()`: forgets the payload and the timestamp, and always succeeds. */
    method Delete() returns (deleted: bool)
      modifies this
      ensures data == None && lastModified == 0 && deleted
    {
      data := None;
      lastModified := 0;
      deleted := true;
    }
  }

  /** The `ByteArrayOutputStream` returned by `openOutputStream`. */
  class ByteArrayOutput {
    const target: InMemoryJavaFileObject
    /** Every byte written so far. */
    var buffer: seq<byte>

    constructor (target: InMemoryJavaFileObject)
      ensures this.target == target && buffer == []
    {
      this.target := target;
      buffer := [];
    }

    method Write(bytes: seq<byte>)
      modifies this
      ensures buffer == old(buffer) + bytes
    {
      buffer := buffer + bytes;
    }

    /** `close()`: the file's payload becomes exactly the bytes written, stamped
        with the clock reading `now`. */
    method Close(now: int)
      modifies target
      ensures target.data == Some(buffer) && target.lastModified == now
    {
      target.data := Some(buffer);
      target.lastModified := now;
    }
  }

  /** The `StringWriter` returned by `openWriter`. */
  class StringOutput {
    const target: InMemoryJavaFileObject
    /** Every character written so far. */
    var text: string

    constructor (target: InMemoryJavaFileObject)
      ensures this.target == target && text == []
    {
      this.target := target;
      text := [];
    }

    method Write(s: string)
      modifies this
      ensures text == old(text) + s
    {
      text := text + s;
    }

    /** `close()`: the file's payload becomes the text in the file's charset,
        stamped with the clock reading `now`. */
    method Close(now: int)
      modifies target
      ensures target.data == Some(target.charset.encode(text)) && target.lastModified == now
    {
      target.data := Some(target.charset.encode(text));
      target.lastModified := now;
    }
  }

  /** The write-then-read cycle the compiler runs on an output file: the bytes
      written through a closed stream are exactly what the next input stream
      yields, the timestamp is the clock reading at close (so it grows whenever
      the clock has moved past the old one), and after `delete` reads fail. */
  method PayloadRoundTrip(file: InMemoryJavaFileObject, bytes: seq<byte>, now: int)
    returns (read: Result<seq<byte>>, stamped: int, afterDelete: Result<seq<byte>>)
    modifies file
    ensures read == Ok(bytes)
    ensures stamped == now
    ensures afterDelete == Err(FileNotFound) && file.data == None && file.lastModified == 0
  {
    var stream := file.OpenOutputStream();
    stream.Write(bytes);
    assert stream.buffer == bytes;
    stream.Close(now);
    read := file.OpenInputStream();
    stamped := file.GetLastModified();
    var _ := file.Delete();
    afterDelete := file.OpenInputStream();
  }
}
