/** `InMemoryJavaFileManager`: a URI-keyed store of in-memory files layered
    over the compiler's own file manager. Output locations are served from the
    store, creating entries on demand; other input lookups go to the base
    manager, which is not modelled and never touches the store. */
module FileManager {
  import opened Common
  import opened FileObjects

  /** `JavaFileManager.Location`: its name and whether it is an output location. */
  datatype Location = Location(name: string, isOutputLocation: bool)

  /** What a lookup hands back to the compiler. */
  datatype FileRef =
    | Stored(file: InMemoryJavaFileObject)   // an entry of the store
    | Absent                                 // `null`
    | Delegated                              // whatever the base file manager returns

  /** `BASE_LOCATION` */
  const BASE_LOCATION: string := "memory:///"

  /** `s.replace('.', '/')` */
  function ReplaceDots(s: string): (r: string)
    ensures |r| == |s|
    ensures forall i :: 0 <= i < |s| ==> r[i] == (if s[i] == '.' then '/' else s[i])
    ensures '.' !in r
  {
    if s == [] then []
    else [if s[0] == '.' then '/' else s[0]] + ReplaceDots(s[1..])
  }

  /** The part of every URI that names the location: `memory:///<location>/`. */
  function LocationPrefix(location: Location): (prefix: string)
    ensures StartsWith(prefix, BASE_LOCATION)
    ensures |prefix| == |BASE_LOCATION| + |location.name| + 1 && prefix[|prefix| - 1] == '/'
    ensures prefix[|BASE_LOCATION|..|prefix| - 1] == location.name
  {
    var prefix := BASE_LOCATION + location.name + "/";
    assert prefix[|BASE_LOCATION|..|prefix| - 1] == location.name;
    prefix
  }

  /** `createUri(location, packageName, relativeName)`: the package segment, with
      dots turned into slashes and a trailing slash, appears only for a
      non-empty package. */
  function PackageUri(location: Location, packageName: string, relativeName: string): (uri: string)
    ensures StartsWith(uri, LocationPrefix(location)) && EndsWith(uri, relativeName)
    ensures |uri| == |LocationPrefix(location)| + (if packageName == "" then 0 else |packageName| + 1) + |relativeName|
    ensures '.' !in uri[|LocationPrefix(location)|..|uri| - |relativeName|]
  {
    var prefix := LocationPrefix(location);
    var segment := if packageName == "" then "" else ReplaceDots(packageName) + "/";
    assert (prefix + segment + relativeName)[|prefix|..|prefix| + |segment|] == segment;
    assert (prefix + segment + relativeName)[..|prefix|] == prefix;
    assert (prefix + segment + relativeName)[|prefix| + |segment|..] == relativeName;

    LocationPrefix(location)
    + (if packageName == "" then "" else ReplaceDots(packageName) + "/")
    + relativeName
  }

  /** `createUri(location, className, kind)` once its arguments are known non-null. */
  function ClassUri(location: Location, className: string, kind: Kind): (uri: string)
    ensures |uri| == |LocationPrefix(location)| + |className| + |Extension(kind)|
  {
    LocationPrefix(location) + ReplaceDots(className) + Extension(kind)
  }

  /** A class-form URI is the location prefix, then the class name with no dot
      left in it, then exactly the kind's extension. */
  lemma ClassUriShape(location: Location, className: string, kind: Kind)
    ensures StartsWith(ClassUri(location, className, kind), LocationPrefix(location))
    ensures EndsWith(ClassUri(location, className, kind), Extension(kind))
    ensures '.' !in ClassUri(location, className, kind)[|LocationPrefix(location)|..|LocationPrefix(location)| + |className|]
  {
    var prefix := LocationPrefix(location);
    var segment := ReplaceDots(className);
    var uri := prefix + segment + Extension(kind);
    assert uri[|prefix|..|prefix| + |segment|] == segment;
    assert uri[..|prefix|] == prefix;
    assert uri[|uri| - |Extension(kind)|..] == Extension(kind);
  }

  /** `createUri(location, className, kind)` with its null checks, in the order
      the source makes them. */
  function CreateClassUri(location: Option<Location>, className: Option<string>, kind: Option<Kind>)
    : (r: Result<string>)
    ensures r.Ok? <==> location.Some? && className.Some? && kind.Some?
    ensures location.None? ==> r == Err(IllegalArgument("Argument 'location' cannot be null."))
    ensures location.Some? && className.None? ==> r == Err(IllegalArgument("Argument 'className' cannot be null."))
    ensures location.Some? && className.Some? && kind.None? ==> r == Err(IllegalArgument("Argument 'kind' cannot be null."))
    ensures r.Ok? ==> r.value == ClassUri(location.value, className.value, kind.value)
  {
    if location.None? then Err(IllegalArgument("Argument 'location' cannot be null."))
    else if className.None? then Err(IllegalArgument("Argument 'className' cannot be null."))
    else if kind.None? then Err(IllegalArgument("Argument 'kind' cannot be null."))
    else Ok(ClassUri(location.value, className.value, kind.value))
  }

  /** Package-form URIs start with the location's prefix and end with the
      relative name, and two different relative names in the same location and
      package never share a URI. */
  lemma {:induction false} PackageUriDistinguishesRelativeNames(
    location: Location, packageName: string, relativeName1: string, relativeName2: string)
    ensures StartsWith(PackageUri(location, packageName, relativeName1), LocationPrefix(location))
    ensures EndsWith(PackageUri(location, packageName, relativeName1), relativeName1)
    ensures relativeName1 != relativeName2 ==>
      PackageUri(location, packageName, relativeName1) != PackageUri(location, packageName, relativeName2)
  {
    var front := LocationPrefix(location) + (if packageName == "" then "" else ReplaceDots(packageName) + "/");
    assert PackageUri(location, packageName, relativeName1) == front + relativeName1;
    assert PackageUri(location, packageName, relativeName2) == front + relativeName2;
    assert (front + relativeName1)[..|LocationPrefix(location)|] == LocationPrefix(location);
    assert (front + relativeName1)[|front|..] == relativeName1;
    assert (front + relativeName2)[|front|..] == relativeName2;
  }

  /** The path of a class-form URI is what follows `memory://`. */
  lemma ClassUriPath(location: Location, className: string, kind: Kind)
    ensures UriPath(ClassUri(location, className, kind))
         == "/" + location.name + "/" + ReplaceDots(className) + Extension(kind)
  {
    var uri := ClassUri(location, className, kind);
    var rest := "/" + location.name + "/" + ReplaceDots(className) + Extension(kind);
    assert BASE_LOCATION == MEMORY_SCHEME_PREFIX + "/";
    assert uri == MEMORY_SCHEME_PREFIX + rest;
    assert (MEMORY_SCHEME_PREFIX + rest)[..|MEMORY_SCHEME_PREFIX|] == MEMORY_SCHEME_PREFIX;
    assert (MEMORY_SCHEME_PREFIX + rest)[|MEMORY_SCHEME_PREFIX|..] == rest;
  }

  /** A path that ends with a slash followed by dot-free text does not end with
      an extension that starts with a dot and has no slash in it. */
  lemma {:induction false} NoExtensionAfterDotFreeSegment(front: string, segment: string, ext: string)
    requires '.' !in segment
    requires |ext| > 0 && ext[0] == '.' && '/' !in ext
    ensures !EndsWith(front + "/" + segment, ext)
  {
    var path := front + "/" + segment;
    var start := |path| - |ext|;
    if |ext| <= |segment| {
      // the extension would start inside the segment, at a character that is not a dot
      assert path[start] == segment[start - |front| - 1] != ext[0];
    } else if |ext| <= |path| {
      // the extension would cover the slash before the segment
      assert path[|front|] == '/' != ext[|front| - start];
    }
  }

  /** A file created under a class-form URI reports back the kind it was
      created for: the dot-to-slash replacement leaves no dot that could fake
      an extension. */
  lemma {:induction false} ClassUriKindRoundTrip(location: Location, className: string, kind: Kind)
    ensures KindFromExtension(UriPath(ClassUri(location, className, kind))) == kind
  {
    ClassUriPath(location, className, kind);
    var front := "/" + location.name;
    var segment := ReplaceDots(className);
    var path := UriPath(ClassUri(location, className, kind));
    assert path == front + "/" + segment + Extension(kind);
    match kind
    case OTHER =>
      assert path == front + "/" + segment;
      NoExtensionAfterDotFreeSegment(front, segment, ".java");
      NoExtensionAfterDotFreeSegment(front, segment, ".class");
      NoExtensionAfterDotFreeSegment(front, segment, ".html");
    case SOURCE =>
      assert EndsWith(path, ".java");
    case CLASS =>
      assert EndsWith(path, ".class");
      assert path[|path| - 1] == 's';
      assert !EndsWith(path, ".java");
    case HTML =>
      assert EndsWith(path, ".html");
      assert path[|path| - 1] == 'l';
      assert !EndsWith(path, ".java");
      assert !EndsWith(path, ".class");
  }

  /** Every entry is stored under the URI it was created with, and has the
      kind that URI's extension gives. */
  ghost predicate UriIndexed(files: map<string, InMemoryJavaFileObject>)
  {
    && KeyedByUri(files)
    && forall u :: u in files ==> files[u].kind == KindFromExtension(UriPath(u))
  }

  /** Every entry is stored under its own URI. */
  ghost predicate KeyedByUri(files: map<string, InMemoryJavaFileObject>)
  {
    forall u :: u in files ==> files[u].uri == u
  }

  /** `after` keeps every entry of `before`, under the same URI. */
  predicate Extends<K, V(==)>(before: map<K, V>, after: map<K, V>)
  {
    forall k :: k in before ==> k in after && after[k] == before[k]
  }

  /** In a URI-indexed store no object sits under two URIs, so the set of
      entries has one member per stored URI. */
  lemma {:induction false} UriIndexedValuesCount(files: map<string, InMemoryJavaFileObject>)
    requires KeyedByUri(files)
    ensures |files.Values| == |files.Keys|
    decreases |files.Keys|
  {
    if files.Keys != {} {
      var u :| u in files.Keys;
      var rest := files - {u};
      assert rest.Keys == files.Keys - {u};
      UriIndexedValuesCount(rest);
      assert files[u] !in rest.Values by {
        forall v | v in rest.Values ensures v != files[u] {
          var k :| k in rest && rest[k] == v;
          assert v.uri == k != u;
        }
      }
      assert files.Values == rest.Values + {files[u]} by {
        forall v | v in files.Values ensures v in rest.Values + {files[u]} {
          var k :| k in files && files[k] == v;
          if k != u { assert rest[k] == v; }
        }
        forall v | v in rest.Values ensures v in files.Values {
          var k :| k in rest && rest[k] == v;
          assert files[k] == v;
        }
      }
    }
  }

  class InMemoryJavaFileManager {
    /** The stored files, keyed by URI. */
    var files: map<string, InMemoryJavaFileObject>
    /** The platform charset every created entry is given. */
    const charset: Charset

    ghost predicate Valid()
      reads this
    {
      UriIndexed(files)
    }

    constructor (charset: Charset)
      ensures Valid() && files == map[] && this.charset == charset
    {
      files := map[];
      this.charset := charset;
    }

    /** `isSameFile(a, b)`: two files are the same exactly when their URIs are. */
    static function IsSameFile(a: InMemoryJavaFileObject, b: InMemoryJavaFileObject): (same: bool)
      ensures a == b ==> same
      ensures same <==> a.uri == b.uri
    {
      a.uri == b.uri
    }

    /** `getFileForInput`: an output location is answered from the store alone,
        with `null` on a miss; any other location goes to the base manager. */
    method GetFileForInput(location: Location, packageName: string, relativeName: string)
      returns (r: FileRef)
      ensures location.isOutputLocation && PackageUri(location, packageName, relativeName) in files ==>
        r == Stored(files[PackageUri(location, packageName, relativeName)])
      ensures location.isOutputLocation && PackageUri(location, packageName, relativeName) !in files ==>
        r == Absent
      ensures !location.isOutputLocation ==> r == Delegated
    {
      if location.isOutputLocation {
        var uri := PackageUri(location, packageName, relativeName);
        r := if uri in files then Stored(files[uri]) else Absent;
      } else {
        r := Delegated;
      }
    }

    /** The entry under `uri`, created with no payload on a miss. */
    method Obtain(uri: string) returns (file: InMemoryJavaFileObject)
      requires Valid()
      modifies this`files
      ensures Valid() && Extends(old(files), files) && file.uri == uri
      ensures uri in old(files) ==> files == old(files) && file == old(files)[uri]
      ensures uri !in old(files) ==> fresh(file) && files == old(files)[uri := file]
      ensures uri !in old(files) ==> file.data == None && file.lastModified == 0 && file.charset == charset
    {
      if uri !in files {
        var created := new InMemoryJavaFileObject(uri, charset);
        files := files[uri := created];
      }
      file := files[uri];
    }

    /** `getJavaFileForInput`: an output location creates the entry on a miss;
        any other location goes to the base manager and leaves the store alone. */
    method GetJavaFileForInput(location: Location, className: string, kind: Kind)
      returns (r: FileRef)
      requires Valid()
      modifies this`files
      ensures Valid() && Extends(old(files), files)
      ensures !location.isOutputLocation ==> r == Delegated && files == old(files)
      ensures location.isOutputLocation ==>
        r.Stored? && ClassUri(location, className, kind) in files
        && r.file == files[ClassUri(location, className, kind)]
      ensures location.isOutputLocation && ClassUri(location, className, kind) in old(files) ==>
        files == old(files)
      ensures files.Keys <= old(files).Keys + {ClassUri(location, className, kind)}
      ensures location.isOutputLocation && ClassUri(location, className, kind) !in old(files) ==>
        fresh(r.file) && r.file.data == None && r.file.lastModified == 0
        && r.file.charset == charset && r.file.kind == kind
    {
      if location.isOutputLocation {
        var file := Obtain(ClassUri(location, className, kind));
        ClassUriKindRoundTrip(location, className, kind);
        r := Stored(file);
      } else {
        r := Delegated;
      }
    }

    /** `getFileForOutput`: the entry under the package-form URI, created on a miss. */
    method GetFileForOutput(location: Location, packageName: string, relativeName: string, sibling: FileRef)
      returns (file: InMemoryJavaFileObject)
      requires Valid()
      modifies this`files
      ensures Valid() && Extends(old(files), files)
      ensures file.uri == PackageUri(location, packageName, relativeName)
      ensures file.uri in files && files[file.uri] == file
      ensures files.Keys == old(files).Keys + {file.uri}
      ensures file.uri in old(files) ==> files == old(files)
      ensures file.uri !in old(files) ==> fresh(file) && file.data == None && file.lastModified == 0
      ensures file.uri !in old(files) ==> file.charset == charset
    {
      file := Obtain(PackageUri(location, packageName, relativeName));
    }

    /** `getJavaFileForOutput`: the entry under the class-form URI, created on a miss. */
    method GetJavaFileForOutput(location: Location, className: string, kind: Kind, sibling: FileRef)
      returns (file: InMemoryJavaFileObject)
      requires Valid()
      modifies this`files
      ensures Valid() && Extends(old(files), files)
      ensures file.uri == ClassUri(location, className, kind) && file.kind == kind
      ensures file.uri in files && files[file.uri] == file
      ensures files.Keys == old(files).Keys + {file.uri}
      ensures file.uri in old(files) ==> files == old(files)
      ensures file.uri !in old(files) ==> fresh(file) && file.data == None && file.lastModified == 0
      ensures file.uri !in old(files) ==> file.charset == charset
    {
      var uri := ClassUri(location, className, kind);
      ClassUriKindRoundTrip(location, className, kind);
      file := Obtain(uri);
      assert files[uri] == file && file.kind == KindFromExtension(UriPath(uri));
    }

    /** `getOutputFiles()`: every stored file, one per stored URI. */
    method GetOutputFiles() returns (r: set<InMemoryJavaFileObject>)
      requires Valid()
      ensures r == files.Values
      ensures |r| == |files|
      ensures forall f :: f in r ==> f.uri in files && files[f.uri] == f
    {
      r := files.Values;
      UriIndexedValuesCount(files);
    }
  }

  /** Two stored files are the same file exactly when they are stored under the
      same URI, and then they are the same object. */
  lemma SameFileIffSameUri(files: map<string, InMemoryJavaFileObject>, u: string, v: string)
    requires KeyedByUri(files) && u in files && v in files
    ensures InMemoryJavaFileManager.IsSameFile(files[u], files[v]) <==> u == v
    ensures InMemoryJavaFileManager.IsSameFile(files[u], files[v]) <==> files[u] == files[v]
  {
  }
}
