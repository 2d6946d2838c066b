# Avatar, modelled in Dafny

Avatar is a JUnit test fixture for Java annotation processors. An `AvatarRule`
compiles a set of sources in memory with its own processor. That processor records every
processing round and indexes the elements it sees in two ways: by the qualified
name of each annotation present, and by the string value of an `@ElementId`
annotation. Once evaluated, the rule answers queries over those indices:
- the rounds in order;
- the root elements;
- the elements carrying a given annotation or id;
- the unique element with an id.

Every query fails with a fixed message until the rule has been evaluated.

The compilation runs on an in-memory file manager. It stores files by URI and
creates them on first request. Each file object holds a byte payload and a
last-modified time; closing a stream or writer sets them and `delete()` clears
them. Two smaller utility families sit beside the fixture:
- a family of element collectors, each an annotation processor that keeps the
  elements its policy selects, round after round, without claiming any
  annotation;
- a diagnostic collector and an iterable null-checker.

The model has one module per part:

| module | file | what it holds |
|---|---|---|
| `Common` | common.dfy | `Option` for Java `null`, the thrown exceptions as `Error`/`Result`, string helpers |
| `Rounds` | rounds.dfy | elements, annotation classes, round environments, the `"*"` pattern |
| `NullChecking` | null_checking.dfy | `IterableNullChecker` |
| `Diagnostics` | diagnostics.dfy | `DiagnosticCollector` and its append-only log |
| `FileObjects` | file_objects.dfy | `InMemoryJavaFileObject`, its output stream and writer, kind-from-extension |
| `FileManager` | file_manager.dfy | `InMemoryJavaFileManager` and its URI scheme |
| `Collectors` | collectors.dfy | the element collectors |
| `Rules` | avatar_rule.dfy | `AvatarRule` and its inner processor |

The compiler is not modelled. A compilation is the sequence of
`(annotations, round environment)` pairs it feeds the processor, plus the result
its driver returns. Elements, sources, diagnostics, processing environments and
generated files are opaque values. Several source files are near-identical
copies, and each set of copies shares one model class:
- `FileObjects.InMemoryJavaFileObject` models both
  `avatar/compilation/InMemoryJavaFileObject.java` and
  `avatar/in_memory_file_utils/InMemoryJavaFileObject.java`. They differ only in
  where the null check on the URI happens, and both throw the same exception with
  the same message.
- `Collectors.RootElementCollector` models the three root collectors:
  `java_compiler_utilities/collectors`, `element_util` and
  `element_util/collectors`.
- `Collectors.AnnotatedElementCollector` models both annotated collectors.
- `Collectors.IdBasedElementCollector` models
  `avatar/collectors/IdBasedElementCollector.java`. It is also the intended
  behaviour of `element_util/collectors/SpecificIdElementCollector.java`; see
  "## Findings".
- `Collectors.IntIdElementCollector` models the integer-id
  `element_util/SpecificIdElementCollector.java`.

Source paths below are relative to the repository root.

## Model

| member | source | states |
|---|---|---|
| Rounds.AllAnnotationTypes | library/src/main/java/com/matthewtamlin/avatar/rules/AvatarRule.java:211-213 | the single pattern `"*"`, which asks for every annotation name |
| NullChecking.CheckNotContainsNull | library/src/main/java/com/matthewtamlin/avatar/util/IterableNullChecker.java:6-14 | a null iterable fails with the fixed iterable message; one holding null fails with the caller's message; otherwise the very same iterable comes back |
| Diagnostics.DiagnosticCollector.constructor | library/src/main/java/com/matthewtamlin/avatar/compilation/DiagnosticCollector.java:16-17 | the log starts empty |
| Diagnostics.DiagnosticCollector.Report | library/src/main/java/com/matthewtamlin/avatar/compilation/DiagnosticCollector.java:20-23 | a null diagnostic is rejected and the log left alone; otherwise the diagnostic is appended at the end |
| Diagnostics.DiagnosticCollector.GetDiagnostics | library/src/main/java/com/matthewtamlin/avatar/compilation/DiagnosticCollector.java:28-30 | the log in report order, unchanged by reading |
| Diagnostics.ReportedAppendsNonNull | library/src/main/java/com/matthewtamlin/avatar/compilation/DiagnosticCollector.java:20-23 | any series of reports leaves the old log followed by exactly the non-null reports, in order: nothing is lost or reordered |
| FileObjects.FirstKindFrom | library/src/main/java/com/matthewtamlin/avatar/compilation/InMemoryJavaFileObject.java:125-131 | the scan over `Kind.values()` from a position returns the first kind whose extension ends the path, and no earlier one matches |
| FileObjects.KindFromExtension | library/src/main/java/com/matthewtamlin/avatar/compilation/InMemoryJavaFileObject.java:120-132 | the path ends with the kind's extension; no kind declared earlier matches; OTHER exactly when none of `.java`, `.class`, `.html` ends the path |
| FileObjects.UriPath | library/src/main/java/com/matthewtamlin/avatar/compilation/InMemoryJavaFileObject.java:123 | for a `memory://` URI the path is what follows the scheme prefix, so prefix and path give back the URI; any other text is its own path |
| FileObjects.InMemoryJavaFileObject.constructor | library/src/main/java/com/matthewtamlin/avatar/compilation/InMemoryJavaFileObject.java:41-43 | a new file keeps its URI, takes its kind from the URI's path, has no payload and timestamp 0 |
| FileObjects.InMemoryJavaFileObject.Create | library/src/main/java/com/matthewtamlin/avatar/compilation/InMemoryJavaFileObject.java:41-43 | a null URI is rejected with its message; otherwise a fresh file as the constructor makes it |
| FileObjects.InMemoryJavaFileObject.OpenInputStream | library/src/main/java/com/matthewtamlin/avatar/compilation/InMemoryJavaFileObject.java:46-52 | the stored bytes, or file-not-found when nothing has been written |
| FileObjects.InMemoryJavaFileObject.OpenReader | library/src/main/java/com/matthewtamlin/avatar/compilation/InMemoryJavaFileObject.java:67-73 | the stored bytes decoded in the file's charset, or file-not-found |
| FileObjects.InMemoryJavaFileObject.GetCharContent | library/src/main/java/com/matthewtamlin/avatar/compilation/InMemoryJavaFileObject.java:76-82 | the decoded payload, and it succeeds exactly when a payload is stored |
| FileObjects.InMemoryJavaFileObject.OpenOutputStream | library/src/main/java/com/matthewtamlin/avatar/compilation/InMemoryJavaFileObject.java:55-64 | a fresh empty byte buffer bound to this file |
| FileObjects.InMemoryJavaFileObject.OpenWriter | library/src/main/java/com/matthewtamlin/avatar/compilation/InMemoryJavaFileObject.java:85-94 | a fresh empty text buffer bound to this file |
| FileObjects.InMemoryJavaFileObject.GetLastModified | library/src/main/java/com/matthewtamlin/avatar/compilation/InMemoryJavaFileObject.java:97-99 | the time of the last close, 0 if never written or deleted |
| FileObjects.InMemoryJavaFileObject.Delete | library/src/main/java/com/matthewtamlin/avatar/compilation/InMemoryJavaFileObject.java:102-107 | payload and timestamp are cleared and the call always reports success |
| FileObjects.ByteArrayOutput.Write | library/src/main/java/com/matthewtamlin/avatar/compilation/InMemoryJavaFileObject.java:55-64 | written bytes are appended to the buffer |
| FileObjects.ByteArrayOutput.Close | library/src/main/java/com/matthewtamlin/avatar/compilation/InMemoryJavaFileObject.java:58-62 | the file's payload becomes exactly the buffer, stamped with the clock reading |
| FileObjects.StringOutput.Write | library/src/main/java/com/matthewtamlin/avatar/compilation/InMemoryJavaFileObject.java:85-94 | written text is appended to the buffer |
| FileObjects.StringOutput.Close | library/src/main/java/com/matthewtamlin/avatar/compilation/InMemoryJavaFileObject.java:88-92 | the file's payload becomes the text encoded in the file's charset, stamped with the clock reading |
| FileObjects.PayloadRoundTrip | library/src/main/java/com/matthewtamlin/avatar/compilation/InMemoryJavaFileObject.java:46-107 | bytes written through a closed output stream are exactly what the next input stream yields; the timestamp is the close time; after delete, reads fail with file-not-found |
| FileManager.ReplaceDots | library/src/main/java/com/matthewtamlin/avatar/compilation/InMemoryJavaFileManager.java:142 | same length, every `.` becomes `/`, every other character is kept, and no `.` remains |
| FileManager.LocationPrefix | library/src/main/java/com/matthewtamlin/avatar/compilation/InMemoryJavaFileManager.java:136-138 | `memory:///`, then exactly the location name, then one `/` |
| FileManager.PackageUri | library/src/main/java/com/matthewtamlin/avatar/compilation/InMemoryJavaFileManager.java:129-148 | starts with the location prefix and ends with the relative name; the package segment is present (one character longer than the package name) only for a non-empty package, and holds no `.` |
| FileManager.ClassUri | library/src/main/java/com/matthewtamlin/avatar/compilation/InMemoryJavaFileManager.java:155-173 | as long as the location prefix, the class name and the extension together: the dot replacement keeps every character |
| FileManager.ClassUriShape | library/src/main/java/com/matthewtamlin/avatar/compilation/InMemoryJavaFileManager.java:155-173 | a class-form URI starts with the location prefix, ends with the kind's extension, and holds no `.` in the class-name part |
| FileManager.CreateClassUri | library/src/main/java/com/matthewtamlin/avatar/compilation/InMemoryJavaFileManager.java:155-173 | location, class name and kind are null-checked in that order with their own messages; with all three present the URI is `memory:///<location>/<class name with / for .><extension>` |
| FileManager.PackageUriDistinguishesRelativeNames | library/src/main/java/com/matthewtamlin/avatar/compilation/InMemoryJavaFileManager.java:129-148 | a package-form URI starts with the location prefix and ends with the relative name, and different relative names in the same location and package give different URIs |
| FileManager.ClassUriPath | library/src/main/java/com/matthewtamlin/avatar/compilation/InMemoryJavaFileManager.java:155-173 | the path of a class-form URI is `/<location>/<class path><extension>` |
| FileManager.ClassUriKindRoundTrip | library/src/main/java/com/matthewtamlin/avatar/compilation/InMemoryJavaFileManager.java:155-173 | a file created under the class-form URI for a kind reports that same kind: no dot survives in the class path to fake an extension |
| FileManager.UriIndexedValuesCount | library/src/main/java/com/matthewtamlin/avatar/compilation/InMemoryJavaFileManager.java:119-121 | when every entry sits under its own URI, the set of entries has one member per URI |
| FileManager.SameFileIffSameUri | library/src/main/java/com/matthewtamlin/avatar/compilation/InMemoryJavaFileManager.java:36-38 | two stored files are the same file exactly when their URIs are equal, and then they are one object |
| FileManager.InMemoryJavaFileManager.constructor | library/src/main/java/com/matthewtamlin/avatar/compilation/InMemoryJavaFileManager.java:23-33 | the store starts empty and URI-indexed |
| FileManager.InMemoryJavaFileManager.IsSameFile | library/src/main/java/com/matthewtamlin/avatar/compilation/InMemoryJavaFileManager.java:36-38 | true exactly when the two URIs are equal, so a file is always the same file as itself |
| FileManager.InMemoryJavaFileManager.Obtain | library/src/main/java/com/matthewtamlin/avatar/compilation/InMemoryJavaFileManager.java:66-70 | the entry under the URI: the stored one with the store unchanged, or on a miss a fresh empty file with the store's charset added under that URI alone; the store stays URI-indexed |
| FileManager.InMemoryJavaFileManager.GetFileForInput | library/src/main/java/com/matthewtamlin/avatar/compilation/InMemoryJavaFileManager.java:41-54 | an output location is answered from the store alone, with null on a miss; other locations go to the base manager |
| FileManager.InMemoryJavaFileManager.GetJavaFileForInput | library/src/main/java/com/matthewtamlin/avatar/compilation/InMemoryJavaFileManager.java:57-75 | an output location returns the stored entry for the class URI; on a miss that entry is a fresh empty file (no payload, timestamp 0) of the requested kind and the store's charset, and nothing else is added; other locations go to the base manager and leave the store alone |
| FileManager.InMemoryJavaFileManager.GetFileForOutput | library/src/main/java/com/matthewtamlin/avatar/compilation/InMemoryJavaFileManager.java:78-92 | the entry under the package-form URI: the existing one, or a fresh empty one added under that URI only; existing entries are kept |
| FileManager.InMemoryJavaFileManager.GetJavaFileForOutput | library/src/main/java/com/matthewtamlin/avatar/compilation/InMemoryJavaFileManager.java:95-109 | the same for the class-form URI, and the file has the requested kind |
| FileManager.InMemoryJavaFileManager.GetOutputFiles | library/src/main/java/com/matthewtamlin/avatar/compilation/InMemoryJavaFileManager.java:119-121 | every stored file, one per stored URI, each found under its own URI |
| Collectors.RootElementCollector.constructor | library/src/main/java/com/matthewtamlin/java_compiler_utilities/collectors/RootElementCollector.java:18-23 | nothing collected yet |
| Collectors.RootElementCollector.SupportedAnnotationTypes | library/src/main/java/com/matthewtamlin/java_compiler_utilities/collectors/RootElementCollector.java:26-28 | the single pattern `"*"`, which asks for every annotation name |
| Collectors.RootElementCollector.Process | library/src/main/java/com/matthewtamlin/java_compiler_utilities/collectors/RootElementCollector.java:31-35 | the round's roots are added to what was collected; annotations are not claimed |
| Collectors.RootElementCollector.GetCollectedElements | library/src/main/java/com/matthewtamlin/java_compiler_utilities/collectors/RootElementCollector.java:38-40 | a copy of what was collected |
| Collectors.AnnotatedElementCollector.Create | library/src/main/java/com/matthewtamlin/java_compiler_utilities/collectors/AnnotatedElementCollector.java:37-39 | a null target is rejected with its message; otherwise an empty collector for that target |
| Collectors.AnnotatedElementCollector.SupportedAnnotationTypes | library/src/main/java/com/matthewtamlin/java_compiler_utilities/collectors/AnnotatedElementCollector.java:42-44 | exactly the target's canonical name |
| Collectors.AnnotatedElementCollector.Process | library/src/main/java/com/matthewtamlin/java_compiler_utilities/collectors/AnnotatedElementCollector.java:47-51 | the round's elements annotated with the target are added; annotations are not claimed |
| Collectors.AnnotatedElementCollector.GetCollectedElements | library/src/main/java/com/matthewtamlin/java_compiler_utilities/collectors/AnnotatedElementCollector.java:54-56 | a copy of what was collected |
| Collectors.TaggedElementCollector.Create | library/src/main/java/com/matthewtamlin/java_compiler_utilities/element_util/collectors/TaggedElementCollector.java:36-41 | a null set and a set holding null are rejected with their own messages; otherwise the collector holds exactly the given tags, copied |
| Collectors.TaggedElementCollector.SupportedAnnotationTypes | library/src/main/java/com/matthewtamlin/java_compiler_utilities/element_util/collectors/TaggedElementCollector.java:44-52 | exactly the canonical names of the tags, one per tag |
| Collectors.TaggedElementCollector.Process | library/src/main/java/com/matthewtamlin/java_compiler_utilities/element_util/collectors/TaggedElementCollector.java:55-62 | the loop over the tags adds exactly the round's elements bearing at least one tag; annotations are not claimed |
| Collectors.TaggedElementCollector.GetCollectedElements | library/src/main/java/com/matthewtamlin/java_compiler_utilities/element_util/collectors/TaggedElementCollector.java:65-67 | a copy of what was collected |
| Collectors.CanonicalNamesCount | library/src/main/java/com/matthewtamlin/java_compiler_utilities/element_util/collectors/TaggedElementCollector.java:44-52 | an annotation class is identified by its canonical name, so a set of tags has exactly as many canonical names as members |
| Collectors.TaggedProcessRepeatedRound | library/src/main/java/com/matthewtamlin/java_compiler_utilities/element_util/collectors/TaggedElementCollector.java:55-62 | calling `process` twice with the same round leaves the collection as the first call left it |
| Collectors.TaggedInAddTag | library/src/main/java/com/matthewtamlin/java_compiler_utilities/element_util/collectors/TaggedElementCollector.java:57-59 | one more tag adds exactly the elements annotated with it |
| Collectors.TaggedInBearsATag | library/src/main/java/com/matthewtamlin/java_compiler_utilities/element_util/collectors/TaggedElementCollector.java:55-62 | an element is selected if and only if it bears one of the tags |
| Collectors.IdBasedElementCollector.Create | library/src/main/java/com/matthewtamlin/avatar/collectors/IdBasedElementCollector.java:39-41 | a null id is rejected with its message; otherwise an empty collector for that id |
| Collectors.IdBasedElementCollector.SupportedAnnotationTypes | library/src/main/java/com/matthewtamlin/avatar/collectors/IdBasedElementCollector.java:44-46 | the single pattern `"*"`, which asks for every annotation name |
| Collectors.IdBasedElementCollector.Process | library/src/main/java/com/matthewtamlin/avatar/collectors/IdBasedElementCollector.java:49-59 | the walk over the id-bearing elements adds exactly those whose id equals the collector's id; every new element carries that id; annotations are not claimed |
| Collectors.IdBasedElementCollector.GetCollectedElements | library/src/main/java/com/matthewtamlin/avatar/collectors/IdBasedElementCollector.java:62-64 | a copy of what was collected |
| Collectors.IntIdElementCollector.constructor | library/src/main/java/com/matthewtamlin/java_compiler_utilities/element_util/SpecificIdElementCollector.java:16-18 | any integer id is accepted; nothing collected yet |
| Collectors.IntIdElementCollector.SupportedAnnotationTypes | library/src/main/java/com/matthewtamlin/java_compiler_utilities/element_util/SpecificIdElementCollector.java:21-23 | the single pattern `"*"`, which asks for every annotation name |
| Collectors.IntIdElementCollector.Process | library/src/main/java/com/matthewtamlin/java_compiler_utilities/element_util/SpecificIdElementCollector.java:26-36 | exactly the round's elements whose integer id equals the collector's are added; annotations are not claimed |
| Collectors.IntIdElementCollector.GetCollectedElements | library/src/main/java/com/matthewtamlin/java_compiler_utilities/element_util/SpecificIdElementCollector.java:39-41 | a copy of what was collected |
| Collectors.FirstIndexWithIntId | library/src/main/java/com/matthewtamlin/java_compiler_utilities/element_util/UniqueElementCollector.java:26-33 | the position of the first bearer with the id, every earlier one having another id, or the end when none has it |
| Collectors.UniqueElementCollector.constructor | library/src/main/java/com/matthewtamlin/java_compiler_utilities/element_util/UniqueElementCollector.java:15-17 | no element remembered yet |
| Collectors.UniqueElementCollector.SupportedAnnotationTypes | library/src/main/java/com/matthewtamlin/java_compiler_utilities/element_util/UniqueElementCollector.java:20-22 | the single pattern `"*"`, which asks for every annotation name |
| Collectors.UniqueElementCollector.Process | library/src/main/java/com/matthewtamlin/java_compiler_utilities/element_util/UniqueElementCollector.java:25-36 | the loop stops at the first element with the id and remembers it; a round without one leaves the remembered element alone |
| Collectors.UniqueElementCollector.GetResult | library/src/main/java/com/matthewtamlin/java_compiler_utilities/element_util/UniqueElementCollector.java:39-41 | the remembered element, null until one was found |
| Collectors.NoMatchKeeps | library/src/main/java/com/matthewtamlin/java_compiler_utilities/element_util/UniqueElementCollector.java:25-36 | a round with no match keeps the previous result; a round with a match yields one of its own matching elements whatever came before |
| Collectors.UniqueAfterRoundsWithoutMatch | library/src/main/java/com/matthewtamlin/java_compiler_utilities/element_util/UniqueElementCollector.java:25-36 | over rounds none of which has a match, the remembered element is kept |
| Collectors.UniqueAfterRoundsIsLastMatch | library/src/main/java/com/matthewtamlin/java_compiler_utilities/element_util/UniqueElementCollector.java:25-36 | over many rounds the result is the first match of the last round that had one, whatever was remembered before, and it carries the id |
| Collectors.SpecificIdAsWrittenNeverCollects | library/src/main/java/com/matthewtamlin/java_compiler_utilities/element_util/collectors/SpecificIdElementCollector.java:29-39 | as written, the selection is empty for every round and id: `@ElementId(1)` is not found under `"1"`, though the string comparison finds an element tagged `"1"` |
| Rules.IndexByIdContents | library/src/main/java/com/matthewtamlin/avatar/rules/AvatarRule.java:246-257 | after indexing, an id is a key exactly when it was one already or some element carries it; an element is listed under an id exactly when it was already or is tagged with it |
| Rules.IndexByIdKeepsBucketsNonEmpty | library/src/main/java/com/matthewtamlin/avatar/rules/AvatarRule.java:246-257 | the id index never holds an empty entry |
| Rules.AfterRoundsRounds | library/src/main/java/com/matthewtamlin/avatar/rules/AvatarRule.java:216-227 | over a series of rounds the round list grows by exactly those rounds, in order |
| Rules.AfterRoundsRoots | library/src/main/java/com/matthewtamlin/avatar/rules/AvatarRule.java:216-227 | over a series of rounds an element is a root exactly when it was one already or some round has it as a root |
| Rules.AfterRoundsIdIndex | library/src/main/java/com/matthewtamlin/avatar/rules/AvatarRule.java:216-257 | over a series of rounds an element sits under an id exactly when it did already or some round tags it with that id; entries stay non-empty |
| Rules.AfterRoundsAnnotationIndex | library/src/main/java/com/matthewtamlin/avatar/rules/AvatarRule.java:216-244 | over a series of rounds an element sits under an annotation name exactly when it did already or some round surfaced that annotation and annotated the element with it |
| Rules.FirstEvaluationIndices | library/src/main/java/com/matthewtamlin/avatar/rules/AvatarRule.java:114-123 | after one evaluation from scratch, the rounds are the compiler's rounds in order, the roots are exactly their roots, an element is under an id iff some round tags it so, and no id entry is empty |
| Rules.AvatarRule.constructor | library/src/main/java/com/matthewtamlin/avatar/rules/AvatarRule.java:41-46 | the sources are kept; all indices are empty and nothing is evaluated |
| Rules.AvatarRule.ForJavaFileObjects | library/src/main/java/com/matthewtamlin/avatar/rules/AvatarRule.java:48-53 | a null iterable and one holding null are rejected with their own messages; otherwise a fresh unevaluated rule over exactly those sources |
| Rules.AvatarRule.Init | library/src/main/java/com/matthewtamlin/avatar/rules/AvatarRule.java:205-208 | the processing environment is remembered |
| Rules.AvatarRule.Process | library/src/main/java/com/matthewtamlin/avatar/rules/AvatarRule.java:216-227 | the round is appended and its roots added; each present annotation's entry gains its elements while other entries are untouched; every id-bearing element lands under its id; entries stay non-empty; nothing is claimed |
| Rules.AvatarRule.CollectElementsByAnnotation | library/src/main/java/com/matthewtamlin/avatar/rules/AvatarRule.java:229-244 | the loop over the annotations leaves the index as the annotation-index specification of the round |
| Rules.AvatarRule.CollectElementsById | library/src/main/java/com/matthewtamlin/avatar/rules/AvatarRule.java:246-257 | the loop over the id-bearing elements leaves the index as the id-index specification of the round |
| Rules.AvatarRule.Evaluate | library/src/main/java/com/matthewtamlin/avatar/rules/AvatarRule.java:114-123 | init, then every round in order, then the driver's result is stored: the indices are those of the whole series of rounds |
| Rules.AvatarRule.GetProcessingEnvironment | library/src/main/java/com/matthewtamlin/avatar/rules/AvatarRule.java:125-131 | unevaluated fails with its message; otherwise the environment |
| Rules.AvatarRule.GetCompilationResult | library/src/main/java/com/matthewtamlin/avatar/rules/AvatarRule.java:133-139 | unevaluated fails with its message; otherwise the result |
| Rules.AvatarRule.GetRoundEnvironments | library/src/main/java/com/matthewtamlin/avatar/rules/AvatarRule.java:141-147 | unevaluated fails with its message; otherwise the rounds in order |
| Rules.AvatarRule.GetElementsWithId | library/src/main/java/com/matthewtamlin/avatar/rules/AvatarRule.java:149-161 | the null check comes before the lifecycle check; the entry for the id, or the empty set |
| Rules.AvatarRule.GetElementWithUniqueId | library/src/main/java/com/matthewtamlin/avatar/rules/AvatarRule.java:163-179 | null id, unevaluated, no element and several elements each fail with their own message; with exactly one, that element |
| Rules.AvatarRule.GetElementsWithAnnotation | library/src/main/java/com/matthewtamlin/avatar/rules/AvatarRule.java:181-193 | the null check comes before the lifecycle check; the entry under the canonical name, or the empty set |
| Rules.AvatarRule.GetRootElements | library/src/main/java/com/matthewtamlin/avatar/rules/AvatarRule.java:195-201 | unevaluated fails with its message; otherwise the roots |

## Left out

- The compile drivers (`CompilerUtil` in each package) are left out. Locating the system compiler, wiring the processor and the file manager into it, and the exception raised when no compiler is present are all outside the model. A compilation is the series of rounds it produces plus its `CompilationResult`, and `Rules.AvatarRule.Evaluate` takes both as parameters.
- `AvatarRule.forFiles` and `AvatarRule.forFilesAt` are left out. They read the file system (existence checks, URL conversion) before delegating to `forJavaFileObjects`, which is modelled.
- The varargs overloads of `forJavaFileObjects` are left out. They wrap their array in a list and delegate to the iterable form, which is modelled.
- The element suppliers are not part of this model. They drive a compilation to feed a collector.
- Delegation to the base file manager is left out. Those calls return `Delegated` and leave the store alone. `close()` only delegates.
- `System.currentTimeMillis()` and `Charset.defaultCharset()` are parameters: a clock reading `now` passed to `Close`, and a `Charset` pair of conversion functions.
- URIs are text: `java.net.URI` parsing, percent-decoding, `URI.create` rejecting malformed text, and URI normalisation are left out. A URI's path is the text after `memory://`.
- Timestamps are unbounded integers. Java's `long` overflow cannot arise from a clock reading and is left out.
- FileManager.InMemoryJavaFileManager.GetFileForInput, GetJavaFileForInput, GetFileForOutput and GetJavaFileForOutput take non-null arguments, so their null cases are not modelled:
  - A null location raises `NullPointerException`: at `isOutputLocation()` in `getFileForInput` and `getJavaFileForInput`, and at `location.getName()` in the package-form `createUri` used by `getFileForOutput`. `getJavaFileForOutput` instead raises `IllegalArgumentException` from the class-form `createUri`.
  - A null package name raises `NullPointerException` at `packageName.isEmpty()`.
  - A null relative name is not rejected: `StringBuilder.append` writes the text `null`, so the file is named `.../null`.
  - A null class name or kind raises `IllegalArgumentException` with the messages `FileManager.CreateClassUri` states. That function models the class-form null checks, but the lookups do not call it.
- Aliasing of returned collections is left out. The query methods return values, so a caller mutating the live `List`/`Set`/`Map` the Java code hands back (`getDiagnostics`, `getRoundEnvironments`, `getElementsWithId`, `getRootElements`) is outside the model.
- Hash-set iteration order is left out. Iteration over annotation sets and tag sets is an arbitrary pick. Id-bearing elements come as a sequence in the compiler's iteration order.
- The `synchronized` modifier on `init` and any concurrency are left out.
- `javax.annotation.processing.AbstractProcessor.init` bookkeeping in the superclass is left out. Only the fixture's own effect, remembering the environment, is modelled.
- The different `ElementId` annotation types of the packages are left out as distinct types. Each package's string-valued annotation is one string identifier on a `RoundEnvironment`, and the integer-valued one of `element_util` is a separate integer identifier.
- Rules.AvatarRule.Evaluate: a second evaluation of the same rule adds to the indices of the first, because nothing resets them. The model states this; it does not state that a rule is evaluated only once.
- FileObjects.ByteArrayOutput.Close: the new timestamp is the clock reading at close. It exceeds the old one only when the clock has advanced, so no "strictly greater" property is claimed.

## Findings

| source | as written | input that shows it | evidently intended | confidence | as-written member | corrected member |
|---|---|---|---|---|---|---|
| library/src/main/java/com/matthewtamlin/java_compiler_utilities/element_util/collectors/SpecificIdElementCollector.java:33 | imports the integer-valued `element_util.ElementId`, so `id.equals(annotation.value())` compares a `String` with a boxed `Integer` and is always false | a class annotated `@ElementId(1)` and the collector built with id `"1"`: nothing is collected | compare string identifiers, as `IdBasedElementCollector` does | high (type-level argument), not executed | Collectors.SpecificIdAsWrittenNeverCollects | Collectors.IdBasedElementCollector.Process |
