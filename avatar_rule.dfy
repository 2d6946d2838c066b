/** `AvatarRule`: the test fixture. It compiles its sources once, with an inner
    processor that records every round and indexes the elements it sees by
    annotation name and by identifier, and then answers queries over those
    indices. Every query fails while the rule has not been evaluated. */
module Rules {
  import opened Common
  import opened Rounds
  import opened NullChecking

  /** A `JavaFileObject` handed to the rule as source. */
  type Source(==)
  /** The `ProcessingEnvironment` the compiler gives the processor's `init`. */
  type ProcessingEnvironment
  /** A compiler diagnostic. */
  type Diagnostic
  /** A file the compilation emitted. */
  type GeneratedFile(==)

  /** `CompilationResult`: what the compile driver returned. */
  datatype CompilationResult = CompilationResult(
    success: bool,
    diagnostics: seq<Diagnostic>,
    generatedFiles: set<GeneratedFile>)

  /** The four indices the inner processor fills. */
  datatype Indices = Indices(
    roundEnvironments: seq<RoundEnvironment>,
    rootElements: set<Element>,
    elementsByAnnotationName: map<string, set<Element>>,
    elementsById: map<string, set<Element>>)

  const EMPTY_INDICES: Indices := Indices([], {}, map[], map[])

  /** Every key of an index maps to a non-empty set. */
  predicate NonEmptyBuckets(index: map<string, set<Element>>)
  {
    forall k :: k in index ==> index[k] != {}
  }

  /** `collectElementsByAnnotation`: each annotation of the round gets an entry
      under its qualified name, to which the round's elements annotated with it
      are added; other entries stay as they were. */
  function IndexByAnnotation(index: map<string, set<Element>>, annotations: set<string>, round: RoundEnvironment)
    : map<string, set<Element>>
  {
    map name | name in index.Keys + annotations ::
      Lookup(index, name) + (if name in annotations then ElementsAnnotatedWith(round, name) else {})
  }

  /** `elementsById.get(id).add(e)`, creating the entry first when it is missing. */
  function AddToBucket(index: map<string, set<Element>>, id: string, e: Element): map<string, set<Element>>
  {
    index[id := Lookup(index, id) + {e}]
  }

  /** `collectElementsById`: the identifier-bearing elements, taken in
      iteration order, each added under its identifier. */
  function IndexById(index: map<string, set<Element>>, bearers: seq<Tagged<string>>): map<string, set<Element>>
    decreases |bearers|
  {
    if bearers == [] then index
    else IndexById(AddToBucket(index, bearers[0].value, bearers[0].element), bearers[1..])
  }

  /** The indices after the processor has seen one more round. */
  function AfterRound(indices: Indices, round: ProcessingRound): Indices
  {
    Indices(
      indices.roundEnvironments + [round.environment],
      indices.rootElements + round.environment.rootElements,
      IndexByAnnotation(indices.elementsByAnnotationName, round.annotations, round.environment),
      IndexById(indices.elementsById, round.environment.idBearers))
  }

  /** The indices after the processor has seen a series of rounds, in order. */
  function AfterRounds(indices: Indices, rounds: seq<ProcessingRound>): Indices
    decreases |rounds|
  {
    if rounds == [] then indices
    else AfterRounds(AfterRound(indices, rounds[0]), rounds[1..])
  }

  /** The round environments of a series of rounds, in order. */
  function Environments(rounds: seq<ProcessingRound>): (envs: seq<RoundEnvironment>)
    ensures |envs| == |rounds|
    ensures forall i :: 0 <= i < |rounds| ==> envs[i] == rounds[i].environment
  {
    seq(|rounds|, i requires 0 <= i < |rounds| => rounds[i].environment)
  }

  /** Indexing no annotation names leaves the index as it was. */
  lemma IndexByAnnotationNothing(index: map<string, set<Element>>, round: RoundEnvironment)
    ensures IndexByAnnotation(index, {}, round) == index
  {
    var indexed := IndexByAnnotation(index, {}, round);
    assert indexed.Keys == index.Keys;
    forall name | name in index ensures indexed[name] == index[name] {
    }
  }

  /** Adding one more annotation name to those already indexed touches only
      that name's entry. */
  lemma IndexByAnnotationStep(
    index: map<string, set<Element>>, done: set<string>, round: RoundEnvironment, annotation: string)
    requires annotation !in done
    ensures IndexByAnnotation(index, done + {annotation}, round)
         == IndexByAnnotation(index, done, round)[annotation :=
              Lookup(index, annotation) + ElementsAnnotatedWith(round, annotation)]
  {
    var left := IndexByAnnotation(index, done + {annotation}, round);
    var right := IndexByAnnotation(index, done, round)[annotation :=
      Lookup(index, annotation) + ElementsAnnotatedWith(round, annotation)];
    assert left.Keys == right.Keys;
    forall name | name in left.Keys ensures left[name] == right[name] {
    }
  }

  /** What the identifier index holds after a round: an id is a key exactly
      when it was one or some bearer carries it, and an element sits under an
      id exactly when it did already or the round tags it with that id. */
  lemma {:induction false} IndexByIdContents(
    index: map<string, set<Element>>, bearers: seq<Tagged<string>>, id: string, e: Element)
    ensures id in IndexById(index, bearers) <==> id in index || exists t :: t in bearers && t.value == id
    ensures e in Lookup(IndexById(index, bearers), id) <==> e in Lookup(index, id) || Tagged(e, id) in bearers
    decreases |bearers|
  {
    if bearers != [] {
      var next := AddToBucket(index, bearers[0].value, bearers[0].element);
      IndexByIdContents(next, bearers[1..], id, e);
      assert bearers == [bearers[0]] + bearers[1..];
      assert forall t :: t in bearers <==> t == bearers[0] || t in bearers[1..];
    }
  }

  /** The identifier index never holds an empty entry: every entry is created
      together with its first element. */
  lemma {:induction false} IndexByIdKeepsBucketsNonEmpty(index: map<string, set<Element>>, bearers: seq<Tagged<string>>)
    requires NonEmptyBuckets(index)
    ensures NonEmptyBuckets(IndexById(index, bearers))
    decreases |bearers|
  {
    if bearers != [] {
      IndexByIdKeepsBucketsNonEmpty(AddToBucket(index, bearers[0].value, bearers[0].element), bearers[1..]);
    }
  }

  /** Over a series of rounds the round list grows by exactly those rounds, in order. */
  lemma {:induction false} AfterRoundsRounds(indices: Indices, rounds: seq<ProcessingRound>)
    ensures AfterRounds(indices, rounds).roundEnvironments == indices.roundEnvironments + Environments(rounds)
    decreases |rounds|
  {
    if rounds != [] {
      var next := AfterRound(indices, rounds[0]);
      AfterRoundsRounds(next, rounds[1..]);
      assert Environments(rounds) == [rounds[0].environment] + Environments(rounds[1..]);
    }
  }

  /** Over a series of rounds the root set grows by exactly their roots. */
  lemma {:induction false} AfterRoundsRoots(indices: Indices, rounds: seq<ProcessingRound>, e: Element)
    ensures e in AfterRounds(indices, rounds).rootElements <==>
      e in indices.rootElements || exists i :: 0 <= i < |rounds| && e in rounds[i].environment.rootElements
    decreases |rounds|
  {
    if rounds != [] {
      var next := AfterRound(indices, rounds[0]);
      AfterRoundsRoots(next, rounds[1..], e);
      if exists i :: 0 <= i < |rounds| && e in rounds[i].environment.rootElements {
        var i :| 0 <= i < |rounds| && e in rounds[i].environment.rootElements;
        if i > 0 {
          assert rounds[1..][i - 1] == rounds[i];
        }
      }
      if exists i :: 0 <= i < |rounds[1..]| && e in rounds[1..][i].environment.rootElements {
        var i :| 0 <= i < |rounds[1..]| && e in rounds[1..][i].environment.rootElements;
        assert rounds[1..][i] == rounds[i + 1];
      }
    }
  }

  /** Index consistency over a series of rounds: an element is listed under an
      id exactly when it was already, or some round tags it with that id. */
  lemma {:induction false} AfterRoundsIdIndex(indices: Indices, rounds: seq<ProcessingRound>, id: string, e: Element)
    ensures e in Lookup(AfterRounds(indices, rounds).elementsById, id) <==>
      e in Lookup(indices.elementsById, id)
      || exists i :: 0 <= i < |rounds| && Tagged(e, id) in rounds[i].environment.idBearers
    ensures NonEmptyBuckets(indices.elementsById) ==> NonEmptyBuckets(AfterRounds(indices, rounds).elementsById)
    decreases |rounds|
  {
    if rounds != [] {
      var next := AfterRound(indices, rounds[0]);
      AfterRoundsIdIndex(next, rounds[1..], id, e);
      IndexByIdContents(indices.elementsById, rounds[0].environment.idBearers, id, e);
      if NonEmptyBuckets(indices.elementsById) {
        IndexByIdKeepsBucketsNonEmpty(indices.elementsById, rounds[0].environment.idBearers);
      }
      if exists i :: 0 <= i < |rounds| && Tagged(e, id) in rounds[i].environment.idBearers {
        var i :| 0 <= i < |rounds| && Tagged(e, id) in rounds[i].environment.idBearers;
        if i > 0 {
          assert rounds[1..][i - 1] == rounds[i];
        }
      }
      if exists i :: 0 <= i < |rounds[1..]| && Tagged(e, id) in rounds[1..][i].environment.idBearers {
        var i :| 0 <= i < |rounds[1..]| && Tagged(e, id) in rounds[1..][i].environment.idBearers;
        assert rounds[1..][i] == rounds[i + 1];
      }
    }
  }

  /** Index consistency for annotations over a series of rounds: an element is
      listed under an annotation name exactly when it was already, or some
      round surfaced that annotation and annotated the element with it. */
  lemma {:induction false} AfterRoundsAnnotationIndex(indices: Indices, rounds: seq<ProcessingRound>, name: string, e: Element)
    ensures e in Lookup(AfterRounds(indices, rounds).elementsByAnnotationName, name) <==>
      e in Lookup(indices.elementsByAnnotationName, name)
      || exists i :: 0 <= i < |rounds| && name in rounds[i].annotations
                     && e in ElementsAnnotatedWith(rounds[i].environment, name)
    decreases |rounds|
  {
    if rounds != [] {
      var next := AfterRound(indices, rounds[0]);
      AfterRoundsAnnotationIndex(next, rounds[1..], name, e);
      if exists i :: 0 <= i < |rounds| && name in rounds[i].annotations
                     && e in ElementsAnnotatedWith(rounds[i].environment, name) {
        var i :| 0 <= i < |rounds| && name in rounds[i].annotations
                 && e in ElementsAnnotatedWith(rounds[i].environment, name);
        if i > 0 {
          assert rounds[1..][i - 1] == rounds[i];
        }
      }
      if exists i :: 0 <= i < |rounds[1..]| && name in rounds[1..][i].annotations
                     && e in ElementsAnnotatedWith(rounds[1..][i].environment, name) {
        var i :| 0 <= i < |rounds[1..]| && name in rounds[1..][i].annotations
                 && e in ElementsAnnotatedWith(rounds[1..][i].environment, name);
        assert rounds[1..][i] == rounds[i + 1];
      }
    }
  }

  const NULL_SOURCES_MESSAGE: string := "Argument 'sources' cannot be null."
  const NULL_SOURCE_MESSAGE: string := "Argument 'sources' cannot contain null."
  const NULL_ID_MESSAGE: string := "Argument 'id' cannot be null."
  const NULL_ANNOTATION_CLASS_MESSAGE: string := "Argument 'annotationClass' cannot be null."
  const UNEVALUATED_ENVIRONMENT_MESSAGE: string := "Rule must be evaluated before accessing processing environment."
  const UNEVALUATED_RESULT_MESSAGE: string := "Rule must be evaluated before accessing compilation result."
  const UNEVALUATED_ROUNDS_MESSAGE: string := "Rule must be evaluated before accessing round environments."
  const UNEVALUATED_ELEMENTS_MESSAGE: string := "Rule must be evaluated before accessing elements."

  function NoElementsMessage(id: string): string
  {
    "No elements found for ID '" + id + "'."
  }

  function MultipleElementsMessage(id: string): string
  {
    "Multiple elements found for ID '" + id + "'."
  }

  class AvatarRule {
    /** An immutable copy of the sources the rule was made with. */
    const sources: seq<Source>
    var roundEnvironments: seq<RoundEnvironment>
    var rootElements: set<Element>
    var elementsByAnnotationName: map<string, set<Element>>
    var elementsById: map<string, set<Element>>
    var processingEnvironment: Option<ProcessingEnvironment>
    /** None until the rule has been evaluated. */
    var compilationResult: Option<CompilationResult>

    ghost function State(): Indices
      reads this
    {
      Indices(roundEnvironments, rootElements, elementsByAnnotationName, elementsById)
    }

    constructor (sources: seq<Source>)
      ensures this.sources == sources && State() == EMPTY_INDICES
      ensures processingEnvironment == None && compilationResult == None
    {
      this.sources := sources;
      roundEnvironments := [];
      rootElements := {};
      elementsByAnnotationName := map[];
      elementsById := map[];
      processingEnvironment := None;
      compilationResult := None;
    }

    /** `forJavaFileObjects(sources)`: a null iterable and one holding null are
        rejected; otherwise the rule starts unevaluated with empty indices. */
    static method ForJavaFileObjects(sources: Option<seq<Option<Source>>>) returns (r: Result<AvatarRule>)
      ensures sources.None? ==> r == Err(IllegalArgument(NULL_SOURCES_MESSAGE))
      ensures sources.Some? && ContainsNull(sources.value) ==> r == Err(IllegalArgument(NULL_SOURCE_MESSAGE))
      ensures sources.Some? && !ContainsNull(sources.value) ==>
        r.Ok? && fresh(r.value) && r.value.sources == Unwrap(sources.value)
        && r.value.State() == EMPTY_INDICES
        && r.value.processingEnvironment == None && r.value.compilationResult == None
    {
      if sources.None? {
        return Err(IllegalArgument(NULL_SOURCES_MESSAGE));
      }
      var checked := CheckNotContainsNull(sources, NULL_SOURCE_MESSAGE);
      if checked.Err? {
        return Err(checked.error);
      }
      var rule := new AvatarRule(Unwrap(checked.value));
      return Ok(rule);
    }

    /** `Processor.init`: remembers the processing environment. */
    method Init(environment: ProcessingEnvironment)
      modifies this`processingEnvironment
      ensures processingEnvironment == Some(environment)
    {
      processingEnvironment := Some(environment);
    }

    /** `Processor.process`: records the round, adds its roots, indexes its
        elements, and does not claim the annotations. */
    method Process(annotations: set<string>, round: RoundEnvironment) returns (claimed: bool)
      modifies this`roundEnvironments, this`rootElements, this`elementsByAnnotationName, this`elementsById
      ensures State() == AfterRound(old(State()), ProcessingRound(annotations, round))
      ensures roundEnvironments == old(roundEnvironments) + [round]
      ensures rootElements == old(rootElements) + round.rootElements
      ensures forall name :: name in annotations ==>
        name in elementsByAnnotationName
        && elementsByAnnotationName[name] == Lookup(old(elementsByAnnotationName), name) + ElementsAnnotatedWith(round, name)
      ensures forall name :: name !in annotations ==>
        (name in elementsByAnnotationName <==> name in old(elementsByAnnotationName))
        && Lookup(elementsByAnnotationName, name) == Lookup(old(elementsByAnnotationName), name)
      ensures forall t :: t in round.idBearers ==> t.value in elementsById && t.element in elementsById[t.value]
      ensures NonEmptyBuckets(old(elementsById)) ==> NonEmptyBuckets(elementsById)
      ensures !claimed
    {
      roundEnvironments := roundEnvironments + [round];
      rootElements := rootElements + round.rootElements;
      CollectElementsByAnnotation(annotations, round);
      CollectElementsById(round);
      forall t | t in round.idBearers
        ensures t.value in elementsById && t.element in elementsById[t.value]
      {
        IndexByIdContents(old(elementsById), round.idBearers, t.value, t.element);
      }
      if NonEmptyBuckets(old(elementsById)) {
        IndexByIdKeepsBucketsNonEmpty(old(elementsById), round.idBearers);
      }
      claimed := false;
    }

    method CollectElementsByAnnotation(annotations: set<string>, round: RoundEnvironment)
      modifies this`elementsByAnnotationName
      ensures elementsByAnnotationName == IndexByAnnotation(old(elementsByAnnotationName), annotations, round)
    {
      var remaining := annotations;
      IndexByAnnotationNothing(elementsByAnnotationName, round);
      assert annotations - remaining == {};
      while remaining != {}
        invariant remaining <= annotations
        invariant elementsByAnnotationName
               == IndexByAnnotation(old(elementsByAnnotationName), annotations - remaining, round)
        decreases remaining
      {
        var annotation :| annotation in remaining;
        if annotation !in elementsByAnnotationName {
          elementsByAnnotationName := elementsByAnnotationName[annotation := {}];
        }
        elementsByAnnotationName := elementsByAnnotationName[annotation :=
          elementsByAnnotationName[annotation] + ElementsAnnotatedWith(round, annotation)];
        IndexByAnnotationStep(old(elementsByAnnotationName), annotations - remaining, round, annotation);
        assert annotations - (remaining - {annotation}) == (annotations - remaining) + {annotation};
        remaining := remaining - {annotation};
      }
      assert annotations - remaining == annotations;
    }

    method CollectElementsById(round: RoundEnvironment)
      modifies this`elementsById
      ensures elementsById == IndexById(old(elementsById), round.idBearers)
    {
      var bearers := round.idBearers;
      var i := 0;
      while i < |bearers|
        invariant 0 <= i <= |bearers|
        invariant IndexById(elementsById, bearers[i..]) == IndexById(old(elementsById), bearers)
      {
        ghost var before := elementsById;
        var e := bearers[i].element;
        var id := bearers[i].value;
        if id !in elementsById {
          elementsById := elementsById[id := {}];
        }
        elementsById := elementsById[id := elementsById[id] + {e}];
        assert elementsById == AddToBucket(before, id, e);
        assert bearers[i..][1..] == bearers[i + 1..];
        i := i + 1;
      }
    }

    /** The effect of `apply(...).evaluate()` before the test body runs: the
        compiler initialises the processor, feeds it the rounds in order, and
        the driver's result is stored. Nothing is reset first, so a second
        evaluation adds to what the first recorded. */
    method Evaluate(environment: ProcessingEnvironment, rounds: seq<ProcessingRound>, result: CompilationResult)
      modifies this
      ensures State() == AfterRounds(old(State()), rounds)
      ensures processingEnvironment == Some(environment)
      ensures compilationResult == Some(result)
    {
      Init(environment);
      var i := 0;
      while i < |rounds|
        invariant 0 <= i <= |rounds|
        invariant processingEnvironment == Some(environment)
        invariant AfterRounds(State(), rounds[i..]) == AfterRounds(old(State()), rounds)
      {
        ghost var before := State();
        var _ := Process(rounds[i].annotations, rounds[i].environment);
        assert State() == AfterRound(before, rounds[i]);
        assert rounds[i..][1..] == rounds[i + 1..];
        i := i + 1;
      }
      compilationResult := Some(result);
    }

    /** `getProcessingEnvironment()` */
    method GetProcessingEnvironment() returns (r: Result<Option<ProcessingEnvironment>>)
      ensures compilationResult.None? ==> r == Err(IllegalState(UNEVALUATED_ENVIRONMENT_MESSAGE))
      ensures compilationResult.Some? ==> r == Ok(processingEnvironment)
    {
      if compilationResult.None? {
        return Err(IllegalState(UNEVALUATED_ENVIRONMENT_MESSAGE));
      }
      return Ok(processingEnvironment);
    }

    /** `getCompilationResult()` */
    method GetCompilationResult() returns (r: Result<CompilationResult>)
      ensures compilationResult.None? ==> r == Err(IllegalState(UNEVALUATED_RESULT_MESSAGE))
      ensures compilationResult.Some? ==> r == Ok(compilationResult.value)
    {
      if compilationResult.None? {
        return Err(IllegalState(UNEVALUATED_RESULT_MESSAGE));
      }
      return Ok(compilationResult.value);
    }

    /** `getRoundEnvironments()`: the rounds in the order they were processed. */
    method GetRoundEnvironments() returns (r: Result<seq<RoundEnvironment>>)
      ensures compilationResult.None? ==> r == Err(IllegalState(UNEVALUATED_ROUNDS_MESSAGE))
      ensures compilationResult.Some? ==> r == Ok(roundEnvironments)
    {
      if compilationResult.None? {
        return Err(IllegalState(UNEVALUATED_ROUNDS_MESSAGE));
      }
      return Ok(roundEnvironments);
    }

    /** `getElementsWithId(id)`: the null check comes before the lifecycle
        check; an id never seen gives the empty set. */
    method GetElementsWithId(id: Option<string>) returns (r: Result<set<Element>>)
      ensures id.None? ==> r == Err(IllegalArgument(NULL_ID_MESSAGE))
      ensures id.Some? && compilationResult.None? ==> r == Err(IllegalState(UNEVALUATED_ELEMENTS_MESSAGE))
      ensures id.Some? && compilationResult.Some? ==>
        r.Ok? && (id.value in elementsById ==> r.value == elementsById[id.value])
        && (id.value !in elementsById ==> r.value == {})
    {
      if id.None? {
        return Err(IllegalArgument(NULL_ID_MESSAGE));
      }
      if compilationResult.None? {
        return Err(IllegalState(UNEVALUATED_ELEMENTS_MESSAGE));
      }
      if id.value in elementsById {
        return Ok(elementsById[id.value]);
      } else {
        return Ok({});
      }
    }

    /** `getElementWithUniqueId(id)`: the one element with that id; none or
        several are each reported with their own message. */
    method GetElementWithUniqueId(id: Option<string>) returns (r: Result<Element>)
      ensures id.None? ==> r == Err(IllegalArgument(NULL_ID_MESSAGE))
      ensures id.Some? && compilationResult.None? ==> r == Err(IllegalState(UNEVALUATED_ELEMENTS_MESSAGE))
      ensures id.Some? && compilationResult.Some? && Lookup(elementsById, id.value) == {} ==>
        r == Err(UniqueElementNotFound(NoElementsMessage(id.value)))
      ensures id.Some? && compilationResult.Some? && |Lookup(elementsById, id.value)| > 1 ==>
        r == Err(UniqueElementNotFound(MultipleElementsMessage(id.value)))
      ensures id.Some? && compilationResult.Some? && |Lookup(elementsById, id.value)| == 1 ==>
        r.Ok? && Lookup(elementsById, id.value) == {r.value}
    {
      if id.None? {
        return Err(IllegalArgument(NULL_ID_MESSAGE));
      }
      if compilationResult.None? {
        return Err(IllegalState(UNEVALUATED_ELEMENTS_MESSAGE));
      }
      var found := GetElementsWithId(id);
      var matches := found.value;
      if |matches| == 0 {
        return Err(UniqueElementNotFound(NoElementsMessage(id.value)));
      }
      if |matches| > 1 {
        return Err(UniqueElementNotFound(MultipleElementsMessage(id.value)));
      }
      var e :| e in matches;
      assert matches == {e} by {
        var rest := matches - {e};
        assert matches == rest + {e};
        assert |rest| == 0;
      }
      return Ok(e);
    }

    /** `getElementsWithAnnotation(annotationClass)`: looked up by canonical name;
        an annotation never seen gives the empty set. */
    method GetElementsWithAnnotation(annotationClass: Option<AnnotationClass>) returns (r: Result<set<Element>>)
      ensures annotationClass.None? ==> r == Err(IllegalArgument(NULL_ANNOTATION_CLASS_MESSAGE))
      ensures annotationClass.Some? && compilationResult.None? ==> r == Err(IllegalState(UNEVALUATED_ELEMENTS_MESSAGE))
      ensures annotationClass.Some? && compilationResult.Some? ==>
        r.Ok?
        && (annotationClass.value.canonicalName in elementsByAnnotationName ==>
              r.value == elementsByAnnotationName[annotationClass.value.canonicalName])
        && (annotationClass.value.canonicalName !in elementsByAnnotationName ==> r.value == {})
    {
      if annotationClass.None? {
        return Err(IllegalArgument(NULL_ANNOTATION_CLASS_MESSAGE));
      }
      if compilationResult.None? {
        return Err(IllegalState(UNEVALUATED_ELEMENTS_MESSAGE));
      }
      var name := annotationClass.value.canonicalName;
      if name in elementsByAnnotationName {
        return Ok(elementsByAnnotationName[name]);
      } else {
        return Ok({});
      }
    }

    /** `getRootElements()` */
    method GetRootElements() returns (r: Result<set<Element>>)
      ensures compilationResult.None? ==> r == Err(IllegalState(UNEVALUATED_ELEMENTS_MESSAGE))
      ensures compilationResult.Some? ==> r == Ok(rootElements)
    {
      if compilationResult.None? {
        return Err(IllegalState(UNEVALUATED_ELEMENTS_MESSAGE));
      }
      return Ok(rootElements);
    }
  }

  /** A rule evaluated once from scratch indexes exactly what its rounds
      showed: an element is listed under an id iff some round tags it with that
      id, every listed id has at least one element, and the roots are exactly
      the rounds' roots, with the rounds kept in order. */
  lemma FirstEvaluationIndices(rounds: seq<ProcessingRound>, id: string, e: Element)
    ensures AfterRounds(EMPTY_INDICES, rounds).roundEnvironments == Environments(rounds)
    ensures e in AfterRounds(EMPTY_INDICES, rounds).rootElements <==>
      exists i :: 0 <= i < |rounds| && e in rounds[i].environment.rootElements
    ensures e in Lookup(AfterRounds(EMPTY_INDICES, rounds).elementsById, id) <==>
      exists i :: 0 <= i < |rounds| && Tagged(e, id) in rounds[i].environment.idBearers
    ensures NonEmptyBuckets(AfterRounds(EMPTY_INDICES, rounds).elementsById)
  {
    AfterRoundsRounds(EMPTY_INDICES, rounds);
    AfterRoundsRoots(EMPTY_INDICES, rounds, e);
    AfterRoundsIdIndex(EMPTY_INDICES, rounds, id, e);
  }
}
