/** What the compiler hands an annotation processor: opaque elements, the
    annotation classes they are looked up by, and one round environment per
    processing round. The compiler itself is not modelled; a compilation is a
    sequence of `ProcessingRound` values fed to a processor in order. */
module Rounds {
  import opened Common

  /** A semantic element produced by the compiler's front end, compared by identity. */
  type Element(==)

  /** An element that carries an identifier annotation, with that annotation's value. */
  datatype Tagged<V> = Tagged(element: Element, value: V)

  /** An annotation type as a `Class<? extends Annotation>`; the compiler's round
      lookups and the fixture's index both go by its canonical name, which for an
      annotation type is also the qualified name of its `TypeElement`. */
  datatype AnnotationClass = AnnotationClass(canonicalName: string)

  /** One round of annotation processing, as `RoundEnvironment` exposes it. */
  datatype RoundEnvironment = RoundEnvironment(
    /** `getRootElements()` */
    rootElements: set<Element>,
    /** `getElementsAnnotatedWith(a)`, keyed by the qualified name of `a`; a name
        without an entry has no annotated elements this round */
    annotated: map<string, set<Element>>,
    /** `getElementsAnnotatedWith(ElementId.class)` in iteration order, each with
        `getAnnotation(ElementId.class).value()` of the string-valued identifier */
    idBearers: seq<Tagged<string>>,
    /** the same for the integer-valued identifier of the older utilities */
    intIdBearers: seq<Tagged<int>>)

  /** The two arguments `Processor.process(annotations, roundEnv)` receives in one
      round: the qualified names of the annotation types present, and the round. */
  datatype ProcessingRound = ProcessingRound(annotations: set<string>, environment: RoundEnvironment)

  /** `roundEnv.getElementsAnnotatedWith(annotation)` */
  function ElementsAnnotatedWith(round: RoundEnvironment, annotationName: string): set<Element>
  {
    Lookup(round.annotated, annotationName)
  }

  /** The elements of the round whose string identifier equals `id`. */
  function ElementsWithId(round: RoundEnvironment, id: string): set<Element>
  {
    set t | t in round.idBearers && t.value == id :: t.element
  }

  /** The elements of the round whose integer identifier equals `id`. */
  function ElementsWithIntId(round: RoundEnvironment, id: int): set<Element>
  {
    set t | t in round.intIdBearers && t.value == id :: t.element
  }

  /** The annotation-type pattern a processor declares to receive every round. */
  const ALL_ANNOTATION_TYPES: string := "*"

  /** Whether a processor declaring `supportedTypes` asks for `annotationName`. */
  predicate Supports(supportedTypes: set<string>, annotationName: string)
  {
    ALL_ANNOTATION_TYPES in supportedTypes || annotationName in supportedTypes
  }

  /** `ImmutableSet.of("*")`: the supported types of every collector that wants all rounds. */
  function AllAnnotationTypes(): (types: set<string>)
    ensures forall name :: Supports(types, name)
    ensures |types| == 1
  {
    {ALL_ANNOTATION_TYPES}
  }
}
