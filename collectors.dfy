/** The element collectors: annotation processors that, round by round, keep
    the elements their selection policy picks. Every collector declines to
    claim the annotations it sees (`process` returns false), so other
    processors still receive them. */
module Collectors {
  import opened Common
  import opened Rounds

  /** `RootElementCollector`: keeps every root element of every round. */
  class RootElementCollector {
    var collected: set<Element>

    constructor ()
      ensures collected == {}
    {
      collected := {};
    }

    /** `getSupportedAnnotationTypes`: the single pattern `"*"`, so every round is seen. */
    function SupportedAnnotationTypes(): (types: set<string>)
      ensures forall name :: Supports(types, name)
      ensures types == {ALL_ANNOTATION_TYPES}
    {
      AllAnnotationTypes()
    }

    /** `process`: unions the round's root elements into the collection. */
    method Process(annotations: set<string>, round: RoundEnvironment) returns (claimed: bool)
      modifies this
      ensures collected == old(collected) + round.rootElements
      ensures !claimed
    {
      collected := collected + round.rootElements;
      claimed := false;
    }

    /** `getCollectedElements`: a copy of the collection. */
    method GetCollectedElements() returns (r: set<Element>)
      ensures r == collected
    {
      r := collected;
    }
  }

  const NULL_TARGET_ANNOTATION_MESSAGE: string := "Argument 'targetAnnotation' cannot be null."

  /** `AnnotatedElementCollector`: keeps the elements bearing one annotation. */
  class AnnotatedElementCollector {
    const targetAnnotation: AnnotationClass
    var collected: set<Element>

    constructor (targetAnnotation: AnnotationClass)
      ensures this.targetAnnotation == targetAnnotation && collected == {}
    {
      this.targetAnnotation := targetAnnotation;
      collected := {};
    }

    /** The public constructor, which rejects a `null` annotation. */
    static method Create(targetAnnotation: Option<AnnotationClass>) returns (r: Result<AnnotatedElementCollector>)
      ensures targetAnnotation.None? ==> r == Err(IllegalArgument(NULL_TARGET_ANNOTATION_MESSAGE))
      ensures targetAnnotation.Some? ==>
        r.Ok? && fresh(r.value) && r.value.targetAnnotation == targetAnnotation.value && r.value.collected == {}
    {
      if targetAnnotation.None? {
        return Err(IllegalArgument(NULL_TARGET_ANNOTATION_MESSAGE));
      }
      var c := new AnnotatedElementCollector(targetAnnotation.value);
      return Ok(c);
    }

    /** `getSupportedAnnotationTypes`: the target's canonical name and nothing else. */
    function SupportedAnnotationTypes(): (types: set<string>)
      ensures forall name :: name in types <==> name == targetAnnotation.canonicalName
    {
      {targetAnnotation.canonicalName}
    }

    /** `process`: unions the elements annotated with the target into the collection. */
    method Process(annotations: set<string>, round: RoundEnvironment) returns (claimed: bool)
      modifies this
      ensures collected == old(collected) + ElementsAnnotatedWith(round, targetAnnotation.canonicalName)
      ensures !claimed
    {
      collected := collected + ElementsAnnotatedWith(round, targetAnnotation.canonicalName);
      claimed := false;
    }

    method GetCollectedElements() returns (r: set<Element>)
      ensures r == collected
    {
      r := collected;
    }
  }

  const NULL_TAGS_MESSAGE: string := "Argument 'tags' cannot be null."
  const NULL_TAG_MESSAGE: string := "Argument 'tags' cannot contain null."

  /** The elements of a round that bear at least one of the tags. */
  function TaggedIn(round: RoundEnvironment, tags: set<AnnotationClass>): set<Element>
  {
    set t, e | t in tags && e in ElementsAnnotatedWith(round, t.canonicalName) :: e
  }

  /** `TaggedElementCollector`: keeps the elements bearing any one of a set of annotations. */
  class TaggedElementCollector {
    /** The caller's tags, copied; later changes to the caller's set cannot reach them. */
    const tags: set<AnnotationClass>
    var collected: set<Element>

    constructor (tags: set<AnnotationClass>)
      ensures this.tags == tags && collected == {}
    {
      this.tags := tags;
      collected := {};
    }

    /** The public constructor, which rejects a `null` set and a set holding `null`. */
    static method Create(tags: Option<set<Option<AnnotationClass>>>) returns (r: Result<TaggedElementCollector>)
      ensures tags.None? ==> r == Err(IllegalArgument(NULL_TAGS_MESSAGE))
      ensures tags.Some? && None in tags.value ==> r == Err(IllegalArgument(NULL_TAG_MESSAGE))
      ensures tags.Some? && None !in tags.value ==>
        r.Ok? && fresh(r.value) && r.value.collected == {}
        && forall t :: t in r.value.tags <==> Some(t) in tags.value
    {
      if tags.None? {
        return Err(IllegalArgument(NULL_TAGS_MESSAGE));
      }
      if None in tags.value {
        return Err(IllegalArgument(NULL_TAG_MESSAGE));
      }
      var copy := set t | t in tags.value :: t.value;
      assert forall t :: Some(t) in tags.value ==> t in copy by {
        forall t | Some(t) in tags.value ensures t in copy {
          assert Some(t).value == t;
        }
      }
      assert forall t :: t in copy ==> Some(t) in tags.value by {
        forall t | t in copy ensures Some(t) in tags.value {
          var x :| x in tags.value && x.value == t;
          assert x != None;
        }
      }
      var c := new TaggedElementCollector(copy);
      return Ok(c);
    }

    /** `getSupportedAnnotationTypes`: the canonical names of the tags. */
    function SupportedAnnotationTypes(): (types: set<string>)
      ensures forall name :: name in types <==> exists t :: t in tags && t.canonicalName == name
      ensures |types| == |tags|
    {
      CanonicalNamesCount(tags);
      set t | t in tags :: t.canonicalName
    }

    /** `process`: for each tag in turn, unions the elements annotated with it
        into the collection. */
    method Process(annotations: set<string>, round: RoundEnvironment) returns (claimed: bool)
      modifies this
      ensures collected == old(collected) + TaggedIn(round, tags)
      ensures !claimed
    {
      var remaining := tags;
      while remaining != {}
        invariant remaining <= tags
        invariant collected == old(collected) + TaggedIn(round, tags - remaining)
        decreases remaining
      {
        var tag :| tag in remaining;
        collected := collected + ElementsAnnotatedWith(round, tag.canonicalName);
        TaggedInAddTag(round, tags - remaining, tag);
        remaining := remaining - {tag};
        assert tags - remaining == (tags - (remaining + {tag})) + {tag};
      }
      claimed := false;
    }

    method GetCollectedElements() returns (r: set<Element>)
      ensures r == collected
    {
      r := collected;
    }
  }

  /** Annotation classes are identified by their canonical names, so a set of
      them has exactly as many canonical names as members. */
  lemma {:induction false} CanonicalNamesCount(tags: set<AnnotationClass>)
    ensures |set t | t in tags :: t.canonicalName| == |tags|
    decreases |tags|
  {
    if tags != {} {
      var t0 :| t0 in tags;
      var rest := tags - {t0};
      CanonicalNamesCount(rest);
      assert (set t | t in tags :: t.canonicalName)
          == (set t | t in rest :: t.canonicalName) + {t0.canonicalName};
      assert t0.canonicalName !in (set t | t in rest :: t.canonicalName) by {
        forall t | t in rest ensures t.canonicalName != t0.canonicalName {
          assert t == AnnotationClass(t.canonicalName) && t0 == AnnotationClass(t0.canonicalName);
        }
      }
    }
  }

  /** Taking one more tag adds exactly the elements annotated with it. */
  lemma TaggedInAddTag(round: RoundEnvironment, done: set<AnnotationClass>, tag: AnnotationClass)
    ensures TaggedIn(round, done + {tag}) == TaggedIn(round, done) + ElementsAnnotatedWith(round, tag.canonicalName)
  {
  }

  /** Seeing the same round a second time adds nothing to a tagged
      collector: its `process` is idempotent on a repeated round. */
  method TaggedProcessRepeatedRound(c: TaggedElementCollector, annotations: set<string>, round: RoundEnvironment)
    returns (afterFirst: set<Element>)
    modifies c
    ensures afterFirst == old(c.collected) + TaggedIn(round, c.tags)
    ensures c.collected == afterFirst
  {
    var _ := c.Process(annotations, round);
    afterFirst := c.collected;
    var _ := c.Process(annotations, round);
  }

  /** Each element a tagged collector keeps bears one of its tags, and each
      element bearing one of them is kept. */
  lemma TaggedInBearsATag(round: RoundEnvironment, tags: set<AnnotationClass>, e: Element)
    ensures e in TaggedIn(round, tags) <==> exists t :: t in tags && e in ElementsAnnotatedWith(round, t.canonicalName)
  {
  }

  const NULL_ID_MESSAGE: string := "Argument 'id' cannot be null."

  /** `IdBasedElementCollector`: keeps the elements whose string identifier equals `id`. */
  class IdBasedElementCollector {
    const id: string
    var collected: set<Element>

    constructor (id: string)
      ensures this.id == id && collected == {}
    {
      this.id := id;
      collected := {};
    }

    /** The public constructor, which rejects a `null` id. */
    static method Create(id: Option<string>) returns (r: Result<IdBasedElementCollector>)
      ensures id.None? ==> r == Err(IllegalArgument(NULL_ID_MESSAGE))
      ensures id.Some? ==> r.Ok? && fresh(r.value) && r.value.id == id.value && r.value.collected == {}
    {
      if id.None? {
        return Err(IllegalArgument(NULL_ID_MESSAGE));
      }
      var c := new IdBasedElementCollector(id.value);
      return Ok(c);
    }

    /** `getSupportedAnnotationTypes`: the single pattern `"*"`, so every round is seen. */
    function SupportedAnnotationTypes(): (types: set<string>)
      ensures forall name :: Supports(types, name)
      ensures types == {ALL_ANNOTATION_TYPES}
    {
      AllAnnotationTypes()
    }

    /** `process`: walks the identifier-bearing elements of the round and keeps
        those whose identifier equals `id`. */
    method Process(annotations: set<string>, round: RoundEnvironment) returns (claimed: bool)
      modifies this
      ensures collected == old(collected) + ElementsWithId(round, id)
      ensures forall e :: e in collected - old(collected) ==> Tagged(e, id) in round.idBearers
      ensures !claimed
    {
      var bearers := round.idBearers;
      var i := 0;
      while i < |bearers|
        invariant 0 <= i <= |bearers|
        invariant collected == old(collected) + (set t | t in bearers[..i] && t.value == id :: t.element)
      {
        if id == bearers[i].value {
          collected := collected + {bearers[i].element};
        }
        assert bearers[..i + 1] == bearers[..i] + [bearers[i]];
        i := i + 1;
      }
      assert bearers[..i] == bearers;
      claimed := false;
    }

    method GetCollectedElements() returns (r: set<Element>)
      ensures r == collected
    {
      r := collected;
    }
  }

  /** `SpecificIdElementCollector` of the older utilities: keeps the elements
      whose integer identifier equals `id`; any integer is accepted. */
  class IntIdElementCollector {
    const id: int
    var collected: set<Element>

    constructor (id: int)
      ensures this.id == id && collected == {}
    {
      this.id := id;
      collected := {};
    }

    /** `getSupportedAnnotationTypes`: the single pattern `"*"`, so every round is seen. */
    function SupportedAnnotationTypes(): (types: set<string>)
      ensures forall name :: Supports(types, name)
      ensures types == {ALL_ANNOTATION_TYPES}
    {
      AllAnnotationTypes()
    }

    method Process(annotations: set<string>, round: RoundEnvironment) returns (claimed: bool)
      modifies this
      ensures collected == old(collected) + ElementsWithIntId(round, id)
      ensures !claimed
    {
      var bearers := round.intIdBearers;
      var i := 0;
      while i < |bearers|
        invariant 0 <= i <= |bearers|
        invariant collected == old(collected) + (set t | t in bearers[..i] && t.value == id :: t.element)
      {
        if bearers[i].value == id {
          collected := collected + {bearers[i].element};
        }
        assert bearers[..i + 1] == bearers[..i] + [bearers[i]];
        i := i + 1;
      }
      assert bearers[..i] == bearers;
      claimed := false;
    }

    method GetCollectedElements() returns (r: set<Element>)
      ensures r == collected
    {
      r := collected;
    }
  }

  /** The position of the first bearer whose identifier equals `id`, or the
      number of bearers when there is none. */
  function FirstIndexWithIntId(bearers: seq<Tagged<int>>, id: int): (k: nat)
    ensures k <= |bearers|
    ensures forall j :: 0 <= j < k ==> bearers[j].value != id
    ensures k < |bearers| ==> bearers[k].value == id
  {
    if bearers == [] then 0
    else if bearers[0].value == id then 0
    else 1 + FirstIndexWithIntId(bearers[1..], id)
  }

  /** `UniqueElementCollector`: remembers the first element, in iteration
      order, whose integer identifier equals `id`; a later round with a match
      overwrites it and a round without one leaves it alone. */
  class UniqueElementCollector {
    const id: int
    var collectedElement: Option<Element>

    constructor (id: int)
      ensures this.id == id && collectedElement == None
    {
      this.id := id;
      collectedElement := None;
    }

    /** `getSupportedAnnotationTypes`: the single pattern `"*"`, so every round is seen. */
    function SupportedAnnotationTypes(): (types: set<string>)
      ensures forall name :: Supports(types, name)
      ensures types == {ALL_ANNOTATION_TYPES}
    {
      AllAnnotationTypes()
    }

    method Process(annotations: set<string>, round: RoundEnvironment) returns (claimed: bool)
      modifies this
      ensures collectedElement == UniqueAfterRound(old(collectedElement), round, id)
      ensures !claimed
    {
      var bearers := round.intIdBearers;
      var i := 0;
      while i < |bearers|
        invariant 0 <= i <= |bearers|
        invariant forall j :: 0 <= j < i ==> bearers[j].value != id
        invariant collectedElement == old(collectedElement)
      {
        if bearers[i].value == id {
          collectedElement := Some(bearers[i].element);
          break;
        }
        i := i + 1;
      }
      claimed := false;
    }

    /** `getResult`: the remembered element, `null` until a match has been seen. */
    method GetResult() returns (r: Option<Element>)
      ensures r == collectedElement
    {
      r := collectedElement;
    }
  }

  /** The unique collector's result after one more round. */
  function UniqueAfterRound(previous: Option<Element>, round: RoundEnvironment, id: int): Option<Element>
  {
    var k := FirstIndexWithIntId(round.intIdBearers, id);
    if k < |round.intIdBearers| then Some(round.intIdBearers[k].element) else previous
  }

  /** The unique collector's result after a series of rounds. */
  function UniqueAfterRounds(previous: Option<Element>, rounds: seq<RoundEnvironment>, id: int): Option<Element>
    decreases |rounds|
  {
    if rounds == [] then previous
    else UniqueAfterRounds(UniqueAfterRound(previous, rounds[0], id), rounds[1..], id)
  }

  /** Over rounds none of which has a match, the unique collector keeps what it had. */
  lemma {:induction false} UniqueAfterRoundsWithoutMatch(previous: Option<Element>, rounds: seq<RoundEnvironment>, id: int)
    requires forall i :: 0 <= i < |rounds| ==> ElementsWithIntId(rounds[i], id) == {}
    ensures UniqueAfterRounds(previous, rounds, id) == previous
    decreases |rounds|
  {
    if rounds != [] {
      NoMatchKeeps(previous, previous, rounds[0], id);
      assert forall j :: 0 <= j < |rounds[1..]| ==> rounds[1..][j] == rounds[j + 1];
      UniqueAfterRoundsWithoutMatch(previous, rounds[1..], id);
    }
  }

  /** Over several rounds, the unique collector ends with the first match of the
      LAST round that had one, whatever it held before. */
  lemma {:induction false} UniqueAfterRoundsIsLastMatch(
    previous: Option<Element>, rounds: seq<RoundEnvironment>, id: int, last: nat)
    requires last < |rounds| && ElementsWithIntId(rounds[last], id) != {}
    requires forall j :: last < j < |rounds| ==> ElementsWithIntId(rounds[j], id) == {}
    ensures UniqueAfterRounds(previous, rounds, id) == UniqueAfterRound(previous, rounds[last], id)
    ensures UniqueAfterRounds(previous, rounds, id).Some?
    ensures UniqueAfterRounds(previous, rounds, id).value in ElementsWithIntId(rounds[last], id)
    decreases |rounds|
  {
    var next := UniqueAfterRound(previous, rounds[0], id);
    NoMatchKeeps(previous, previous, rounds[last], id);
    if last == 0 {
      assert forall j :: 0 <= j < |rounds[1..]| ==> rounds[1..][j] == rounds[j + 1];
      UniqueAfterRoundsWithoutMatch(next, rounds[1..], id);
    } else {
      assert rounds[1..][last - 1] == rounds[last];
      assert forall j :: last - 1 < j < |rounds[1..]| ==> rounds[1..][j] == rounds[j + 1];
      UniqueAfterRoundsIsLastMatch(next, rounds[1..], id, last - 1);
      NoMatchKeeps(next, previous, rounds[last], id);
    }
  }

  /** A round's result depends on what came before only when the round has no
      match, and a round with a match ignores it. */
  lemma NoMatchKeeps(previous1: Option<Element>, previous2: Option<Element>, round: RoundEnvironment, id: int)
    ensures ElementsWithIntId(round, id) == {} ==> UniqueAfterRound(previous1, round, id) == previous1
    ensures ElementsWithIntId(round, id) != {} ==>
      UniqueAfterRound(previous1, round, id) == UniqueAfterRound(previous2, round, id)
      && UniqueAfterRound(previous1, round, id).Some?
      && UniqueAfterRound(previous1, round, id).value in ElementsWithIntId(round, id)
  {
    var k := FirstIndexWithIntId(round.intIdBearers, id);
    if k < |round.intIdBearers| {
      assert round.intIdBearers[k].element in ElementsWithIntId(round, id);
    }
    if ElementsWithIntId(round, id) != {} {
      var e :| e in ElementsWithIntId(round, id);
      var t :| t in round.intIdBearers && t.value == id && t.element == e;
    }
  }

  /** A Java value as `String.equals(Object)` sees it after boxing. */
  datatype JavaValue = JavaString(s: string) | JavaInteger(i: int)

  /** `a.equals(b)` for a String `a`: true only for a String with the same characters. */
  predicate JavaEquals(a: JavaValue, b: JavaValue)
  {
    a.JavaString? && b.JavaString? && a.s == b.s
  }

  /** The selection of `element_util/collectors/SpecificIdElementCollector` as
      written: its `ElementId` import is the integer-valued annotation, so the
      string id is compared with a boxed `Integer`. */
  function SpecificIdSelectedAsWritten(round: RoundEnvironment, id: string): set<Element>
  {
    set t | t in round.intIdBearers && JavaEquals(JavaString(id), JavaInteger(t.value)) :: t.element
  }

  /** As written, that collector never keeps anything: a String never equals an
      Integer, so even `@ElementId(1)` is not found under the id "1". The
      intended string comparison finds an element tagged "1" under "1". */
  lemma {:induction false} SpecificIdAsWrittenNeverCollects(round: RoundEnvironment, id: string, e: Element)
    ensures SpecificIdSelectedAsWritten(round, id) == {}
    ensures SpecificIdSelectedAsWritten(RoundEnvironment({}, map[], [], [Tagged(e, 1)]), "1") == {}
    ensures ElementsWithId(RoundEnvironment({}, map[], [Tagged(e, "1")], []), "1") == {e}
  {
    var intended := RoundEnvironment({}, map[], [Tagged(e, "1")], []);
    assert Tagged(e, "1") in intended.idBearers;
  }
}
