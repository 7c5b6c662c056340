/** AggregateResourceListSource: one ResourceListSource made of several, asked in turn. */
module Aggregate {
  import opened Wrappers
  import opened Resources

  const NULL_LIST_MESSAGE := "ResourceListSources list cannot be null"
  const NULL_ARRAY_MESSAGE := "ResourceListSources array cannot be null"

  /**
   * What the sources return for basePath and criteria, one source after the
   * other in registration order; a name two sources return appears twice.
   */
  function Aggregated(sources: seq<ResourceListSource>, basePath: string, criteria: ResourceCriteria): seq<string>
  {
    if sources == [] then []
    else Aggregated(sources[..|sources| - 1], basePath, criteria)
         + sources[|sources| - 1].getResources(basePath, criteria)
  }

  /** The total number of names the sources return. */
  function TotalCount(sources: seq<ResourceListSource>, basePath: string, criteria: ResourceCriteria): nat
  {
    if sources == [] then 0
    else TotalCount(sources[1..], basePath, criteria) + |sources[0].getResources(basePath, criteria)|
  }

  /** Registering more sources appends their results to what the earlier ones return. */
  lemma {:induction false} AggregatedAppend(a: seq<ResourceListSource>, b: seq<ResourceListSource>,
                                            basePath: string, criteria: ResourceCriteria)
    ensures Aggregated(a + b, basePath, criteria)
         == Aggregated(a, basePath, criteria) + Aggregated(b, basePath, criteria)
    decreases |b|
  {
    if b == [] {
      assert a + b == a;
    } else {
      var b' := b[..|b| - 1];
      assert (a + b)[..|a + b| - 1] == a + b';
      assert (a + b)[|a + b| - 1] == b[|b| - 1];
      AggregatedAppend(a, b', basePath, criteria);
    }
  }

  /** Nothing is dropped or merged: the result is as long as all the sources' results together. */
  lemma {:induction false} AggregatedLength(sources: seq<ResourceListSource>, basePath: string, criteria: ResourceCriteria)
    ensures |Aggregated(sources, basePath, criteria)| == TotalCount(sources, basePath, criteria)
    decreases |sources|
  {
    if sources != [] {
      AggregatedAppend([sources[0]], sources[1..], basePath, criteria);
      assert [sources[0]] + sources[1..] == sources;
      assert [sources[0]][..0] == [];
      AggregatedLength(sources[1..], basePath, criteria);
    }
  }

  /** A name is in the result exactly when some registered source returns it. */
  lemma {:induction false} AggregatedMembership(sources: seq<ResourceListSource>, basePath: string,
                                                criteria: ResourceCriteria, name: string)
    ensures name in Aggregated(sources, basePath, criteria)
        <==> exists i :: 0 <= i < |sources| && name in sources[i].getResources(basePath, criteria)
    decreases |sources|
  {
    if sources != [] {
      var init := sources[..|sources| - 1];
      AggregatedMembership(init, basePath, criteria, name);
      assert forall i :: 0 <= i < |init| ==> init[i] == sources[i];
    }
  }

  /** Two sources: the first one's names, then the second one's, duplicates and all. */
  lemma AggregatedPair(first: ResourceListSource, second: ResourceListSource, basePath: string,
                       criteria: ResourceCriteria, name: string)
    ensures Aggregated([first, second], basePath, criteria)
         == first.getResources(basePath, criteria) + second.getResources(basePath, criteria)
    ensures name in first.getResources(basePath, criteria) && name in second.getResources(basePath, criteria)
        ==> multiset(Aggregated([first, second], basePath, criteria))[name] >= 2
  {
    assert [first, second][..1] == [first];
    assert [first][..0] == [];
    assert Aggregated([first], basePath, criteria) == first.getResources(basePath, criteria);
  }

  class AggregateResourceListSource {
    /** The registered sources, in registration order. */
    var sources: seq<ResourceListSource>

    /** The no-argument constructor: no sources at all. */
    constructor ()
      ensures sources == []
    {
      sources := [];
    }

    /** The List constructor: a null list is rejected with IllegalArgumentException, otherwise its sources are registered in order. */
    static method FromList(l: Option<seq<ResourceListSource>>) returns (r: Result<AggregateResourceListSource, string>)
      ensures l.None? <==> r.Failure?
      ensures r.Failure? ==> r.error == NULL_LIST_MESSAGE
      ensures r.Success? ==> fresh(r.value) && r.value.sources == l.value
    {
      if l.None? {
        return Failure(NULL_LIST_MESSAGE);
      }
      var aggregate := new AggregateResourceListSource();
      aggregate.sources := aggregate.sources + l.value;
      return Success(aggregate);
    }

    /** The array constructor: a null array is rejected with IllegalArgumentException, otherwise its sources are registered in order. */
    static method FromArray(a: Option<array<ResourceListSource>>) returns (r: Result<AggregateResourceListSource, string>)
      ensures a.None? <==> r.Failure?
      ensures r.Failure? ==> r.error == NULL_ARRAY_MESSAGE
      ensures r.Success? ==> fresh(r.value) && r.value.sources == a.value[..]
    {
      if a.None? {
        return Failure(NULL_ARRAY_MESSAGE);
      }
      var aggregate := new AggregateResourceListSource();
      aggregate.sources := aggregate.sources + a.value[..];
      return Success(aggregate);
    }

    /**
     * getResources: every source is asked, in registration order, with the
     * same basePath and criteria, and the answers are concatenated into a new
     * array. The registered sources are left as they were.
     */
    method GetResources(basePath: string, criteria: ResourceCriteria) returns (names: array<string>)
      ensures fresh(names)
      ensures names[..] == Aggregated(sources, basePath, criteria)
      ensures unchanged(this)
    {
      var resourceNames: seq<string> := [];
      var i := 0;
      while i < |sources|
        invariant 0 <= i <= |sources|
        invariant resourceNames == Aggregated(sources[..i], basePath, criteria)
      {
        assert sources[..i + 1][..i] == sources[..i];
        resourceNames := resourceNames + sources[i].getResources(basePath, criteria);
        i := i + 1;
      }
      assert sources[..i] == sources;
      names := new string[|resourceNames|](k requires 0 <= k < |resourceNames| => resourceNames[k]);
    }

    /** addResourceListSource: the source goes after all earlier ones, which keep their order. */
    method AddResourceListSource(source: ResourceListSource)
      modifies this
      ensures sources == old(sources) + [source]
      ensures forall basePath, criteria :: Aggregated(sources, basePath, criteria)
                == Aggregated(old(sources), basePath, criteria) + source.getResources(basePath, criteria)
    {
      sources := sources + [source];
      assert sources[..|sources| - 1] == old(sources);
    }
  }

  /** A client: an aggregate built with no sources finds nothing, whatever it is asked. */
  method EmptyAggregateFindsNothing(basePath: string, criteria: ResourceCriteria) returns (names: array<string>)
    ensures names.Length == 0
  {
    var aggregate := new AggregateResourceListSource();
    names := aggregate.GetResources(basePath, criteria);
  }
}
