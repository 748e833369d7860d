/** The REST mapper that replaces its mappings from discovery. Locking is the subject of ProviderSystem. */
module DynamicMapper {
  import opened Results
  import opened MetricInfo

  /** The mappings in use after a sequence of refreshes: the newest fetched, or the first ones if every fetch failed. */
  function LatestFetched(first: RESTMapper, fetches: seq<Outcome<RESTMapper>>): RESTMapper {
    if fetches == [] then first
    else
      match fetches[|fetches| - 1]
      case Ok(m) => m
      case Err(_) => LatestFetched(first, fetches[..|fetches| - 1])
  }

  /** Failed refreshes leave the mappings alone: what is in use came with some successful fetch, after which all
      failed, or is the first if there was none. */
  lemma {:induction false} LatestFetchedMeaning(first: RESTMapper, fetches: seq<Outcome<RESTMapper>>)
    ensures (forall f <- fetches :: f.Err?) ==> LatestFetched(first, fetches) == first
    ensures (exists f <- fetches :: f.Ok?) ==>
              exists i :: 0 <= i < |fetches| && fetches[i] == Ok(LatestFetched(first, fetches))
                          && forall j :: i < j < |fetches| ==> fetches[j].Err?
  {
    if fetches != [] {
      var n := |fetches| - 1;
      LatestFetchedMeaning(first, fetches[..n]);
      assert fetches == fetches[..n] + [fetches[n]];
      if fetches[n].Err? && exists f <- fetches :: f.Ok? {
        var i :| 0 <= i < n && fetches[..n][i] == Ok(LatestFetched(first, fetches[..n]))
                 && forall j :: i < j < n ==> fetches[..n][j].Err?;
        assert fetches[i] == Ok(LatestFetched(first, fetches));
        assert forall j :: i < j < n ==> fetches[j] == fetches[..n][j];
      }
    }
  }

  class RegeneratingDiscoveryRESTMapper {
    var delegate: RESTMapper

    constructor Populated(fetched: RESTMapper)
      ensures delegate == fetched
    {
      delegate := fetched;
    }

    /** There is no mapper without a first successful fetch. */
    static method NewRESTMapper(fetched: Outcome<RESTMapper>) returns (r: Outcome<RegeneratingDiscoveryRESTMapper>)
      ensures r.Ok? <==> fetched.Ok?
      ensures r.Ok? ==> fresh(r.value) && r.value.delegate == fetched.value
    {
      if fetched.Err? {
        return Err(Failure("unable to populate initial set of REST mappings"));
      }
      var mapper := new RegeneratingDiscoveryRESTMapper.Populated(fetched.value);
      r := Ok(mapper);
    }

    method RegenerateMappings(fetched: Outcome<RESTMapper>) returns (r: Outcome<()>)
      modifies this
      ensures r == if fetched.Ok? then Ok(()) else Err(fetched.error)
      ensures delegate == LatestFetched(old(delegate), [fetched])
    {
      assert [fetched][..0] == [];
      var newDelegate :- fetched;
      delegate := newDelegate;
      return Ok(());
    }

    /** The refresher, for as many intervals as `fetches` are given; a failed one is only logged. */
    method RunUntil(fetches: seq<Outcome<RESTMapper>>)
      modifies this
      ensures delegate == LatestFetched(old(delegate), fetches)
    {
      for i := 0 to |fetches|
        invariant delegate == LatestFetched(old(delegate), fetches[..i])
      {
        assert fetches[..i + 1][..i] == fetches[..i];
        var _ := RegenerateMappings(fetches[i]);
      }
      assert fetches[..|fetches|] == fetches;
    }
  }
}
