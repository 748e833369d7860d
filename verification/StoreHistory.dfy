/** What histories of writes make readable. */
module StoreHistory {
  import opened Results
  import opened Schema
  import opened MetricInfo
  import opened Helpers
  import opened MetricStore

  // ----- last write wins -----

  /** The event is an accepted write to `key`. */
  ghost predicate Writes(e: WriteEvent, key: MetricKey) {
    e.request.body.Ok? && StoredKey(e.mapper, e.request) == key
  }

  ghost predicate IsLatestWrite(events: seq<WriteEvent>, key: MetricKey, i: int) {
    && 0 <= i < |events|
    && Writes(events[i], key)
    && forall j :: i < j < |events| ==> !Writes(events[j], key)
  }

  lemma ReplayLast(events: seq<WriteEvent>)
    requires events != []
    ensures var e := events[|events| - 1];
            var before := Replay(events[..|events| - 1]);
            Replay(events) == match e.request.body
                              case Err(_) => before
                              case Ok(v) => before[StoredKey(e.mapper, e.request) := v]
  {
    assert events == events[..|events| - 1] + [events[|events| - 1]];
    ReplayGrows(events[..|events| - 1], events[|events| - 1]);
  }

  lemma LatestOfFront(events: seq<WriteEvent>, key: MetricKey, i: int)
    requires events != [] && !Writes(events[|events| - 1], key)
    ensures IsLatestWrite(events[..|events| - 1], key, i) <==> IsLatestWrite(events, key, i)
  {
    var front := events[..|events| - 1];
    assert forall j :: 0 <= j < |front| ==> front[j] == events[j];
  }

  lemma {:induction false} KeyHoldsLatest(events: seq<WriteEvent>, key: MetricKey)
    ensures key in Replay(events) <==> exists i :: IsLatestWrite(events, key, i)
    ensures forall i :: IsLatestWrite(events, key, i) ==>
              key in Replay(events) && Replay(events)[key] == events[i].request.body.value
  {
    if events != [] {
      var n := |events| - 1;
      var front := events[..n];
      ReplayLast(events);
      if Writes(events[n], key) {
        assert IsLatestWrite(events, key, n);
        assert forall i :: IsLatestWrite(events, key, i) ==> i == n;
      } else {
        KeyHoldsLatest(front, key);
        forall i ensures IsLatestWrite(front, key, i) <==> IsLatestWrite(events, key, i) {
          LatestOfFront(events, key, i);
        }
      }
    }
  }

  lemma {:induction false} SomeWriteIsLatest(events: seq<WriteEvent>, key: MetricKey)
    ensures (exists i :: IsLatestWrite(events, key, i)) <==> (exists e <- events :: Writes(e, key))
  {
    if events != [] {
      var n := |events| - 1;
      SomeWriteIsLatest(events[..n], key);
      if Writes(events[n], key) {
        assert IsLatestWrite(events, key, n);
      } else {
        forall i ensures IsLatestWrite(events[..n], key, i) <==> IsLatestWrite(events, key, i) {
          LatestOfFront(events, key, i);
        }
        assert events == events[..n] + [events[n]];
      }
    }
  }

  /** A lookup answers with the latest accepted write stored under the query's normal form, whatever the mapper
      answered when the writes were made; it reports not-found exactly when there is none. */
  lemma LastWriteWins(mapper: RESTMapper, events: seq<WriteEvent>, info: CustomMetricInfo, name: NamespacedName)
    ensures var r := ValueFor(mapper, Replay(events), info, name);
            var n := Normalized(info, mapper);
            var key := MetricKey(n.info, name);
            match n.err
            case Some(e) => r == Err(e)
            case None =>
              && (forall i :: IsLatestWrite(events, key, i) ==> r == Ok(events[i].request.body.value))
              && (r.Ok? <==> exists i :: IsLatestWrite(events, key, i))
              && (r.Err? <==> forall e <- events :: !Writes(e, key))
              && (r.Err? ==> r.error == MetricNotFound(n.info.groupResource, n.info.metric, name.name))
  {
    var key := MetricKey(Normalized(info, mapper).info, name);
    KeyHoldsLatest(events, key);
    SomeWriteIsLatest(events, key);
  }

  // ----- writes whose normalisation failed -----

  function Under(mapper: RESTMapper, requests: seq<WriteRequest>): (events: seq<WriteEvent>)
    ensures |events| == |requests|
    ensures forall i :: 0 <= i < |events| ==> events[i] == WriteEvent(mapper, requests[i])
  {
    seq(|requests|, i requires 0 <= i < |requests| => WriteEvent(mapper, requests[i]))
  }

  predicate Normalizes(mapper: RESTMapper, w: WriteRequest) {
    Normalized(RawInfo(w), mapper).err.None?
  }

  /** The requests without those whose normalisation failed. */
  function OnlyNormalized(mapper: RESTMapper, requests: seq<WriteRequest>): seq<WriteRequest> {
    if requests == [] then []
    else
      var w := requests[|requests| - 1];
      OnlyNormalized(mapper, requests[..|requests| - 1]) + if Normalizes(mapper, w) then [w] else []
  }

  /** Erasing the writes that failed to normalise changes no lookup, in any history. */
  ghost predicate FailedWritesInvisible(mapper: RESTMapper) {
    forall requests: seq<WriteRequest>, info, name ::
      ValueFor(mapper, Replay(Under(mapper, requests)), info, name)
      == ValueFor(mapper, Replay(Under(mapper, OnlyNormalized(mapper, requests))), info, name)
  }

  /** Every normal form that can be written in a path is itself known to the mapper. */
  ghost predicate NormalFormsResolve(mapper: RESTMapper) {
    forall gr :: Resolves(mapper, gr) && '.' !in NormalForm(mapper, gr).resource ==>
                   mapper.ResourceFor(NormalForm(mapper, gr).WithVersion("")).Ok?
  }

  lemma FailedKeyUnreadable(mapper: RESTMapper, w: WriteRequest, info: CustomMetricInfo)
    requires NormalFormsResolve(mapper)
    requires !Normalizes(mapper, w) && Resolves(mapper, info.groupResource)
    ensures StoredKey(mapper, w).info != Normalized(info, mapper).info
  {
    NormalizedMeaning(info, mapper);
  }

  lemma UnderFront(mapper: RESTMapper, requests: seq<WriteRequest>)
    requires requests != []
    ensures var n := |requests| - 1;
            && Under(mapper, requests)[..n] == Under(mapper, requests[..n])
            && Under(mapper, requests)[n] == WriteEvent(mapper, requests[n])
  {
  }

  lemma {:induction false} ErasureAgrees(mapper: RESTMapper, requests: seq<WriteRequest>, info: CustomMetricInfo,
                                         name: NamespacedName)
    requires NormalFormsResolve(mapper) && Resolves(mapper, info.groupResource)
    ensures ValueFor(mapper, Replay(Under(mapper, requests)), info, name)
         == ValueFor(mapper, Replay(Under(mapper, OnlyNormalized(mapper, requests))), info, name)
  {
    if requests != [] {
      var n := |requests| - 1;
      var front, w := requests[..n], requests[n];
      ErasureAgrees(mapper, front, info, name);
      NormalizedMeaning(info, mapper);
      UnderFront(mapper, requests);
      ReplayLast(Under(mapper, requests));
      var kept := OnlyNormalized(mapper, front);
      if Normalizes(mapper, w) {
        assert (kept + [w])[..|kept|] == kept;
        UnderFront(mapper, kept + [w]);
        ReplayLast(Under(mapper, kept + [w]));
      } else {
        assert kept + [] == kept;
        FailedKeyUnreadable(mapper, w, info);
      }
    }
  }

  /** Failed writes are invisible under exactly those mappers whose normal forms are known to them. */
  lemma FailedWritesInvisibleExactly(mapper: RESTMapper)
    ensures FailedWritesInvisible(mapper) <==> NormalFormsResolve(mapper)
  {
    if NormalFormsResolve(mapper) {
      forall requests, info, name
        ensures ValueFor(mapper, Replay(Under(mapper, requests)), info, name)
             == ValueFor(mapper, Replay(Under(mapper, OnlyNormalized(mapper, requests))), info, name)
      {
        NormalizedMeaning(info, mapper);
        if Resolves(mapper, info.groupResource) {
          ErasureAgrees(mapper, requests, info, name);
        }
      }
    } else {
      var gr :| Resolves(mapper, gr) && '.' !in NormalForm(mapper, gr).resource
                && mapper.ResourceFor(NormalForm(mapper, gr).WithVersion("")).Err?;
      VisibleFailedWrite(mapper, gr);
    }
  }

  /** The counterexample: a failed write stored under a raw name that is the normal form of another. */
  lemma VisibleFailedWrite(mapper: RESTMapper, gr: GroupResource)
    requires Resolves(mapper, gr) && '.' !in NormalForm(mapper, gr).resource
    requires mapper.ResourceFor(NormalForm(mapper, gr).WithVersion("")).Err?
    ensures var form := NormalForm(mapper, gr);
            var requests := [WriteRequest("ns", form.ToString(), "object", "metric", Ok(1))];
            var info, name := CustomMetricInfo(gr, true, "metric"), NamespacedName("ns", "object");
            && ValueFor(mapper, Replay(Under(mapper, requests)), info, name) == Ok(1)
            && ValueFor(mapper, Replay(Under(mapper, OnlyNormalized(mapper, requests))), info, name).Err?
    ensures !FailedWritesInvisible(mapper)
  {
    var form := NormalForm(mapper, gr);
    var w := WriteRequest("ns", form.ToString(), "object", "metric", Ok(1));
    ParseInvertsToStringExactly(form);
    UnderFront(mapper, [w]);
    ReplayLast(Under(mapper, [w]));
    assert Under(mapper, []) == [];
    assert OnlyNormalized(mapper, [w]) == [];
    var info, name := CustomMetricInfo(gr, true, "metric"), NamespacedName("ns", "object");
    assert ValueFor(mapper, Replay(Under(mapper, [w])), info, name)
        != ValueFor(mapper, Replay(Under(mapper, OnlyNormalized(mapper, [w]))), info, name);
  }

  // ----- discovery against lookups -----

  /** In every history, a listed info that normalises has a value for some object. */
  ghost predicate ListedIsReadable(mapper: RESTMapper) {
    forall requests: seq<WriteRequest>, info ::
      info in Infos(Replay(Under(mapper, requests))) && Resolves(mapper, info.groupResource) ==>
        exists name :: ValueFor(mapper, Replay(Under(mapper, requests)), info, name).Ok?
  }

  /** Normalising a second time changes nothing, where it succeeds. */
  ghost predicate FormsAreStable(mapper: RESTMapper) {
    forall gr: GroupResource
      | '.' !in gr.resource && mapper.ResourceFor(gr.WithVersion("")).Ok? && Resolves(mapper, NormalForm(mapper, gr))
      :: NormalForm(mapper, NormalForm(mapper, gr)) == NormalForm(mapper, gr)
  }

  /** Discovery and lookups agree under exactly those mappers whose normal forms are stable. */
  lemma ListedIsReadableExactly(mapper: RESTMapper)
    ensures ListedIsReadable(mapper) <==> FormsAreStable(mapper)
  {
    if FormsAreStable(mapper) {
      forall requests, info | info in Infos(Replay(Under(mapper, requests))) && Resolves(mapper, info.groupResource)
        ensures exists name :: ValueFor(mapper, Replay(Under(mapper, requests)), info, name).Ok?
      {
        var values := Replay(Under(mapper, requests));
        var key :| key in values && key.info == info;
        StoredKeyIsRead(mapper, requests, key);
        assert ValueFor(mapper, values, info, key.name).Ok?;
      }
    } else {
      var gr: GroupResource :| '.' !in gr.resource && mapper.ResourceFor(gr.WithVersion("")).Ok?
                && Resolves(mapper, NormalForm(mapper, gr))
                && NormalForm(mapper, NormalForm(mapper, gr)) != NormalForm(mapper, gr);
      ListedButUnreadable(mapper, gr);
    }
  }

  lemma StoredKeyIsRead(mapper: RESTMapper, requests: seq<WriteRequest>, key: MetricKey)
    requires FormsAreStable(mapper)
    requires key in Replay(Under(mapper, requests)) && Resolves(mapper, key.info.groupResource)
    ensures ValueFor(mapper, Replay(Under(mapper, requests)), key.info, key.name).Ok?
  {
    hide Replay, IsLatestWrite, ParseGroupResource;
    KeyHoldsLatest(Under(mapper, requests), key);
    SomeWriteIsLatest(Under(mapper, requests), key);
    var e :| e in Under(mapper, requests) && Writes(e, key);
    assert '.' !in RawInfo(e.request).groupResource.resource;
    NormalizedMeaning(key.info, mapper);
  }

  lemma ListedButUnreadable(mapper: RESTMapper, gr: GroupResource)
    requires '.' !in gr.resource && mapper.ResourceFor(gr.WithVersion("")).Ok?
    requires Resolves(mapper, NormalForm(mapper, gr))
    requires NormalForm(mapper, NormalForm(mapper, gr)) != NormalForm(mapper, gr)
    ensures !ListedIsReadable(mapper)
  {
    var w := WriteRequest("ns", gr.ToString(), "object", "metric", Ok(1));
    ParseInvertsToStringExactly(gr);
    UnderFront(mapper, [w]);
    ReplayLast(Under(mapper, [w]));
    assert Under(mapper, []) == [];
    var values := Replay(Under(mapper, [w]));
    var info := StoredKey(mapper, w).info;
    NormalizedMeaning(RawInfo(w), mapper);
    NormalizedMeaning(info, mapper);
    assert values == map[StoredKey(mapper, w) := 1];
    assert info in Infos(values);
    assert info.groupResource == NormalForm(mapper, gr);
    assert forall name :: ValueFor(mapper, values, info, name).Err?;
  }

  /** What discovery lists never shrinks. */
  lemma {:induction false} ListingGrows(before: seq<WriteEvent>, after: seq<WriteEvent>)
    ensures Infos(Replay(before)) <= Infos(Replay(before + after))
  {
    if after == [] {
      assert before + after == before;
    } else {
      var n := |after| - 1;
      ListingGrows(before, after[..n]);
      ReplayLast(before + after);
      assert (before + after)[..|before + after| - 1] == before + after[..n];
    }
  }

  /** A metric is listed exactly when an accepted write stored something under it. */
  lemma ListedExactly(events: seq<WriteEvent>, info: CustomMetricInfo)
    ensures info in Infos(Replay(events)) <==>
            exists e <- events :: e.request.body.Ok? && StoredKey(e.mapper, e.request).info == info
  {
    hide Replay, IsLatestWrite;
    if info in Infos(Replay(events)) {
      var key :| key in Replay(events) && key.info == info;
      KeyHoldsLatest(events, key);
      SomeWriteIsLatest(events, key);
    }
    if e :| e in events && e.request.body.Ok? && StoredKey(e.mapper, e.request).info == info {
      var key := StoredKey(e.mapper, e.request);
      assert Writes(e, key);
      KeyHoldsLatest(events, key);
      SomeWriteIsLatest(events, key);
    }
  }

  /** After an accepted write the metric it stored is listed for ever. */
  lemma ListedForEver(before: seq<WriteEvent>, e: WriteEvent, after: seq<WriteEvent>)
    requires e.request.body.Ok?
    ensures StoredKey(e.mapper, e.request).info in Infos(Replay(before + [e] + after))
  {
    hide Replay, Infos;
    assert (before + [e] + after)[|before|] == e;
    ListedExactly(before + [e] + after, StoredKey(e.mapper, e.request).info);
  }

  // ----- aliases -----

  /** Two queries answer alike, for every store and every object. */
  ghost predicate Interchangeable(mapper: RESTMapper, a: CustomMetricInfo, b: CustomMetricInfo) {
    forall values, name :: ValueFor(mapper, values, a, name) == ValueFor(mapper, values, b, name)
  }

  /** Two names of resources are interchangeable in queries for a metric exactly when the mapper resolves them to the
      same group and resource, whatever version it prefers. */
  lemma AliasesInterchangeableExactly(mapper: RESTMapper, a: CustomMetricInfo, b: CustomMetricInfo)
    requires Resolves(mapper, a.groupResource) && Resolves(mapper, b.groupResource)
    ensures var x := mapper.ResourceFor(GroupVersionResource(a.groupResource.group, "", a.groupResource.resource));
            var y := mapper.ResourceFor(GroupVersionResource(b.groupResource.group, "", b.groupResource.resource));
            && x.Ok? && y.Ok?
            && (Interchangeable(mapper, a, b) <==>
                  && x.value.group == y.value.group && x.value.resource == y.value.resource
                  && a.namespaced == b.namespaced && a.metric == b.metric)
  {
    NormalizedMeaning(a, mapper);
    NormalizedMeaning(b, mapper);
    var name := NamespacedName("", "");
    var values: Values := map[MetricKey(Normalized(a, mapper).info, name) := 0];
    if Interchangeable(mapper, a, b) {
      assert ValueFor(mapper, values, a, name) == ValueFor(mapper, values, b, name);
    }
  }
}
