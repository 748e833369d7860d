/** The provider's operations as programs of atomic actions, and what a whole run of one computes. */
module ProviderProgram {
  import opened Results
  import opened Schema
  import opened MetricInfo
  import opened Helpers
  import opened MetricStore

  datatype Operation =
    | Update(request: WriteRequest)
    | BySelector(client: Client, namespace: string, selector: Selector, info: CustomMetricInfo)
    | ByName(name: NamespacedName, info: CustomMetricInfo)
    | ListAll

  datatype Reply =
    | Accepted
    | Rejected(error: Error)
    | Values(answer: Outcome<seq<MetricValue>>)
    | InfoSet(infos: set<CustomMetricInfo>)

  /** What a read is after; for a single object a not-found error is final. */
  datatype Goal = Goal(single: bool, namespace: string, selector: Selector, info: CustomMetricInfo)

  /** Where an operation is: the next atomic action and the locals it needs. */
  datatype Local =
    | Decode(request: WriteRequest)
    | ResolveWrite(request: WriteRequest, value: Quantity)
    | SingularWrite(request: WriteRequest, value: Quantity, info: CustomMetricInfo)
    | Store(key: MetricKey, value: Quantity)
    | FindResource(client: Client, goal: Goal)
    | ListObjects(client: Client, goal: Goal, resource: GroupVersionResource)
    | ResolveName(goal: Goal, name: string, rest: seq<string>, items: seq<MetricValue>)
    | SingularName(goal: Goal, name: string, rest: seq<string>, items: seq<MetricValue>, info: CustomMetricInfo)
    | ReadValue(goal: Goal, name: string, rest: seq<string>, items: seq<MetricValue>, info: CustomMetricInfo)
    | FindKind(goal: Goal, name: string, rest: seq<string>, items: seq<MetricValue>, value: Quantity)
    | ReadInfos
    | Replied(reply: Reply)
  {
    /** The action is a lookup in the shared mapper. */
    predicate AsksMapper() {
      ResolveWrite? || SingularWrite? || FindResource? || ResolveName? || SingularName? || FindKind?
    }
  }

  function Start(op: Operation): Local {
    match op
    case Update(w) => Decode(w)
    case BySelector(client, namespace, selector, info) => FindResource(client, Goal(false, namespace, selector, info))
    case ByName(name, info) => ResolveName(Goal(true, name.namespace, Everything(), info), name.name, [], [])
    case ListAll => ReadInfos
  }

  function Object(w: WriteRequest): NamespacedName {
    NamespacedName(w.namespace, w.name)
  }

  function NextName(goal: Goal, names: seq<string>, items: seq<MetricValue>): Local {
    if names == [] then Replied(Values(Ok(items))) else ResolveName(goal, names[0], names[1..], items)
  }

  function OnError(goal: Goal, rest: seq<string>, items: seq<MetricValue>, e: Error): Local {
    if !goal.single && e.IsNotFound() then NextName(goal, rest, items) else Replied(Values(Err(e)))
  }

  /** One atomic action, with the mapper's answers and the map of values at that moment. */
  function Do(l: Local, m: RESTMapper, s: MetricStore.Values): Local {
    match l
    case Decode(w) =>
      (match w.body
       case Err(e) => Replied(Rejected(e))
       case Ok(v) => ResolveWrite(w, v))
    case ResolveWrite(w, v) =>
      (match m.ResourceFor(RawInfo(w).groupResource.WithVersion(""))
       case Err(_) => Store(MetricKey(RawInfo(w), Object(w)), v)
       case Ok(gvr) => SingularWrite(w, v, RawInfo(w).(groupResource := gvr.ToGroupResource())))
    case SingularWrite(w, v, info) => Store(MetricKey(info, Object(w)), v)
    case Store(_, _) => Replied(Accepted)
    case FindResource(client, goal) =>
      (match ResourceFor(m, goal.info)
       case Err(e) => Replied(Values(Err(e)))
       case Ok(resource) => ListObjects(client, goal, resource))
    case ListObjects(client, goal, resource) =>
      (match ListedNames(client, goal.namespace, goal.selector.text, goal.info, resource)
       case Err(e) => Replied(Values(Err(e)))
       case Ok(names) => NextName(goal, names, []))
    case ResolveName(goal, name, rest, items) =>
      (match m.ResourceFor(goal.info.groupResource.WithVersion(""))
       case Err(e) => OnError(goal, rest, items, e)
       case Ok(gvr) => SingularName(goal, name, rest, items, goal.info.(groupResource := gvr.ToGroupResource())))
    case SingularName(goal, name, rest, items, info) =>
      (match m.ResourceSingularizer(info.groupResource.resource)
       case Err(e) => OnError(goal, rest, items, e)
       case Ok(_) => ReadValue(goal, name, rest, items, info))
    case ReadValue(goal, name, rest, items, info) =>
      var key := MetricKey(info, NamespacedName(goal.namespace, name));
      if key in s then FindKind(goal, name, rest, items, s[key])
      else OnError(goal, rest, items, MetricNotFound(info.groupResource, info.metric, name))
    case FindKind(goal, name, rest, items, value) =>
      (match MetricFor(m, value, NamespacedName(goal.namespace, name), goal.selector, goal.info)
       case Err(e) => Replied(Values(Err(e)))
       case Ok(item) => NextName(goal, rest, items + [item]))
    case ReadInfos => Replied(InfoSet(Infos(s)))
    case Replied(_) => l
  }

  /** The actions of an operation, each with the mapper's answers at its moment, over one map of values. */
  function Execute(op: Operation, answers: seq<RESTMapper>, s: MetricStore.Values): Local {
    if answers == [] then Start(op)
    else Do(Execute(op, answers[..|answers| - 1], s), answers[|answers| - 1], s)
  }

  // ----- a whole run against the sequential operation -----

  /** The reply of the operation when nothing interferes. */
  function Sequential(op: Operation, m: RESTMapper, s: MetricStore.Values): Reply {
    match op
    case Update(w) => (match w.body case Err(e) => Rejected(e) case Ok(_) => Accepted)
    case BySelector(client, namespace, selector, info) =>
      Values(MetricsBySelector(m, client, s, namespace, selector, info))
    case ByName(name, info) =>
      Values(match MetricByName(m, s, name, info) case Err(e) => Err(e) case Ok(item) => Ok([item]))
    case ListAll => InfoSet(Infos(s))
  }

  /** The answers for the names still to come. */
  function AnswersFor(goal: Goal, m: RESTMapper, s: MetricStore.Values, names: seq<string>): Outcome<seq<MetricValue>>
    decreases |names|, 0
  {
    if names == [] then Ok([]) else
      match ValueFor(m, s, goal.info, NamespacedName(goal.namespace, names[0]))
      case Err(e) => AfterError(goal, m, s, names[1..], e)
      case Ok(v) => AfterValue(goal, m, s, names[0], names[1..], v)
  }

  function AfterError(goal: Goal, m: RESTMapper, s: MetricStore.Values, rest: seq<string>, e: Error)
    : Outcome<seq<MetricValue>>
    decreases |rest|, 1
  {
    if !goal.single && e.IsNotFound() then AnswersFor(goal, m, s, rest) else Err(e)
  }

  function AfterValue(goal: Goal, m: RESTMapper, s: MetricStore.Values, name: string, rest: seq<string>, v: Quantity)
    : Outcome<seq<MetricValue>>
    decreases |rest|, 1
  {
    var item :- MetricFor(m, v, NamespacedName(goal.namespace, name), goal.selector, goal.info);
    Prepend([item], AnswersFor(goal, m, s, rest))
  }

  /** The reply an operation is heading for from a point of its program, if the mapper's answers do not change. */
  function Heading(l: Local, m: RESTMapper, s: MetricStore.Values): Reply {
    match l
    case Decode(w) => Sequential(Update(w), m, s)
    case ResolveWrite(_, _) => Accepted
    case SingularWrite(_, _, _) => Accepted
    case Store(_, _) => Accepted
    case FindResource(client, goal) =>
      (match ResourceFor(m, goal.info)
       case Err(e) => Values(Err(e))
       case Ok(resource) => Values(ListedAnswers(client, goal, resource, m, s)))
    case ListObjects(client, goal, resource) => Values(ListedAnswers(client, goal, resource, m, s))
    case ResolveName(goal, name, rest, items) => Values(Prepend(items, AnswersFor(goal, m, s, [name] + rest)))
    case SingularName(goal, name, rest, items, info) =>
      Values(Prepend(items, match m.ResourceSingularizer(info.groupResource.resource)
                            case Err(e) => AfterError(goal, m, s, rest, e)
                            case Ok(_) => AfterResolved(goal, m, s, name, rest, info)))
    case ReadValue(goal, name, rest, items, info) =>
      Values(Prepend(items, AfterResolved(goal, m, s, name, rest, info)))
    case FindKind(goal, name, rest, items, value) =>
      Values(Prepend(items, AfterValue(goal, m, s, name, rest, value)))
    case ReadInfos => InfoSet(Infos(s))
    case Replied(reply) => reply
  }

  function ListedAnswers(client: Client, goal: Goal, resource: GroupVersionResource, m: RESTMapper,
                         s: MetricStore.Values): Outcome<seq<MetricValue>> {
    var names :- ListedNames(client, goal.namespace, goal.selector.text, goal.info, resource);
    AnswersFor(goal, m, s, names)
  }

  function AfterResolved(goal: Goal, m: RESTMapper, s: MetricStore.Values, name: string, rest: seq<string>,
                         info: CustomMetricInfo): Outcome<seq<MetricValue>> {
    var key := MetricKey(info, NamespacedName(goal.namespace, name));
    if key in s then AfterValue(goal, m, s, name, rest, s[key])
    else AfterError(goal, m, s, rest, MetricNotFound(info.groupResource, info.metric, name))
  }

  lemma HeadingNextName(goal: Goal, names: seq<string>, items: seq<MetricValue>, m: RESTMapper, s: MetricStore.Values)
    ensures Heading(NextName(goal, names, items), m, s) == Values(Prepend(items, AnswersFor(goal, m, s, names)))
  {
    if names == [] {
      assert items + [] == items;
    } else {
      assert [names[0]] + names[1..] == names;
    }
  }

  lemma HeadingOnError(goal: Goal, rest: seq<string>, items: seq<MetricValue>, e: Error, m: RESTMapper,
                       s: MetricStore.Values)
    ensures Heading(OnError(goal, rest, items, e), m, s) == Values(Prepend(items, AfterError(goal, m, s, rest, e)))
  {
    HeadingNextName(goal, rest, items, m, s);
  }

  lemma ResolveKeepsHeading(l: Local, m: RESTMapper, s: MetricStore.Values)
    requires l.ResolveName?
    ensures Heading(Do(l, m, s), m, s) == Heading(l, m, s)
  {
    var ResolveName(goal, name, rest, items) := l;
    assert ([name] + rest)[0] == name && ([name] + rest)[1..] == rest;
    match m.ResourceFor(goal.info.groupResource.WithVersion(""))
    case Err(e) => HeadingOnError(goal, rest, items, e, m, s);
    case Ok(gvr) =>
  }

  lemma NamedKeepsHeading(l: Local, m: RESTMapper, s: MetricStore.Values)
    requires l.SingularName? || l.ReadValue?
    ensures Heading(Do(l, m, s), m, s) == Heading(l, m, s)
  {
    match l
    case SingularName(goal, name, rest, items, info) =>
      match m.ResourceSingularizer(info.groupResource.resource) {
        case Err(e) => HeadingOnError(goal, rest, items, e, m, s);
        case Ok(_) =>
      }
    case ReadValue(goal, name, rest, items, info) =>
      HeadingOnError(goal, rest, items, MetricNotFound(info.groupResource, info.metric, name), m, s);
  }

  lemma KindKeepsHeading(l: Local, m: RESTMapper, s: MetricStore.Values)
    requires l.FindKind?
    ensures Heading(Do(l, m, s), m, s) == Heading(l, m, s)
  {
    var FindKind(goal, name, rest, items, value) := l;
    match MetricFor(m, value, NamespacedName(goal.namespace, name), goal.selector, goal.info)
    case Err(e) =>
    case Ok(item) =>
      HeadingNextName(goal, rest, items + [item], m, s);
      PrependTwice(items, [item], AnswersFor(goal, m, s, rest));
  }

  lemma ListKeepsHeading(l: Local, m: RESTMapper, s: MetricStore.Values)
    requires l.ListObjects?
    ensures Heading(Do(l, m, s), m, s) == Heading(l, m, s)
  {
    var ListObjects(client, goal, resource) := l;
    var names := ListedNames(client, goal.namespace, goal.selector.text, goal.info, resource);
    if names.Ok? {
      HeadingNextName(goal, names.value, [], m, s);
      PrependTwice([], [], AnswersFor(goal, m, s, names.value));
    }
  }

  lemma FindKeepsHeading(l: Local, m: RESTMapper, s: MetricStore.Values)
    requires l.FindResource?
    ensures Heading(Do(l, m, s), m, s) == Heading(l, m, s)
  {
    hide ListedAnswers, ResourceFor;
  }

  lemma OtherKeepsHeading(l: Local, m: RESTMapper, s: MetricStore.Values)
    requires l.Decode? || l.ResolveWrite? || l.SingularWrite? || l.Store? || l.ReadInfos? || l.Replied?
    ensures Heading(Do(l, m, s), m, s) == Heading(l, m, s)
  {
  }

  /** No action changes where the operation is heading. */
  lemma DoKeepsHeading(l: Local, m: RESTMapper, s: MetricStore.Values)
    ensures Heading(Do(l, m, s), m, s) == Heading(l, m, s)
  {
    if l.ResolveName? {
      ResolveKeepsHeading(l, m, s);
    } else if l.SingularName? || l.ReadValue? {
      NamedKeepsHeading(l, m, s);
    } else if l.FindKind? {
      KindKeepsHeading(l, m, s);
    } else if l.ListObjects? {
      ListKeepsHeading(l, m, s);
    } else if l.FindResource? {
      FindKeepsHeading(l, m, s);
    } else {
      OtherKeepsHeading(l, m, s);
    }
  }

  lemma {:induction false} AnswersForMany(goal: Goal, m: RESTMapper, s: MetricStore.Values, names: seq<string>)
    requires !goal.single
    ensures AnswersFor(goal, m, s, names) == MetricsOfNames(m, s, goal.namespace, goal.selector, goal.info, names)
  {
    if names != [] {
      AnswersForMany(goal, m, s, names[1..]);
    }
  }

  lemma OneName(goal: Goal, m: RESTMapper, s: MetricStore.Values, name: string)
    requires goal.single && goal.selector == Everything()
    ensures AnswersFor(goal, m, s, [name]) ==
            match MetricByName(m, s, NamespacedName(goal.namespace, name), goal.info)
            case Err(e) => Err(e)
            case Ok(item) => Ok([item])
  {
    assert [name][1..] == [];
    assert AnswersFor(goal, m, s, []) == Ok([]);
    match MetricByName(m, s, NamespacedName(goal.namespace, name), goal.info)
    case Err(_) =>
    case Ok(item) => assert [item] + [] == [item];
  }

  lemma StartHeadsForMany(op: Operation, m: RESTMapper, s: MetricStore.Values)
    requires op.BySelector?
    ensures Heading(Start(op), m, s) == Sequential(op, m, s)
  {
    hide AnswersFor, MetricsOfNames, ResourceFor, ListedNames, Prepend;
    var BySelector(client, namespace, selector, info) := op;
    var names := ObjectNames(m, client, namespace, selector.text, info);
    if names.Ok? {
      AnswersForMany(Goal(false, namespace, selector, info), m, s, names.value);
    }
  }

  lemma StartHeadsForOne(op: Operation, m: RESTMapper, s: MetricStore.Values)
    requires op.ByName?
    ensures Heading(Start(op), m, s) == Sequential(op, m, s)
  {
    hide AnswersFor;
    var ByName(name, info) := op;
    var goal := Goal(true, name.namespace, Everything(), info);
    assert [name.name] + [] == [name.name];
    PrependTwice([], [], AnswersFor(goal, m, s, [name.name]));
    OneName(goal, m, s, name.name);
    assert NamespacedName(name.namespace, name.name) == name;
  }

  lemma StartHeadsForSequential(op: Operation, m: RESTMapper, s: MetricStore.Values)
    ensures Heading(Start(op), m, s) == Sequential(op, m, s)
  {
    match op
    case BySelector(_, _, _, _) => StartHeadsForMany(op, m, s);
    case ByName(_, _) => StartHeadsForOne(op, m, s);
    case _ =>
  }

  lemma {:induction false} ExecuteKeepsHeading(op: Operation, answers: seq<RESTMapper>, s: MetricStore.Values,
                                               m: RESTMapper)
    requires forall i :: 0 <= i < |answers| ==> answers[i] == m
    ensures Heading(Execute(op, answers, s), m, s) == Heading(Start(op), m, s)
  {
    if answers != [] {
      var n := |answers| - 1;
      var l := Execute(op, answers[..n], s);
      ExecuteKeepsHeading(op, answers[..n], s, m);
      DoKeepsHeading(l, m, s);
      assert Execute(op, answers, s) == Do(l, m, s);
    }
  }

  lemma RepliedAsHeaded(l: Local, op: Operation, m: RESTMapper, s: MetricStore.Values, reply: Reply)
    requires l == Replied(reply) && Heading(l, m, s) == Heading(Start(op), m, s)
    ensures reply == Sequential(op, m, s)
  {
    StartHeadsForSequential(op, m, s);
  }

  /** An operation during which the mapper's answers stay the same replies as the sequential operation does. */
  lemma ExecuteIsSequential(op: Operation, answers: seq<RESTMapper>, s: MetricStore.Values, m: RESTMapper, reply: Reply)
    requires forall i :: 0 <= i < |answers| ==> answers[i] == m
    requires Execute(op, answers, s) == Replied(reply)
    ensures reply == Sequential(op, m, s)
  {
    ExecuteKeepsHeading(op, answers, s, m);
    RepliedAsHeaded(Execute(op, answers, s), op, m, s, reply);
  }

  // ----- the write among them -----

  /** A write stores under the key its first lookup decides, whatever the mapper answers later: the second lookup can
      fail, but rewrites nothing. Until then only decoding can stop it. */
  lemma {:induction false} ExecuteStores(op: Operation, answers: seq<RESTMapper>, s: MetricStore.Values)
    requires op.Update?
    ensures var l := Execute(op, answers, s);
            match |answers|
            case 0 => l == Decode(op.request)
            case 1 => l == (match op.request.body
                              case Err(e) => Replied(Rejected(e))
                              case Ok(v) => ResolveWrite(op.request, v))
            case _ =>
              match op.request.body
              case Err(e) => l == Replied(Rejected(e))
              case Ok(v) =>
                var key := StoredKey(answers[1], op.request);
                (l == Store(key, v) && |answers| <= 3) || l == Replied(Accepted)
                || (l == SingularWrite(op.request, v, key.info) && |answers| == 2)
  {
    if answers != [] {
      ExecuteStores(op, answers[..|answers| - 1], s);
    }
  }

  predicate Reading(l: Local) {
    !l.Decode? && !l.ResolveWrite? && !l.SingularWrite? && !l.Store?
    && (l.Replied? ==> !l.reply.Accepted? && !l.reply.Rejected?)
  }

  lemma DoKeepsReading(l: Local, m: RESTMapper, s: MetricStore.Values)
    requires Reading(l)
    ensures Reading(Do(l, m, s))
  {
  }

  /** An operation that does not start as a write never gets to write. */
  lemma {:induction false} ReadsNeverStore(op: Operation, answers: seq<RESTMapper>, s: MetricStore.Values)
    requires !op.Update?
    ensures Reading(Execute(op, answers, s))
  {
    hide Do;
    if answers != [] {
      ReadsNeverStore(op, answers[..|answers| - 1], s);
      DoKeepsReading(Execute(op, answers[..|answers| - 1], s), answers[|answers| - 1], s);
    }
  }

  // ----- what a read returns when the mapper's answers change -----

  /** The value is stored for the object of that name under the normal form the mapper gives the query. */
  predicate StoredUnder(m: RESTMapper, goal: Goal, s: MetricStore.Values, name: string, value: Quantity) {
    && m.ResourceFor(goal.info.groupResource.WithVersion("")).Ok?
    && var key := MetricKey(goal.info.(groupResource := NormalForm(m, goal.info.groupResource)),
                            NamespacedName(goal.namespace, name));
       key in s && s[key] == value
  }

  /** The value was found under the normal form that one of the answers gives. */
  ghost predicate Found(answers: seq<RESTMapper>, goal: Goal, s: MetricStore.Values, name: string, value: Quantity) {
    exists m <- answers :: StoredUnder(m, goal, s, name, value)
  }

  ghost predicate ItemFound(answers: seq<RESTMapper>, goal: Goal, s: MetricStore.Values, item: MetricValue) {
    && item.metric == goal.info.metric && item.describedObject.namespace == goal.namespace
    && Found(answers, goal, s, item.describedObject.name, item.value)
  }

  ghost predicate AllFound(answers: seq<RESTMapper>, goal: Goal, s: MetricStore.Values, items: seq<MetricValue>) {
    forall i :: 0 <= i < |items| ==> ItemFound(answers, goal, s, items[i])
  }

  /** The info is the normal form that one of the answers gives the query. */
  ghost predicate Resolved(answers: seq<RESTMapper>, goal: Goal, info: CustomMetricInfo) {
    exists m <- answers :: m.ResourceFor(goal.info.groupResource.WithVersion("")).Ok?
                           && info == goal.info.(groupResource := NormalForm(m, goal.info.groupResource))
  }

  /** What holds at each point of a read after `goal`. */
  ghost predicate Gathering(answers: seq<RESTMapper>, goal: Goal, s: MetricStore.Values, l: Local) {
    match l
    case FindResource(_, g) => g == goal
    case ListObjects(_, g, _) => g == goal
    case ResolveName(g, _, _, items) => g == goal && AllFound(answers, goal, s, items)
    case SingularName(g, _, _, items, info) =>
      g == goal && AllFound(answers, goal, s, items) && Resolved(answers, goal, info)
    case ReadValue(g, _, _, items, info) =>
      g == goal && AllFound(answers, goal, s, items) && Resolved(answers, goal, info)
    case FindKind(g, name, _, items, value) =>
      g == goal && AllFound(answers, goal, s, items) && Found(answers, goal, s, name, value)
    case Replied(reply) => reply.Values? && (reply.answer.Ok? ==> AllFound(answers, goal, s, reply.answer.value))
    case _ => false
  }

  lemma FoundStays(answers: seq<RESTMapper>, m: RESTMapper, goal: Goal, s: MetricStore.Values, items: seq<MetricValue>)
    requires AllFound(answers, goal, s, items)
    ensures AllFound(answers + [m], goal, s, items)
  {
    hide StoredUnder;
    forall i | 0 <= i < |items| ensures ItemFound(answers + [m], goal, s, items[i]) {
      assert ItemFound(answers, goal, s, items[i]);
      var m' :| m' in answers && StoredUnder(m', goal, s, items[i].describedObject.name, items[i].value);
      assert m' in answers + [m];
    }
  }

  lemma GatheringStays(answers: seq<RESTMapper>, m: RESTMapper, goal: Goal, s: MetricStore.Values, l: Local)
    requires Gathering(answers, goal, s, l)
    ensures Gathering(answers + [m], goal, s, l)
  {
    hide StoredUnder, AllFound;
    forall items | AllFound(answers, goal, s, items) ensures AllFound(answers + [m], goal, s, items) {
      FoundStays(answers, m, goal, s, items);
    }
    assert forall m' :: m' in answers ==> m' in answers + [m];
  }

  lemma NextNameGathers(answers: seq<RESTMapper>, goal: Goal, s: MetricStore.Values, rest: seq<string>,
                        items: seq<MetricValue>)
    requires AllFound(answers, goal, s, items)
    ensures Gathering(answers, goal, s, NextName(goal, rest, items))
  {
  }

  lemma ReadGathers(answers: seq<RESTMapper>, m: RESTMapper, goal: Goal, s: MetricStore.Values, l: Local)
    requires Gathering(answers, goal, s, l) && l.ReadValue?
    ensures Gathering(answers, goal, s, Do(l, m, s))
  {
    hide AllFound;
    var ReadValue(_, name, rest, items, info) := l;
    var m' :| m' in answers && m'.ResourceFor(goal.info.groupResource.WithVersion("")).Ok?
              && info == goal.info.(groupResource := NormalForm(m', goal.info.groupResource));
    var key := MetricKey(info, NamespacedName(goal.namespace, name));
    if key in s {
      assert StoredUnder(m', goal, s, name, s[key]);
    } else {
      NextNameGathers(answers, goal, s, rest, items);
    }
  }

  lemma FoundGathers(answers: seq<RESTMapper>, m: RESTMapper, goal: Goal, s: MetricStore.Values, l: Local)
    requires Gathering(answers, goal, s, l) && l.FindKind?
    ensures Gathering(answers, goal, s, Do(l, m, s))
  {
    hide Found;
    var FindKind(_, name, rest, items, value) := l;
    match MetricFor(m, value, NamespacedName(goal.namespace, name), goal.selector, goal.info)
    case Err(_) =>
    case Ok(item) =>
      assert ItemFound(answers, goal, s, item);
      assert AllFound(answers, goal, s, items + [item]);
      NextNameGathers(answers, goal, s, rest, items + [item]);
  }

  lemma ListGathers(answers: seq<RESTMapper>, m: RESTMapper, goal: Goal, s: MetricStore.Values, l: Local)
    requires Gathering(answers, goal, s, l) && (l.FindResource? || l.ListObjects?)
    ensures Gathering(answers, goal, s, Do(l, m, s))
  {
    hide ItemFound, ResourceFor, ListedNames;
    if l.ListObjects? {
      var names := ListedNames(l.client, goal.namespace, goal.selector.text, goal.info, l.resource);
      if names.Ok? {
        NextNameGathers(answers, goal, s, names.value, []);
      }
    }
  }

  lemma ResolveGathers(answers: seq<RESTMapper>, m: RESTMapper, goal: Goal, s: MetricStore.Values, l: Local)
    requires Gathering(answers, goal, s, l) && m in answers && (l.ResolveName? || l.SingularName?)
    ensures Gathering(answers, goal, s, Do(l, m, s))
  {
    hide AllFound;
    NextNameGathers(answers, goal, s, l.rest, l.items);
  }

  lemma DoGathers(answers: seq<RESTMapper>, m: RESTMapper, goal: Goal, s: MetricStore.Values, l: Local)
    requires Gathering(answers, goal, s, l) && m in answers
    ensures Gathering(answers, goal, s, Do(l, m, s))
  {
    hide AllFound, Found, Resolved;
    if l.FindResource? || l.ListObjects? {
      ListGathers(answers, m, goal, s, l);
    } else if l.ResolveName? || l.SingularName? {
      ResolveGathers(answers, m, goal, s, l);
    } else if l.ReadValue? {
      ReadGathers(answers, m, goal, s, l);
    } else if l.FindKind? {
      FoundGathers(answers, m, goal, s, l);
    }
  }

  function GoalOf(op: Operation): Goal
    requires op.BySelector? || op.ByName?
  {
    match op
    case BySelector(_, namespace, selector, info) => Goal(false, namespace, selector, info)
    case ByName(name, info) => Goal(true, name.namespace, Everything(), info)
  }

  lemma {:induction false} ExecuteGathers(op: Operation, answers: seq<RESTMapper>, s: MetricStore.Values)
    requires op.BySelector? || op.ByName?
    ensures Gathering(answers, GoalOf(op), s, Execute(op, answers, s))
  {
    hide Gathering, Do;
    if answers == [] {
      StartGathers(op, s);
    } else {
      var n := |answers| - 1;
      var l := Execute(op, answers[..n], s);
      ExecuteGathers(op, answers[..n], s);
      assert answers == answers[..n] + [answers[n]];
      GatheringStays(answers[..n], answers[n], GoalOf(op), s, l);
      DoGathers(answers, answers[n], GoalOf(op), s, l);
    }
  }

  lemma StartGathers(op: Operation, s: MetricStore.Values)
    requires op.BySelector? || op.ByName?
    ensures Gathering([], GoalOf(op), s, Start(op))
  {
  }

  /** However the mapper's answers change during a read, every value it returns is one stored for the object it is
      returned for, under the query's metric and scope and the normal form that one of the answers gives. */
  lemma ReadsReturnStored(op: Operation, answers: seq<RESTMapper>, s: MetricStore.Values, items: seq<MetricValue>)
    requires op.BySelector? || op.ByName?
    requires Execute(op, answers, s) == Replied(Values(Ok(items)))
    ensures AllFound(answers, GoalOf(op), s, items)
  {
    hide Execute, AllFound;
    ExecuteGathers(op, answers, s);
  }

  // ----- termination -----

  /** Listing has not happened yet, so the number of names is not yet known. */
  function Unlisted(l: Local): nat {
    match l
    case FindResource(_, _) => 2
    case ListObjects(_, _, _) => 1
    case _ => 0
  }

  /** A bound on the actions still to come, counting three for a lookup; known once listing has happened. */
  function Work(l: Local): nat {
    match l
    case Decode(_) => 8
    case ResolveWrite(_, _) => 7
    case SingularWrite(_, _, _) => 4
    case Store(_, _) => 1
    case FindResource(_, _) => 3
    case ListObjects(_, _, _) => 0
    case ResolveName(_, _, rest, _) => 10 * |rest| + 10
    case SingularName(_, _, rest, _, _) => 10 * |rest| + 7
    case ReadValue(_, _, rest, _, _) => 10 * |rest| + 4
    case FindKind(_, _, rest, _, _) => 10 * |rest| + 3
    case ReadInfos => 1
    case Replied(_) => 0
  }

  lemma DoProgresses(l: Local, m: RESTMapper, s: MetricStore.Values)
    requires !l.Replied?
    ensures Unlisted(Do(l, m, s)) < Unlisted(l)
            || (Unlisted(Do(l, m, s)) == Unlisted(l) && Work(Do(l, m, s)) + (if l.AsksMapper() then 3 else 1) <= Work(l))
  {
  }
}
