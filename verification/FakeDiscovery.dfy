/** The fake discovery client: grouping a flat list of resource lists by API group. */
module FakeDiscovery {
  import opened Results
  import opened Text
  import opened Schema

  datatype APIResourceList = APIResourceList(groupVersion: string, resources: seq<string>)

  datatype GroupVersionForDiscovery = GroupVersionForDiscovery(groupVersion: string, version: string)

  datatype APIGroup = APIGroup(name: string, versions: seq<GroupVersionForDiscovery>,
                               preferredVersion: GroupVersionForDiscovery)

  type Lists = seq<APIResourceList>

  // ----- the grouping, as a specification -----

  predicate Parses(list: APIResourceList) {
    ParseGroupVersion(list.groupVersion).Ok?
  }

  function GroupName(list: APIResourceList): string
    requires Parses(list)
  {
    ParseGroupVersion(list.groupVersion).value.group
  }

  function Entry(list: APIResourceList): GroupVersionForDiscovery
    requires Parses(list)
  {
    GroupVersionForDiscovery(list.groupVersion, ParseGroupVersion(list.groupVersion).value.version)
  }

  predicate AllParse(lists: Lists) {
    forall l <- lists :: Parses(l)
  }

  /** The entries of one group, in input order, repeated ones included. */
  function Entries(lists: Lists, name: string): (es: seq<GroupVersionForDiscovery>)
    requires AllParse(lists)
    ensures es != [] <==> exists l <- lists :: GroupName(l) == name
    ensures forall e :: e in es <==> exists l <- lists :: GroupName(l) == name && Entry(l) == e
  {
    if lists == [] then []
    else
      var front, l := lists[..|lists| - 1], lists[|lists| - 1];
      assert lists == front + [l];
      Entries(front, name) + if GroupName(l) == name then [Entry(l)] else []
  }

  /** First occurrences only, in order. */
  function Distinct<T(==)>(s: seq<T>): seq<T> {
    if s == [] then []
    else
      var front, x := s[..|s| - 1], s[|s| - 1];
      if x in front then Distinct(front) else Distinct(front) + [x]
  }

  function GroupFor(lists: Lists, name: string): APIGroup
    requires AllParse(lists) && exists l <- lists :: GroupName(l) == name
  {
    APIGroup(name, Distinct(Entries(lists, name)), Entries(lists, name)[0])
  }

  /** Exactly one group for each of the names, as specified, in any order. */
  ghost predicate GroupsFor(lists: Lists, names: set<string>, groups: seq<APIGroup>)
    requires AllParse(lists)
  {
    && (forall i, j :: 0 <= i < j < |groups| ==> groups[i].name != groups[j].name)
    && (forall g <- groups :: (exists l <- lists :: GroupName(l) == g.name) && g == GroupFor(lists, g.name))
    && (set g <- groups :: g.name) == names
  }

  function GroupNames(lists: Lists): set<string>
    requires AllParse(lists)
  {
    set l <- lists :: GroupName(l)
  }

  /** The first list whose group-version has too many slashes. */
  predicate FirstUnparsed(lists: Lists, i: int) {
    0 <= i < |lists| && !Parses(lists[i]) && AllParse(lists[..i])
  }

  // ----- the client -----

  class Client {
    var Resources: Lists
    /** The calls the fake has recorded. */
    var actions: seq<string>

    constructor (resources: Lists)
      ensures Resources == resources && actions == []
    {
      Resources := resources;
      actions := [];
    }

    /** The first list with this group-version. */
    method ServerResourcesForGroupVersion(groupVersion: string) returns (r: Result<APIResourceList, string>)
      modifies this`actions
      ensures r == Lookup(Resources, groupVersion)
      ensures actions == old(actions) + ["get"]
    {
      actions := actions + ["get"];
      for i := 0 to |Resources|
        invariant Lookup(Resources, groupVersion) == Lookup(Resources[i..], groupVersion)
        invariant actions == old(actions) + ["get"]
      {
        if Resources[i].groupVersion == groupVersion {
          return Ok(Resources[i]);
        }
        assert Resources[i..][1..] == Resources[i + 1..];
      }
      return Err(groupVersion);
    }

    /** The inner loop of `ServerGroups`: keeps each version the first time, deleting it from the shared set. */
    static method TakeVersions(versions: seq<GroupVersionForDiscovery>, groupVersions: set<GroupVersionForDiscovery>)
      returns (kept: seq<GroupVersionForDiscovery>, rest: set<GroupVersionForDiscovery>)
      requires (set e <- versions) <= groupVersions
      ensures kept == Distinct(versions)
      ensures rest == groupVersions - set e <- versions
    {
      kept, rest := [], groupVersions;
      for j := 0 to |versions|
        invariant kept == Distinct(versions[..j])
        invariant rest == groupVersions - set e <- versions[..j]
      {
        assert versions[..j + 1][..j] == versions[..j];
        assert versions[..j + 1] == versions[..j] + [versions[j]];
        if versions[j] in rest {
          rest := rest - {versions[j]};
          kept := kept + [versions[j]];
        }
      }
      assert versions[..|versions|] == versions;
    }

    /** The first pass of `ServerGroups`: every group with all its entries, and one set of all entries. */
    method CollectGroups()
      returns (r: Result<map<string, APIGroup>, string>, groupVersions: set<GroupVersionForDiscovery>)
      ensures r.Err? ==> exists i :: FirstUnparsed(Resources, i) && r.error == Resources[i].groupVersion
      ensures r.Ok? ==> Collected(Resources, r.value, groupVersions)
    {
      hide Collected, Grouped, EntriesOf, Entries;
      var groups: map<string, APIGroup> := map[];
      groupVersions := {};
      CollectedNothing();
      ghost var done: Lists := [];
      for i := 0 to |Resources|
        invariant done == Resources[..i]
        invariant Collected(done, groups, groupVersions)
      {
        var list := Resources[i];
        var groupVer := ParseGroupVersion(list.groupVersion);
        if groupVer.Err? {
          CollectedParses(done, groups, groupVersions);
          assert FirstUnparsed(Resources, i);
          return Err(groupVer.error), {};
        }
        CollectedStep(done, list, groups, groupVersions);
        var groupVerForDisc := GroupVersionForDiscovery(list.groupVersion, groupVer.value.version);
        var name := groupVer.value.group;
        var group := APIGroup(name, [], groupVerForDisc);
        if name in groups {
          group := groups[name];
        }
        groups := groups[name := group.(versions := group.versions + [groupVerForDisc])];
        groupVersions := groupVersions + {groupVerForDisc};
        done := done + [list];
      }
      assert done == Resources;
      r := Ok(groups);
    }

    /** Groups the lists; `undeleted` is what is left of the set that removes duplicates. */
    method ServerGroups()
      returns (r: Result<seq<APIGroup>, string>, ghost undeleted: set<GroupVersionForDiscovery>)
      ensures r.Err? <==> exists l <- Resources :: Count(l.groupVersion, '/') >= 2
      ensures r.Err? ==> exists i :: FirstUnparsed(Resources, i) && r.error == Resources[i].groupVersion
      ensures r.Ok? ==> AllParse(Resources) && GroupsFor(Resources, GroupNames(Resources), r.value) && undeleted == {}
    {
      var collected, groupVersions := CollectGroups();
      if collected.Err? {
        return Err(collected.error), {};
      }
      var groups := collected.value;
      assert groups.Keys == GroupNames(Resources);
      var groupList: seq<APIGroup> := [];
      var names := groups.Keys;
      while names != {}
        invariant names <= groups.Keys
        invariant groupVersions == EntriesOf(Resources, names)
        invariant GroupsFor(Resources, groups.Keys - names, groupList)
        decreases names
      {
        var name :| name in names;
        var group := groups[name];
        DrainStep(Resources, names, name);
        var versions, rest := TakeVersions(group.versions, groupVersions);
        var newGroup := APIGroup(group.name, versions, group.preferredVersion);
        AddedGroup(Resources, groups.Keys - names, groupList, newGroup);
        assert groups.Keys - (names - {name}) == groups.Keys - names + {name};
        groupVersions := rest;
        names := names - {name};
        groupList := groupList + [newGroup];
      }
      undeleted := groupVersions;
      r := Ok(groupList);
    }
  }

  function Lookup(lists: Lists, groupVersion: string): Result<APIResourceList, string> {
    if lists == [] then Err(groupVersion)
    else if lists[0].groupVersion == groupVersion then Ok(lists[0])
    else Lookup(lists[1..], groupVersion)
  }

  /** The entries of some groups, as a set. */
  ghost function EntriesOf(lists: Lists, names: set<string>): set<GroupVersionForDiscovery>
    requires AllParse(lists)
  {
    set l <- lists | GroupName(l) in names :: Entry(l)
  }

  /** After the first pass every group holds all its entries and prefers the first. */
  ghost predicate Grouped(lists: Lists, groups: map<string, APIGroup>)
    requires AllParse(lists)
  {
    && (forall name :: name in groups <==> exists l <- lists :: GroupName(l) == name)
    && (forall name <- groups ::
          groups[name] == APIGroup(name, Entries(lists, name), Entries(lists, name)[0]))
  }

  /** The groups once one more list is added. */
  function AddList(groups: map<string, APIGroup>, list: APIResourceList): map<string, APIGroup>
    requires Parses(list)
  {
    var group := if GroupName(list) in groups then groups[GroupName(list)] else APIGroup(GroupName(list), [], Entry(list));
    groups[GroupName(list) := group.(versions := group.versions + [Entry(list)])]
  }

  lemma EntriesStep(lists: Lists, list: APIResourceList, name: string)
    requires AllParse(lists) && Parses(list)
    ensures AllParse(lists + [list])
    ensures Entries(lists + [list], name) == Entries(lists, name) + if GroupName(list) == name then [Entry(list)] else []
  {
    assert (lists + [list])[..|lists|] == lists;
  }

  lemma GroupedStepAt(lists: Lists, list: APIResourceList, groups: map<string, APIGroup>, name: string)
    requires AllParse(lists) && Parses(list) && Grouped(lists, groups) && name in AddList(groups, list)
    ensures AllParse(lists + [list]) && Entries(lists + [list], name) != []
    ensures var entries := Entries(lists + [list], name);
            AddList(groups, list)[name] == APIGroup(name, entries, entries[0])
  {
    hide ParseGroupVersion, Entry, Entries;
    EntriesStep(lists, list, name);
    if name !in groups {
      assert Entries(lists, name) == [];
    }
  }

  lemma GroupedStep(lists: Lists, list: APIResourceList, groups: map<string, APIGroup>)
    requires AllParse(lists) && Parses(list) && Grouped(lists, groups)
    ensures AllParse(lists + [list])
    ensures Grouped(lists + [list], AddList(groups, list))
  {
    hide ParseGroupVersion, Entry, Entries;
    var lists', groups' := lists + [list], AddList(groups, list);
    assert list in lists';
    forall name ensures name in groups' <==> exists l <- lists' :: GroupName(l) == name {
      assert forall l :: l in lists' <==> l in lists || l == list;
    }
    forall name <- groups'
      ensures groups'[name] == APIGroup(name, Entries(lists', name), Entries(lists', name)[0])
    {
      GroupedStepAt(lists, list, groups, name);
    }
  }

  lemma EntriesOfStep(lists: Lists, list: APIResourceList)
    requires AllParse(lists) && Parses(list)
    ensures AllParse(lists + [list])
    ensures EntriesOf(lists + [list], GroupNames(lists + [list])) == EntriesOf(lists, GroupNames(lists)) + {Entry(list)}
  {
    assert list in lists + [list];
    assert forall l :: l in lists + [list] <==> l in lists || l == list;
  }

  /** The state of the first pass after some lists. */
  ghost predicate Collected(lists: Lists, groups: map<string, APIGroup>, groupVersions: set<GroupVersionForDiscovery>) {
    AllParse(lists) && Grouped(lists, groups) && groupVersions == EntriesOf(lists, GroupNames(lists))
  }

  lemma CollectedNothing()
    ensures Collected([], map[], {})
  {
  }

  lemma CollectedParses(lists: Lists, groups: map<string, APIGroup>, groupVersions: set<GroupVersionForDiscovery>)
    requires Collected(lists, groups, groupVersions)
    ensures AllParse(lists)
  {
  }

  lemma CollectedStep(lists: Lists, list: APIResourceList, groups: map<string, APIGroup>,
                      groupVersions: set<GroupVersionForDiscovery>)
    requires Parses(list) && Collected(lists, groups, groupVersions)
    ensures Collected(lists + [list], AddList(groups, list), groupVersions + {Entry(list)})
  {
    GroupedStep(lists, list, groups);
    EntriesOfStep(lists, list);
  }

  /** An entry belongs to one group only: emptying one group's entries leaves every other group's in place. */
  lemma DrainStep(lists: Lists, names: set<string>, name: string)
    requires AllParse(lists) && name in names
    ensures (set e <- Entries(lists, name)) <= EntriesOf(lists, names)
    ensures EntriesOf(lists, names) - (set e <- Entries(lists, name)) == EntriesOf(lists, names - {name})
  {
  }

  lemma AddedGroup(lists: Lists, names: set<string>, groups: seq<APIGroup>, group: APIGroup)
    requires AllParse(lists) && GroupsFor(lists, names, groups)
    requires exists l <- lists :: GroupName(l) == group.name
    requires group.name !in names && group == GroupFor(lists, group.name)
    ensures GroupsFor(lists, names + {group.name}, groups + [group])
  {
    hide ParseGroupVersion, GroupName, Entry, Distinct;
    var groups' := groups + [group];
    assert forall g <- groups :: g.name in names;
    assert group in groups';
    assert forall g <- groups' :: g in groups || g == group;
  }
}
