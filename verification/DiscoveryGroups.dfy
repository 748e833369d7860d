/** What a grouped answer of the fake discovery client says about its input. */
module DiscoveryGroups {
  import opened Results
  import opened Schema
  import opened FakeDiscovery

  // ----- the versions of a group: first occurrences, in order -----

  predicate IsFirst<T(==)>(s: seq<T>, i: int) {
    0 <= i < |s| && s[i] !in s[..i]
  }

  /** `at` lists, in increasing order, exactly the positions of `s` that hold a first occurrence. */
  ghost predicate FirstPositions<T>(s: seq<T>, at: seq<int>) {
    && (forall k :: 0 <= k < |at| ==> IsFirst(s, at[k]))
    && (forall k, l :: 0 <= k < l < |at| ==> at[k] < at[l])
    && (forall i :: IsFirst(s, i) ==> i in at)
  }

  lemma IsFirstOfFront<T>(s: seq<T>, i: int)
    requires s != [] && i < |s| - 1
    ensures IsFirst(s, i) <==> IsFirst(s[..|s| - 1], i)
  {
    if 0 <= i {
      assert s[..|s| - 1][..i] == s[..i];
    }
  }

  /** `Distinct` picks the first occurrence of every element, in the order of their positions. */
  lemma {:induction false} DistinctPicksFirsts<T>(s: seq<T>) returns (at: seq<int>)
    ensures FirstPositions(s, at)
    ensures |at| == |Distinct(s)| && forall k :: 0 <= k < |at| ==> Distinct(s)[k] == s[at[k]]
  {
    at := [];
    if s != [] {
      var n := |s| - 1;
      at := DistinctPicksFirsts(s[..n]);
      forall i | i < n ensures IsFirst(s, i) <==> IsFirst(s[..n], i) {
        IsFirstOfFront(s, i);
      }
      assert IsFirst(s, n) <==> s[n] !in s[..n];
      if s[n] !in s[..n] {
        at := at + [n];
      }
    }
  }

  /** Nothing is lost and nothing repeated. */
  lemma {:induction false} DistinctMeaning<T>(s: seq<T>)
    ensures forall x :: x in Distinct(s) <==> x in s
    ensures forall i, j :: 0 <= i < j < |Distinct(s)| ==> Distinct(s)[i] != Distinct(s)[j]
  {
    if s != [] {
      var n := |s| - 1;
      DistinctMeaning(s[..n]);
      assert s == s[..n] + [s[n]];
    }
  }

  // ----- any iteration order gives the same groups -----

  lemma {:induction false} SameElementsSameMultiset<T>(a: seq<T>, b: seq<T>)
    requires forall i, j :: 0 <= i < j < |a| ==> a[i] != a[j]
    requires forall i, j :: 0 <= i < j < |b| ==> b[i] != b[j]
    requires forall x :: x in a <==> x in b
    ensures multiset(a) == multiset(b)
  {
    forall x ensures multiset(a)[x] == multiset(b)[x] {
      CountsOnce(a, x);
      CountsOnce(b, x);
    }
  }

  lemma {:induction false} CountsOnce<T>(s: seq<T>, x: T)
    requires forall i, j :: 0 <= i < j < |s| ==> s[i] != s[j]
    ensures multiset(s)[x] == if x in s then 1 else 0
  {
    if s != [] {
      var n := |s| - 1;
      CountsOnce(s[..n], x);
      assert s == s[..n] + [s[n]];
    }
  }

  /** Two answers for the same lists hold the same groups: the order in which the map was iterated changes only the
      order of the groups. */
  lemma IterationOrderIsHarmless(lists: Lists, a: seq<APIGroup>, b: seq<APIGroup>)
    requires AllParse(lists)
    requires GroupsFor(lists, GroupNames(lists), a) && GroupsFor(lists, GroupNames(lists), b)
    ensures multiset(a) == multiset(b)
  {
    GroupsWithin(lists, a, b);
    GroupsWithin(lists, b, a);
    SameElementsSameMultiset(a, b);
  }

  lemma GroupsWithin(lists: Lists, a: seq<APIGroup>, b: seq<APIGroup>)
    requires AllParse(lists)
    requires GroupsFor(lists, GroupNames(lists), a) && GroupsFor(lists, GroupNames(lists), b)
    ensures forall g <- a :: g in b
  {
    forall g <- a ensures g in b {
      assert g.name in GroupNames(lists);
      var h :| h in b && h.name == g.name;
    }
  }

  // ----- groups against lookups -----

  /** The first list with the group-version of list `i`. */
  predicate IsFirstList(lists: Lists, i: int) {
    0 <= i < |lists| && forall j :: 0 <= j < i ==> lists[j].groupVersion != lists[i].groupVersion
  }

  lemma {:induction false} LookupFindsFirst(lists: Lists, groupVersion: string)
    ensures Lookup(lists, groupVersion).Ok? <==> exists l <- lists :: l.groupVersion == groupVersion
    ensures Lookup(lists, groupVersion).Ok? ==>
              exists i :: IsFirstList(lists, i) && lists[i].groupVersion == groupVersion
                          && Lookup(lists, groupVersion).value == lists[i]
  {
    if lists != [] {
      if lists[0].groupVersion == groupVersion {
        assert IsFirstList(lists, 0);
      } else {
        LookupFindsFirst(lists[1..], groupVersion);
        if Lookup(lists, groupVersion).Ok? {
          var i :| IsFirstList(lists[1..], i) && lists[1..][i].groupVersion == groupVersion
                   && Lookup(lists[1..], groupVersion).value == lists[1..][i];
          assert forall j :: 1 <= j < i + 1 ==> lists[j] == lists[1..][j - 1];
          assert IsFirstList(lists, i + 1);
        }
      }
    }
  }

  /** The place of a group-version in an answer: group `g`, version `k`. */
  predicate ListedAt(groups: seq<APIGroup>, groupVersion: string, g: int, k: int) {
    0 <= g < |groups| && 0 <= k < |groups[g].versions| && groups[g].versions[k].groupVersion == groupVersion
  }

  /** What is listed under a group is an entry of that group. */
  lemma ListedIsEntry(lists: Lists, groups: seq<APIGroup>, g: int, k: int) returns (list: APIResourceList)
    requires AllParse(lists) && GroupsFor(lists, GroupNames(lists), groups)
    requires 0 <= g < |groups| && 0 <= k < |groups[g].versions|
    ensures list in lists && GroupName(list) == groups[g].name && Entry(list) == groups[g].versions[k]
  {
    var group := groups[g];
    assert group in groups;
    DistinctMeaning(Entries(lists, group.name));
    assert group.versions[k] in Entries(lists, group.name);
    list :| list in lists && GroupName(list) == group.name && Entry(list) == group.versions[k];
  }

  lemma GroupVersionIsListed(lists: Lists, groups: seq<APIGroup>, list: APIResourceList) returns (g: int, k: int)
    requires AllParse(lists) && GroupsFor(lists, GroupNames(lists), groups) && list in lists
    ensures ListedAt(groups, list.groupVersion, g, k) && groups[g].name == GroupName(list)
  {
    assert GroupName(list) in GroupNames(lists);
    g :| 0 <= g < |groups| && groups[g].name == GroupName(list);
    assert groups[g] in groups;
    DistinctMeaning(Entries(lists, groups[g].name));
    assert Entry(list) in groups[g].versions;
    k :| 0 <= k < |groups[g].versions| && groups[g].versions[k] == Entry(list);
  }

  lemma ListedOncePerGroup(lists: Lists, groups: seq<APIGroup>, g: int, k: int, l: int)
    requires AllParse(lists) && GroupsFor(lists, GroupNames(lists), groups)
    requires 0 <= g < |groups| && 0 <= k < |groups[g].versions| && 0 <= l < |groups[g].versions|
    requires groups[g].versions[k] == groups[g].versions[l]
    ensures k == l
  {
    assert groups[g] in groups;
    DistinctMeaning(Entries(lists, groups[g].name));
  }

  /** Every group-version of the input has exactly one place in the answer, in the group of its name. */
  lemma EachGroupVersionOnce(lists: Lists, groups: seq<APIGroup>, list: APIResourceList) returns (g: int, k: int)
    requires AllParse(lists) && GroupsFor(lists, GroupNames(lists), groups) && list in lists
    ensures ListedAt(groups, list.groupVersion, g, k) && groups[g].name == GroupName(list)
    ensures forall g', k' :: ListedAt(groups, list.groupVersion, g', k') ==> g' == g && k' == k
  {
    g, k := GroupVersionIsListed(lists, groups, list);
    forall g', k' | ListedAt(groups, list.groupVersion, g', k') ensures g' == g && k' == k {
      var here := ListedIsEntry(lists, groups, g, k);
      var there := ListedIsEntry(lists, groups, g', k');
      assert groups[g'].name == groups[g].name;
      ListedOncePerGroup(lists, groups, g, k, k');
    }
  }

  /** Every version an answer lists is served: looking it up gives the first list with that group-version, and the
      preferred version is the first one listed. */
  lemma ListedVersionsAreServed(lists: Lists, groups: seq<APIGroup>, g: int, k: int)
    requires AllParse(lists) && GroupsFor(lists, GroupNames(lists), groups)
    requires 0 <= g < |groups| && 0 <= k < |groups[g].versions|
    ensures exists i :: IsFirstList(lists, i)
                        && Lookup(lists, groups[g].versions[k].groupVersion) == Ok(lists[i])
                        && Entry(lists[i]) == groups[g].versions[k]
                        && GroupName(lists[i]) == groups[g].name
    ensures groups[g].preferredVersion == groups[g].versions[0]
  {
    var group := groups[g];
    assert group in groups;
    var l := ListedIsEntry(lists, groups, g, k);
    LookupFindsFirst(lists, l.groupVersion);
    FirstStaysFirst(Entries(lists, group.name));
  }

  lemma {:induction false} FirstStaysFirst<T>(s: seq<T>)
    requires s != []
    ensures Distinct(s) != [] && Distinct(s)[0] == s[0]
  {
    if |s| > 1 {
      FirstStaysFirst(s[..|s| - 1]);
    }
  }

  // ----- the order of an answer against the order of the input -----

  lemma {:induction false} FirstEntry(lists: Lists, name: string, i: int)
    requires AllParse(lists) && 0 <= i < |lists| && GroupName(lists[i]) == name
    requires forall j :: 0 <= j < i ==> GroupName(lists[j]) != name
    ensures Entries(lists, name) != [] && Entries(lists, name)[0] == Entry(lists[i])
  {
    hide ParseGroupVersion, GroupName, Entry;
    var n := |lists| - 1;
    var front := lists[..n];
    assert lists == front + [lists[n]];
    EntriesStep(front, lists[n], name);
    if i < n {
      FirstEntry(front, name, i);
    } else {
      assert forall l <- front :: GroupName(l) != name;
    }
  }

  /** A group's preferred version is that of the first list given for the group. */
  lemma PreferredIsFirstGiven(lists: Lists, groups: seq<APIGroup>, g: int, i: int)
    requires AllParse(lists) && GroupsFor(lists, GroupNames(lists), groups)
    requires 0 <= g < |groups| && 0 <= i < |lists| && GroupName(lists[i]) == groups[g].name
    requires forall j :: 0 <= j < i ==> GroupName(lists[j]) != groups[g].name
    ensures groups[g].preferredVersion == Entry(lists[i])
  {
    assert groups[g] in groups;
    FirstEntry(lists, groups[g].name, i);
  }

  lemma EntryAndNameFromGroupVersion(a: APIResourceList, b: APIResourceList)
    requires Parses(a) && Parses(b)
    ensures a.groupVersion == b.groupVersion <==> Entry(a) == Entry(b)
    ensures a.groupVersion == b.groupVersion ==> GroupName(a) == GroupName(b)
  {
  }

  lemma {:induction false} DistinctInOrder(lists: Lists, name: string, k: int, l: int, i: int, j: int)
    requires AllParse(lists) && 0 <= k < l < |Distinct(Entries(lists, name))|
    requires IsFirstList(lists, i) && Entry(lists[i]) == Distinct(Entries(lists, name))[k]
    requires IsFirstList(lists, j) && Entry(lists[j]) == Distinct(Entries(lists, name))[l]
    ensures i < j
  {
    hide ParseGroupVersion, GroupName, Entry;
    var n := |lists| - 1;
    var front, last := lists[..n], lists[n];
    assert lists == front + [last];
    EntriesStep(front, last, name);
    var before := Distinct(Entries(front, name));
    if GroupName(last) == name {
      assert (Entries(front, name) + [Entry(last)])[..|Entries(front, name)|] == Entries(front, name);
    } else {
      assert Entries(lists, name) == Entries(front, name);
    }
    GivenBefore(lists, name, k, i);
    if l < |before| {
      GivenBefore(lists, name, l, j);
      DistinctInOrder(front, name, k, l, i, j);
    } else {
      assert Entry(last) !in Entries(front, name);
      if j < n {
        EntryAndNameFromGroupVersion(lists[j], last);
      }
    }
  }

  /** What was distinct before the last list was given before it. */
  lemma GivenBefore(lists: Lists, name: string, k: int, i: int)
    requires AllParse(lists) && lists != []
    requires 0 <= k < |Distinct(Entries(lists[..|lists| - 1], name))|
    requires IsFirstList(lists, i) && Entry(lists[i]) == Distinct(Entries(lists[..|lists| - 1], name))[k]
    ensures i < |lists| - 1
  {
    hide ParseGroupVersion, GroupName, Entry;
    var front := lists[..|lists| - 1];
    DistinctMeaning(Entries(front, name));
    assert Entry(lists[i]) in Entries(front, name);
    var list :| list in front && GroupName(list) == name && Entry(list) == Entry(lists[i]);
    EntryAndNameFromGroupVersion(list, lists[i]);
  }

  /** A group lists its versions in the order in which they were first given. */
  lemma VersionsInGivenOrder(lists: Lists, groups: seq<APIGroup>, g: int, k: int, l: int, i: int, j: int)
    requires AllParse(lists) && GroupsFor(lists, GroupNames(lists), groups)
    requires 0 <= g < |groups| && 0 <= k < l < |groups[g].versions|
    requires IsFirstList(lists, i) && lists[i].groupVersion == groups[g].versions[k].groupVersion
    requires IsFirstList(lists, j) && lists[j].groupVersion == groups[g].versions[l].groupVersion
    ensures i < j
  {
    assert groups[g] in groups;
    var a := ListedIsEntry(lists, groups, g, k);
    var b := ListedIsEntry(lists, groups, g, l);
    EntryAndNameFromGroupVersion(a, lists[i]);
    EntryAndNameFromGroupVersion(b, lists[j]);
    DistinctInOrder(lists, groups[g].name, k, l, i, j);
  }

  /** Entries and groups read off the text: "group/version" belongs to the group before the slash, a text without one
      to the unnamed group. */
  lemma GroupsByPrefix(list: APIResourceList, group: string, version: string)
    requires '/' !in group && '/' !in version
    ensures list.groupVersion == group + "/" + version ==>
              Parses(list) && GroupName(list) == group && Entry(list).version == version
    ensures list.groupVersion == version ==> Parses(list) && GroupName(list) == "" && Entry(list).version == version
    ensures Parses(list) ==> Entry(list).groupVersion == list.groupVersion
  {
    ParseGroupVersionMeaning(group, version);
  }
}
