/** Group, version and resource names and their textual forms (apimachinery's runtime/schema package). */
module Schema {
  import opened Results
  import opened Text

  datatype GroupResource = GroupResource(group: string, resource: string) {

    function WithVersion(version: string): GroupVersionResource {
      GroupVersionResource(group, version, resource)
    }

    function ToString(): string {
      if |group| == 0 then resource else resource + "." + group
    }
  }

  datatype GroupVersionResource = GroupVersionResource(group: string, version: string, resource: string) {

    function ToGroupResource(): GroupResource {
      GroupResource(group, resource)
    }
  }

  datatype GroupVersionKind = GroupVersionKind(group: string, version: string, kind: string)

  datatype GroupVersion = GroupVersion(group: string, version: string)

  function ParseGroupResource(text: string): (gr: GroupResource)
    ensures '.' !in gr.resource
    ensures '/' !in text ==> '/' !in gr.resource && '/' !in gr.group
  {
    var i := IndexOf(text, '.');
    if i >= 0 then GroupResource(text[i + 1..], text[..i]) else GroupResource("", text)
  }

  /** A group-resource survives being written out and parsed again exactly when its resource has no dot. */
  lemma ParseInvertsToStringExactly(gr: GroupResource)
    ensures ParseGroupResource(gr.ToString()) == gr <==> '.' !in gr.resource
  {
    if '.' !in gr.resource && |gr.group| > 0 {
      SplitAtFirst(gr.resource, '.', gr.group);
      assert gr.ToString() == gr.resource + ['.'] + gr.group;
    }
  }

  /** Splits "group/version"; an error only for two or more slashes. */
  function ParseGroupVersion(text: string): (r: Result<GroupVersion, string>)
    ensures r.Err? <==> Count(text, '/') >= 2
    ensures r.Err? ==> r.error == text
  {
    if |text| == 0 || text == "/" then
      assert text == "/" ==> text[1..] == "";
      Ok(GroupVersion("", ""))
    else
      match Count(text, '/')
      case 0 => Ok(GroupVersion("", text))
      case 1 =>
        var i := IndexOf(text, '/');
        Ok(GroupVersion(text[..i], text[i + 1..]))
      case _ => Err(text)
  }

  /** The two forms of a group-version, read back: with a slash, and without. */
  lemma ParseGroupVersionMeaning(group: string, version: string)
    requires '/' !in group && '/' !in version
    ensures ParseGroupVersion(group + "/" + version) == Ok(GroupVersion(group, version))
    ensures ParseGroupVersion(version) == Ok(GroupVersion("", version))
  {
    var text := group + ['/'] + version;
    assert group + "/" + version == text;
    SplitAtFirst(group, '/', version);
    CountOfJoined(group, '/', version);
    if text == "/" {
      assert |group| + |version| == 0;
    }
  }

  /** Parsing fails exactly on texts with two slashes or more. */
  lemma ParseGroupVersionFailsExactly(text: string)
    ensures ParseGroupVersion(text).Err? <==> exists i, j :: 0 <= i < j < |text| && text[i] == '/' && text[j] == '/'
  {
    CountsTwo(text, '/');
  }
}
