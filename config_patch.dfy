/** The document edits of the pre-prepare hook (src/pre-prepare.js): the
    `config.xml` widget patch, the decision whether to write it back, and
    the URL type appended to the iOS `Info.plist`. */
module ConfigPatch {
  import opened Base
  import opened ElementTree

  /** The manifest fields the config patch copies; `None` is `undefined`. */
  datatype AppManifest = AppManifest(
    name: Option<string>,
    description: Option<string>,
    author: Option<string>,
    version: Option<string>,
    packageId: Option<string>)

  const ContentSrc := "plugins/org.chromium.bootstrap/chromeapp.html"

  /** A change made to one element in place. */
  datatype ChildEdit = SetText(text: Option<string>) | SetAttr(key: string, value: Option<string>)

  function ApplyEdit(e: Element, edit: ChildEdit): Element {
    match edit
    case SetText(t) => e.(text := t)
    case SetAttr(k, v) => e.(attrib := e.attrib[k := v])
  }

  function MapEdit(e: Option<Element>, edit: ChildEdit): Option<Element> {
    match e
    case None => None
    case Some(x) => Some(ApplyEdit(x, edit))
  }

  /** The first child with the given tag, as `tree.find('./tag')` returns it. */
  function FirstWith(children: seq<Element>, tag: string): Option<Element> {
    match FindChild(children, tag)
    case None => None
    case Some(i) => Some(children[i])
  }

  /** `var c = tree.find('./tag'); if (c) <edit c>`: the first child with
      the tag is edited in place, and nothing else of the parent changes. */
  function EditFirstChild(e: Element, tag: string, edit: ChildEdit): (r: Element)
    ensures r.tag == e.tag && r.attrib == e.attrib && r.text == e.text
    ensures Tags(r.children) == Tags(e.children)
  {
    match FindChild(e.children, tag)
    case None => e
    case Some(i) => e.(children := e.children[i := ApplyEdit(e.children[i], edit)])
  }

  /** The edit reaches exactly the first child with the tag: that child is
      edited and every other child is unchanged. */
  lemma EditFirstChildFrame(e: Element, tag: string, edit: ChildEdit)
    ensures |EditFirstChild(e, tag, edit).children| == |e.children|
    ensures FindChild(e.children, tag).Some? ==>
              var i := FindChild(e.children, tag).value;
              EditFirstChild(e, tag, edit).children[i] == ApplyEdit(e.children[i], edit)
    ensures forall j :: 0 <= j < |e.children| && FindChild(e.children, tag) != Some(j) ==>
              EditFirstChild(e, tag, edit).children[j] == e.children[j]
  {
  }

  /** Lines 56-59: the widget's identity attributes. */
  function SetIdentity(root: Element, m: AppManifest): Element {
    if root.tag == "widget" then root.(attrib := root.attrib["version" := m.version]["id" := m.packageId])
    else root
  }

  /** Lines 55-71: everything the patch does before it touches `access`. */
  function EditedConfig(root: Element, m: AppManifest): Element {
    var e0 := SetIdentity(root, m);
    var e1 := EditFirstChild(e0, "name", SetText(m.name));
    var e2 := EditFirstChild(e1, "description", SetText(m.description));
    var e3 := EditFirstChild(e2, "author", SetText(m.author));
    EditFirstChild(e3, "content", SetAttr("src", Some(ContentSrc)))
  }

  /** The children whose tag is not `tag`, in order. */
  function WithoutTag(children: seq<Element>, tag: string): (r: seq<Element>)
    ensures forall i :: 0 <= i < |r| ==> r[i].tag != tag
    ensures IsSubsequence(r, children)
  {
    if |children| == 0 then []
    else if children[0].tag == tag then WithoutTag(children[1..], tag)
    else [children[0]] + WithoutTag(children[1..], tag)
  }

  /** `SubElement(widget, 'access')` with `origin` set to the pattern. */
  function AccessElement(pattern: string): Element {
    Element("access", map["origin" := Some(pattern)], None, [])
  }

  function AccessElements(whitelist: seq<string>): (r: seq<Element>)
    ensures |r| == |whitelist|
    ensures forall i :: 0 <= i < |r| ==> r[i] == AccessElement(whitelist[i])
  {
    if |whitelist| == 0 then []
    else AccessElements(whitelist[..|whitelist| - 1]) + [AccessElement(whitelist[|whitelist| - 1])]
  }

  /** The widget after the whole patch of lines 55-80. */
  function PatchedConfig(root: Element, m: AppManifest, whitelist: seq<string>): Element {
    var e := EditedConfig(root, m);
    e.(children := WithoutTag(e.children, "access") + AccessElements(whitelist))
  }

  lemma {:induction false} WithoutTagAppend(a: seq<Element>, b: seq<Element>, tag: string)
    ensures WithoutTag(a + b, tag) == WithoutTag(a, tag) + WithoutTag(b, tag)
    decreases |a|
  {
    if |a| == 0 {
      assert a + b == b;
    } else {
      assert (a + b)[0] == a[0] && (a + b)[1..] == a[1..] + b;
      WithoutTagAppend(a[1..], b, tag);
    }
  }

  lemma {:induction false} WithoutTagNone(c: seq<Element>, tag: string)
    requires forall i :: 0 <= i < |c| ==> c[i].tag != tag
    ensures WithoutTag(c, tag) == c
    decreases |c|
  {
    if |c| > 0 {
      WithoutTagNone(c[1..], tag);
    }
  }

  lemma {:induction false} WithoutTagAll(c: seq<Element>, tag: string)
    requires forall i :: 0 <= i < |c| ==> c[i].tag == tag
    ensures WithoutTag(c, tag) == []
    decreases |c|
  {
    if |c| > 0 {
      WithoutTagAll(c[1..], tag);
    }
  }

  /** Removing one child with the tag does not change the other children. */
  lemma WithoutTagRemoveAt(c: seq<Element>, i: nat, tag: string)
    requires i < |c| && c[i].tag == tag
    ensures WithoutTag(c[..i] + c[i + 1..], tag) == WithoutTag(c, tag)
  {
    assert c == c[..i] + ([c[i]] + c[i + 1..]);
    WithoutTagAppend(c[..i], [c[i]] + c[i + 1..], tag);
    WithoutTagAppend(c[..i], c[i + 1..], tag);
  }

  lemma {:induction false} WithoutTagTags(a: seq<Element>, b: seq<Element>, tag: string)
    requires Tags(a) == Tags(b)
    ensures Tags(WithoutTag(a, tag)) == Tags(WithoutTag(b, tag))
    decreases |a|
  {
    assert |a| == |b|;
    if |a| > 0 {
      assert a[0].tag == Tags(a)[0] == Tags(b)[0] == b[0].tag;
      assert Tags(a[1..]) == Tags(a)[1..] && Tags(b[1..]) == Tags(b)[1..];
      WithoutTagTags(a[1..], b[1..], tag);
    }
  }

  /** `find` skips a first child with another tag. */
  lemma FirstWithTail(s: seq<Element>, tag: string)
    requires |s| > 0 && s[0].tag != tag
    ensures FirstWith(s, tag) == FirstWith(s[1..], tag)
  {
    match FindChild(s[1..], tag)
    case None =>
    case Some(k) => assert s[1..][k] == s[k + 1];
  }

  /** Dropping `t` children and appending more `t` children does not change
      which child `find('./tag')` returns for any other tag. */
  lemma {:induction false} FirstWithAfterReplacing(c: seq<Element>, xs: seq<Element>, t: string, tag: string)
    requires tag != t
    requires forall i :: 0 <= i < |xs| ==> xs[i].tag == t
    ensures FirstWith(WithoutTag(c, t) + xs, tag) == FirstWith(c, tag)
    decreases |c|
  {
    if |c| == 0 {
      assert WithoutTag(c, t) + xs == xs;
      assert FindChild(xs, tag).None?;
    } else if c[0].tag == t {
      FirstWithAfterReplacing(c[1..], xs, t, tag);
      FirstWithTail(c, tag);
    } else {
      FirstWithAfterReplacing(c[1..], xs, t, tag);
      var w := WithoutTag(c, t) + xs;
      assert w[0] == c[0] && w[1..] == WithoutTag(c[1..], t) + xs;
      if c[0].tag != tag {
        FirstWithTail(c, tag);
        FirstWithTail(w, tag);
      }
    }
  }

  /** Editing the first `tag` child edits what `find('./tag')` returns ... */
  lemma EditFirstChildSame(e: Element, tag: string, edit: ChildEdit)
    ensures FirstWith(EditFirstChild(e, tag, edit).children, tag) == MapEdit(FirstWith(e.children, tag), edit)
  {
    FindChildByTags(EditFirstChild(e, tag, edit).children, e.children, tag);
  }

  /** ... and nothing `find` returns for another tag. */
  lemma EditFirstChildOther(e: Element, tag: string, edit: ChildEdit, other: string)
    requires other != tag
    ensures FirstWith(EditFirstChild(e, tag, edit).children, other) == FirstWith(e.children, other)
  {
    FindChildByTags(EditFirstChild(e, tag, edit).children, e.children, other);
  }

  lemma ApplyEditTwice(e: Element, edit: ChildEdit)
    ensures ApplyEdit(ApplyEdit(e, edit), edit) == ApplyEdit(e, edit)
  {
    match edit
    case SetText(t) =>
    case SetAttr(k, v) =>
      assert e.attrib[k := v][k := v] == e.attrib[k := v];
  }

  /** An edit already in place changes nothing. */
  lemma EditFirstChildNoop(e: Element, tag: string, edit: ChildEdit)
    requires FirstWith(e.children, tag) == MapEdit(FirstWith(e.children, tag), edit)
    ensures EditFirstChild(e, tag, edit) == e
  {
    match FindChild(e.children, tag)
    case None =>
    case Some(i) =>
      assert e.children[i := ApplyEdit(e.children[i], edit)] == e.children;
  }

  /** Lines 61-71, as seen through `find` on the patched widget: the first
      `name`, `description` and `author` children carry the manifest's text,
      the first `content` child the fixed `src`, and each is otherwise the
      original child; a tag with no child stays without one. */
  lemma PatchedChildren(root: Element, m: AppManifest, whitelist: seq<string>)
    ensures FirstWith(PatchedConfig(root, m, whitelist).children, "name")
            == MapEdit(FirstWith(root.children, "name"), SetText(m.name))
    ensures FirstWith(PatchedConfig(root, m, whitelist).children, "description")
            == MapEdit(FirstWith(root.children, "description"), SetText(m.description))
    ensures FirstWith(PatchedConfig(root, m, whitelist).children, "author")
            == MapEdit(FirstWith(root.children, "author"), SetText(m.author))
    ensures FirstWith(PatchedConfig(root, m, whitelist).children, "content")
            == MapEdit(FirstWith(root.children, "content"), SetAttr("src", Some(ContentSrc)))
  {
    var e0 := SetIdentity(root, m);
    var e1 := EditFirstChild(e0, "name", SetText(m.name));
    var e2 := EditFirstChild(e1, "description", SetText(m.description));
    var e3 := EditFirstChild(e2, "author", SetText(m.author));
    var e4 := EditFirstChild(e3, "content", SetAttr("src", Some(ContentSrc)));
    assert e0.children == root.children;
    EditFirstChildSame(e0, "name", SetText(m.name));
    EditFirstChildOther(e1, "description", SetText(m.description), "name");
    EditFirstChildOther(e2, "author", SetText(m.author), "name");
    EditFirstChildOther(e3, "content", SetAttr("src", Some(ContentSrc)), "name");
    EditFirstChildOther(e0, "name", SetText(m.name), "description");
    EditFirstChildSame(e1, "description", SetText(m.description));
    EditFirstChildOther(e2, "author", SetText(m.author), "description");
    EditFirstChildOther(e3, "content", SetAttr("src", Some(ContentSrc)), "description");
    EditFirstChildOther(e0, "name", SetText(m.name), "author");
    EditFirstChildOther(e1, "description", SetText(m.description), "author");
    EditFirstChildSame(e2, "author", SetText(m.author));
    EditFirstChildOther(e3, "content", SetAttr("src", Some(ContentSrc)), "author");
    EditFirstChildOther(e0, "name", SetText(m.name), "content");
    EditFirstChildOther(e1, "description", SetText(m.description), "content");
    EditFirstChildOther(e2, "author", SetText(m.author), "content");
    EditFirstChildSame(e3, "content", SetAttr("src", Some(ContentSrc)));
    var acc := AccessElements(whitelist);
    FirstWithAfterReplacing(e4.children, acc, "access", "name");
    FirstWithAfterReplacing(e4.children, acc, "access", "description");
    FirstWithAfterReplacing(e4.children, acc, "access", "author");
    FirstWithAfterReplacing(e4.children, acc, "access", "content");
  }

  /** Whether child `j` is one of the four children lines 61-71 edit. */
  predicate EditedIndex(children: seq<Element>, j: nat) {
    || FindChild(children, "name") == Some(j)
    || FindChild(children, "description") == Some(j)
    || FindChild(children, "author") == Some(j)
    || FindChild(children, "content") == Some(j)
  }

  /** Lines 55-71 keep the number of children, and every child other than
      the first `name`, `description`, `author` and `content` is unchanged. */
  lemma EditedChildren(root: Element, m: AppManifest)
    ensures |EditedConfig(root, m).children| == |root.children|
    ensures forall j :: 0 <= j < |root.children| && !EditedIndex(root.children, j) ==>
              EditedConfig(root, m).children[j] == root.children[j]
  {
    var e0 := SetIdentity(root, m);
    var e1 := EditFirstChild(e0, "name", SetText(m.name));
    var e2 := EditFirstChild(e1, "description", SetText(m.description));
    var e3 := EditFirstChild(e2, "author", SetText(m.author));
    assert e0.children == root.children;
    EditFirstChildFrame(e0, "name", SetText(m.name));
    EditFirstChildFrame(e1, "description", SetText(m.description));
    EditFirstChildFrame(e2, "author", SetText(m.author));
    EditFirstChildFrame(e3, "content", SetAttr("src", Some(ContentSrc)));
    FindChildByTags(e1.children, root.children, "description");
    FindChildByTags(e2.children, root.children, "author");
    FindChildByTags(e3.children, root.children, "content");
  }

  /** Kept children without `tag`, then `tag` elements: the tail is exactly
      the appended elements and no kept child has the tag. */
  lemma KeptThenAppended(c: seq<Element>, xs: seq<Element>, tag: string)
    ensures var r := WithoutTag(c, tag) + xs;
            var n := |r| - |xs|;
            && n == |WithoutTag(c, tag)|
            && r[..n] == WithoutTag(c, tag)
            && (forall i :: 0 <= i < |xs| ==> r[n + i] == xs[i])
            && (forall i :: 0 <= i < n ==> r[i].tag != tag)
  {
  }

  /** Lines 56-59 and 73-80: the identity attributes change only on a
      `widget` root; the widget ends with one `access` child per whitelist
      entry, in whitelist order, after every other child; the other
      children are those lines 55-71 leave, minus the `access` ones, in
      order, so they keep the tags of the original non-`access` children. */
  lemma PatchedShape(root: Element, m: AppManifest, whitelist: seq<string>)
    ensures PatchedConfig(root, m, whitelist).tag == root.tag
    ensures PatchedConfig(root, m, whitelist).attrib ==
            if root.tag == "widget" then root.attrib["version" := m.version]["id" := m.packageId]
            else root.attrib
    ensures var r := PatchedConfig(root, m, whitelist);
            var n := |r.children| - |whitelist|;
            && n >= 0
            && (forall i :: 0 <= i < |whitelist| ==> r.children[n + i] == AccessElement(whitelist[i]))
            && (forall i :: 0 <= i < n ==> r.children[i].tag != "access")
            && r.children[..n] == WithoutTag(EditedConfig(root, m).children, "access")
            && Tags(r.children[..n]) == Tags(WithoutTag(root.children, "access"))
  {
    var e := EditedConfig(root, m);
    var acc := AccessElements(whitelist);
    var kept := WithoutTag(e.children, "access");
    var r := PatchedConfig(root, m, whitelist);
    EditedIdentity(root, m);
    assert r.children == kept + acc;
    KeptThenAppended(e.children, acc, "access");
    assert r.children[..|kept|] == kept;
    WithoutTagTags(e.children, root.children, "access");
  }

  lemma MapEditTwice(e: Option<Element>, edit: ChildEdit)
    ensures MapEdit(MapEdit(e, edit), edit) == MapEdit(e, edit)
  {
    if e.Some? {
      ApplyEditTwice(e.value, edit);
    }
  }

  /** A widget whose identity and first children already carry the edits
      is left alone by lines 55-71. */
  lemma EditedConfigNoop(p: Element, m: AppManifest)
    requires SetIdentity(p, m) == p
    requires FirstWith(p.children, "name") == MapEdit(FirstWith(p.children, "name"), SetText(m.name))
    requires FirstWith(p.children, "description")
             == MapEdit(FirstWith(p.children, "description"), SetText(m.description))
    requires FirstWith(p.children, "author") == MapEdit(FirstWith(p.children, "author"), SetText(m.author))
    requires FirstWith(p.children, "content")
             == MapEdit(FirstWith(p.children, "content"), SetAttr("src", Some(ContentSrc)))
    ensures EditedConfig(p, m) == p
  {
    EditFirstChildNoop(p, "name", SetText(m.name));
    EditFirstChildNoop(p, "description", SetText(m.description));
    EditFirstChildNoop(p, "author", SetText(m.author));
    EditFirstChildNoop(p, "content", SetAttr("src", Some(ContentSrc)));
  }

  /** Replacing the `access` children twice is replacing them once. */
  lemma AccessReplacementIdempotent(e: Element, whitelist: seq<string>)
    ensures var p := e.(children := WithoutTag(e.children, "access") + AccessElements(whitelist));
            p.(children := WithoutTag(p.children, "access") + AccessElements(whitelist)) == p
  {
    var kept := WithoutTag(e.children, "access");
    var acc := AccessElements(whitelist);
    WithoutTagAppend(kept, acc, "access");
    WithoutTagNone(kept, "access");
    assert forall i :: 0 <= i < |acc| ==> acc[i].tag == "access";
    WithoutTagAll(acc, "access");
    assert WithoutTag(kept + acc, "access") == kept;
  }

  /** Lines 61-71 touch only children: the widget's tag and attributes are
      those the identity step gave it. */
  lemma EditedIdentity(root: Element, m: AppManifest)
    ensures EditedConfig(root, m).tag == root.tag
    ensures EditedConfig(root, m).attrib == SetIdentity(root, m).attrib
    ensures Tags(EditedConfig(root, m).children) == Tags(root.children)
  {
  }

  lemma SetIdentityOfPatched(root: Element, m: AppManifest, whitelist: seq<string>)
    ensures SetIdentity(PatchedConfig(root, m, whitelist), m) == PatchedConfig(root, m, whitelist)
  {
    var p := PatchedConfig(root, m, whitelist);
    EditedIdentity(root, m);
    if root.tag == "widget" {
      var a := root.attrib["version" := m.version]["id" := m.packageId];
      assert p.attrib == a;
      assert a["version" := m.version]["id" := m.packageId] == a;
    }
  }

  /** Re-running the patch on its own output changes nothing. */
  lemma PatchIdempotent(root: Element, m: AppManifest, whitelist: seq<string>)
    ensures PatchedConfig(PatchedConfig(root, m, whitelist), m, whitelist) == PatchedConfig(root, m, whitelist)
  {
    var p := PatchedConfig(root, m, whitelist);
    PatchedChildren(root, m, whitelist);
    MapEditTwice(FirstWith(root.children, "name"), SetText(m.name));
    MapEditTwice(FirstWith(root.children, "description"), SetText(m.description));
    MapEditTwice(FirstWith(root.children, "author"), SetText(m.author));
    MapEditTwice(FirstWith(root.children, "content"), SetAttr("src", Some(ContentSrc)));
    SetIdentityOfPatched(root, m, whitelist);
    EditedConfigNoop(p, m);
    AccessReplacementIdempotent(EditedConfig(root, m), whitelist);
  }

  /** Lines 82-89: the text to write, or `None` when the serialised tree
      equals the file as read. */
  function ConfigFileToWrite(data: string, patched: Element, serialize: Element -> string): (r: Option<string>)
    ensures r.None? <==> serialize(patched) == data
    ensures r.Some? ==> r.value == serialize(patched)
  {
    var configfile := serialize(patched);
    if configfile == data then None else Some(configfile)
  }

  /** A second run, which parses the file the first run wrote and patches
      that tree, writes nothing, provided parsing the written text gives
      back the tree it was serialised from. */
  lemma SecondRunWritesNothing(root: Element, m: AppManifest, whitelist: seq<string>,
                               serialize: Element -> string, parse: string -> Element)
    requires parse(serialize(PatchedConfig(root, m, whitelist))) == PatchedConfig(root, m, whitelist)
    ensures var written := serialize(PatchedConfig(root, m, whitelist));
            ConfigFileToWrite(written, PatchedConfig(parse(written), m, whitelist), serialize).None?
  {
    PatchIdempotent(root, m, whitelist);
  }

  /** Lines 73-76: `while (access = widget.find('./access')) widget.remove(access)`. */
  method RemoveAccessChildren(widget0: Element) returns (widget: Element)
    ensures widget == widget0.(children := WithoutTag(widget0.children, "access"))
  {
    widget := widget0;
    var access := FindChild(widget.children, "access");
    while access.Some?
      invariant access == FindChild(widget.children, "access")
      invariant widget.tag == widget0.tag && widget.attrib == widget0.attrib && widget.text == widget0.text
      invariant WithoutTag(widget.children, "access") == WithoutTag(widget0.children, "access")
      decreases |widget.children|
    {
      var i := access.value;
      WithoutTagRemoveAt(widget.children, i, "access");
      widget := widget.(children := widget.children[..i] + widget.children[i + 1..]);
      access := FindChild(widget.children, "access");
    }
    WithoutTagNone(widget.children, "access");
  }

  /** Lines 77-80: one `access` child with `origin` per whitelist entry. */
  method AppendAccessChildren(widget0: Element, whitelist: seq<string>) returns (widget: Element)
    ensures widget == widget0.(children := widget0.children + AccessElements(whitelist))
  {
    widget := widget0;
    var k := 0;
    while k < |whitelist|
      invariant 0 <= k <= |whitelist|
      invariant widget == widget0.(children := widget0.children + AccessElements(whitelist[..k]))
    {
      var tag := NewElement("access");
      tag := tag.(attrib := tag.attrib["origin" := Some(whitelist[k])]);
      assert whitelist[..k + 1][..k] == whitelist[..k];
      widget := widget.(children := widget.children + [tag]);
      k := k + 1;
    }
    assert whitelist[..|whitelist|] == whitelist;
  }

  /** The `config.xml` patch of lines 55-80, step by step. */
  method PatchConfig(root: Element, m: AppManifest, whitelist: seq<string>) returns (widget: Element)
    ensures widget == PatchedConfig(root, m, whitelist)
  {
    widget := root;
    if widget.tag == "widget" {
      widget := widget.(attrib := widget.attrib["version" := m.version]);
      widget := widget.(attrib := widget.attrib["id" := m.packageId]);
    }
    assert widget == SetIdentity(root, m);
    widget := EditFirstChild(widget, "name", SetText(m.name));
    widget := EditFirstChild(widget, "description", SetText(m.description));
    widget := EditFirstChild(widget, "author", SetText(m.author));
    widget := EditFirstChild(widget, "content", SetAttr("src", Some(ContentSrc)));
    assert widget == EditedConfig(root, m);
    widget := RemoveAccessChildren(widget);
    widget := AppendAccessChildren(widget, whitelist);
  }

  /** The entries lines 105-124 append to the plist's top-level dict. */
  function UrlTypeEntries(packageId: Option<string>): (r: seq<Element>)
    ensures |r| == 2 && r[0] == WithText("key", Some("CFBundleURLTypes"))
    ensures r[1].tag == "array" && r[1].attrib == map[] && r[1].text == None
    ensures |r[1].children| == 1 && r[1].children[0].tag == "dict"
    ensures var dict := r[1].children[0].children;
            && |dict| == 6
            && dict[0] == WithText("key", Some("CFBundleTypeRole"))
            && dict[1] == WithText("string", Some("Editor"))
            && dict[2] == WithText("key", Some("CFBundleURLName"))
            && dict[3] == WithText("string", packageId)
            && dict[4] == WithText("key", Some("CFBundleURLSchemes"))
            && dict[5].tag == "array" && dict[5].children == [WithText("string", packageId)]
  {
    var dict := Element("dict", map[], None, [
      WithText("key", Some("CFBundleTypeRole")), WithText("string", Some("Editor")),
      WithText("key", Some("CFBundleURLName")), WithText("string", packageId),
      WithText("key", Some("CFBundleURLSchemes")),
      Element("array", map[], None, [WithText("string", packageId)])]);
    [WithText("key", Some("CFBundleURLTypes")), Element("array", map[], None, [dict])]
  }

  /** Lines 102-124: register the package id as a URL scheme by appending
      to the first child of the plist root, unconditionally. It fails when
      the root has no child (`getItem(0)` is undefined). Every call adds two
      children, so running it again appends a second registration. */
  method AddUrlType(plist: Element, packageId: Option<string>) returns (r: Result<Element>)
    ensures r.Err? <==> |plist.children| == 0
    ensures r.Ok? ==> r.value.(children := []) == plist.(children := [])
    ensures r.Ok? ==> |r.value.children| == |plist.children| && r.value.children[1..] == plist.children[1..]
    ensures r.Ok? ==>
      var before, after := plist.children[0], r.value.children[0];
      var n := |before.children|;
      && after.(children := []) == before.(children := [])
      && |after.children| == n + 2
      && after.children == before.children + UrlTypeEntries(packageId)
  {
    if |plist.children| == 0 {
      return Err(MissingRootDict);
    }
    var rootDict := plist.children[0];

    var urlTypesKey := NewElement("key");
    urlTypesKey := urlTypesKey.(text := Some("CFBundleURLTypes"));

    var typeRoleKey := WithText("key", Some("CFBundleTypeRole"));
    var typeRoleString := WithText("string", Some("Editor"));
    var urlNameKey := WithText("key", Some("CFBundleURLName"));
    var urlNameString := WithText("string", packageId);
    var urlSchemesKey := WithText("key", Some("CFBundleURLSchemes"));
    var schemeString := WithText("string", packageId);
    var urlSchemesArray := NewElement("array").(children := [schemeString]);

    var urlTypesDict := NewElement("dict");
    urlTypesDict := urlTypesDict.(children := urlTypesDict.children + [typeRoleKey, typeRoleString]);
    urlTypesDict := urlTypesDict.(children := urlTypesDict.children + [urlNameKey, urlNameString]);
    urlTypesDict := urlTypesDict.(children := urlTypesDict.children + [urlSchemesKey, urlSchemesArray]);
    assert urlTypesDict.children ==
      [typeRoleKey, typeRoleString, urlNameKey, urlNameString, urlSchemesKey, urlSchemesArray];
    var urlTypesArray := NewElement("array").(children := [urlTypesDict]);

    rootDict := rootDict.(children := rootDict.children + [urlTypesKey, urlTypesArray]);
    assert rootDict.children == plist.children[0].children + UrlTypeEntries(packageId);
    r := Ok(plist.(children := plist.children[0 := rootDict]));
  }
}
