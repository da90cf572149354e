/** The document edits of the post-prepare hook (src/post-prepare.js):
    the key scanners that walk the `Info.plist` tree in document order,
    `setValues` on the icon-file arrays, the `CFBundleVersion` update, and
    the `android:versionCode` attribute of `AndroidManifest.xml`. */
module PlistPatch {
  import opened Base
  import opened Decimal
  import opened ElementTree

  /** What a scanner looks for in a node. */
  datatype Test = TextIs(text: string) | TagIs(tag: string)

  predicate Passes(e: Element, t: Test) {
    match t
    case TextIs(s) => e.text == Some(s)
    case TagIs(g) => e.tag == g
  }

  /** The index of the first node at or after `from` that passes `t`. */
  function FirstFrom(nodes: seq<Element>, from: nat, t: Test): Option<nat>
    decreases |nodes| - from
  {
    if from >= |nodes| then None
    else if Passes(nodes[from], t) then Some(from)
    else FirstFrom(nodes, from + 1, t)
  }

  /** The search finds the first passing node at or after `from`, and
      finds nothing exactly when no node there passes. */
  lemma {:induction false} FirstFromSpec(nodes: seq<Element>, from: nat, t: Test)
    ensures var r := FirstFrom(nodes, from, t);
            && (r.Some? ==> from <= r.value < |nodes| && Passes(nodes[r.value], t))
            && (r.Some? ==> forall j :: from <= j < r.value ==> !Passes(nodes[j], t))
            && (r.None? ==> forall j :: from <= j < |nodes| ==> !Passes(nodes[j], t))
    decreases |nodes| - from
  {
    if from < |nodes| && !Passes(nodes[from], t) {
      FirstFromSpec(nodes, from + 1, t);
    }
  }

  /** The document-order index of the node `findArrayNode(key)` returns:
      the first `array` after the first `CFBundleIconFiles` text after the
      first text equal to `key`. */
  function ArrayNodeIndex(nodes: seq<Element>, key: string): (r: Option<nat>)
    ensures r.Some? ==> r.value < |nodes| && nodes[r.value].tag == "array"
  {
    match FirstFrom(nodes, 0, TextIs(key))
    case None => None
    case Some(i) =>
      match FirstFrom(nodes, i + 1, TextIs("CFBundleIconFiles"))
      case None => None
      case Some(j) =>
        FirstFromSpec(nodes, j + 1, TagIs("array"));
        FirstFrom(nodes, j + 1, TagIs("array"))
  }

  /** A `key` text, a later `CFBundleIconFiles` text and a later `array`,
      in document order. */
  predicate Chain(nodes: seq<Element>, key: string, i: nat, j: nat, k: nat) {
    i < j < k < |nodes| &&
    nodes[i].text == Some(key) && nodes[j].text == Some("CFBundleIconFiles") && nodes[k].tag == "array"
  }

  /** Lines 172-192: whatever the scan finds ends such a chain ... */
  lemma ArrayNodeIndexSound(nodes: seq<Element>, key: string)
    requires ArrayNodeIndex(nodes, key).Some?
    ensures exists i, j :: Chain(nodes, key, i, j, ArrayNodeIndex(nodes, key).value)
  {
    var i := FirstFrom(nodes, 0, TextIs(key)).value;
    var j := FirstFrom(nodes, i + 1, TextIs("CFBundleIconFiles")).value;
    FirstFromSpec(nodes, 0, TextIs(key));
    FirstFromSpec(nodes, i + 1, TextIs("CFBundleIconFiles"));
    FirstFromSpec(nodes, j + 1, TagIs("array"));
    assert Chain(nodes, key, i, j, ArrayNodeIndex(nodes, key).value);
  }

  /** ... and whenever some chain exists the scan finds one, ending no later. */
  lemma ArrayNodeIndexComplete(nodes: seq<Element>, key: string, i: nat, j: nat, k: nat)
    requires Chain(nodes, key, i, j, k)
    ensures ArrayNodeIndex(nodes, key).Some? && ArrayNodeIndex(nodes, key).value <= k
  {
    assert Passes(nodes[i], TextIs(key));
    FirstFromSpec(nodes, 0, TextIs(key));
    var i0 := FirstFrom(nodes, 0, TextIs(key)).value;
    assert Passes(nodes[j], TextIs("CFBundleIconFiles"));
    FirstFromSpec(nodes, i0 + 1, TextIs("CFBundleIconFiles"));
    var j0 := FirstFrom(nodes, i0 + 1, TextIs("CFBundleIconFiles")).value;
    assert Passes(nodes[k], TagIs("array"));
    FirstFromSpec(nodes, j0 + 1, TagIs("array"));
  }

  /** Lines 172-192: the scan finds a node exactly when a chain exists. */
  lemma ArrayNodeIndexFound(nodes: seq<Element>, key: string)
    ensures ArrayNodeIndex(nodes, key).Some? <==> exists i, j, k :: Chain(nodes, key, i, j, k)
  {
    if ArrayNodeIndex(nodes, key).Some? {
      ArrayNodeIndexSound(nodes, key);
    }
    if exists i, j, k :: Chain(nodes, key, i, j, k) {
      var i, j, k :| Chain(nodes, key, i, j, k);
      ArrayNodeIndexComplete(nodes, key, i, j, k);
    }
  }

  /** Lines 172-192: the `iter('*')` walk with its `foundKey` state, over
      the nodes in document order; the result is the index of the node the
      walk keeps. */
  method ScanForArray(nodes: seq<Element>, key: string) returns (found: Option<nat>)
    ensures found == ArrayNodeIndex(nodes, key)
  {
    found := None;
    var foundKey := 0;
    ghost var i, j := 0, 0;
    var n := 0;
    while n < |nodes|
      invariant 0 <= n <= |nodes| && 0 <= foundKey <= 3
      invariant foundKey == 0 ==> FirstFrom(nodes, 0, TextIs(key)) == FirstFrom(nodes, n, TextIs(key))
      invariant foundKey >= 1 ==> FirstFrom(nodes, 0, TextIs(key)) == Some(i)
      invariant foundKey == 1 ==>
                  FirstFrom(nodes, i + 1, TextIs("CFBundleIconFiles")) == FirstFrom(nodes, n, TextIs("CFBundleIconFiles"))
      invariant foundKey >= 2 ==> FirstFrom(nodes, i + 1, TextIs("CFBundleIconFiles")) == Some(j)
      invariant foundKey == 2 ==> FirstFrom(nodes, j + 1, TagIs("array")) == FirstFrom(nodes, n, TagIs("array"))
      invariant foundKey < 3 <==> found.None?
      invariant foundKey == 3 ==> found == FirstFrom(nodes, j + 1, TagIs("array"))
    {
      var e := nodes[n];
      if foundKey == 0 {
        if e.text == Some(key) {
          foundKey := 1;
          i := n;
        }
      } else if foundKey == 1 {
        if e.text == Some("CFBundleIconFiles") {
          foundKey := 2;
          j := n;
        }
      } else if foundKey == 2 {
        if e.tag == "array" {
          found := Some(n);
          foundKey := 3;
        }
      }
      n := n + 1;
    }
  }

  /** `findArrayNode(key)`: the path of the node the walk keeps. */
  method FindArrayNode(tree: Element, key: string) returns (found: Option<Path>)
    ensures found.None? <==> ArrayNodeIndex(DocNodes(tree), key).None?
    ensures found.Some? ==>
              var k := ArrayNodeIndex(DocNodes(tree), key).value;
              k < |PreOrder(tree)| && found.value == PreOrder(tree)[k]
  {
    var k := ScanForArray(DocNodes(tree), key);
    if k.None? {
      return None;
    }
    found := Some(PreOrder(tree)[k.value]);
  }

  /** The children `setValues` gives the array: one `string` per name. */
  function StringChildren(vals: seq<string>): (r: seq<Element>)
    ensures |r| == |vals|
    ensures forall i :: 0 <= i < |vals| ==> r[i] == WithText("string", Some(vals[i]))
  {
    if |vals| == 0 then []
    else StringChildren(vals[..|vals| - 1]) + [WithText("string", Some(vals[|vals| - 1]))]
  }

  /** Lines 193-199: the tree after `setValues(key, vals)`. */
  function SetValuesResult(tree: Element, key: string, vals: seq<string>): Result<Element> {
    match ArrayNodeIndex(DocNodes(tree), key)
    case None => Err(ArrayNodeNotFound(key))
    case Some(k) => Ok(Update(tree, PreOrder(tree)[k], Element("array", map[], None, StringChildren(vals))))
  }

  /** `setValues` fails exactly when `findArrayNode` returns null; otherwise
      the found array holds one `string` child per name, in order, its
      previous children, attributes and text gone, and every node outside
      that array and off the path to it is unchanged. */
  lemma SetValuesEffect(tree: Element, key: string, vals: seq<string>)
    ensures SetValuesResult(tree, key, vals).Err? <==> ArrayNodeIndex(DocNodes(tree), key).None?
    ensures SetValuesResult(tree, key, vals).Ok? ==>
              var p := PreOrder(tree)[ArrayNodeIndex(DocNodes(tree), key).value];
              var t := SetValuesResult(tree, key, vals).value;
              && ValidPath(t, p)
              && At(t, p).tag == "array" && At(t, p).text == None && At(t, p).attrib == map[]
              && |At(t, p).children| == |vals|
              && (forall i :: 0 <= i < |vals| ==>
                    At(t, p).children[i] == WithText("string", Some(vals[i])))
              && (forall q :: ValidPath(tree, q) && !IsPrefix(p, q) && !IsPrefix(q, p) ==>
                    ValidPath(t, q) && At(t, q) == At(tree, q))
              && (forall q :: IsPrefix(q, p) && |q| < |p| ==>
                    ValidPath(tree, q) && ValidPath(t, q) && SameExceptChild(At(t, q), At(tree, q), p[|q|]))
  {
    var nodes := DocNodes(tree);
    match ArrayNodeIndex(nodes, key)
    case None =>
    case Some(k) =>
      var p := PreOrder(tree)[k];
      var arr := Element("array", map[], None, StringChildren(vals));
      AtUpdateSame(tree, p, arr);
      forall q | ValidPath(tree, q) && !IsPrefix(p, q) && !IsPrefix(q, p)
        ensures ValidPath(Update(tree, p, arr), q) && At(Update(tree, p, arr), q) == At(tree, q)
      {
        AtUpdateOther(tree, p, q, arr);
      }
      forall q | IsPrefix(q, p) && |q| < |p|
        ensures ValidPath(tree, q) && ValidPath(Update(tree, p, arr), q)
        ensures SameExceptChild(At(Update(tree, p, arr), q), At(tree, q), p[|q|])
      {
        AtUpdateAncestor(tree, p, q, arr);
      }
  }

  /** Lines 193-199: `node.clear()` then one `SubElement` per name. */
  method SetValues(tree: Element, key: string, vals: seq<string>) returns (r: Result<Element>)
    ensures r == SetValuesResult(tree, key, vals)
  {
    var node := FindArrayNode(tree, key);
    if node.None? {
      return Err(ArrayNodeNotFound(key));
    }
    var p := node.value;
    PreOrderValid(tree);
    var arr := At(tree, p);
    ghost var k := ArrayNodeIndex(DocNodes(tree), key).value;
    assert arr.tag == "array" by {
      assert arr == DocNodes(tree)[k];
    }
    arr := arr.(attrib := map[], text := None, children := []);
    var n := 0;
    while n < |vals|
      invariant 0 <= n <= |vals|
      invariant arr == Element("array", map[], None, StringChildren(vals[..n]))
    {
      assert vals[..n + 1][..n] == vals[..n];
      arr := arr.(children := arr.children + [WithText("string", Some(vals[n]))]);
      n := n + 1;
    }
    assert vals[..|vals|] == vals;
    r := Ok(Update(tree, p, arr));
  }

  /** Lines 200-201: the iPhone slots, then the iPad slots; the first
      failure stops the step. */
  function IconFilesResult(tree: Element, iPhoneFiles: seq<string>, iPadFiles: seq<string>): Result<Element> {
    match SetValuesResult(tree, "CFBundleIcons", iPhoneFiles)
    case Err(e) => Err(e)
    case Ok(t) => SetValuesResult(t, "CFBundleIcons~ipad", iPadFiles)
  }

  method SetIconFiles(tree: Element, iPhoneFiles: seq<string>, iPadFiles: seq<string>) returns (r: Result<Element>)
    ensures r == IconFilesResult(tree, iPhoneFiles, iPadFiles)
  {
    r := SetValues(tree, "CFBundleIcons", iPhoneFiles);
    if r.Ok? {
      r := SetValues(r.value, "CFBundleIcons~ipad", iPadFiles);
    }
  }

  /** The document-order index of the node right after the first node whose
      text is `key`, if there is one. */
  function NodeAfterIndex(nodes: seq<Element>, key: string): Option<nat> {
    match FirstFrom(nodes, 0, TextIs(key))
    case None => None
    case Some(i) => if i + 1 < |nodes| then Some(i + 1) else None
  }

  /** The node found follows the first node whose text is `key`; the search
      fails exactly when no node before the last one has that text (either
      none has, or the first that has is the last node). */
  lemma NodeAfterIndexSpec(nodes: seq<Element>, key: string)
    ensures var r := NodeAfterIndex(nodes, key);
            && (r.Some? ==> 1 <= r.value < |nodes| && nodes[r.value - 1].text == Some(key))
            && (r.Some? ==> forall j :: 0 <= j < r.value - 1 ==> nodes[j].text != Some(key))
            && (r.None? <==> forall j :: 0 <= j < |nodes| - 1 ==> nodes[j].text != Some(key))
  {
    FirstFromSpec(nodes, 0, TextIs(key));
  }

  /** Lines 234-249: the `iter('*')` walk with its `isFound` state. */
  method FindNodeAfter(tree: Element, key: string) returns (found: Option<Path>)
    ensures found.None? <==> NodeAfterIndex(DocNodes(tree), key).None?
    ensures found.Some? ==>
              var k := NodeAfterIndex(DocNodes(tree), key).value;
              k < |PreOrder(tree)| && found.value == PreOrder(tree)[k]
  {
    var paths := PreOrder(tree);
    var nodes := DocNodes(tree);
    found := None;
    var isFound := 0;
    ghost var i := 0;
    var n := 0;
    while n < |nodes|
      invariant 0 <= n <= |nodes| && 0 <= isFound <= 2
      invariant isFound == 0 ==> FirstFrom(nodes, 0, TextIs(key)) == FirstFrom(nodes, n, TextIs(key))
      invariant isFound >= 1 ==> i < n && FirstFrom(nodes, 0, TextIs(key)) == Some(i)
      invariant isFound == 1 ==> n == i + 1
      invariant isFound < 2 <==> found.None?
      invariant isFound == 2 ==> i + 1 < n && found == Some(paths[i + 1])
    {
      var e := nodes[n];
      if isFound == 0 {
        if e.text == Some(key) {
          isFound := 1;
          i := n;
        }
      } else if isFound == 1 {
        found := Some(paths[n]);
        isFound := 2;
      }
      n := n + 1;
    }
  }

  /** Whether a document is written back, and with what tree. */
  datatype DocUpdate = Unchanged | Rewritten(doc: Element)

  /** `manifest.CFBundleVersion || manifest.version`. */
  function BundleVersionValue(version: Option<string>, cfBundleVersion: Option<string>): (r: Option<string>)
    ensures Truthy(cfBundleVersion) ==> r == cfBundleVersion
    ensures !Truthy(cfBundleVersion) ==> r == version
    ensures Truthy(r) <==> Truthy(version) || Truthy(cfBundleVersion)
  {
    if Truthy(cfBundleVersion) then cfBundleVersion else version
  }

  /** Lines 229-253: on iOS, when either version is set, the node right
      after the first `CFBundleVersion` text gets the bundle version (the
      explicit one, else the app version) as its text, and the rest of the
      plist is untouched; with no such node `theNode.text` throws. */
  method SetBundleVersion(tree: Element, version: Option<string>, cfBundleVersion: Option<string>)
    returns (r: Result<DocUpdate>)
    ensures !Truthy(version) && !Truthy(cfBundleVersion) ==> r == Ok(Unchanged)
    ensures Truthy(version) || Truthy(cfBundleVersion) ==>
              (r.Err? <==> NodeAfterIndex(DocNodes(tree), "CFBundleVersion").None?)
    ensures (Truthy(version) || Truthy(cfBundleVersion)) && r.Ok? ==> r.value.Rewritten?
    ensures r.Ok? && r.value.Rewritten? ==>
              var p := PreOrder(tree)[NodeAfterIndex(DocNodes(tree), "CFBundleVersion").value];
              var t := r.value.doc;
              && ValidPath(tree, p) && ValidPath(t, p)
              && t == Update(tree, p, At(tree, p).(text := BundleVersionValue(version, cfBundleVersion)))
              && At(t, p) == At(tree, p).(text := BundleVersionValue(version, cfBundleVersion))
              && Truthy(At(t, p).text)
              && (forall q :: ValidPath(tree, q) && !IsPrefix(p, q) && !IsPrefix(q, p) ==>
                    ValidPath(t, q) && At(t, q) == At(tree, q))
              && (forall q :: IsPrefix(q, p) && |q| < |p| ==>
                    ValidPath(tree, q) && ValidPath(t, q) && SameExceptChild(At(t, q), At(tree, q), p[|q|]))
  {
    if !(Truthy(version) || Truthy(cfBundleVersion)) {
      return Ok(Unchanged);
    }
    var theNode := FindNodeAfter(tree, "CFBundleVersion");
    if theNode.None? {
      return Err(VersionNodeNotFound);
    }
    var p := theNode.value;
    PreOrderValid(tree);
    var node := At(tree, p);
    node := node.(text := if Truthy(cfBundleVersion) then cfBundleVersion else version);
    AtUpdateSame(tree, p, node);
    forall q | ValidPath(tree, q) && !IsPrefix(p, q) && !IsPrefix(q, p)
      ensures ValidPath(Update(tree, p, node), q) && At(Update(tree, p, node), q) == At(tree, q)
    {
      AtUpdateOther(tree, p, q, node);
    }
    forall q | IsPrefix(q, p) && |q| < |p|
      ensures ValidPath(tree, q) && ValidPath(Update(tree, p, node), q)
      ensures SameExceptChild(At(Update(tree, p, node), q), At(tree, q), p[|q|])
    {
      AtUpdateAncestor(tree, p, q, node);
    }
    r := Ok(Rewritten(Update(tree, p, node)));
  }

  /** Lines 220-225: on Android, a truthy `versionCode` is written, as
      `String(versionCode)`, to the root's `android:versionCode`; nothing
      else changes, and nothing is written when it is absent or 0. */
  function SetVersionCode(root: Element, versionCode: Option<int>): (r: DocUpdate)
    ensures r.Unchanged? <==> versionCode.None? || versionCode.value == 0
    ensures r.Rewritten? ==>
              && r.doc.(attrib := root.attrib) == root
              && r.doc.attrib.Keys == root.attrib.Keys + {"android:versionCode"}
              && (forall k :: k in root.attrib && k != "android:versionCode" ==> r.doc.attrib[k] == root.attrib[k])
              && r.doc.attrib["android:versionCode"] == Some(IntToDecimal(versionCode.value))
              && ParseInt(r.doc.attrib["android:versionCode"].value) == versionCode
  {
    match versionCode
    case None => Unchanged
    case Some(n) =>
      if n == 0 then Unchanged
      else
        IntToDecimalRoundTrip(n);
        Rewritten(root.(attrib := root.attrib["android:versionCode" := Some(IntToDecimal(n))]))
  }
}
