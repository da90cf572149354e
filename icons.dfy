/** The icon placement of the post-prepare hook (src/post-prepare.js):
    every destination of the platform's icon table is either copied from the
    manifest icon of its size or collected as missing; missing destinations
    shrink the iOS icon slot lists and are removed (Android) or filled with
    the largest icon (iOS); Android's default icon is the largest one. The
    file operations are emitted as actions. */
module IconPlanner {
  import opened Base
  import opened ElementTree
  import opened PlistPatch

  datatype Platform = Android | Ios

  function PlatformDir(p: Platform): string {
    match p
    case Android => "android"
    case Ios => "ios"
  }

  /** A manifest's `icons` object: its (size in pixels, file under `www`)
      entries in enumeration order. */
  type Icons = seq<(int, string)>

  /** `icons[size]`: the file of the first entry with that size. */
  function Lookup(icons: Icons, size: int): (r: Option<string>)
    ensures r.Some? <==> size in Sizes(icons)
  {
    if |icons| == 0 then None
    else if icons[0].0 == size then Some(icons[0].1)
    else Lookup(icons[1..], size)
  }

  /** `icons[size]` is the file of the first entry with that size. */
  lemma {:induction false} LookupFirst(icons: Icons, size: int, k: nat)
    requires k < |icons| && icons[k].0 == size
    requires forall j :: 0 <= j < k ==> icons[j].0 != size
    ensures Lookup(icons, size) == Some(icons[k].1)
    decreases k
  {
    if k > 0 {
      LookupFirst(icons[1..], size, k - 1);
    }
  }

  /** The sizes of the entries, in enumeration order. */
  function Sizes(icons: Icons): (r: seq<int>)
    ensures |r| == |icons| && forall i :: 0 <= i < |icons| ==> r[i] == icons[i].0
  {
    seq(|icons|, i requires 0 <= i < |icons| => icons[i].0)
  }

  /** An icon table, size to destinations relative to the platform
      directory, in the order `for (size in iconMap)` visits it. */
  type IconTable = seq<(int, seq<string>)>

  /** `copyIcon(size, dst)` (copy `www/<icons[size]>` to `dst`) or
      `shelljs.rm('-f', dst)`. */
  datatype IconAction = CopyIcon(size: int, dst: string) | RemoveFile(dst: string)

  /** Lines 93-100. Every key is an array index, so `for (size in iconMap)`
      visits the sizes in ascending order. */
  function AndroidIconTable(): (t: IconTable)
    ensures |t| == 6
    ensures forall i, j :: 0 <= i < j < |t| ==> 0 < t[i].0 < t[j].0
    ensures forall i :: 0 <= i < |t| ==> |t[i].1| == 1
  {
    [(36, ["res/drawable-ldpi/icon.png"]),
     (48, ["res/drawable-mdpi/icon.png"]),
     (72, ["res/drawable-hdpi/icon.png"]),
     (96, ["res/drawable-xhdpi/icon.png"]),
     (144, ["res/drawable-xxhdpi/icon.png"]),
     (192, ["res/drawable-xxxhdpi/icon.png"])]
  }

  function IosIcon(originalName: string, file: string): string {
    originalName + "/Resources/icons/" + file
  }

  /** Lines 104-119, in enumeration order. The key "-1" is written first
      in the source, but it is not an array index, so `for (size in iconMap)`
      visits it after the array-index keys, which come in ascending order. */
  function IosIconTable(originalName: string): (t: IconTable)
    ensures |t| == 14 && t[13] == (-1, [IosIcon(originalName, "icon-60.png")])
    ensures forall i, j :: 0 <= i < j < 13 ==> 0 < t[i].0 < t[j].0
    ensures forall i :: 0 <= i < |t| ==> |t[i].1| == 1
  {
    [(29, [IosIcon(originalName, "icon-small.png")]),
     (40, [IosIcon(originalName, "icon-40.png")]),
     (50, [IosIcon(originalName, "icon-50.png")]),
     (57, [IosIcon(originalName, "icon.png")]),
     (58, [IosIcon(originalName, "icon-small@2x.png")]),
     (72, [IosIcon(originalName, "icon-72.png")]),
     (76, [IosIcon(originalName, "icon-76.png")]),
     (80, [IosIcon(originalName, "icon-40@2x.png")]),
     (100, [IosIcon(originalName, "icon-50@2x.png")]),
     (114, [IosIcon(originalName, "icon@2x.png")]),
     (120, [IosIcon(originalName, "icon-60@2x.png")]),
     (144, [IosIcon(originalName, "icon-72@2x.png")]),
     (152, [IosIcon(originalName, "icon-76@2x.png")]),
     (-1, [IosIcon(originalName, "icon-60.png")])]
  }

  function IconTableFor(p: Platform, originalName: string): IconTable {
    match p
    case Android => AndroidIconTable()
    case Ios => IosIconTable(originalName)
  }

  /** Line 137: `path.join('platforms', platform, rel)`. */
  function DstPath(p: Platform, rel: string): string {
    "platforms/" + PlatformDir(p) + "/" + rel
  }

  /** The keys of `iPhoneFiles` (lines 70-77) in insertion order, the order
      in which `for (imgName in vals)` (lines 196-198) writes them. */
  function IPhoneSlots(): (r: seq<string>)
    ensures |r| == 6
    ensures forall i, j :: 0 <= i < j < |r| ==> r[i] != r[j]
  {
    ["icon-40", "icon-small", "icon.png", "icon@2x", "icon-72", "icon-72@2x"]
  }

  /** The keys of `iPadFiles` (lines 78-87) in insertion order. */
  function IPadSlots(): (r: seq<string>)
    ensures |r| == 8
    ensures forall i, j :: 0 <= i < j < |r| ==> r[i] != r[j]
  {
    ["icon-small", "icon-40", "icon-50", "icon-76", "icon", "icon@2x", "icon-72", "icon-72@2x"]
  }

  /** Line 168: the default Android icon, `path.join('platforms', platform,
      'res', 'drawable', 'icon.png')`. */
  function AndroidDefaultIcon(): (r: string)
    ensures r == DstPath(Android, "res/drawable/icon.png")
  {
    "platforms/android/res/drawable/icon.png"
  }

  /** Line 138: `manifest.icons[size]` is truthy. */
  predicate HasIcon(icons: Icons, size: int) {
    Truthy(Lookup(icons, size))
  }

  /** The destinations of one table entry. */
  function Row(p: Platform, entry: (int, seq<string>)): (r: seq<(int, string)>)
    ensures |r| == |entry.1|
    ensures forall i :: 0 <= i < |r| ==> r[i] == (entry.0, DstPath(p, entry.1[i]))
  {
    seq(|entry.1|, i requires 0 <= i < |entry.1| => (entry.0, DstPath(p, entry.1[i])))
  }

  /** Every (size, destination) pair of the table, in visiting order. */
  function Flatten(p: Platform, table: IconTable): seq<(int, string)>
    decreases |table|
  {
    if |table| == 0 then []
    else Flatten(p, table[..|table| - 1]) + Row(p, table[|table| - 1])
  }

  /** The pairs whose icon is present (`present`) or missing (`!present`),
      in visiting order. */
  function Pairs(flat: seq<(int, string)>, icons: Icons, present: bool): seq<(int, string)> {
    if |flat| == 0 then []
    else if HasIcon(icons, flat[0].0) == present then [flat[0]] + Pairs(flat[1..], icons, present)
    else Pairs(flat[1..], icons, present)
  }

  /** Lines 135-145: a destination is copied exactly when its icon is
      present and collected exactly when it is not, in table order. */
  lemma {:induction false} PairsMembers(flat: seq<(int, string)>, icons: Icons, present: bool)
    ensures forall x :: x in Pairs(flat, icons, present) <==> x in flat && HasIcon(icons, x.0) == present
    ensures IsSubsequence(Pairs(flat, icons, present), flat)
  {
    if |flat| > 0 {
      PairsMembers(flat[1..], icons, present);
      assert forall x :: x in flat <==> x == flat[0] || x in flat[1..];
    }
  }

  lemma {:induction false} PairsAppend(flat: seq<(int, string)>, x: (int, string), icons: Icons, present: bool)
    ensures Pairs(flat + [x], icons, present) ==
              Pairs(flat, icons, present) + (if HasIcon(icons, x.0) == present then [x] else [])
    decreases |flat|
  {
    if |flat| == 0 {
      assert [x][1..] == [];
    } else {
      assert (flat + [x])[1..] == flat[1..] + [x];
      PairsAppend(flat[1..], x, icons, present);
    }
  }

  /** Lines 135-145: every destination goes to exactly one side. */
  lemma {:induction false} PairsSplit(flat: seq<(int, string)>, icons: Icons)
    ensures |Pairs(flat, icons, true)| + |Pairs(flat, icons, false)| == |flat|
  {
    if |flat| > 0 {
      PairsSplit(flat[1..], icons);
    }
  }

  function CopyActions(ps: seq<(int, string)>): (r: seq<IconAction>)
    ensures |r| == |ps|
    ensures forall k :: 0 <= k < |ps| ==> r[k] == CopyIcon(ps[k].0, ps[k].1)
  {
    seq(|ps|, k requires 0 <= k < |ps| => CopyIcon(ps[k].0, ps[k].1))
  }

  function Dsts(ps: seq<(int, string)>): (r: seq<string>)
    ensures |r| == |ps|
    ensures forall k :: 0 <= k < |ps| ==> r[k] == ps[k].1
  {
    seq(|ps|, k requires 0 <= k < |ps| => ps[k].1)
  }

  lemma CopiesStep(flat: seq<(int, string)>, x: (int, string), icons: Icons)
    ensures CopyActions(Pairs(flat + [x], icons, true)) ==
              CopyActions(Pairs(flat, icons, true)) + (if HasIcon(icons, x.0) then [CopyIcon(x.0, x.1)] else [])
  {
    PairsAppend(flat, x, icons, true);
  }

  lemma MissingStep(flat: seq<(int, string)>, x: (int, string), icons: Icons)
    ensures Dsts(Pairs(flat + [x], icons, false)) ==
              Dsts(Pairs(flat, icons, false)) + (if HasIcon(icons, x.0) then [] else [x.1])
  {
    PairsAppend(flat, x, icons, false);
  }

  /** Lines 136-144: the inner loop over one table entry's destinations,
      extending what the earlier entries `flat` gave. */
  method SplitRow(p: Platform, entry: (int, seq<string>), icons: Icons, ghost flat: seq<(int, string)>,
                  copies0: seq<IconAction>, missing0: seq<string>)
    returns (copies: seq<IconAction>, missing: seq<string>)
    requires copies0 == CopyActions(Pairs(flat, icons, true))
    requires missing0 == Dsts(Pairs(flat, icons, false))
    ensures copies == CopyActions(Pairs(flat + Row(p, entry), icons, true))
    ensures missing == Dsts(Pairs(flat + Row(p, entry), icons, false))
  {
    copies, missing := copies0, missing0;
    var size, rels := entry.0, entry.1;
    ghost var done := flat;
    var i := 0;
    while i < |rels|
      invariant 0 <= i <= |rels|
      invariant done == flat + Row(p, entry)[..i]
      invariant copies == CopyActions(Pairs(done, icons, true))
      invariant missing == Dsts(Pairs(done, icons, false))
    {
      var dstPath := DstPath(p, rels[i]);
      CopiesStep(done, (size, dstPath), icons);
      MissingStep(done, (size, dstPath), icons);
      if HasIcon(icons, size) {
        copies := copies + [CopyIcon(size, dstPath)];
      } else {
        missing := missing + [dstPath];
      }
      assert Row(p, entry)[..i + 1] == Row(p, entry)[..i] + [(size, dstPath)];
      done := done + [(size, dstPath)];
      i := i + 1;
    }
    assert Row(p, entry)[..|rels|] == Row(p, entry);
  }

  /** Lines 133-145: the nested loop over the table; the copies are the
      actions it performs, the missing destinations what it collects. */
  method SplitDestinations(p: Platform, table: IconTable, icons: Icons)
    returns (copies: seq<IconAction>, missing: seq<string>)
    ensures copies == CopyActions(Pairs(Flatten(p, table), icons, true))
    ensures missing == Dsts(Pairs(Flatten(p, table), icons, false))
  {
    copies, missing := [], [];
    var r := 0;
    while r < |table|
      invariant 0 <= r <= |table|
      invariant copies == CopyActions(Pairs(Flatten(p, table[..r]), icons, true))
      invariant missing == Dsts(Pairs(Flatten(p, table[..r]), icons, false))
    {
      copies, missing := SplitRow(p, table[r], icons, Flatten(p, table[..r]), copies, missing);
      assert table[..r + 1][..r] == table[..r];
      r := r + 1;
    }
    assert table[..|table|] == table;
  }

  /** Lines 147-150: `bestSize` starts at 0 and takes every larger key, so
      it ends as the largest key when some key is positive, and 0 otherwise. */
  predicate IsBestSize(icons: Icons, best: int) {
    || (best == 0 && forall k :: k in Sizes(icons) ==> k <= 0)
    || (best > 0 && best in Sizes(icons) && forall k :: k in Sizes(icons) ==> k <= best)
  }

  /** Whatever the enumeration order, the result is the same. */
  lemma BestSizeUnique(icons: Icons, a: int, b: int)
    requires IsBestSize(icons, a) && IsBestSize(icons, b)
    ensures a == b
  {
  }

  /** Lines 147-150. */
  method LargestSize(icons: Icons) returns (best: int)
    ensures IsBestSize(icons, best)
  {
    best := 0;
    for i := 0 to |icons|
      invariant best == 0 || (best > 0 && best in Sizes(icons))
      invariant forall k :: 0 <= k < i ==> icons[k].0 <= best
    {
      var size := icons[i].0;
      if size > best {
        best := size;
      }
    }
  }

  /** `path.basename(dst)`: the text after the last `/`. */
  function Basename(s: string): (r: string)
    ensures '/' !in r && EndsWith(s, r)
    ensures |r| <= |s| && (|r| == |s| || s[|s| - |r| - 1] == '/')
    decreases |s|
  {
    if |s| == 0 || s[|s| - 1] == '/' then ""
    else
      var init := s[..|s| - 1];
      var b := Basename(init);
      var r := b + [s[|s| - 1]];
      assert '/' !in r;
      assert s[|s| - |r|..] == s[|s| - 1 - |b|..|s| - 1] + [s[|s| - 1]];
      assert |b| < |init| ==> init[|init| - |b| - 1] == s[|s| - |r| - 1];
      r
  }

  /** The regular expression `\..*?$` can start matching at `i`: a dot
      followed by no line terminator up to the end. */
  predicate CutsAt(s: string, i: nat) {
    i < |s| && s[i] == '.' && forall k :: i < k < |s| ==> !IsLineTerminator(s[k])
  }

  function FirstCut(s: string, from: nat): (r: Option<nat>)
    ensures r.Some? ==> from <= r.value && CutsAt(s, r.value)
    ensures r.Some? ==> forall j :: from <= j < r.value ==> !CutsAt(s, j)
    ensures r.None? ==> forall j :: from <= j < |s| ==> !CutsAt(s, j)
    decreases |s| - from
  {
    if from >= |s| then None
    else if CutsAt(s, from) then Some(from)
    else FirstCut(s, from + 1)
  }

  /** Line 152: `.replace(/\..*?$/, '')` removes the leftmost match. */
  function Stem(s: string): (r: string)
    ensures |r| <= |s| && r == s[..|r|]
    ensures |r| < |s| ==> CutsAt(s, |r|)
    ensures forall k :: 0 <= k < |r| ==> !CutsAt(s, k)
  {
    match FirstCut(s, 0)
    case None => s
    case Some(i) => s[..i]
  }

  /** A dot left in a stem is always followed by a line terminator. */
  lemma StemDots(s: string)
    ensures forall k :: 0 <= k < |Stem(s)| && Stem(s)[k] == '.' ==>
              exists j :: k < j < |Stem(s)| && IsLineTerminator(Stem(s)[j])
  {
    forall k | 0 <= k < |Stem(s)| && Stem(s)[k] == '.'
      ensures exists j :: k < j < |Stem(s)| && IsLineTerminator(Stem(s)[j])
    {
      assert s[k] == '.' && !CutsAt(s, k);
      var j :| k < j < |s| && IsLineTerminator(s[j]);
      assert Stem(s)[j] == s[j];
    }
  }

  /** So the slot `icon.png` can never be the name a destination removes. */
  lemma StemIsNotIconPng(s: string)
    ensures Stem(s) != "icon.png"
  {
    StemDots(s);
    var t := "icon.png";
    assert t[4] == '.';
    assert forall j :: 4 < j < |t| ==> !IsLineTerminator(t[j]);
  }

  /** `delete files[name]` on an insertion-ordered object. */
  function Delete(slots: seq<string>, name: string): (r: seq<string>)
    ensures forall x :: x in r <==> x in slots && x != name
    ensures IsSubsequence(r, slots)
  {
    if |slots| == 0 then []
    else if slots[0] == name then Delete(slots[1..], name)
    else [slots[0]] + Delete(slots[1..], name)
  }

  /** The slot name a missing destination removes. */
  function SlotName(dst: string): string {
    Stem(Basename(dst))
  }

  /** Lines 151-157: the slots left after the missing destinations, each
      removing its slot name unless that is `icon`. */
  function Pruned(slots: seq<string>, missing: seq<string>): seq<string>
    decreases |missing|
  {
    if |missing| == 0 then slots
    else
      var prev := Pruned(slots, missing[..|missing| - 1]);
      var name := SlotName(missing[|missing| - 1]);
      if name != "icon" then Delete(prev, name) else prev
  }

  /** A slot survives exactly when it is `icon` or no missing destination
      names it. */
  lemma {:induction false} PrunedMembers(slots: seq<string>, missing: seq<string>)
    ensures forall x :: x in Pruned(slots, missing) <==>
              x in slots && (x == "icon" || forall d :: d in missing ==> SlotName(d) != x)
    decreases |missing|
  {
    if |missing| > 0 {
      var front := missing[..|missing| - 1];
      PrunedMembers(slots, front);
      assert forall d :: d in missing <==> d in front || d == missing[|missing| - 1];
    }
  }

  /** The slot lists only shrink, keeping their order. */
  lemma {:induction false} PrunedShrinks(slots: seq<string>, missing: seq<string>)
    ensures IsSubsequence(Pruned(slots, missing), slots)
    decreases |missing|
  {
    if |missing| == 0 {
      SubsequenceRefl(slots);
    } else {
      var prev := Pruned(slots, missing[..|missing| - 1]);
      PrunedShrinks(slots, missing[..|missing| - 1]);
      var name := SlotName(missing[|missing| - 1]);
      if name != "icon" {
        SubsequenceTrans(Delete(prev, name), prev, slots);
      }
    }
  }

  /** Line 153-154: `icon` is never removed, and neither is `icon.png`. */
  lemma PrunedKeepsIcons(slots: seq<string>, missing: seq<string>)
    ensures "icon" in slots ==> "icon" in Pruned(slots, missing)
    ensures "icon.png" in slots ==> "icon.png" in Pruned(slots, missing)
  {
    PrunedMembers(slots, missing);
    forall d | d in missing ensures SlotName(d) != "icon.png" {
      StemIsNotIconPng(Basename(d));
    }
  }

  /** Lines 159-164: the action for each missing destination. */
  function MissingActions(p: Platform, missing: seq<string>, best: int): (r: seq<IconAction>)
    ensures |r| == |missing|
    ensures forall k :: 0 <= k < |missing| ==>
              r[k] == (if p == Android then RemoveFile(missing[k]) else CopyIcon(best, missing[k]))
  {
    seq(|missing|, k requires 0 <= k < |missing| =>
      if p == Android then RemoveFile(missing[k]) else CopyIcon(best, missing[k]))
  }

  lemma PrunedStep(slots: seq<string>, missing: seq<string>, i: nat)
    requires i < |missing|
    ensures Pruned(slots, missing[..i + 1]) ==
              if SlotName(missing[i]) != "icon" then Delete(Pruned(slots, missing[..i]), SlotName(missing[i]))
              else Pruned(slots, missing[..i])
  {
    assert missing[..i + 1][..i] == missing[..i];
  }

  lemma MissingActionsStep(p: Platform, missing: seq<string>, i: nat, best: int)
    requires i < |missing|
    ensures MissingActions(p, missing[..i + 1], best) ==
              MissingActions(p, missing[..i], best) +
              [if p == Android then RemoveFile(missing[i]) else CopyIcon(best, missing[i])]
  {
  }

  /** Lines 151-165: the `forEach` over the missing destinations. */
  method HandleMissing(p: Platform, missing: seq<string>, iPhoneFiles: seq<string>, iPadFiles: seq<string>, best: int)
    returns (iPhoneLeft: seq<string>, iPadLeft: seq<string>, actions: seq<IconAction>)
    ensures iPhoneLeft == Pruned(iPhoneFiles, missing)
    ensures iPadLeft == Pruned(iPadFiles, missing)
    ensures actions == MissingActions(p, missing, best)
  {
    iPhoneLeft, iPadLeft, actions := iPhoneFiles, iPadFiles, [];
    for i := 0 to |missing|
      invariant iPhoneLeft == Pruned(iPhoneFiles, missing[..i])
      invariant iPadLeft == Pruned(iPadFiles, missing[..i])
      invariant actions == MissingActions(p, missing[..i], best)
    {
      PrunedStep(iPhoneFiles, missing, i);
      PrunedStep(iPadFiles, missing, i);
      MissingActionsStep(p, missing, i, best);
      var dstPath := missing[i];
      var imgName := Stem(Basename(dstPath));
      if imgName != "icon" {
        iPadLeft := Delete(iPadLeft, imgName);
        iPhoneLeft := Delete(iPhoneLeft, imgName);
      }
      if p == Android {
        actions := actions + [RemoveFile(dstPath)];
      } else {
        actions := actions + [CopyIcon(best, dstPath)];
      }
    }
    assert missing[..|missing|] == missing;
  }

  /** The missing destinations of the platform's table. */
  function MissingDsts(p: Platform, originalName: string, icons: Icons): seq<string> {
    Dsts(Pairs(Flatten(p, IconTableFor(p, originalName)), icons, false))
  }

  /** Lines 131-170: every file action for the destinations `flat`, in the
      order the hook performs them. */
  function Plan(p: Platform, flat: seq<(int, string)>, icons: Icons, best: int): seq<IconAction> {
    CopyActions(Pairs(flat, icons, true)) +
    MissingActions(p, Dsts(Pairs(flat, icons, false)), best) +
    (if p == Android then [CopyIcon(best, AndroidDefaultIcon())] else [])
  }

  /** The plan for the platform's own icon table. */
  function PlannedActions(p: Platform, originalName: string, icons: Icons, best: int): seq<IconAction> {
    Plan(p, Flatten(p, IconTableFor(p, originalName)), icons, best)
  }

  /** A destination whose icon is present is copied from its own size. */
  lemma PlanCopiesPresent(p: Platform, flat: seq<(int, string)>, icons: Icons, best: int)
    ensures forall x :: x in flat && HasIcon(icons, x.0) ==> CopyIcon(x.0, x.1) in Plan(p, flat, icons, best)
  {
    var have := Pairs(flat, icons, true);
    PairsMembers(flat, icons, true);
    forall x | x in flat && HasIcon(icons, x.0) ensures CopyIcon(x.0, x.1) in Plan(p, flat, icons, best) {
      var m :| 0 <= m < |have| && have[m] == x;
      assert CopyActions(have)[m] == CopyIcon(x.0, x.1);
    }
  }

  /** A destination whose icon is missing is removed on Android and filled
      from the largest size on iOS. */
  lemma PlanHandlesMissing(p: Platform, flat: seq<(int, string)>, icons: Icons, best: int)
    ensures forall x :: x in flat && !HasIcon(icons, x.0) ==>
              (if p == Android then RemoveFile(x.1) else CopyIcon(best, x.1)) in Plan(p, flat, icons, best)
  {
    var lack := Pairs(flat, icons, false);
    PairsMembers(flat, icons, false);
    var fills := MissingActions(p, Dsts(lack), best);
    forall x | x in flat && !HasIcon(icons, x.0)
      ensures (if p == Android then RemoveFile(x.1) else CopyIcon(best, x.1)) in Plan(p, flat, icons, best)
    {
      var m :| 0 <= m < |lack| && lack[m] == x;
      assert fills[m] == (if p == Android then RemoveFile(x.1) else CopyIcon(best, x.1));
    }
  }

  /** Every destination is written: copied from its own size when that icon
      is present; otherwise removed on Android and filled from the largest
      size on iOS. Android ends with the default icon copied from the
      largest size, and nothing else is done. */
  lemma PlanCovers(p: Platform, flat: seq<(int, string)>, icons: Icons, best: int)
    ensures |Plan(p, flat, icons, best)| == |flat| + (if p == Android then 1 else 0)
    ensures forall x :: x in flat && HasIcon(icons, x.0) ==> CopyIcon(x.0, x.1) in Plan(p, flat, icons, best)
    ensures forall x :: x in flat && !HasIcon(icons, x.0) ==>
              (if p == Android then RemoveFile(x.1) else CopyIcon(best, x.1)) in Plan(p, flat, icons, best)
    ensures p == Android ==>
              Plan(p, flat, icons, best)[|Plan(p, flat, icons, best)| - 1] == CopyIcon(best, AndroidDefaultIcon())
  {
    PairsSplit(flat, icons);
    PlanCopiesPresent(p, flat, icons, best);
    PlanHandlesMissing(p, flat, icons, best);
  }

  /** Lines 131-170: the file actions for the platform's icon table, the
      largest size, and the iOS slot lists left after the missing
      destinations. */
  method PlanIcons(p: Platform, originalName: string, icons: Icons)
    returns (actions: seq<IconAction>, bestSize: int, iPhoneFiles: seq<string>, iPadFiles: seq<string>)
    ensures IsBestSize(icons, bestSize)
    ensures actions == PlannedActions(p, originalName, icons, bestSize)
    ensures iPhoneFiles == Pruned(IPhoneSlots(), MissingDsts(p, originalName, icons))
    ensures iPadFiles == Pruned(IPadSlots(), MissingDsts(p, originalName, icons))
  {
    var table := IconTableFor(p, originalName);
    var copies, missingIcons := SplitDestinations(p, table, icons);
    bestSize := LargestSize(icons);
    var fills;
    iPhoneFiles, iPadFiles, fills := HandleMissing(p, missingIcons, IPhoneSlots(), IPadSlots(), bestSize);
    actions := copies + fills + (if p == Android then [CopyIcon(bestSize, AndroidDefaultIcon())] else []);
  }

  /** Lines 65-205: the icon step for one platform. `icons` is None when
      the manifest has no `icons`; the plist is the iOS `Info.plist`, which
      receives the slot lists left after the missing destinations. */
  method PlaceIcons(p: Platform, originalName: string, icons: Option<Icons>, plist: Element)
    returns (actions: seq<IconAction>, bestSize: int, plistUpdate: Result<DocUpdate>)
    ensures icons.None? ==> actions == [] && plistUpdate == Ok(Unchanged)
    ensures icons.Some? ==> IsBestSize(icons.value, bestSize)
    ensures icons.Some? ==> actions == PlannedActions(p, originalName, icons.value, bestSize)
    ensures icons.Some? && p == Android ==> plistUpdate == Ok(Unchanged)
    ensures icons.Some? && p == Ios ==>
              var missing := MissingDsts(p, originalName, icons.value);
              plistUpdate == match IconFilesResult(plist, Pruned(IPhoneSlots(), missing), Pruned(IPadSlots(), missing))
                             case Err(e) => Err(e)
                             case Ok(t) => Ok(Rewritten(t))
  {
    if icons.None? {
      return [], 0, Ok(Unchanged);
    }
    var iPhoneFiles, iPadFiles;
    actions, bestSize, iPhoneFiles, iPadFiles := PlanIcons(p, originalName, icons.value);
    if p == Android {
      plistUpdate := Ok(Unchanged);
    } else {
      var r := SetIconFiles(plist, iPhoneFiles, iPadFiles);
      plistUpdate := if r.Ok? then Ok(Rewritten(r.value)) else Err(r.error);
    }
  }
}
