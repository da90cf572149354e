/** The Crosswalk library-reference edits of `project.properties`
    (src/pre-prepare.js, `addXwalkLibraryCommand` and
    `removeXwalkLibraryCommand`): a recogniser for the reference lines the
    regular expression `^android.library.reference.(\d+)\s*=(.*)$` matches,
    the line list each command produces, and their algebra. */
module XwalkReference {
  import opened Base
  import opened Decimal

  const Prefix: string := "android.library.reference."
  const XwalkLibrary: string := "xwalk_core_library"
  const XwalkPath: string := "../../plugins/" + "org.apache.cordova." + "engine.crosswalk/" + "libs/" + XwalkLibrary

  /** The characters JavaScript's `\s` matches. */
  predicate IsJsSpace(c: char) {
    || c == ' ' || c == '\t' || c == '\n' || c == '\r' || c == '\U{000B}' || c == '\U{000C}'
    || c == '\U{00A0}' || c == '\U{1680}' || ('\U{2000}' <= c <= '\U{200A}')
    || c == '\U{2028}' || c == '\U{2029}' || c == '\U{202F}' || c == '\U{205F}'
    || c == '\U{3000}' || c == '\U{FEFF}'
  }

  /** The pattern's prefix matches the start of `line`; its unescaped dots
      match any character but a line terminator. */
  predicate PrefixMatches(line: string) {
    |Prefix| <= |line| &&
    forall i :: 0 <= i < |Prefix| ==>
      if Prefix[i] == '.' then !IsLineTerminator(line[i]) else line[i] == Prefix[i]
  }

  predicate NoTerminator(s: string) {
    forall i :: 0 <= i < |s| ==> !IsLineTerminator(s[i])
  }

  lemma NoTerminatorConcat(a: string, b: string)
    requires NoTerminator(a) && NoTerminator(b)
    ensures NoTerminator(a + b)
  {
    forall i | 0 <= i < |a + b| ensures !IsLineTerminator((a + b)[i]) {
      if i >= |a| {
        assert (a + b)[i] == b[i - |a|];
      }
    }
  }

  /** The target the add command writes contains no line terminator. */
  lemma XwalkPathNoTerminator()
    ensures NoTerminator(XwalkPath)
  {
    assert NoTerminator("../../plugins/") && NoTerminator("org.apache.cordova.");
    assert NoTerminator("engine.crosswalk/") && NoTerminator("libs/") && NoTerminator(XwalkLibrary);
    NoTerminatorConcat("../../plugins/", "org.apache.cordova.");
    NoTerminatorConcat("../../plugins/" + "org.apache.cordova.", "engine.crosswalk/");
    NoTerminatorConcat("../../plugins/" + "org.apache.cordova." + "engine.crosswalk/", "libs/");
    NoTerminatorConcat("../../plugins/" + "org.apache.cordova." + "engine.crosswalk/" + "libs/", XwalkLibrary);
  }

  /** Where the greedy `\d+` starting at `i` stops. */
  function DigitRun(s: string, i: nat): (r: nat)
    requires i <= |s|
    ensures i <= r <= |s|
    ensures forall k :: i <= k < r ==> IsDigit(s[k])
    ensures r == |s| || !IsDigit(s[r])
    decreases |s| - i
  {
    if i < |s| && IsDigit(s[i]) then DigitRun(s, i + 1) else i
  }

  /** Where the greedy `\s*` starting at `i` stops. */
  function SpaceRun(s: string, i: nat): (r: nat)
    requires i <= |s|
    ensures i <= r <= |s|
    ensures forall k :: i <= k < r ==> IsJsSpace(s[k])
    ensures r == |s| || !IsJsSpace(s[r])
    decreases |s| - i
  {
    if i < |s| && IsJsSpace(s[i]) then SpaceRun(s, i + 1) else i
  }

  /** A matched reference: `parseInt` of the first group and the second group. */
  datatype Reference = Reference(number: nat, target: string)

  /** The part of the pattern after the prefix, `(\d+)\s*=(.*)$`, matched
      from position `n`. */
  function MatchTail(line: string, n: nat): Option<Reference>
    requires n <= |line|
  {
    var d := DigitRun(line, n);
    if d == n then None
    else
      var w := SpaceRun(line, d);
      if w < |line| && line[w] == '=' && NoTerminator(line[w + 1..]) then
        Some(Reference(DigitsValue(line[n..d]), line[w + 1..]))
      else None
  }

  /** Line 177: the match of the reference pattern against one line. */
  function ParseReference(line: string): Option<Reference> {
    if !PrefixMatches(line) then None else MatchTail(line, |Prefix|)
  }

  /** Strings that agree from `i` on have the same `\d+` run from `i`. */
  lemma {:induction false} DigitRunAgrees(a: string, b: string, i: nat)
    requires i <= |a| == |b|
    requires forall k :: i <= k < |a| ==> a[k] == b[k]
    ensures DigitRun(a, i) == DigitRun(b, i)
    decreases |a| - i
  {
    if i < |a| {
      DigitRunAgrees(a, b, i + 1);
    }
  }

  /** Strings that agree from `i` on have the same `\s*` run from `i`. */
  lemma {:induction false} SpaceRunAgrees(a: string, b: string, i: nat)
    requires i <= |a| == |b|
    requires forall k :: i <= k < |a| ==> a[k] == b[k]
    ensures SpaceRun(a, i) == SpaceRun(b, i)
    decreases |a| - i
  {
    if i < |a| {
      SpaceRunAgrees(a, b, i + 1);
    }
  }

  /** Strings that agree from `n` on match the rest of the pattern alike. */
  lemma MatchTailAgrees(a: string, b: string, n: nat)
    requires n <= |a| == |b|
    requires forall k :: n <= k < |a| ==> a[k] == b[k]
    ensures MatchTail(a, n) == MatchTail(b, n)
  {
    DigitRunAgrees(a, b, n);
    var d := DigitRun(a, n);
    if d > n {
      SpaceRunAgrees(a, b, d);
      var w := SpaceRun(a, d);
      if w < |a| {
        assert a[w + 1..] == b[w + 1..];
      }
      assert a[n..d] == b[n..d];
    }
  }

  /** The unescaped dots of the pattern are wildcards: the characters at
      those three positions of the prefix do not affect the match, as long
      as they are not line terminators. */
  lemma PrefixDotsAreWildcards(line: string, c1: char, c2: char, c3: char)
    requires |Prefix| <= |line|
    requires !IsLineTerminator(c1) && !IsLineTerminator(c2) && !IsLineTerminator(c3)
    requires !IsLineTerminator(line[7]) && !IsLineTerminator(line[15]) && !IsLineTerminator(line[25])
    ensures ParseReference(line[7 := c1][15 := c2][25 := c3]) == ParseReference(line)
  {
    var other := line[7 := c1][15 := c2][25 := c3];
    assert Prefix[7] == '.' && Prefix[15] == '.' && Prefix[25] == '.';
    assert forall i :: 0 <= i < |line| && i != 7 && i != 15 && i != 25 ==> other[i] == line[i];
    assert PrefixMatches(other) == PrefixMatches(line);
    MatchTailAgrees(other, line, |Prefix|);
  }

  /** Lines 183 and 202: a reference whose target ends in `xwalk_core_library`. */
  predicate IsXwalkLine(line: string) {
    ParseReference(line).Some? && EndsWith(ParseReference(line).value.target, XwalkLibrary)
  }

  /** Line 187: the reference line the add command appends. */
  function XwalkLine(n: nat): string {
    Prefix + NatToDecimal(n) + "=" + XwalkPath
  }

  /** The appended line is read back as reference `n` to the Crosswalk
      library, so a later run recognises it. */
  lemma XwalkLineParses(n: nat)
    ensures ParseReference(XwalkLine(n)) == Some(Reference(n, XwalkPath))
    ensures IsXwalkLine(XwalkLine(n))
  {
    var line := XwalkLine(n);
    var digits := NatToDecimal(n);
    var d := |Prefix| + |digits|;
    assert line[..|Prefix|] == Prefix;
    assert forall i :: 0 <= i < |Prefix| ==> line[i] == Prefix[i];
    assert forall k :: |Prefix| <= k < d ==> line[k] == digits[k - |Prefix|];
    assert line[d] == '=';
    assert DigitRun(line, |Prefix|) == d;
    assert SpaceRun(line, d) == d;
    assert line[d + 1..] == XwalkPath;
    assert line[|Prefix|..d] == digits;
    DigitsValueOfDecimal(n);
    XwalkPathNoTerminator();
    assert XwalkPath[|XwalkPath| - |XwalkLibrary|..] == XwalkLibrary;
  }

  /** Lines 174-185: the largest reference number, 0 when there is none. */
  function LargestReference(lines: seq<string>): nat
    decreases |lines|
  {
    if |lines| == 0 then 0
    else
      var m := LargestReference(lines[..|lines| - 1]);
      match ParseReference(lines[|lines| - 1])
      case Some(r) => if r.number > m then r.number else m
      case None => m
  }

  /** It bounds every reference number and is one of them unless it is 0. */
  lemma {:induction false} LargestReferenceIsMax(lines: seq<string>)
    ensures forall l :: l in lines && ParseReference(l).Some? ==> ParseReference(l).value.number <= LargestReference(lines)
    ensures LargestReference(lines) == 0 ||
            exists l :: l in lines && ParseReference(l).Some? && ParseReference(l).value.number == LargestReference(lines)
    decreases |lines|
  {
    if |lines| > 0 {
      var front := lines[..|lines| - 1];
      LargestReferenceIsMax(front);
      assert forall l :: l in lines <==> l in front || l == lines[|lines| - 1];
    }
  }

  predicate HasXwalkReference(lines: seq<string>) {
    exists l :: l in lines && IsXwalkLine(l)
  }

  /** Lines 173-190: the lines `addXwalkLibraryCommand` hands back. */
  function AddedLines(lines: seq<string>): seq<string> {
    if HasXwalkReference(lines) then lines
    else lines + [XwalkLine(LargestReference(lines) + 1)]
  }

  /** Lines 174-189: the scan with `largestReference` and `found_xwalk`,
      then the conditional push. */
  method AddXwalkReference(lines: seq<string>) returns (result: seq<string>)
    ensures result == AddedLines(lines)
  {
    var largestReference := 0;
    var foundXwalk := false;
    for i := 0 to |lines|
      invariant largestReference == LargestReference(lines[..i])
      invariant foundXwalk <==> HasXwalkReference(lines[..i])
    {
      assert lines[..i + 1][..i] == lines[..i];
      assert forall l :: l in lines[..i + 1] <==> l in lines[..i] || l == lines[i];
      assert HasXwalkReference(lines[..i + 1]) <==> HasXwalkReference(lines[..i]) || IsXwalkLine(lines[i]) by {
        if IsXwalkLine(lines[i]) {
          assert lines[i] in lines[..i + 1];
        }
      }
      var libraryReference := ParseReference(lines[i]);
      if libraryReference.Some? {
        var referenceNumber := libraryReference.value.number;
        if referenceNumber > largestReference {
          largestReference := referenceNumber;
        }
        foundXwalk := foundXwalk || EndsWith(libraryReference.value.target, XwalkLibrary);
      }
    }
    assert lines[..|lines|] == lines;
    result := lines;
    if !foundXwalk {
      result := result + [XwalkLine(largestReference + 1)];
    }
  }

  /** The add command changes nothing when a Crosswalk reference exists;
      otherwise it appends one Crosswalk reference numbered above every
      existing reference. */
  lemma AddedLinesShape(lines: seq<string>)
    ensures HasXwalkReference(lines) ==> AddedLines(lines) == lines
    ensures !HasXwalkReference(lines) ==>
              && |AddedLines(lines)| == |lines| + 1
              && AddedLines(lines)[..|lines|] == lines
              && IsXwalkLine(AddedLines(lines)[|lines|])
              && ParseReference(AddedLines(lines)[|lines|]).value.number == LargestReference(lines) + 1
              && forall l :: l in lines && ParseReference(l).Some? ==>
                   ParseReference(l).value.number < ParseReference(AddedLines(lines)[|lines|]).value.number
  {
    XwalkLineParses(LargestReference(lines) + 1);
    LargestReferenceIsMax(lines);
  }

  /** Running the add command twice is running it once. */
  lemma AddIdempotent(lines: seq<string>)
    ensures AddedLines(AddedLines(lines)) == AddedLines(lines)
  {
    if !HasXwalkReference(lines) {
      var n := LargestReference(lines) + 1;
      XwalkLineParses(n);
      assert XwalkLine(n) in AddedLines(lines);
    }
  }

  /** Lines 200-207: the lines `removeXwalkLibraryCommand` hands back. */
  function RemovedLines(lines: seq<string>): seq<string>
    decreases |lines|
  {
    if |lines| == 0 then []
    else if IsXwalkLine(lines[0]) then RemovedLines(lines[1..])
    else [lines[0]] + RemovedLines(lines[1..])
  }

  /** Exactly the Crosswalk references are deleted; the rest keep their order. */
  lemma {:induction false} RemovedLinesMembers(lines: seq<string>)
    ensures forall l :: l in RemovedLines(lines) <==> l in lines && !IsXwalkLine(l)
    ensures IsSubsequence(RemovedLines(lines), lines)
    decreases |lines|
  {
    if |lines| > 0 {
      RemovedLinesMembers(lines[1..]);
      assert forall l :: l in lines <==> l == lines[0] || l in lines[1..];
    }
  }

  lemma RemovedLinesStep(lines: seq<string>, i: nat)
    requires i < |lines|
    ensures RemovedLines(lines[i..]) ==
              (if IsXwalkLine(lines[i]) then [] else [lines[i]]) + RemovedLines(lines[i + 1..])
  {
    assert lines[i..][1..] == lines[i + 1..];
  }

  /** Lines 201-206: the backward loop with `splice`. */
  method RemoveXwalkReferences(lines: seq<string>) returns (result: seq<string>)
    ensures result == RemovedLines(lines)
  {
    result := lines;
    var i := |lines|;
    assert lines[i..] == [];
    while i > 0
      invariant 0 <= i <= |lines|
      invariant result == lines[..i] + RemovedLines(lines[i..])
    {
      i := i - 1;
      RemovedLinesStep(lines, i);
      var rest := RemovedLines(lines[i + 1..]);
      assert result == lines[..i] + [lines[i]] + rest by {
        assert lines[..i + 1] == lines[..i] + [lines[i]];
      }
      assert result[i] == lines[i];
      if IsXwalkLine(result[i]) {
        assert result[..i] == lines[..i] && result[i + 1..] == rest;
        result := result[..i] + result[i + 1..];
      }
    }
  }

  /** A list without Crosswalk references is left alone. */
  lemma {:induction false} RemovedLinesNoop(lines: seq<string>)
    requires forall l :: l in lines ==> !IsXwalkLine(l)
    ensures RemovedLines(lines) == lines
    decreases |lines|
  {
    if |lines| > 0 {
      assert forall l :: l in lines[1..] ==> l in lines;
      RemovedLinesNoop(lines[1..]);
    }
  }

  /** Running the remove command twice is running it once. */
  lemma RemoveIdempotent(lines: seq<string>)
    ensures RemovedLines(RemovedLines(lines)) == RemovedLines(lines)
  {
    RemovedLinesMembers(lines);
    RemovedLinesNoop(RemovedLines(lines));
  }

  lemma {:induction false} RemovedLinesAppend(lines: seq<string>, l: string)
    ensures RemovedLines(lines + [l]) == RemovedLines(lines) + (if IsXwalkLine(l) then [] else [l])
    decreases |lines|
  {
    if |lines| == 0 {
      assert [l][1..] == [];
    } else {
      assert (lines + [l])[1..] == lines[1..] + [l];
      RemovedLinesAppend(lines[1..], l);
    }
  }

  /** Removing after adding is removing: the added line is a Crosswalk
      reference. */
  lemma RemoveAfterAdd(lines: seq<string>)
    ensures RemovedLines(AddedLines(lines)) == RemovedLines(lines)
  {
    if !HasXwalkReference(lines) {
      var n := LargestReference(lines) + 1;
      XwalkLineParses(n);
      RemovedLinesAppend(lines, XwalkLine(n));
    }
  }

  /** Adding after removing always appends a fresh reference. */
  lemma AddAfterRemove(lines: seq<string>)
    ensures AddedLines(RemovedLines(lines)) ==
              RemovedLines(lines) + [XwalkLine(LargestReference(RemovedLines(lines)) + 1)]
  {
    RemovedLinesMembers(lines);
  }

  /** Lines 167-172 and 194-199: no `platforms` directory is an error, no
      Android platform means nothing to do (None); otherwise the command's
      line edit is applied. */
  function AddXwalkLibraryCommand(hasPlatforms: bool, hasAndroid: bool, lines: seq<string>)
    : (r: Result<Option<seq<string>>>)
    ensures r.Err? <==> !hasPlatforms
    ensures r.Err? ==> r.error == NoPlatformsDirectory
    ensures r == Ok(None) <==> hasPlatforms && !hasAndroid
    ensures r.Ok? && r.value.Some? ==> r.value.value == AddedLines(lines)
  {
    if !hasPlatforms then Err(NoPlatformsDirectory)
    else if !hasAndroid then Ok(None)
    else Ok(Some(AddedLines(lines)))
  }

  function RemoveXwalkLibraryCommand(hasPlatforms: bool, hasAndroid: bool, lines: seq<string>)
    : (r: Result<Option<seq<string>>>)
    ensures r.Err? <==> !hasPlatforms
    ensures r.Err? ==> r.error == NoPlatformsDirectory
    ensures r == Ok(None) <==> hasPlatforms && !hasAndroid
    ensures r.Ok? && r.value.Some? ==> r.value.value == RemovedLines(lines)
  {
    if !hasPlatforms then Err(NoPlatformsDirectory)
    else if !hasAndroid then Ok(None)
    else Ok(Some(RemovedLines(lines)))
  }
}
