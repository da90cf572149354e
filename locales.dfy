/** The `_locales` pre-processing of the post-prepare hook
    (src/post-prepare.js): the directory is renamed to `CCA_locales`, and
    each locale directory inside it whose name changes under the transform
    below is renamed. The file system is an input (the directory listing
    with an is-directory flag per entry) and the renames are emitted. */
module Locales {
  import opened Base

  /** One `fs.renameSync(from, to)`. */
  datatype Rename = Rename(from: string, to: string)

  /** A directory entry as `readdir` plus `statSync` report it. */
  datatype Entry = Entry(name: string, isDirectory: bool)

  /** `path.join(dir, name)` for a plain entry name. */
  function Join(dir: string, name: string): string {
    dir + "/" + name
  }

  /** `s.replace(a, b)` with a one-character string pattern: only the first
      occurrence is replaced. */
  function ReplaceFirst(s: string, a: char, b: char): (r: string)
    ensures |r| == |s|
  {
    if |s| == 0 then []
    else if s[0] == a then [b] + s[1..]
    else [s[0]] + ReplaceFirst(s[1..], a, b)
  }

  predicate IsUpper(c: char) {
    'A' <= c <= 'Z'
  }

  function LowerChar(c: char): char {
    if IsUpper(c) then (c as int + 32) as char else c
  }

  /** `toLowerCase()` on the ASCII letters. */
  function ToLower(s: string): (r: string)
    ensures |r| == |s|
    ensures forall i :: 0 <= i < |s| ==> r[i] == LowerChar(s[i])
  {
    seq(|s|, i requires 0 <= i < |s| => LowerChar(s[i]))
  }

  /** Line 54: the adjusted locale directory name. */
  function LocaleDirName(name: string): string {
    ToLower(ReplaceFirst(name, '-', '_'))
  }

  /** Only the first occurrence is replaced: the text before it and after
      it, later occurrences included, is kept. */
  lemma {:induction false} ReplaceFirstOnlyFirst(s: string, a: char, b: char, i: nat)
    requires i < |s| && s[i] == a && a !in s[..i]
    ensures ReplaceFirst(s, a, b) == s[..i] + [b] + s[i + 1..]
  {
    if i > 0 {
      assert s[0] in s[..i];
      assert s[1..][..i - 1] == s[1..i];
      assert s[1..i] == s[..i][1..];
      ReplaceFirstOnlyFirst(s[1..], a, b, i - 1);
      assert s[..i] == [s[0]] + s[1..][..i - 1];
      assert s[1..][i..] == s[i + 1..];
    }
  }

  /** Without an occurrence the string is returned unchanged. */
  lemma {:induction false} ReplaceFirstAbsent(s: string, a: char, b: char)
    requires a !in s
    ensures ReplaceFirst(s, a, b) == s
  {
    if |s| > 0 {
      assert s[1..] == s[1..];
      assert a !in s[1..] by {
        forall k | 0 <= k < |s| - 1 ensures s[1..][k] != a {
          assert s[1..][k] == s[k + 1];
        }
      }
      ReplaceFirstAbsent(s[1..], a, b);
    }
  }

  /** The index of the first occurrence of `c` in `s`, if any. */
  lemma FirstOccurrence(s: string, c: char) returns (i: nat)
    requires c in s
    ensures i < |s| && s[i] == c && c !in s[..i]
  {
    i := 0;
    while s[i] != c
      invariant i < |s| && c !in s[..i]
      decreases |s| - i
    {
      assert s[..i + 1] == s[..i] + [s[i]];
      i := i + 1;
      assert c in s[i..] by {
        var k :| 0 <= k < |s| && s[k] == c;
        assert forall m :: 0 <= m < i ==> s[..i][m] == s[m];
        assert s[i..][k - i] == c;
      }
    }
  }

  /** Lines 54-55: a name is adjusted exactly when it has a hyphen or an
      upper-case letter. */
  lemma LocaleDirNameChanges(name: string)
    ensures LocaleDirName(name) != name <==>
              '-' in name || exists i :: 0 <= i < |name| && IsUpper(name[i])
  {
    var r := LocaleDirName(name);
    if '-' in name {
      var i := FirstOccurrence(name, '-');
      ReplaceFirstOnlyFirst(name, '-', '_', i);
      assert ReplaceFirst(name, '-', '_')[i] == '_';
      assert r[i] == '_';
    } else {
      ReplaceFirstAbsent(name, '-', '_');
      if exists i :: 0 <= i < |name| && IsUpper(name[i]) {
        var i :| 0 <= i < |name| && IsUpper(name[i]);
        assert r[i] != name[i];
      } else {
        assert r == name;
      }
    }
  }

  /** The adjusted name has no upper-case letter. */
  lemma LocaleDirNameLower(name: string)
    ensures forall i :: 0 <= i < |LocaleDirName(name)| ==> !IsUpper(LocaleDirName(name)[i])
  {
  }

  /** The transform is not idempotent: a second hyphen survives the first
      pass ("a-b-c" becomes "a_b-c"), so the same directory is renamed again
      by the next run. */
  lemma {:induction false} SecondHyphenSurvives(name: string, i: nat, j: nat)
    requires i < j < |name| && name[i] == '-' && name[j] == '-'
    ensures '-' in LocaleDirName(name)
    ensures LocaleDirName(LocaleDirName(name)) != LocaleDirName(name)
  {
    var f := FirstOccurrence(name, '-');
    assert forall m :: 0 <= m < f ==> name[..f][m] == name[m];
    ReplaceFirstOnlyFirst(name, '-', '_', f);
    var r := ReplaceFirst(name, '-', '_');
    assert r[j] == name[j];
    assert LocaleDirName(name)[j] == '-';
    LocaleDirNameChanges(LocaleDirName(name));
  }

  /** With at most one hyphen the adjusted name is final. */
  lemma LocaleDirNameStable(name: string)
    requires '-' !in LocaleDirName(name)
    ensures LocaleDirName(LocaleDirName(name)) == LocaleDirName(name)
  {
    LocaleDirNameLower(name);
    LocaleDirNameChanges(LocaleDirName(name));
  }

  /** Lines 55-57: the entry is renamed when its name changes and it is a
      directory. */
  predicate WantsRename(e: Entry) {
    LocaleDirName(e.name) != e.name && e.isDirectory
  }

  /** The entries that are renamed, in listing order. */
  function ToRename(files: seq<Entry>): (r: seq<Entry>)
    ensures forall e :: e in r <==> e in files && WantsRename(e)
    ensures IsSubsequence(r, files)
  {
    if |files| == 0 then []
    else if WantsRename(files[0]) then [files[0]] + ToRename(files[1..])
    else ToRename(files[1..])
  }

  function RenameOf(dir: string, e: Entry): Rename {
    Rename(Join(dir, e.name), Join(dir, LocaleDirName(e.name)))
  }

  /** Lines 52-61: one rename per entry to rename, in listing order. */
  function EntryRenames(dir: string, files: seq<Entry>): (r: seq<Rename>)
    ensures |r| == |ToRename(files)|
    ensures forall k :: 0 <= k < |r| ==> r[k] == RenameOf(dir, ToRename(files)[k])
    decreases |files|
  {
    if |files| == 0 then []
    else if WantsRename(files[0]) then
      assert ToRename(files) == [files[0]] + ToRename(files[1..]);
      [RenameOf(dir, files[0])] + EntryRenames(dir, files[1..])
    else
      assert ToRename(files) == ToRename(files[1..]);
      EntryRenames(dir, files[1..])
  }

  lemma {:induction false} EntryRenamesAppend(dir: string, files: seq<Entry>, e: Entry)
    ensures EntryRenames(dir, files + [e]) ==
              EntryRenames(dir, files) + (if WantsRename(e) then [RenameOf(dir, e)] else [])
    decreases |files|
  {
    if |files| == 0 {
      assert [e][1..] == [];
    } else {
      assert (files + [e])[1..] == files[1..] + [e];
      EntryRenamesAppend(dir, files[1..], e);
    }
  }

  lemma RenamesStep(dir: string, files: seq<Entry>, i: nat)
    requires i < |files|
    ensures EntryRenames(dir, files[..i + 1]) ==
              EntryRenames(dir, files[..i]) + (if WantsRename(files[i]) then [RenameOf(dir, files[i])] else [])
  {
    assert files[..i + 1] == files[..i] + [files[i]];
    EntryRenamesAppend(dir, files[..i], files[i]);
  }

  /** Lines 52-61: the loop over the listing of `CCA_locales`. */
  method RenameEntries(betterPath: string, files: seq<Entry>) returns (renames: seq<Rename>)
    ensures renames == EntryRenames(betterPath, files)
  {
    renames := [];
    for i := 0 to |files|
      invariant renames == EntryRenames(betterPath, files[..i])
    {
      RenamesStep(betterPath, files, i);
      var fullName := Join(betterPath, files[i].name);
      var adjustedFilename := ToLower(ReplaceFirst(files[i].name, '-', '_'));
      if files[i].name != adjustedFilename {
        if files[i].isDirectory {
          renames := renames + [Rename(fullName, Join(betterPath, adjustedFilename))];
        }
      }
    }
    assert files[..|files|] == files;
  }

  /** Lines 44-63: `_locales` under the platform's asset directory is
      renamed to `CCA_locales` first, then the entries listed inside it. */
  method PreprocessLocales(assetDir: string, hasLocales: bool, files: seq<Entry>) returns (renames: seq<Rename>)
    ensures !hasLocales ==> renames == []
    ensures hasLocales ==>
              renames == [Rename(Join(assetDir, "_locales"), Join(assetDir, "CCA_locales"))] +
                         EntryRenames(Join(assetDir, "CCA_locales"), files)
  {
    if !hasLocales {
      return [];
    }
    var badPath := Join(assetDir, "_locales");
    var betterPath := Join(assetDir, "CCA_locales");
    var entryRenames := RenameEntries(betterPath, files);
    renames := [Rename(badPath, betterPath)] + entryRenames;
  }
}
