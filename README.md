# Chrome Apps for Mobile: prepare hooks, modelled in Dafny

This project models the two build hooks that the `cca` tool runs around
`cordova prepare`: `src/pre-prepare.js` and `src/post-prepare.js`.

The pre-prepare hook:

- builds the lists of plugins the app manifest wants installed and not
  installed, diffs them against the installed plugins, and emits the
  `cordova plugin add/rm` batch;
- patches `config.xml` from the manifest: widget identity, `name`,
  `description`, `author`, the `content` start page, and the `access`
  whitelist. It writes the file only when the text changed;
- appends a URL type carrying the package id to the iOS `Info.plist`;
- contains the (unexported) Crosswalk commands. These add or remove the
  `android.library.reference.N=…xwalk_core_library` line of
  `project.properties`.

The post-prepare hook, per platform (Android first, then iOS):

- renames `_locales` to `CCA_locales` and normalises the locale directory
  names inside it;
- plans the icon copies and removals from the manifest's `icons`;
- rewrites the iOS `CFBundleIconFiles` arrays with the icon slots left;
- sets `android:versionCode` on Android and `CFBundleVersion` on iOS.

The model follows the source closely:

- XML documents are the `Element` datatype of `ElementTree`: tag,
  attributes, optional text and ordered children. A node is named by its
  path of child indices. The document order of `iter('*')` is the
  pre-order walk, root included.
- Loops and in-place edits in the source are methods with loops. Each is
  proved equal to a specification function, and the properties are
  lemmas about those functions.
- File-system state is an input and file effects are emitted values:
  - existence flags and directory listings are inputs;
  - renames and icon actions are emitted;
  - a document to write back is a `DocUpdate` or `Option` value.
- Errors that make the source throw or reject are `Err` values:
  - no `platforms` directory;
  - a plist root without a first child;
  - `findArrayNode` returning null;
  - no node after `CFBundleVersion`.
- The two regular expressions of the Crosswalk commands are modelled
  exactly, and so is the extension-stripping one of the icon step:
  - unescaped dots match any character except a line terminator;
  - `\d+` and `\s*` are greedy;
  - `$` is the end of the input.
- JavaScript truthiness of a manifest field is `Truthy`: present and
  non-empty.
- The client-id warning of `src/pre-prepare.js:156-162` is the predicate
  `PluginReconciler.ClientIdWarning`.

Modules:

- `Base`: `Option`, `Result`, the error kinds, subsequence, line terminators.
- `Decimal`: `String(n)` and `parseInt`, with their round trip.
- `ElementTree`: the tree, paths, the document-order walk, `find('./tag')`.
- `PluginReconciler`: plugin lists, diffs and commands.
- `ConfigPatch`: the `config.xml` patch and the plist URL type.
- `XwalkReference`: the `project.properties` reference lines.
- `Locales`: locale directory renames.
- `PlistPatch`: `findArrayNode`, `setValues`, `CFBundleVersion` and `versionCode`.
- `IconPlanner`: the icon plan.
- `PostPrepare`: which platforms the post-prepare hook processes.

## Model

| member | source | states |
|---|---|---|
| PluginReconciler.Without | src/pre-prepare.js:44-46 | The result holds exactly the elements of the list that are not in the excluded list, in their original order (a subsequence). |
| PluginReconciler.Within | src/pre-prepare.js:137-139 | The result holds exactly the elements of the list that are also in the other list, in their original order. |
| PluginReconciler.WithinWithoutSplit | src/pre-prepare.js:134-139 | Keeping and dropping by the same list splits it: the two sizes sum to its length. |
| PluginReconciler.BuildLists | src/pre-prepare.js:42-46 | Install list: the manifest's required plugins, then the defaults. Not-install list: exactly the forbidden plugins, then the stale ones, minus anything in the install list, order kept. Required always wins. |
| PluginReconciler.AddCommands | src/pre-prepare.js:145-147 | One `add` command per plugin, in list order. |
| PluginReconciler.RemoveCommands | src/pre-prepare.js:147-149 | One `rm` command per plugin, in list order. |
| PluginReconciler.Batch | src/pre-prepare.js:145-149 | Every `add` comes first, one per plugin in list order, followed by every `rm`, one per plugin in list order. |
| PluginReconciler.Argv | src/pre-prepare.js:145-149 | A command's vector is `plugin`, then `add` for an add and `rm` for a remove, then the plugin id. |
| PluginReconciler.Argvs | src/pre-prepare.js:145-149 | One argument vector per command, in the commands' order. |
| PluginReconciler.BatchArgvs | src/pre-prepare.js:145-149 | The vectors given to `runAllCmds` are `['plugin', 'add', p]` for each missing plugin, then `['plugin', 'rm', p]` for each excess one, each in list order. |
| PluginReconciler.BatchTargets | src/pre-prepare.js:145-149 | Each command of a batch adds a plugin of the add list or removes one of the rm list. |
| PluginReconciler.Reconcile | src/pre-prepare.js:134-150 | No batch runs iff every install-list plugin is installed, no not-install plugin is installed and nothing is unrecognised. Otherwise the batch adds every missing install-list plugin, then removes every installed not-install plugin, each in list order. |
| PluginReconciler.ReconcileTargets | src/pre-prepare.js:134-149 | Each command adds an install-list plugin that is not installed or removes a not-install plugin that is installed. |
| PluginReconciler.ClientIdWarning | src/pre-prepare.js:156-162 | Warn iff `org.chromium.identity` is among the installed plugins and the manifest has no truthy OAuth2 client id. |
| PluginReconciler.ApplyCommands | src/pre-prepare.js:145-150 | The installed set after the batch runs, each `add` inserting and each `rm` deleting exactly its own plugin, in order. |
| PluginReconciler.ApplyAddCommands | src/pre-prepare.js:145-147 | After the add commands, the installed set is the old set plus the listed plugins. |
| PluginReconciler.ApplyRemoveCommands | src/pre-prepare.js:147-149 | After the rm commands, the installed set is the old set minus the listed plugins. |
| PluginReconciler.ReconcileConverges | src/pre-prepare.js:134-150 | Once the batch has run, a second reconciliation runs no command. With no unrecognised permissions it runs no batch at all. With any unrecognised permissions it runs an empty batch. |
| ElementTree.PreOrderValid | src/post-prepare.js:175 | Every path the document-order walk lists names a node of the tree. |
| ElementTree.DocNodes | src/post-prepare.js:175 | The k-th node `iter('*')` visits is the node at the k-th path of the walk, and there is one node per path. |
| ElementTree.AtUpdateSame | src/post-prepare.js:195-197 | Replacing the node at a path puts the new node at that path. |
| ElementTree.AtUpdateOther | src/post-prepare.js:195-197 | Replacing a node leaves every node that is neither an ancestor nor a descendant of it unchanged. |
| ElementTree.AtUpdateAncestor | src/post-prepare.js:195-197 | Replacing a node changes each proper ancestor only in its child on the path: same tag, attributes, text and number of children. |
| ElementTree.FindChild | src/pre-prepare.js:61 | `find('./tag')` returns the first child with the tag; no earlier child has it; None when no child has it. |
| ElementTree.FindChildByTags | src/pre-prepare.js:61-71 | Two child lists with the same tags have their first child of a tag at the same index. |
| ConfigPatch.EditFirstChild | src/pre-prepare.js:61-71 | Editing the found child keeps the parent's tag, attributes and text and the tags of all its children. |
| ConfigPatch.EditFirstChildFrame | src/pre-prepare.js:61-71 | The parent keeps its number of children; the first child with the tag, when there is one, becomes its edited version, and every other child is unchanged. |
| ConfigPatch.WithoutTag | src/pre-prepare.js:73-76 | No child with the tag remains, and the rest keep their order. |
| ConfigPatch.AccessElements | src/pre-prepare.js:77-80 | One `access` element per whitelist entry, in whitelist order, with `origin` set to the pattern. |
| ConfigPatch.SetIdentity | src/pre-prepare.js:56-59 | On a `widget` root, `version` and `id` are set to the manifest's values; any other root is left alone. |
| ConfigPatch.EditedConfig | src/pre-prepare.js:55-71 | The identity step, then the first `name`, `description` and `author` children get the manifest's text and the first `content` child the fixed `src`, in that order. |
| ConfigPatch.EditedChildren | src/pre-prepare.js:55-71 | The edits keep the number of children, and every child other than the first `name`, `description`, `author` and `content` child is unchanged. |
| ConfigPatch.PatchedConfig | src/pre-prepare.js:55-80 | The edited widget with its `access` children removed and one `access` per whitelist entry appended. Its properties are `PatchedShape`, `PatchedChildren` and `PatchIdempotent`. |
| ConfigPatch.EditFirstChildSame | src/pre-prepare.js:61-71 | After the edit, `find('./tag')` returns the edited version of the child it returned before, or still nothing. |
| ConfigPatch.EditFirstChildOther | src/pre-prepare.js:61-71 | Editing the first child of one tag does not change what `find` returns for any other tag. |
| ConfigPatch.FirstWithAfterReplacing | src/pre-prepare.js:73-80 | Removing every child of one tag and appending new children of that tag does not change what `find` returns for any other tag. |
| ConfigPatch.AccessReplacementIdempotent | src/pre-prepare.js:73-80 | Replacing the `access` children with the whitelist's twice gives the same widget as doing it once. |
| ConfigPatch.EditedConfigNoop | src/pre-prepare.js:55-71 | A widget whose identity and first `name`, `description`, `author` and `content` children already carry the manifest's values is left unchanged by the edits. |
| ConfigPatch.EditedIdentity | src/pre-prepare.js:55-71 | The child edits keep the tag and the attributes the identity step gave the widget. |
| ConfigPatch.SetIdentityOfPatched | src/pre-prepare.js:55-59 | Setting `version` and `id` again on the patched widget changes nothing. |
| ConfigPatch.PatchedChildren | src/pre-prepare.js:61-71 | On the patched widget, the first `name`, `description` and `author` children carry the manifest's values (undefined when the field is absent). The first `content` child carries the fixed `src`. A missing child stays missing. |
| ConfigPatch.PatchedShape | src/pre-prepare.js:55-80 | `version` and `id` change only on a `widget` root. The widget ends with exactly one `access` per whitelist entry, in order, after all other children. No other child is an `access`. The other children are exactly the non-`access` children left by the edits of lines 61-71, in order, so they keep the tags of the original non-`access` children. |
| ConfigPatch.PatchIdempotent | src/pre-prepare.js:55-80 | Patching the patched widget again gives the same widget. |
| ConfigPatch.ConfigFileToWrite | src/pre-prepare.js:82-89 | Nothing is written iff the serialised tree equals the text read; otherwise the serialised tree is written. |
| ConfigPatch.SecondRunWritesNothing | src/pre-prepare.js:52-89 | A second run, which parses the text the first run wrote and patches that tree, writes nothing, given that parsing the written text gives back the serialised tree. |
| ConfigPatch.RemoveAccessChildren | src/pre-prepare.js:73-76 | The `find`/`remove` loop leaves exactly the non-`access` children, in order, and nothing else of the widget changes. |
| ConfigPatch.AppendAccessChildren | src/pre-prepare.js:77-80 | The loop appends the whitelist's `access` elements after the existing children. |
| ConfigPatch.PatchConfig | src/pre-prepare.js:55-80 | The step-by-step patch produces the patched widget whose properties `PatchedShape`, `PatchedChildren` and `PatchIdempotent` state. |
| ConfigPatch.UrlTypeEntries | src/pre-prepare.js:105-124 | Two entries: a `CFBundleURLTypes` key, then an array with one dict. The dict holds, in order, the `key`/`string` pairs `CFBundleTypeRole`/`Editor` and `CFBundleURLName`/package id, then the `CFBundleURLSchemes` key and an array whose sole `string` is the package id. |
| ConfigPatch.AddUrlType | src/pre-prepare.js:102-124 | Fails iff the plist root has no child. Otherwise exactly the two URL-type entries are appended to the end of the root's first child and nothing else changes. Every call appends again, so the step is not idempotent. |
| Decimal.NatToDecimal | src/pre-prepare.js:187 | A non-empty string of decimal digits, with no leading zero unless the number is 0. |
| Decimal.DigitsValueOfDecimal | src/pre-prepare.js:179 | Reading the digits of `String(n)` back gives `n`. |
| Decimal.IntToDecimal | src/post-prepare.js:223 | A non-empty string that is all digits iff the number is non-negative. |
| Decimal.IntToDecimalRoundTrip | src/post-prepare.js:223 | Parsing the decimal rendering of any integer gives it back. |
| XwalkReference.DigitRun | src/pre-prepare.js:177 | The greedy `\d+` run: all digits, and it stops at the end or at a non-digit. |
| XwalkReference.SpaceRun | src/pre-prepare.js:177 | The greedy `\s*` run over JavaScript's whitespace, stopping at the end or at a non-space. |
| XwalkReference.PrefixDotsAreWildcards | src/pre-prepare.js:177 | The three unescaped dots of the pattern's prefix accept any character but a line terminator, so changing those characters does not change the match. |
| XwalkReference.ParseReference | src/pre-prepare.js:177 | The match of `^android.library.reference.(\d+)\s*=(.*)$` against one line: the reference number and the target, or no match. |
| XwalkReference.IsXwalkLine | src/pre-prepare.js:177-183 | A line that matches the reference pattern with a target ending in `xwalk_core_library`. |
| XwalkReference.XwalkPathNoTerminator | src/pre-prepare.js:187 | The Crosswalk target path contains no line terminator, so `(.*)$` can match it. |
| XwalkReference.XwalkLineParses | src/pre-prepare.js:187 | The appended line `android.library.reference.<n>=…xwalk_core_library` is recognised as reference `n` to the Crosswalk library. |
| XwalkReference.XwalkLine | src/pre-prepare.js:187 | The appended line `android.library.reference.<n>=…xwalk_core_library`, with `n` in decimal (its parse-back stated by `XwalkLineParses`). |
| XwalkReference.LargestReference | src/pre-prepare.js:174-185 | The largest reference number among the matching lines, 0 when none matches (bounds stated by `LargestReferenceIsMax`). |
| XwalkReference.AddedLines | src/pre-prepare.js:173-190 | The lines unchanged when a Crosswalk reference exists, else with the reference numbered one above the largest appended (shape stated by `AddedLinesShape`). |
| XwalkReference.LargestReferenceIsMax | src/pre-prepare.js:174-185 | The tracked largest reference number bounds every reference and is one of them, or 0 when there is none. |
| XwalkReference.AddXwalkReference | src/pre-prepare.js:173-190 | The scan with `largestReference`/`found_xwalk` and the conditional push produce the added lines (see `AddedLinesShape`). |
| XwalkReference.AddedLinesShape | src/pre-prepare.js:186-188 | Lines with a Crosswalk reference come back unchanged. Otherwise exactly one Crosswalk line is appended, numbered one above the largest reference and so above every existing reference. |
| XwalkReference.AddIdempotent | src/pre-prepare.js:173-190 | Adding twice is adding once. |
| XwalkReference.RemovedLines | src/pre-prepare.js:200-207 | The lines without the Crosswalk references, in order (members stated by `RemovedLinesMembers`). |
| XwalkReference.RemovedLinesMembers | src/pre-prepare.js:200-207 | Removal keeps exactly the lines that are not Crosswalk references, in their original order. |
| XwalkReference.RemoveXwalkReferences | src/pre-prepare.js:200-208 | The backward `splice` loop leaves the removed lines. |
| XwalkReference.RemovedLinesNoop | src/pre-prepare.js:200-207 | Lines without a Crosswalk reference are left alone. |
| XwalkReference.RemoveIdempotent | src/pre-prepare.js:200-208 | Removing twice is removing once. |
| XwalkReference.RemoveAfterAdd | src/pre-prepare.js:173-208 | Removing after adding is just removing. |
| XwalkReference.AddAfterRemove | src/pre-prepare.js:173-208 | Adding after removing always appends a fresh Crosswalk line. |
| XwalkReference.AddXwalkLibraryCommand | src/pre-prepare.js:167-191 | Rejects iff there is no `platforms` directory. Does nothing iff there is no Android platform. Otherwise yields the added lines. |
| XwalkReference.RemoveXwalkLibraryCommand | src/pre-prepare.js:194-209 | Rejects iff there is no `platforms` directory. Does nothing iff there is no Android platform. Otherwise yields the removed lines. |
| Locales.ReplaceFirstOnlyFirst | src/post-prepare.js:54 | `replace('-', '_')` changes only the first hyphen and keeps everything before and after it, later hyphens included. |
| Locales.ReplaceFirstAbsent | src/post-prepare.js:54 | Without a hyphen the name is unchanged. |
| Locales.ReplaceFirst | src/post-prepare.js:54 | `replace('-', '_')` with a string pattern: the length is kept and only the first hyphen is replaced (stated by `ReplaceFirstOnlyFirst` and `ReplaceFirstAbsent`). |
| Locales.ToLower | src/post-prepare.js:54 | Same length; every character is lower-cased. |
| Locales.LocaleDirName | src/post-prepare.js:54 | The first hyphen replaced by `_`, then lower-cased; its properties are `LocaleDirNameChanges`, `LocaleDirNameLower` and `LocaleDirNameStable`. |
| Locales.LocaleDirNameChanges | src/post-prepare.js:54-55 | The adjusted name differs from the name iff the name has a hyphen or an upper-case letter. |
| Locales.LocaleDirNameLower | src/post-prepare.js:54 | The adjusted name has no upper-case letter. |
| Locales.SecondHyphenSurvives | src/post-prepare.js:54 | A name with two hyphens keeps a hyphen after adjustment, so the adjustment is not idempotent. |
| Locales.LocaleDirNameStable | src/post-prepare.js:54 | An adjusted name without a hyphen is left unchanged by a second adjustment. |
| Locales.ToRename | src/post-prepare.js:55-57 | The entries renamed are exactly the directories whose adjusted name differs, in listing order. |
| Locales.EntryRenames | src/post-prepare.js:52-61 | One rename per such entry, in listing order, from its path to the path of its adjusted name. |
| Locales.RenameEntries | src/post-prepare.js:52-61 | The `for` loop over the listing emits exactly the entry renames, in listing order. |
| Locales.PreprocessLocales | src/post-prepare.js:44-63 | No `_locales` directory: no rename. Otherwise `_locales` becomes `CCA_locales`, followed by the entry renames inside `CCA_locales`. |
| PlistPatch.FirstFromSpec | src/post-prepare.js:175-190 | The search finds the first node at or after the start that passes the test, and finds nothing iff no node from there passes. |
| PlistPatch.ArrayNodeIndex | src/post-prepare.js:172-192 | A node the scan finds lies within the document and is an `array` element. |
| PlistPatch.ArrayNodeIndexSound | src/post-prepare.js:172-192 | A node the scan finds is an `array` after a `CFBundleIconFiles` text after a `key` text, in document order. |
| PlistPatch.ArrayNodeIndexComplete | src/post-prepare.js:172-192 | Whenever such a chain exists, the scan finds a node, no later than the chain's array. |
| PlistPatch.ArrayNodeIndexFound | src/post-prepare.js:172-192 | The scan returns null iff no such chain exists. |
| PlistPatch.ScanForArray | src/post-prepare.js:172-192 | The `foundKey` state walk keeps the first `array` after the first `CFBundleIconFiles` after the first `key` text. |
| PlistPatch.FindArrayNode | src/post-prepare.js:172-192 | `findArrayNode` returns that node's path in the tree, or null. |
| PlistPatch.StringChildren | src/post-prepare.js:196-198 | One `string` element per slot name, in order, whose text is the name. |
| PlistPatch.SetValuesResult | src/post-prepare.js:193-199 | `setValues(key, vals)`: an error when `findArrayNode` finds nothing, otherwise the tree with that array replaced by a bare `array` of the names' `string` children. |
| PlistPatch.SetValuesEffect | src/post-prepare.js:193-199 | `setValues` fails iff `findArrayNode` returns null. Otherwise the found array's children are exactly one `string` per name, in order, each with the name as its text and no attributes or children. Its previous children, attributes and text are gone. Every node that is neither an ancestor nor a descendant of it is unchanged, and each ancestor differs only in its child on the path. |
| PlistPatch.SetValues | src/post-prepare.js:193-199 | `clear()` followed by one `SubElement` per name has the effect `SetValuesEffect` states. |
| PlistPatch.IconFilesResult | src/post-prepare.js:200-201 | `setValues` for `CFBundleIcons` with the iPhone slots, then for `CFBundleIcons~ipad` with the iPad slots on the result, the first error ending the step. |
| PlistPatch.SetIconFiles | src/post-prepare.js:200-201 | The iPhone slots are written under `CFBundleIcons`, then the iPad slots under `CFBundleIcons~ipad`; the first failure stops the step. |
| PlistPatch.NodeAfterIndex | src/post-prepare.js:240-249 | The document-order index right after the first node whose text is the key, or nothing (properties stated by `NodeAfterIndexSpec`). |
| PlistPatch.NodeAfterIndexSpec | src/post-prepare.js:240-249 | The found node directly follows the first node whose text is the key. The search fails iff no node before the last one has that text: either none does, or the first that does is the last node. |
| PlistPatch.FindNodeAfter | src/post-prepare.js:234-249 | The `isFound` state walk keeps the node right after the first node whose text is the key in document order, or nothing when there is no such node. |
| PlistPatch.BundleVersionValue | src/post-prepare.js:251 | `manifest.CFBundleVersion \|\| manifest.version`: the explicit bundle version when it is truthy, else the app version. The value is truthy iff either of them is. |
| PlistPatch.SetBundleVersion | src/post-prepare.js:229-253 | With neither version set, nothing is written. Otherwise it fails iff no node follows the first `CFBundleVersion` text, and on success the plist is rewritten. The rewritten tree is the old one with that node's text set to `CFBundleVersion`, or else `version` (a non-empty value). Every node that is neither an ancestor nor a descendant of it is unchanged, and each ancestor differs only in its child on the path. |
| PlistPatch.SetVersionCode | src/post-prepare.js:220-225 | Nothing is written iff `versionCode` is absent or 0. Otherwise only the root's `android:versionCode` attribute changes. Its value is exactly `IntToDecimal` of the code (JavaScript's `String(versionCode)`), which reads back as that code. |
| IconPlanner.AndroidIconTable | src/post-prepare.js:93-100 | The six Android sizes 36 to 192, each with its one `res/drawable-<dpi>/icon.png` path. Every key is an array index, so `for (size in iconMap)` visits them in strictly ascending order. |
| IconPlanner.IosIconTable | src/post-prepare.js:104-119 | Fourteen iOS entries, each with one path under `<originalName>/Resources/icons/`. The key `"-1"` is written first but is not an array index, so JavaScript's for-in order visits the thirteen positive sizes in strictly ascending order and then `-1` (`icon-60.png`) last. The table follows that enumeration order. |
| IconPlanner.IPhoneSlots | src/post-prepare.js:70-77 | The six distinct keys of `iPhoneFiles` in insertion order, the order in which `setValues` writes them (lines 196-198). |
| IconPlanner.IPadSlots | src/post-prepare.js:78-87 | The eight distinct keys of `iPadFiles` in insertion order, the order in which `setValues` writes them (lines 196-198). |
| IconPlanner.DstPath | src/post-prepare.js:137 | `path.join('platforms', platform, rel)` with `/` separators. |
| IconPlanner.AndroidDefaultIcon | src/post-prepare.js:168 | The default Android icon is the destination `res/drawable/icon.png` of the Android platform directory. |
| IconPlanner.Lookup | src/post-prepare.js:138 | `icons[size]` is defined iff the manifest lists that size. |
| IconPlanner.LookupFirst | src/post-prepare.js:138 | `icons[size]` is the file of the first entry with that size. |
| IconPlanner.Row | src/post-prepare.js:137 | One destination per table path, each under `platforms/<platform>/`, carrying the row's size. |
| IconPlanner.PairsMembers | src/post-prepare.js:135-145 | A destination is copied iff its icon is truthy and collected as missing iff it is not, each in table order. |
| IconPlanner.PairsSplit | src/post-prepare.js:135-145 | Every destination goes to exactly one of the two sides. |
| IconPlanner.SplitRow | src/post-prepare.js:136-144 | The inner loop over one table entry extends the copies and missing destinations of the earlier entries by that entry's split, in path order. |
| IconPlanner.SplitDestinations | src/post-prepare.js:133-145 | The nested loop's copies and missing destinations are the two sides of the split, in table order. |
| IconPlanner.BestSizeUnique | src/post-prepare.js:147-150 | The best size is determined by the manifest's sizes alone, whatever their order. |
| IconPlanner.LargestSize | src/post-prepare.js:147-150 | The result is the largest size when some size is positive, and 0 otherwise. |
| IconPlanner.Basename | src/post-prepare.js:152 | The basename contains no `/`, ends the path, and starts right after a `/` or at the start of the path, so it is the text after the last `/`. |
| IconPlanner.FirstCut | src/post-prepare.js:152 | The leftmost position where `\..*?$` matches: a dot with no line terminator after it. |
| IconPlanner.Stem | src/post-prepare.js:152 | `.replace(/\..*?$/, '')` removes the leftmost match: the result is a prefix of the name that ends where the first matching dot is, or is the whole name when no dot matches, and no position inside it matches. |
| IconPlanner.StemDots | src/post-prepare.js:152 | Any dot left in a stripped name is followed by a line terminator. |
| IconPlanner.StemIsNotIconPng | src/post-prepare.js:152-156 | A stripped name is never `icon.png`. |
| IconPlanner.Delete | src/post-prepare.js:155-156 | `delete files[name]` keeps exactly the other slots, in order. |
| IconPlanner.Pruned | src/post-prepare.js:151-157 | The slot list after each missing destination, in turn, deletes its stripped name unless that is `icon` (properties stated by `PrunedMembers`, `PrunedShrinks` and `PrunedKeepsIcons`). |
| IconPlanner.PrunedMembers | src/post-prepare.js:151-157 | A slot survives iff it is `icon` or no missing destination strips to its name. |
| IconPlanner.PrunedShrinks | src/post-prepare.js:151-157 | The slot lists only shrink, keeping their order. |
| IconPlanner.PrunedKeepsIcons | src/post-prepare.js:153-156 | The slots `icon` and `icon.png` are never removed. |
| IconPlanner.MissingActions | src/post-prepare.js:159-164 | Each missing destination is removed on Android and filled from the best size on iOS, in order. |
| IconPlanner.HandleMissing | src/post-prepare.js:151-165 | The `forEach` leaves the pruned slot lists and emits the missing-destination actions. |
| IconPlanner.PlanCovers | src/post-prepare.js:131-170 | The plan has one action per destination (plus one on Android). Each destination is copied from its own size when its icon is present. Otherwise it is removed on Android or filled from the best size on iOS. Android ends with the default icon copied from the best size. |
| IconPlanner.PlannedActions | src/post-prepare.js:131-170 | The copies of present icons, then the missing-destination actions, then on Android the default icon from the best size, for the platform's own table (coverage stated by `PlanCovers`). |
| IconPlanner.PlanIcons | src/post-prepare.js:131-170 | The loops give the largest size, the planned actions for the platform's icon table, and the iPhone and iPad slot lists pruned by the missing destinations. |
| IconPlanner.PlaceIcons | src/post-prepare.js:68-203 | Without manifest icons, nothing happens. Otherwise the best size is the largest one and the actions are the plan. Android's plist is untouched. iOS writes the pruned slot lists through `setValues`, failing as it does. |
| PostPrepare.PlatformsToPrepare | src/post-prepare.js:13-29 | Rejects iff there is no `platforms` directory. Otherwise Android is processed iff present, and iOS iff present, with Android first. |

## Left out

- SecondRunWritesNothing: XML parsing and serialisation are parameters, and the lemma assumes that parsing the text the first run wrote gives back the tree it serialised; elementtree's actual round trip is not modelled.
- ReconcileConverges: the build tool's effect is `ApplyCommands`, in which every `plugin add`/`rm` succeeds and changes exactly its own plugin; dependency installs, failed commands and the tool's own plugin listing are not modelled.
- Promise chaining (`Q`): each step is a sequential function or method, and no error propagation across the chain is modelled.
- File-system and `shelljs` calls: existence checks, listings and the is-directory flag are inputs. Renames and icon copies/removals are emitted as values; `mkdir -p` and copy errors are not modelled.
- XML parsing, serialisation and indentation (`et.parse`, `tostring`, `write`): the model works on the element tree, and serialisation is a function parameter of `ConfigPatch.ConfigFileToWrite`.
- `node.clear()` is taken to drop the children, attributes and text of the node, as elementtree's `clear` does. The library is not part of this model.
- The iOS parser's `originalName` and the plugin `ls` listing come from cordova-lib: they are parameters.
- `get-manifest`, `parse-manifest`, `plugin-map`, `cordova-commands.runAllCmds`, `utils.processFile`, `utils.assetDirForPlatform` and `utils.fixPathSlashes` are not part of this model. Their results are inputs: manifest fields, plugin lists, defaults and stale plugins, property lines, asset directory.
- The manifest merge and its JSON write (`src/post-prepare.js:208-212`): the merge logic is not part of this model and the write is I/O.
- Console output: the only warning kept is the client-id warning, as the boolean `PluginReconciler.ClientIdWarning`.
- The iOS existence checks that gate the URL-type step (`src/pre-prepare.js:95-96`) and the version steps are left to the caller.
- IconPlanner.Lookup: the manifest's `icons` object is a list of (integer size, file) entries in enumeration order. JavaScript's string keys, the `+size` coercion (a non-numeric key gives NaN) and duplicate keys (the first entry wins) are not modelled.
- IconPlanner.PlaceIcons: the best size when no size is positive is the number 0; `copyIcon('0', …)` then copies the undefined `icons['0']`. That copy is emitted as an action and its failure is not modelled.
- Locales.ToLower: only ASCII letters are lower-cased; Unicode case mapping is not modelled.
- Decimal.DigitsValueOfDecimal: numbers are unbounded, so `parseInt` losing precision above 2^53 is not modelled.
- Locales.Join and IconPlanner.DstPath: `path.join` is string concatenation with `/`; normalisation of `..`, empty or slashed parts is not modelled, and `path.basename` of a path ending in `/` yields the empty name.
- In-place mutation and aliasing of elementtree nodes are not modelled: trees are values, and an in-place change is a `Update` at a path.
- PlistPatch.SetVersionCode: the manifest's `versionCode` is taken to be an integer. A string value would be written as it is, and that case is not modelled.
- Absent manifest fields: the code assigns them as `undefined` to `version`, `id` and the `name`, `description` and `author` texts, and the model does the same (`None`). A design in which an absent field leaves the prior value alone would differ here; the code is followed.
