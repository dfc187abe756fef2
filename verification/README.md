# FilterByPermissions: the two table readers and the API node tree

This project models the core of `FilterMethods.py`. The core has three parts.

- **`read_permissions`.** It reads the Android permission table:
  - it skips the header row;
  - each data row becomes one `Permission`, named by cell 0 after `strip()`;
  - cell 2 gives the protection level. It is "dangerous" if the lower-cased cell contains "dangerous". Otherwise it is "signature" if the cell contains "signature". Otherwise it is "normal";
  - after the rows come the eleven hard-coded group permissions (`group_permission_names`), each dangerous and marked as a group.
- **`read_api_docs`.** It reads the API documentation table:
  - it skips the header row;
  - each data row is a package row (cell 1 non-empty), a class row (otherwise cell 2 non-empty), a method row (otherwise cell 3 non-empty), or nothing;
  - a class is appended to the current package, and a method to the current class;
  - a class row before any package row fails, and so does a method row before any class row. In both cases the "current" target is still the empty string.
- **`to_string`.** This is the rendering of `API_Package`, `API_Class` and `API_Method`: the name, indented by depth, with one line per node.

Rows arrive as `seq<seq<string>>`, which is what `csv.reader` yields. A raised exception is modelled as a `Failure` that names the file row where it was raised, with the header as row 0.

Modules:

- `Wrappers`: `Option` and `Result`.
- `Csv`: rows, the header skip, and cells read as absent past the row's end.
- `Text`: `str.strip()` using Python's whitespace set, ASCII `lower()`, and substring search.
- `Permissions`: `Permission`, the group names, and `read_permissions`.
- `ApiNodes`: the three node types, `to_string`, and an indented outline that the renderings are proved to follow.
- `ApiDocs`: `read_api_docs` as written, including the shared default lists.
- `ApiTree`: the corrected reader, which gives each node its own child list (see Findings).

**Shared lists.** `API_Package` and `API_Class` are always constructed without their `classes` or `methods` argument. So every package holds the one default `classes` list, and every class holds the one default `methods` list.

`ApiDocs` models this directly:

- the state is the package list, one shared class list, one shared method list, and the current package and class;
- the lists start empty, which is one call in a fresh process;
- in the result, every package lists every class row of the file, and every class lists every method row.

**Two behaviours of the code are easy to misread:**

- **Method descriptions are always empty.** The method branch copies `row[2]` when the row has a cell 4. That branch is only reached when `row[2]` is empty, so the description is always "".
- **Permissions are never merged.** `Permission` defines no equality or hash. So the returned set keeps every row's permission and every group permission as separate members, even when names repeat. The result is modelled as a sequence: the rows in file order, then the groups.

## Model

| member | source | states |
|---|---|---|
| Permissions.Classify | FilterMethods.py:108-114 | the level is dangerous exactly when the lower-cased text contains "dangerous"; signature exactly when it contains "signature" but not "dangerous"; normal exactly when it contains neither; the label is always one of the three |
| Permissions.ReadRows | FilterMethods.py:99-118 | the row loop succeeds exactly when every row has a cell 2; otherwise it fails at the first short row; on success, permission k is `RowPermission` of row k (lines 103-117: the stripped cell 0, the level `Classify` gives cell 2, not a group) |
| Permissions.GroupPermissions | FilterMethods.py:11-12 | the eleven group names in their listed order, each dangerous and marked as a group |
| Permissions.ReadPermissions | FilterMethods.py:96-125 | success exactly when every data row has at least three cells, with an IndexError at the first short row otherwise; the result has one entry per data row plus 11; entry k is named by the stripped cell 0 of data row k, has the level from cell 2, and is not a group; the last 11 entries are the groups in order |
| Permissions.NoDeduplication | FilterMethods.py:37-43 | a name appears in the result once for every data row whose stripped cell 0 equals it, plus once if it is a group name: nothing is merged |
| Permissions.ResultNames | FilterMethods.py:103-121 | the names of a successful result are the stripped cell 0 of each data row, in file order, followed by the eleven group names in their listed order |
| Permissions.HeaderRowIgnored | FilterMethods.py:99-102 | the result does not depend on what the header row holds |
| Permissions.GroupTail | FilterMethods.py:120-121 | the group permission j sits j places after the last row-derived permission |
| Permissions.MissingCharacter | FilterMethods.py:109-111 | a pattern holding a character the text lacks is not found |
| Permissions.ExampleLevels | FilterMethods.py:109-114 | "dangerous permission" is classed dangerous and "normal level" normal |
| Permissions.StripUnpadded | FilterMethods.py:106 | a name with no whitespace at either end is its own stripped form |
| Permissions.CameraExampleRows | FilterMethods.py:103-118 | a CAMERA row described as dangerous and a SEND_SMS row described as normal become the first two permissions, with those levels and not groups |
| Permissions.CameraExample | FilterMethods.py:118-121 | that two-row file yields 13 permissions, and CAMERA appears again as a dangerous group entry |
| Text.Strip | FilterMethods.py:106 | the result is the input with its leading and trailing whitespace removed: an infix that neither starts nor ends with whitespace, with only whitespace outside it |
| Text.StripsToUnique | FilterMethods.py:106 | stripping has exactly one possible result |
| Text.StrippedEmptyIff | FilterMethods.py:106 | stripping yields "" exactly when the input is all whitespace |
| Text.Contains | FilterMethods.py:109-111 | true exactly when the pattern occurs at some position of the text |
| Text.OccurrencesAppend | FilterMethods.py:59-61 | counting a character distributes over concatenating renderings |
| Csv.DataRows | FilterMethods.py:99-102 | the rows after the header, in order; none when the file is empty |
| Csv.HeaderIgnored | FilterMethods.py:133-136 | the data rows do not depend on the header row |
| ApiDocs.ClassifyRow | FilterMethods.py:138-157 | package exactly when cell 1 is non-empty; class exactly when cell 1 is absent or empty and cell 2 non-empty; method exactly when cells 1 and 2 are absent or empty and cell 3 non-empty; a package takes cells 1 and 2, a class cells 2 and 3, a method cell 3 and the description "" |
| ApiDocs.Build | FilterMethods.py:132-157 | on success, the package, shared class and shared method lists are exactly the package, class and method rows in file order; the current package and class are the last of each |
| ApiDocs.PackageBeforeIff | FilterMethods.py:132-143 | a prefix has a current package exactly when it holds a package row |
| ApiDocs.ClassBeforeIff | FilterMethods.py:145-150 | a prefix has a current class exactly when it holds a class row, in any package |
| ApiDocs.StepFailsOnOrphan | FilterMethods.py:138-157 | after a successful prefix, one loop iteration (`Step`) on the next row fails exactly when it is a class row with no package before it or a method row with no class before it, and the error names that row and kind |
| ApiDocs.BuildSucceedsIff | FilterMethods.py:132-157 | the loop succeeds exactly when no row lacks its parent; otherwise it fails at the first such row, with the kind of target that was missing |
| ApiDocs.ReadApiDocs | FilterMethods.py:128-162 | success exactly when every class row follows some package row and every method row follows some class row; otherwise the first orphan row is reported; one package per package row, in file order, with its cells 1 and 2; every package holds all class rows, and every class holds all method rows |
| ApiDocs.HeaderRowIgnored | FilterMethods.py:133-136 | the result does not depend on what the header row holds |
| ApiDocs.PackageCountMatchesRows | FilterMethods.py:139-143 | the package count equals the number of data rows with a non-empty cell 1 |
| ApiDocs.SharedPackageNodeCount | FilterMethods.py:54-56 | a package built with the shared lists shows 1 + C × (1 + M) nodes, for C class rows and M method rows |
| ApiDocs.ClassBeforePackageFails | FilterMethods.py:132 | a class row as the first data row fails with no current package at row 1 |
| ApiDocs.MethodBeforeClassFails | FilterMethods.py:153-157 | a method row right after a package row, with no class row yet, fails with no current class at row 2 |
| ApiDocs.PackageKeepsCurrentClass | FilterMethods.py:140 | a package row does not clear the current class: a method row after a new package still joins the earlier class |
| ApiDocs.NetClientExample | FilterMethods.py:139-157 | a file with a package, class and method row gives one package holding one class with one method, whose description is "" |
| ApiNodes.RenderLinesAppend | FilterMethods.py:60-61 | rendering an outline distributes over concatenation |
| ApiNodes.RenderMethodsFollowOutline | FilterMethods.py:72-73 | the methods of a class render, one `RenderMethod` (`API_Method.to_string`, lines 82-83) after another, as their outline: each at depth 2, in order |
| ApiNodes.RenderClassFollowsOutline | FilterMethods.py:70-83 | `RenderClass` (`API_Class.to_string`) renders a class as its outline: a tab, its name, a newline, then each method as `RenderMethod` (`API_Method.to_string`) gives it, two tabs, name and newline |
| ApiNodes.RenderClassesFollowOutline | FilterMethods.py:60-61 | a list of classes renders as their outlines in order |
| ApiNodes.RenderFollowsOutline | FilterMethods.py:58-62 | `RenderPackage` (`API_Package.to_string`) renders a package as its pre-order outline: itself at depth 0, each class at depth 1, each method at depth 2, one line each |
| ApiNodes.RenderLinesNewlines | FilterMethods.py:59 | an outline of n lines renders with n newlines, plus any inside names |
| ApiNodes.IndentHasNoNewline | FilterMethods.py:71 | an indentation holds no newline |
| ApiNodes.ClassesOutlineLength | FilterMethods.py:70-75 | a list of classes outlines to one line per class and one per method |
| ApiNodes.RenderedLineCount | FilterMethods.py:58-83 | a package's rendering has exactly one newline per node shown, plus any newlines inside names |
| ApiTree.TreeStep | FilterMethods.py:138-157 | one corrected iteration keeps the current class pointing at an existing class |
| ApiTree.StepsCorrespond | FilterMethods.py:138-157 | one corrected iteration fails exactly when the source's does, with the same error, and otherwise keeps the same package names and descriptions |
| ApiTree.BuildTreeMatchesBuild | FilterMethods.py:132-157 | the corrected loop fails exactly where the source's does, with the same error, and otherwise yields the same package names and descriptions in order; a current class exactly when the source has one |
| ApiTree.ReadApiTree | FilterMethods.py:128-162 | the corrected reader has the source's success condition and error, and the same package names and descriptions in file order |
| ApiTree.HierarchicalPrefix | FilterMethods.py:133-157 | proper nesting holds of every prefix of the rows |
| ApiTree.BuildTreeFollowsRows | FilterMethods.py:133-157 | on properly nested rows, the corrected loop succeeds and its tree outline (every node's depth, name and description, in pre-order) is the rows' outline |
| ApiTree.TreeFollowsFileOrder | FilterMethods.py:128-162 | on properly nested rows, the corrected reader succeeds and its tree lists the rows' nodes in file order, each under the row that opened its parent, with the names and descriptions the rows give (cells 1-2 for a package, 2-3 for a class, cell 3 and "" for a method) |
| ApiTree.SharedListsBreakFileOrder | FilterMethods.py:54-56 | with package a, class X, package b and class Y, the source succeeds but lists Y under a, so its tree differs from the rows' outline |

## Left out

- Argument parsing, path-existence checks, `print` and `sys.exit` (FilterMethods.py:14-34, 168-175): these are command-line and I/O plumbing.
- Opening the files, their encodings, and the `csv.reader` Excel-dialect tokeniser: these belong to the library. The readers take the rows the tokeniser would yield.
- Text.Lower: lower-cases ASCII letters only. For the two ASCII patterns searched for, this gives the same answer as Python's full Unicode `lower()`. The only non-ASCII characters that lower-case into ASCII are U+212A and U+0130, and neither can complete a match of "dangerous" or "signature".
- Text.Contains: models `re.search` only for patterns without metacharacters, which are the only patterns used.
- `Permission.methods_needing_perm` and the `permissions` lists (FilterMethods.py:38, 47-50): these are declared but never filled.
- The commented-out debug printing (FilterMethods.py:123-124, 159-160).
- Permissions.ReadPermissions: returns a sequence, where the source returns a set. Iterating the set visits its members in an arbitrary order, fixed by the identity hashes of the `Permission` objects; the model fixes one order instead, the rows first and then the groups. Because the members are hashed and compared by identity, the set never merges entries, so the sequence has the same members and count.
- ApiTree.TreeFollowsFileOrder: covers properly nested rows only. When a method row follows a package row with no class row in between, the corrected reader appends the method to the class opened last, which sits in an earlier package, as appending to the source's `curr_class` object would. No lemma states where such a method lands.
- Repeat calls in one process. The shared default lists persist across calls, so a second call would start with the first call's classes and methods. The model covers one call from a fresh process, and no idempotence is claimed.

## Findings

| source | as written | input that shows it | evidently intended | confidence | as-written member | corrected member |
|---|---|---|---|---|---|---|
| FilterMethods.py:54-56, 66-68, 140, 147, 150, 157 | the nodes are built without their `classes` / `methods` arguments, so all packages share one default class list and all classes share one default method list | data rows: package a, class X, package b, class Y; both packages list X and Y, so Y appears under a | each package holds the classes that follow its row, and each class the methods that follow its row | high (not executed) | ApiTree.SharedListsBreakFileOrder | ApiTree.TreeFollowsFileOrder |
