/** `read_api_docs` as written. Each data row is classified by which of cells 1, 2, 3 is
    non-empty, in that priority, and adds a package, a class or a method.

    `API_Package` and `API_Class` are always built without their `classes` / `methods`
    argument, so every package holds the one default `classes` list and every class the one
    default `methods` list. The builder therefore keeps one package list, one shared class
    list and one shared method list, starting empty (a single call in a fresh process); in
    the result every package lists every class and every class lists every method. */
module ApiDocs {
  import opened Wrappers
  import opened Csv
  import opened ApiNodes

  /** What one data row stands for. */
  datatype RowKind =
    | PackageRow(name: string, description: string)
    | ClassRow(name: string, description: string)
    | MethodRow(name: string, description: string)
    | NoEntry

  /** A row that opens a package: cell 1 is present and non-empty. */
  predicate IsPackageRow(row: Row)
  {
    Cell(row, 1) != ""
  }

  /** A row that opens a class: no package name, a non-empty cell 2. */
  predicate IsClassRow(row: Row)
  {
    Cell(row, 1) == "" && Cell(row, 2) != ""
  }

  /** A row that adds a method: no package or class name, a non-empty cell 3. */
  predicate IsMethodRow(row: Row)
  {
    Cell(row, 1) == "" && Cell(row, 2) == "" && Cell(row, 3) != ""
  }

  /** The guards of the loop body, in their order. A cell beyond the end of the row counts
      as absent, never as an error. A method's description is read from cell 2 when the row
      has a cell 4; that branch is only reached with cell 2 empty, so it is always "". */
  function ClassifyRow(row: Row): (kind: RowKind)
    ensures kind.PackageRow? <==> IsPackageRow(row)
    ensures kind.ClassRow? <==> IsClassRow(row)
    ensures kind.MethodRow? <==> IsMethodRow(row)
    ensures kind.PackageRow? ==> kind.name == Cell(row, 1) && kind.description == Cell(row, 2)
    ensures kind.ClassRow? ==> kind.name == Cell(row, 2) && kind.description == Cell(row, 3)
    ensures kind.MethodRow? ==> kind.name == Cell(row, 3) && kind.description == ""
  {
    if |row| > 1 && row[1] != "" then
      PackageRow(row[1], if |row| > 2 then row[2] else "")
    else if |row| > 2 && row[2] != "" then
      ClassRow(row[2], if |row| > 3 then row[3] else "")
    else if |row| > 3 && row[3] != "" then
      MethodRow(row[3], if |row| > 4 then row[2] else "")
    else
      NoEntry
  }

  /** A package's or a class's own fields, without its children. */
  datatype Entry = Entry(name: string, description: string)

  /** The loop's state: the packages so far, the shared class and method lists, and the
      current package and class (None while `curr_package` / `curr_class` is still ""). */
  datatype Builder = Builder(
    packages: seq<Entry>,
    sharedClasses: seq<Entry>,
    sharedMethods: seq<Method>,
    currentPackage: Option<Entry>,
    currentClass: Option<Entry>)

  /** Appending to `"".classes` or `"".methods` raises AttributeError; `row` is the file row
      (the header being row 0). */
  datatype DocError = NoCurrentPackage(row: nat) | NoCurrentClass(row: nat)

  /** One iteration of the loop on file row `index`. */
  function Step(b: Builder, row: Row, index: nat): Result<Builder, DocError>
  {
    match ClassifyRow(row)
    case PackageRow(n, d) =>
      Success(b.(packages := b.packages + [Entry(n, d)], currentPackage := Some(Entry(n, d))))
    case ClassRow(n, d) =>
      if b.currentPackage.None? then Failure(NoCurrentPackage(index))
      else Success(b.(sharedClasses := b.sharedClasses + [Entry(n, d)], currentClass := Some(Entry(n, d))))
    case MethodRow(n, d) =>
      if b.currentClass.None? then Failure(NoCurrentClass(index))
      else Success(b.(sharedMethods := b.sharedMethods + [Method(n, d)]))
    case NoEntry =>
      Success(b)
  }

  /** Reference definition: the package rows of `data`, in file order. */
  function PackageEntries(data: seq<Row>): seq<Entry>
    decreases |data|
  {
    if |data| == 0 then []
    else
      var row := data[|data| - 1];
      PackageEntries(data[..|data| - 1]) + if IsPackageRow(row) then [Entry(Cell(row, 1), Cell(row, 2))] else []
  }

  /** Reference definition: the class rows of `data`, in file order. */
  function ClassEntries(data: seq<Row>): seq<Entry>
    decreases |data|
  {
    if |data| == 0 then []
    else
      var row := data[|data| - 1];
      ClassEntries(data[..|data| - 1]) + if IsClassRow(row) then [Entry(Cell(row, 2), Cell(row, 3))] else []
  }

  /** Reference definition: the method rows of `data`, in file order, each with the empty
      description. */
  function MethodEntries(data: seq<Row>): seq<Method>
    decreases |data|
  {
    if |data| == 0 then []
    else
      var row := data[|data| - 1];
      MethodEntries(data[..|data| - 1]) + if IsMethodRow(row) then [Method(Cell(row, 3), "")] else []
  }

  /** The loop over the data rows (file rows 1..|data|), stopping at the first failing row.
      On success the three lists are exactly the package, class and method rows in file
      order, and the current package and class are the last of each. */
  function Build(data: seq<Row>): (r: Result<Builder, DocError>)
    ensures r.Success? ==>
      && r.value.packages == PackageEntries(data)
      && r.value.sharedClasses == ClassEntries(data)
      && r.value.sharedMethods == MethodEntries(data)
      && r.value.currentPackage == LastOf(PackageEntries(data))
      && r.value.currentClass == LastOf(ClassEntries(data))
    decreases |data|
  {
    if |data| == 0 then
      Success(Builder([], [], [], None, None))
    else
      match Build(data[..|data| - 1])
      case Failure(e) => Failure(e)
      case Success(b) => Step(b, data[|data| - 1], |data|)
  }

  /** Some row before position `k` is a package row. */
  predicate PackageBefore(data: seq<Row>, k: int)
    requires 0 <= k <= |data|
  {
    exists j :: 0 <= j < k && IsPackageRow(data[j])
  }

  /** Some row before position `k` is a class row. */
  predicate ClassBefore(data: seq<Row>, k: int)
    requires 0 <= k <= |data|
  {
    exists j :: 0 <= j < k && IsClassRow(data[j])
  }

  /** Row `k` has no parent to be appended to: a class row with no package row before it, or
      a method row with no class row before it (in any package). */
  predicate Orphan(data: seq<Row>, k: int)
    requires 0 <= k < |data|
  {
    || (IsClassRow(data[k]) && !PackageBefore(data, k))
    || (IsMethodRow(data[k]) && !ClassBefore(data, k))
  }

  /** No data row is an orphan. */
  predicate ParentsPrecede(data: seq<Row>)
  {
    forall k :: 0 <= k < |data| ==> !Orphan(data, k)
  }

  /** `e` reports the first orphan row of `data`, as file row (data position + 1), and with
      the kind of target that was missing. */
  predicate FirstOrphan(data: seq<Row>, e: DocError)
  {
    && 1 <= e.row <= |data|
    && Orphan(data, e.row - 1)
    && (e.NoCurrentPackage? <==> IsClassRow(data[e.row - 1]))
    && forall k :: 0 <= k < e.row - 1 ==> !Orphan(data, k)
  }

  /** A prefix has a package row exactly when its package list is non-empty. */
  lemma {:induction false} PackageBeforeIff(data: seq<Row>, k: nat)
    requires k <= |data|
    ensures PackageBefore(data, k) <==> |PackageEntries(data[..k])| > 0
    decreases k
  {
    if k > 0 {
      assert data[..k][..k - 1] == data[..k - 1];
      PackageBeforeIff(data, k - 1);
    }
  }

  /** A prefix has a class row exactly when its class list is non-empty. */
  lemma {:induction false} ClassBeforeIff(data: seq<Row>, k: nat)
    requires k <= |data|
    ensures ClassBefore(data, k) <==> |ClassEntries(data[..k])| > 0
    decreases k
  {
    if k > 0 {
      assert data[..k][..k - 1] == data[..k - 1];
      ClassBeforeIff(data, k - 1);
    }
  }

  /** Whether a row is an orphan depends only on the rows up to it. */
  lemma OrphanInPrefix(data: seq<Row>, n: nat, k: nat)
    requires k < n <= |data|
    ensures Orphan(data, k) <==> Orphan(data[..n], k)
  {
    var init := data[..n];
    assert data[k] == init[k];
    assert PackageBefore(data, k) <==> PackageBefore(init, k) by {
      if PackageBefore(data, k) {
        var j :| 0 <= j < k && IsPackageRow(data[j]);
        assert init[j] == data[j];
      }
    }
    assert ClassBefore(data, k) <==> ClassBefore(init, k) by {
      if ClassBefore(data, k) {
        var j :| 0 <= j < k && IsClassRow(data[j]);
        assert init[j] == data[j];
      }
    }
  }

  /** After a successful prefix, the next row fails exactly when it is an orphan. */
  lemma StepFailsOnOrphan(data: seq<Row>)
    requires |data| > 0 && Build(data[..|data| - 1]).Success?
    ensures Build(data).Success? <==> !Orphan(data, |data| - 1)
    ensures Build(data).Failure? ==>
      Build(data).error.row == |data| &&
      (Build(data).error.NoCurrentPackage? <==> IsClassRow(data[|data| - 1]))
  {
    var n := |data| - 1;
    var b := Build(data[..n]).value;
    assert Build(data) == Step(b, data[n], |data|);
    PackageBeforeIff(data, n);
    ClassBeforeIff(data, n);
    assert b.currentPackage.None? <==> !PackageBefore(data, n);
    assert b.currentClass.None? <==> !ClassBefore(data, n);
  }

  /** The first orphan of a prefix is the first orphan of the whole. */
  lemma FirstOrphanExtends(data: seq<Row>, n: nat, e: DocError)
    requires n <= |data| && FirstOrphan(data[..n], e)
    ensures FirstOrphan(data, e) && !ParentsPrecede(data)
  {
    var m := e.row - 1;
    OrphanInPrefix(data, n, m);
    assert data[m] == data[..n][m];
    forall k | 0 <= k < m ensures !Orphan(data, k) {
      OrphanInPrefix(data, n, k);
    }
  }

  /** Once all but the last row have their parents, only the last row can be an orphan. */
  lemma LastOrphanDecides(data: seq<Row>, e: DocError)
    requires |data| > 0 && ParentsPrecede(data[..|data| - 1])
    requires e.row == |data| && (e.NoCurrentPackage? <==> IsClassRow(data[|data| - 1]))
    ensures ParentsPrecede(data) <==> !Orphan(data, |data| - 1)
    ensures Orphan(data, |data| - 1) ==> FirstOrphan(data, e)
  {
    var n := |data| - 1;
    forall k | 0 <= k < n ensures !Orphan(data, k) {
      OrphanInPrefix(data, n, k);
    }
  }

  /** A failure in the prefix is the failure of the whole. */
  lemma PrefixFailureStands(data: seq<Row>)
    requires |data| > 0
    requires Build(data[..|data| - 1]).Failure?
    requires FirstOrphan(data[..|data| - 1], Build(data[..|data| - 1]).error)
    ensures Build(data).Failure? && !ParentsPrecede(data)
    ensures FirstOrphan(data, Build(data).error)
  {
    var e := Build(data[..|data| - 1]).error;
    assert Build(data) == Failure(e);
    FirstOrphanExtends(data, |data| - 1, e);
  }

  /** After an orphan-free prefix, the whole succeeds exactly when the last row is no orphan. */
  lemma LastRowDecides(data: seq<Row>)
    requires |data| > 0
    requires Build(data[..|data| - 1]).Success? && ParentsPrecede(data[..|data| - 1])
    ensures Build(data).Success? <==> ParentsPrecede(data)
    ensures Build(data).Failure? ==> FirstOrphan(data, Build(data).error)
  {
    StepFailsOnOrphan(data);
    var e := if IsClassRow(data[|data| - 1]) then NoCurrentPackage(|data|) else NoCurrentClass(|data|);
    LastOrphanDecides(data, e);
    if Build(data).Failure? {
      assert Build(data).error == e;
    }
  }

  /** The loop succeeds exactly when no row is an orphan, and otherwise fails at the first
      orphan row. */
  lemma {:induction false} BuildSucceedsIff(data: seq<Row>)
    ensures Build(data).Success? <==> ParentsPrecede(data)
    ensures Build(data).Failure? ==> FirstOrphan(data, Build(data).error)
    decreases |data|
  {
    if |data| > 0 {
      BuildSucceedsIff(data[..|data| - 1]);
      if Build(data[..|data| - 1]).Success? {
        LastRowDecides(data);
      } else {
        PrefixFailureStands(data);
      }
    }
  }

  /** Every package lists all of `data`'s class rows, each of which lists all of its method
      rows: the shape the shared default lists give. */
  predicate HoldsAllRows(p: Package, data: seq<Row>)
  {
    && |p.classes| == |ClassEntries(data)|
    && forall j :: 0 <= j < |p.classes| ==>
      && p.classes[j].name == ClassEntries(data)[j].name
      && p.classes[j].description == ClassEntries(data)[j].description
      && p.classes[j].methods == MethodEntries(data)
  }

  /** The packages as the caller sees them once the loop is over: each package object's
      `classes` is the shared class list, and each class's `methods` the shared method list. */
  function Assemble(b: Builder): seq<Package>
  {
    var classes := seq(|b.sharedClasses|, j requires 0 <= j < |b.sharedClasses| =>
      Class(b.sharedClasses[j].name, b.sharedClasses[j].description, b.sharedMethods));
    seq(|b.packages|, i requires 0 <= i < |b.packages| =>
      Package(b.packages[i].name, b.packages[i].description, classes))
  }

  /** `read_api_docs` on the rows of the API documentation file. */
  function ReadApiDocs(rows: seq<Row>): (r: Result<seq<Package>, DocError>)
    ensures r.Success? <==> ParentsPrecede(DataRows(rows))
    ensures r.Failure? ==> FirstOrphan(DataRows(rows), r.error)
    ensures r.Success? ==>
      && |r.value| == |PackageEntries(DataRows(rows))|
      && forall i :: 0 <= i < |r.value| ==>
        && r.value[i].name == PackageEntries(DataRows(rows))[i].name
        && r.value[i].description == PackageEntries(DataRows(rows))[i].description
        && HoldsAllRows(r.value[i], DataRows(rows))
  {
    BuildSucceedsIff(DataRows(rows));
    match Build(DataRows(rows))
    case Failure(e) => Failure(e)
    case Success(b) => Success(Assemble(b))
  }

  /** The header row never contributes a node: whatever it holds, the result is the same. */
  lemma HeaderRowIgnored(h1: Row, h2: Row, data: seq<Row>)
    ensures ReadApiDocs([h1] + data) == ReadApiDocs([h2] + data)
  {
    HeaderIgnored(h1, h2, data);
  }

  /** As many packages come out as there are data rows with a non-empty cell 1. */
  lemma {:induction false} PackageCountMatchesRows(data: seq<Row>)
    ensures |PackageEntries(data)| == |set k | 0 <= k < |data| && IsPackageRow(data[k])|
    decreases |data|
  {
    if |data| > 0 {
      var n := |data| - 1;
      var init := data[..n];
      PackageCountMatchesRows(init);
      var before := set k | 0 <= k < n && IsPackageRow(init[k]);
      var after := set k | 0 <= k < |data| && IsPackageRow(data[k]);
      if IsPackageRow(data[n]) {
        assert after == before + {n};
      } else {
        assert after == before;
      }
    }
  }

  /** In the shared-list shape, a package renders as itself, every class, and below each
      class every method, so its node count is 1 + C * (1 + M). */
  lemma SharedPackageNodeCount(p: Package, data: seq<Row>)
    requires HoldsAllRows(p, data)
    ensures NodeCount(p) == 1 + |ClassEntries(data)| * (1 + |MethodEntries(data)|)
  {
    var c := |p.classes|;
    var m := |MethodEntries(data)|;
    assert forall j :: 0 <= j < c ==> |p.classes[j].methods| == m;
    SameMethodsCount(p.classes, m);
    assert c * (1 + m) == c + c * m;
  }

  /** Classes that all hold `m` methods hold `|cs| * m` methods between them. */
  lemma {:induction false} SameMethodsCount(cs: seq<Class>, m: nat)
    requires forall j :: 0 <= j < |cs| ==> |cs[j].methods| == m
    ensures MethodCount(cs) == |cs| * m
    decreases |cs|
  {
    if |cs| > 0 {
      SameMethodsCount(cs[..|cs| - 1], m);
    }
  }

  /** A class row as the first data row has no package to join. */
  lemma ClassBeforePackageFails(rows: seq<Row>)
    requires rows == [["lib"], ["", "", "Widget"]]
    ensures ReadApiDocs(rows) == Failure(NoCurrentPackage(1))
  {
    var data := DataRows(rows);
    assert data == [["", "", "Widget"]];
    assert data[..0] == [] && data[..|data| - 1] == data[..0];
    assert Build(data[..0]) == Success(Builder([], [], [], None, None));
    assert ClassifyRow(data[0]) == ClassRow("Widget", "");
  }

  /** A method row after a package row but before any class row has no class to join. */
  lemma MethodBeforeClassFails(rows: seq<Row>)
    requires rows == [["lib"], ["", "pkg"], ["", "", "", "run"]]
    ensures ReadApiDocs(rows) == Failure(NoCurrentClass(2))
  {
    var data := DataRows(rows);
    assert data == [["", "pkg"], ["", "", "", "run"]];
    assert data[..1][..0] == [] && data[..|data| - 1] == data[..1];
    assert Build(data[..1][..0]) == Success(Builder([], [], [], None, None));
    assert ClassifyRow(data[0]) == PackageRow("pkg", "");
    assert ClassifyRow(data[1]) == MethodRow("run", "");
    assert Build(data[..1]).value.currentClass == None;
  }

  /** The reference lists of rows with one more row appended. */
  lemma EntriesAppend(data: seq<Row>, row: Row)
    ensures PackageEntries(data + [row]) ==
      PackageEntries(data) + if IsPackageRow(row) then [Entry(Cell(row, 1), Cell(row, 2))] else []
    ensures ClassEntries(data + [row]) ==
      ClassEntries(data) + if IsClassRow(row) then [Entry(Cell(row, 2), Cell(row, 3))] else []
    ensures MethodEntries(data + [row]) ==
      MethodEntries(data) + if IsMethodRow(row) then [Method(Cell(row, 3), "")] else []
  {
    assert (data + [row])[..|data|] == data;
  }

  /** The data rows of the current-class example: package a, class X, package b, method run. */
  lemma CurrentClassRows(data: seq<Row>)
    requires data == [["", "a"], ["", "", "X"], ["", "b"], ["", "", "", "run"]]
    ensures ParentsPrecede(data)
    ensures |PackageEntries(data)| == 2
    ensures ClassEntries(data) == [Entry("X", "")]
    ensures MethodEntries(data) == [Method("run", "")]
  {
    var r0, r1, r2, r3 := data[0], data[1], data[2], data[3];
    assert data == [r0, r1, r2, r3];
    assert IsPackageRow(r0) && Cell(r0, 1) == "a" && Cell(r0, 2) == "";
    assert IsClassRow(r1) && Cell(r1, 2) == "X" && Cell(r1, 3) == "";
    assert IsPackageRow(r2) && Cell(r2, 1) == "b" && Cell(r2, 2) == "";
    assert IsMethodRow(r3) && Cell(r3, 3) == "run";
    assert ParentsPrecede(data) by {
      assert PackageBefore(data, 1) && ClassBefore(data, 3);
      assert forall k :: 0 <= k < |data| ==> !Orphan(data, k);
    }
    var d1, d2, d3 := [r0], [r0, r1], [r0, r1, r2];
    assert |PackageEntries(d1)| == 1 && ClassEntries(d1) == [] && MethodEntries(d1) == [] by {
      EntriesAppend([], r0);
      assert [] + [r0] == d1;
    }
    assert |PackageEntries(d2)| == 1 && ClassEntries(d2) == [Entry("X", "")] && MethodEntries(d2) == [] by {
      EntriesAppend(d1, r1);
      assert d1 + [r1] == d2;
    }
    assert |PackageEntries(d3)| == 2 && ClassEntries(d3) == [Entry("X", "")] && MethodEntries(d3) == [] by {
      EntriesAppend(d2, r2);
      assert d2 + [r2] == d3;
    }
    EntriesAppend(d3, r3);
    assert d3 + [r3] == data;
  }

  /** A new package row does not clear the current class: a method row right after it is
      accepted and lands in the one shared method list, which every class, in every package,
      shows. */
  lemma PackageKeepsCurrentClass(rows: seq<Row>)
    requires rows == [["lib"], ["", "a"], ["", "", "X"], ["", "b"], ["", "", "", "run"]]
    ensures ReadApiDocs(rows).Success?
    ensures |ReadApiDocs(rows).value| == 2
    ensures forall i :: 0 <= i < 2 ==>
      ReadApiDocs(rows).value[i].classes == [Class("X", "", [Method("run", "")])]
  {
    var data := DataRows(rows);
    CurrentClassRows(data);
    var ps := ReadApiDocs(rows).value;
    forall i | 0 <= i < 2 ensures ps[i].classes == [Class("X", "", [Method("run", "")])] {
      assert HoldsAllRows(ps[i], data);
      assert ps[i].classes[0] == Class("X", "", [Method("run", "")]);
    }
  }

  /** The data rows of a file with one package row, one class row and one method row. */
  lemma NetClientRows(data: seq<Row>)
    requires data == [["", "pkg.net", "networking pkg", ""],
                      ["", "", "NetClient", "client class"],
                      ["", "", "", "connect", "opens connection"]]
    ensures ParentsPrecede(data)
    ensures PackageEntries(data) == [Entry("pkg.net", "networking pkg")]
    ensures ClassEntries(data) == [Entry("NetClient", "client class")]
    ensures MethodEntries(data) == [Method("connect", "")]
  {
    var r0, r1, r2 := data[0], data[1], data[2];
    assert data == [r0, r1, r2];
    assert IsPackageRow(r0) && Cell(r0, 1) == "pkg.net" && Cell(r0, 2) == "networking pkg";
    assert IsClassRow(r1) && Cell(r1, 2) == "NetClient" && Cell(r1, 3) == "client class";
    assert IsMethodRow(r2) && Cell(r2, 3) == "connect";
    assert ParentsPrecede(data) by {
      assert PackageBefore(data, 1) && ClassBefore(data, 2);
      assert forall k :: 0 <= k < |data| ==> !Orphan(data, k);
    }
    EntriesAppend([], r0);
    assert [] + [r0] == [r0];
    EntriesAppend([r0], r1);
    EntriesAppend([r0, r1], r2);
    assert [r0] + [r1] == [r0, r1] && [r0, r1] + [r2] == data;
  }

  /** A file with one package row, one class row and one method row gives one package
      holding one class holding one method. The method's
      description is "", since cell 2 is empty on every method row; the "opens connection"
      in cell 4 is never read. */
  lemma NetClientExample(rows: seq<Row>)
    requires rows == [["lib", "", "", ""],
                      ["", "pkg.net", "networking pkg", ""],
                      ["", "", "NetClient", "client class"],
                      ["", "", "", "connect", "opens connection"]]
    ensures ReadApiDocs(rows) ==
      Success([Package("pkg.net", "networking pkg", [Class("NetClient", "client class", [Method("connect", "")])])])
  {
    var data := DataRows(rows);
    NetClientRows(data);
    var ps := ReadApiDocs(rows).value;
    assert |ps| == 1 && HoldsAllRows(ps[0], data);
    assert ps[0].classes[0] == Class("NetClient", "client class", [Method("connect", "")]);
    assert ps[0] == Package("pkg.net", "networking pkg", [Class("NetClient", "client class", [Method("connect", "")])]);
    assert ps == [ps[0]];
  }
}
