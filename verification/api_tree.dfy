/** `read_api_docs` with the shared default lists replaced by a fresh child list per node,
    which is what the loop evidently means by appending to `curr_package.classes` and
    `curr_class.methods`. Row classification, the error cases and the current class
    surviving a new package row are as in the source. */
module ApiTree {
  import opened Wrappers
  import opened Csv
  import opened ApiNodes
  import opened ApiDocs

  /** Where the current class sits: class `index` of package `package`. */
  datatype ClassPosition = ClassPosition(package: nat, index: nat)

  /** The packages built so far, the current package being the last one, and the position of
      the current class. */
  datatype TreeBuilder = TreeBuilder(packages: seq<Package>, currentClass: Option<ClassPosition>)

  /** The current class, when there is one, exists. */
  predicate Valid(b: TreeBuilder)
  {
    b.currentClass.Some? ==>
      && b.currentClass.value.package < |b.packages|
      && b.currentClass.value.index < |b.packages[b.currentClass.value.package].classes|
  }

  /** `p` with `c` appended to its classes. */
  function AddClass(p: Package, c: Class): Package
  {
    p.(classes := p.classes + [c])
  }

  /** `p` with `m` appended to the methods of its class `index`. */
  function AddMethod(p: Package, index: nat, m: Method): Package
    requires index < |p.classes|
  {
    var c := p.classes[index];
    p.(classes := p.classes[index := c.(methods := c.methods + [m])])
  }

  /** One iteration of the corrected loop on file row `index`. A method joins the class
      opened last, which is in an earlier package when no class row has followed the latest
      package row. */
  function TreeStep(b: TreeBuilder, row: Row, index: nat): (r: Result<TreeBuilder, DocError>)
    requires Valid(b)
    ensures r.Success? ==> Valid(r.value)
  {
    match ClassifyRow(row)
    case PackageRow(n, d) =>
      Success(b.(packages := b.packages + [Package(n, d, [])]))
    case ClassRow(n, d) =>
      if |b.packages| == 0 then Failure(NoCurrentPackage(index))
      else
        var last := |b.packages| - 1;
        Success(TreeBuilder(b.packages[last := AddClass(b.packages[last], Class(n, d, []))],
                            Some(ClassPosition(last, |b.packages[last].classes|))))
    case MethodRow(n, d) =>
      if b.currentClass.None? then Failure(NoCurrentClass(index))
      else
        var pos := b.currentClass.value;
        Success(b.(packages := b.packages[pos.package := AddMethod(b.packages[pos.package], pos.index, Method(n, d))]))
    case NoEntry =>
      Success(b)
  }

  /** The corrected loop over the data rows. */
  function BuildTree(data: seq<Row>): (r: Result<TreeBuilder, DocError>)
    ensures r.Success? ==> Valid(r.value)
    decreases |data|
  {
    if |data| == 0 then
      Success(TreeBuilder([], None))
    else
      match BuildTree(data[..|data| - 1])
      case Failure(e) => Failure(e)
      case Success(b) => TreeStep(b, data[|data| - 1], |data|)
  }

  /** The corrected state `t` and the source's state `b` have the same packages, in order,
      and each has a current package and a current class exactly when the other does. */
  predicate Corresponds(t: TreeBuilder, b: Builder)
  {
    && |t.packages| == |b.packages|
    && (forall i :: 0 <= i < |b.packages| ==>
          t.packages[i].name == b.packages[i].name && t.packages[i].description == b.packages[i].description)
    && (b.currentPackage.Some? <==> |t.packages| > 0)
    && (b.currentClass.Some? <==> t.currentClass.Some?)
  }

  /** One iteration keeps the two states corresponding, and fails alike. */
  lemma StepsCorrespond(t: TreeBuilder, b: Builder, row: Row, index: nat)
    requires Valid(t) && Corresponds(t, b)
    ensures TreeStep(t, row, index).Success? <==> Step(b, row, index).Success?
    ensures TreeStep(t, row, index).Failure? ==> TreeStep(t, row, index).error == Step(b, row, index).error
    ensures TreeStep(t, row, index).Success? ==> Corresponds(TreeStep(t, row, index).value, Step(b, row, index).value)
  {
  }

  /** The corrected loop fails exactly where the source's does, and otherwise has the same
      packages, in the same order, and a current class exactly when the source has one. */
  lemma {:induction false} BuildTreeMatchesBuild(data: seq<Row>)
    ensures BuildTree(data).Success? <==> Build(data).Success?
    ensures BuildTree(data).Failure? ==> BuildTree(data).error == Build(data).error
    ensures BuildTree(data).Success? ==> Corresponds(BuildTree(data).value, Build(data).value)
    decreases |data|
  {
    if |data| > 0 {
      var init := data[..|data| - 1];
      BuildTreeMatchesBuild(init);
      if BuildTree(init).Success? {
        StepsCorrespond(BuildTree(init).value, Build(init).value, data[|data| - 1], |data|);
      }
    }
  }

  /** The corrected `read_api_docs`: the same errors and the same packages as the source, but
      each package holding its own classes and each class its own methods. */
  function ReadApiTree(rows: seq<Row>): (r: Result<seq<Package>, DocError>)
    ensures r.Success? <==> ParentsPrecede(DataRows(rows))
    ensures r.Failure? ==> FirstOrphan(DataRows(rows), r.error)
    ensures r.Success? ==>
      && |r.value| == |PackageEntries(DataRows(rows))|
      && forall i :: 0 <= i < |r.value| ==>
        && r.value[i].name == PackageEntries(DataRows(rows))[i].name
        && r.value[i].description == PackageEntries(DataRows(rows))[i].description
  {
    BuildTreeMatchesBuild(DataRows(rows));
    BuildSucceedsIff(DataRows(rows));
    assert Build(DataRows(rows)).Success? ==> Build(DataRows(rows)).value.packages == PackageEntries(DataRows(rows));
    match BuildTree(DataRows(rows))
    case Failure(e) => Failure(e)
    case Success(b) => Success(b.packages)
  }

  /** The outline line a data row stands for, if any: a package with cells 1 and 2, a class
      with cells 2 and 3, a method with cell 3 and the empty description the reader gives it. */
  function RowLine(row: Row): seq<Line>
  {
    if IsPackageRow(row) then [Line(0, Cell(row, 1), Cell(row, 2))]
    else if IsClassRow(row) then [Line(1, Cell(row, 2), Cell(row, 3))]
    else if IsMethodRow(row) then [Line(2, Cell(row, 3), "")]
    else []
  }

  /** The outline the rows spell out in file order. */
  function RowOutline(data: seq<Row>): seq<Line>
    decreases |data|
  {
    if |data| == 0 then [] else RowOutline(data[..|data| - 1]) + RowLine(data[|data| - 1])
  }

  /** No package row comes after position `j`. */
  predicate NoPackageAfter(data: seq<Row>, j: int)
    requires 0 <= j < |data|
  {
    forall l :: j < l < |data| ==> !IsPackageRow(data[l])
  }

  /** Some class row comes after the last package row. */
  predicate ClassSinceLastPackage(data: seq<Row>)
  {
    exists j :: 0 <= j < |data| && IsClassRow(data[j]) && NoPackageAfter(data, j)
  }

  /** Input whose rows nest properly: no orphans, and every method row follows a class row of
      the package it appears in. */
  predicate Hierarchical(data: seq<Row>)
  {
    && ParentsPrecede(data)
    && forall k :: 0 <= k < |data| && IsMethodRow(data[k]) ==> ClassSinceLastPackage(data[..k])
  }

  /** How one more row changes whether a class row follows the last package row. */
  lemma ClassSinceStep(data: seq<Row>)
    requires |data| > 0
    ensures ClassSinceLastPackage(data) <==>
      (IsClassRow(data[|data| - 1]) ||
       (!IsPackageRow(data[|data| - 1]) && ClassSinceLastPackage(data[..|data| - 1])))
  {
    var n := |data| - 1;
    var init := data[..n];
    if ClassSinceLastPackage(data) && !IsClassRow(data[n]) {
      var j :| 0 <= j < |data| && IsClassRow(data[j]) && NoPackageAfter(data, j);
      assert j < n;
      assert init[j] == data[j];
      assert NoPackageAfter(init, j) by {
        forall l | j < l < n ensures !IsPackageRow(init[l]) {
          assert init[l] == data[l];
        }
      }
    }
    if IsClassRow(data[n]) {
      assert NoPackageAfter(data, n);
    } else if !IsPackageRow(data[n]) && ClassSinceLastPackage(init) {
      var j :| 0 <= j < n && IsClassRow(init[j]) && NoPackageAfter(init, j);
      assert data[j] == init[j];
      assert NoPackageAfter(data, j) by {
        forall l | j < l < |data| ensures !IsPackageRow(data[l]) {
          if l < n { assert data[l] == init[l]; }
        }
      }
    }
  }

  /** Proper nesting holds of every prefix. */
  lemma HierarchicalPrefix(data: seq<Row>)
    requires |data| > 0 && Hierarchical(data)
    ensures Hierarchical(data[..|data| - 1])
  {
    var n := |data| - 1;
    var init := data[..n];
    forall k | 0 <= k < n ensures !Orphan(init, k) {
      OrphanInPrefix(data, n, k);
    }
    forall k | 0 <= k < n && IsMethodRow(init[k]) ensures ClassSinceLastPackage(init[..k]) {
      assert init[k] == data[k];
      assert init[..k] == data[..k];
    }
  }

  /** Replacing the last package replaces the tail of the outline. */
  lemma OutlineReplaceLast(ps: seq<Package>, p: Package)
    requires |ps| > 0
    ensures TreeOutline(ps[|ps| - 1 := p]) == TreeOutline(ps[..|ps| - 1]) + PackageOutline(p)
  {
    assert ps[|ps| - 1 := p][..|ps| - 1] == ps[..|ps| - 1];
  }

  /** A class appended to a package adds one line at the end of its outline. */
  lemma OutlineAddClass(p: Package, c: Class)
    requires c.methods == []
    ensures PackageOutline(AddClass(p, c)) == PackageOutline(p) + [Line(1, c.name, c.description)]
  {
    var cs := p.classes + [c];
    assert cs[..|cs| - 1] == p.classes;
  }

  /** A method appended to a package's last class adds one line at the end of its outline. */
  lemma OutlineAddMethod(p: Package, m: Method)
    requires |p.classes| > 0
    ensures PackageOutline(AddMethod(p, |p.classes| - 1, m)) == PackageOutline(p) + [Line(2, m.name, m.description)]
  {
    var last := |p.classes| - 1;
    var c := p.classes[last];
    var c' := c.(methods := c.methods + [m]);
    var cs := p.classes[last := c'];
    assert cs[..last] == p.classes[..last];
    assert c'.methods[..|c.methods|] == c.methods;
    assert ClassOutline(c') == ClassOutline(c) + [Line(2, m.name, m.description)];
  }

  /** The last package has at least one class. */
  predicate LastHasClass(t: TreeBuilder)
  {
    |t.packages| > 0 && |t.packages[|t.packages| - 1].classes| > 0
  }

  /** What the corrected loop keeps true over properly nested rows `data`: the tree's outline
      is the rows' outline, and when a class row follows the last package row, the current
      class is the last class of the last package. */
  predicate FollowsRows(data: seq<Row>, t: TreeBuilder)
  {
    && TreeOutline(t.packages) == RowOutline(data)
    && (ClassSinceLastPackage(data) <==> LastHasClass(t))
    && (ClassSinceLastPackage(data) ==>
          t.currentClass == Some(ClassPosition(|t.packages| - 1, |t.packages[|t.packages| - 1].classes| - 1)))
  }

  /** A package row adds a package line. */
  lemma PackageStepFollows(data: seq<Row>, t: TreeBuilder)
    requires |data| > 0 && Valid(t) && FollowsRows(data[..|data| - 1], t)
    requires IsPackageRow(data[|data| - 1])
    ensures TreeStep(t, data[|data| - 1], |data|).Success?
    ensures FollowsRows(data, TreeStep(t, data[|data| - 1], |data|).value)
  {
    ClassSinceStep(data);
    var ps := t.packages;
    var p := Package(Cell(data[|data| - 1], 1), Cell(data[|data| - 1], 2), []);
    assert (ps + [p])[..|ps|] == ps;
  }

  /** A class row adds a class line under the last package. */
  lemma ClassStepFollows(data: seq<Row>, t: TreeBuilder)
    requires |data| > 0 && Valid(t) && FollowsRows(data[..|data| - 1], t)
    requires IsClassRow(data[|data| - 1]) && |t.packages| > 0
    ensures TreeStep(t, data[|data| - 1], |data|).Success?
    ensures FollowsRows(data, TreeStep(t, data[|data| - 1], |data|).value)
  {
    ClassSinceStep(data);
    var ps := t.packages;
    var c := Class(Cell(data[|data| - 1], 2), Cell(data[|data| - 1], 3), []);
    OutlineReplaceLast(ps, AddClass(ps[|ps| - 1], c));
    OutlineAddClass(ps[|ps| - 1], c);
  }

  /** A method row adds a method line under the last class of the last package. */
  lemma MethodStepFollows(data: seq<Row>, t: TreeBuilder)
    requires |data| > 0 && Valid(t) && FollowsRows(data[..|data| - 1], t)
    requires IsMethodRow(data[|data| - 1]) && ClassSinceLastPackage(data[..|data| - 1])
    ensures TreeStep(t, data[|data| - 1], |data|).Success?
    ensures FollowsRows(data, TreeStep(t, data[|data| - 1], |data|).value)
  {
    var row := data[|data| - 1];
    var init := data[..|data| - 1];
    var ps := t.packages;
    var m := Method(Cell(row, 3), "");
    var last := |ps| - 1;
    var p' := AddMethod(ps[last], |ps[last].classes| - 1, m);
    var t' := t.(packages := ps[last := p']);
    assert TreeStep(t, row, |data|) == Success(t');
    assert ClassSinceLastPackage(data) by {
      ClassSinceStep(data);
    }
    MethodLineAppended(data, ps);
    assert LastHasClass(t') && |p'.classes| == |ps[last].classes|;
  }

  /** Appending a method row's method to the last class of the last package appends the
      row's line to the tree's outline. */
  lemma MethodLineAppended(data: seq<Row>, ps: seq<Package>)
    requires |data| > 0 && IsMethodRow(data[|data| - 1])
    requires |ps| > 0 && |ps[|ps| - 1].classes| > 0
    requires TreeOutline(ps) == RowOutline(data[..|data| - 1])
    ensures TreeOutline(ps[|ps| - 1 := AddMethod(ps[|ps| - 1], |ps[|ps| - 1].classes| - 1, Method(Cell(data[|data| - 1], 3), ""))])
      == RowOutline(data)
  {
    var row := data[|data| - 1];
    var m := Method(Cell(row, 3), "");
    var last := |ps| - 1;
    OutlineReplaceLast(ps, AddMethod(ps[last], |ps[last].classes| - 1, m));
    OutlineAddMethod(ps[last], m);
    assert RowOutline(data) == RowOutline(data[..|data| - 1]) + [Line(2, Cell(row, 3), "")];
  }

  /** A row with none of cells 1..3 changes nothing. */
  lemma EmptyStepFollows(data: seq<Row>, t: TreeBuilder)
    requires |data| > 0 && Valid(t) && FollowsRows(data[..|data| - 1], t)
    requires ClassifyRow(data[|data| - 1]).NoEntry?
    ensures TreeStep(t, data[|data| - 1], |data|) == Success(t)
    ensures FollowsRows(data, t)
  {
    ClassSinceStep(data);
  }

  /** For properly nested rows, the corrected tree lists the rows' nodes in file order, each
      under the package or class row that most recently precedes it. */
  lemma {:induction false} BuildTreeFollowsRows(data: seq<Row>)
    requires Hierarchical(data)
    ensures BuildTree(data).Success?
    ensures FollowsRows(data, BuildTree(data).value)
    decreases |data|
  {
    BuildSucceedsIff(data);
    BuildTreeMatchesBuild(data);
    if |data| > 0 {
      var n := |data| - 1;
      var init := data[..n];
      var row := data[n];
      HierarchicalPrefix(data);
      BuildTreeFollowsRows(init);
      BuildTreeMatchesBuild(init);
      var t := BuildTree(init).value;
      if IsPackageRow(row) {
        PackageStepFollows(data, t);
      } else if IsClassRow(row) {
        ParentOfLastRow(data);
        ClassStepFollows(data, t);
      } else if IsMethodRow(row) {
        ParentOfLastRow(data);
        MethodStepFollows(data, t);
      } else {
        EmptyStepFollows(data, t);
      }
    }
  }

  /** The last row of properly nested rows meets the condition its kind needs. */
  lemma ParentOfLastRow(data: seq<Row>)
    requires |data| > 0 && Hierarchical(data)
    ensures IsMethodRow(data[|data| - 1]) ==> ClassSinceLastPackage(data[..|data| - 1])
    ensures IsClassRow(data[|data| - 1]) ==> |PackageEntries(data[..|data| - 1])| > 0
  {
    var n := |data| - 1;
    assert !Orphan(data, n);
    PackageBeforeIff(data, n);
  }

  /** The corrected reader, on properly nested rows, gives the tree the rows describe:
      rendering its packages shows the rows' nodes in file order. */
  lemma TreeFollowsFileOrder(rows: seq<Row>)
    requires Hierarchical(DataRows(rows))
    ensures ReadApiTree(rows).Success?
    ensures TreeOutline(ReadApiTree(rows).value) == RowOutline(DataRows(rows))
  {
    BuildTreeFollowsRows(DataRows(rows));
  }

  /** The rows of the two-package example: package a, class X, package b, class Y. */
  predicate IsTwoPackageExample(rows: seq<Row>)
  {
    rows == [["lib"], ["", "a"], ["", "", "X"], ["", "b"], ["", "", "Y"]]
  }

  /** The source, on properly nested rows, lists class Y under package a although Y's row
      follows package b's row, and its outline differs from the rows' outline. */
  lemma SharedListsBreakFileOrder(rows: seq<Row>)
    requires IsTwoPackageExample(rows)
    ensures Hierarchical(DataRows(rows))
    ensures ReadApiDocs(rows).Success?
    ensures |ReadApiDocs(rows).value| == 2 && |ReadApiDocs(rows).value[0].classes| == 2
    ensures ReadApiDocs(rows).value[0].name == "a"
    ensures ReadApiDocs(rows).value[0].classes[1].name == "Y"
    ensures TreeOutline(ReadApiDocs(rows).value) != RowOutline(DataRows(rows))
  {
    var data := DataRows(rows);
    assert data == [["", "a"], ["", "", "X"], ["", "b"], ["", "", "Y"]];
    assert ParentsPrecede(data) by {
      assert IsPackageRow(data[0]);
      assert !IsMethodRow(data[0]) && !IsMethodRow(data[1]) && !IsMethodRow(data[2]) && !IsMethodRow(data[3]);
    }
    assert !IsMethodRow(data[0]) && !IsMethodRow(data[1]) && !IsMethodRow(data[2]) && !IsMethodRow(data[3]);
    ExampleEntries(data);
    var ps := ReadApiDocs(rows).value;
    assert |ps| == 2;
    assert ps[0].classes[1].name == "Y";
    assert |RowOutline(data)| == 4 by { RowOutlineExample(data); }
    assert |TreeOutline(ps)| >= |PackageOutline(ps[0])| + |PackageOutline(ps[1])| by {
      assert ps[..1][..0] == [];
      assert ps[..|ps| - 1] == ps[..1];
    }
    ClassesOutlineLength(ps[0].classes);
    ClassesOutlineLength(ps[1].classes);
  }

  /** The package and class rows of the two-package example. */
  lemma ExampleEntries(data: seq<Row>)
    requires data == [["", "a"], ["", "", "X"], ["", "b"], ["", "", "Y"]]
    ensures PackageEntries(data) == [Entry("a", ""), Entry("b", "")]
    ensures ClassEntries(data) == [Entry("X", ""), Entry("Y", "")]
  {
    var d0, d1, d2 := data[..1], data[..2], data[..3];
    assert d0[..0] == [] && d1[..1] == d0 && d2[..2] == d1 && data[..3] == d2;
    assert Cell(data[0], 1) == "a" && Cell(data[0], 2) == "";
    assert Cell(data[1], 1) == "" && Cell(data[1], 2) == "X" && Cell(data[1], 3) == "";
    assert Cell(data[2], 1) == "b" && Cell(data[2], 2) == "";
    assert Cell(data[3], 1) == "" && Cell(data[3], 2) == "Y" && Cell(data[3], 3) == "";
    assert PackageEntries(d0) == [Entry("a", "")] && ClassEntries(d0) == [];
    assert PackageEntries(d1) == [Entry("a", "")] && ClassEntries(d1) == [Entry("X", "")];
    assert PackageEntries(d2) == [Entry("a", ""), Entry("b", "")] && ClassEntries(d2) == [Entry("X", "")];
  }

  /** The rows of the two-package example spell out four lines. */
  lemma RowOutlineExample(data: seq<Row>)
    requires data == [["", "a"], ["", "", "X"], ["", "b"], ["", "", "Y"]]
    ensures RowOutline(data) == [Line(0, "a", ""), Line(1, "X", ""), Line(0, "b", ""), Line(1, "Y", "")]
  {
    var d0, d1, d2 := data[..1], data[..2], data[..3];
    assert d0[..0] == [] && d1[..1] == d0 && d2[..2] == d1 && data[..3] == d2;
    assert Cell(data[0], 1) == "a";
    assert Cell(data[1], 1) == "" && Cell(data[1], 2) == "X";
    assert Cell(data[2], 1) == "b";
    assert Cell(data[3], 1) == "" && Cell(data[3], 2) == "Y";
    assert RowOutline(d0) == [Line(0, "a", "")];
    assert RowOutline(d1) == [Line(0, "a", ""), Line(1, "X", "")];
    assert RowOutline(d2) == [Line(0, "a", ""), Line(1, "X", ""), Line(0, "b", "")];
  }
}
