/** The API documentation nodes (`API_Package`, `API_Class`, `API_Method`) and their
    `to_string` rendering. The `permissions` list every node carries is never filled in and
    is not modelled. */
module ApiNodes {
  import opened Text

  datatype Method = Method(name: string, description: string)

  datatype Class = Class(name: string, description: string, methods: seq<Method>)

  datatype Package = Package(name: string, description: string, classes: seq<Class>)

  /** `API_Method.to_string`. */
  function RenderMethod(m: Method): string
  {
    "\t\t" + m.name + "\n"
  }

  /** The renderings of `ms`, concatenated in order (the loop in `API_Class.to_string`). */
  function RenderMethods(ms: seq<Method>): string
    decreases |ms|
  {
    if |ms| == 0 then "" else RenderMethods(ms[..|ms| - 1]) + RenderMethod(ms[|ms| - 1])
  }

  /** `API_Class.to_string`. */
  function RenderClass(c: Class): string
  {
    "\t" + c.name + "\n" + RenderMethods(c.methods)
  }

  /** The renderings of `cs`, concatenated in order (the loop in `API_Package.to_string`). */
  function RenderClasses(cs: seq<Class>): string
    decreases |cs|
  {
    if |cs| == 0 then "" else RenderClasses(cs[..|cs| - 1]) + RenderClass(cs[|cs| - 1])
  }

  /** `API_Package.to_string`. */
  function RenderPackage(p: Package): string
  {
    p.name + "\n" + RenderClasses(p.classes)
  }

  /** One line of an indented outline: a node at its depth (0 package, 1 class, 2 method),
      with its name and description; only the name is rendered. */
  datatype Line = Line(depth: nat, name: string, description: string)

  /** `depth` tab characters. */
  function Indent(depth: nat): string
  {
    seq(depth, k requires 0 <= k < depth => '\t')
  }

  /** An outline as text: each line indented by its depth and ended by a newline. */
  function RenderLines(ls: seq<Line>): string
    decreases |ls|
  {
    if |ls| == 0 then ""
    else RenderLines(ls[..|ls| - 1]) + Indent(ls[|ls| - 1].depth) + ls[|ls| - 1].name + "\n"
  }

  /** Methods in order, each at depth 2. */
  function MethodsOutline(ms: seq<Method>): (ls: seq<Line>)
    ensures |ls| == |ms|
    decreases |ms|
  {
    if |ms| == 0 then []
    else MethodsOutline(ms[..|ms| - 1]) + [Line(2, ms[|ms| - 1].name, ms[|ms| - 1].description)]
  }

  /** A class and its methods in pre-order, with their depths. */
  function ClassOutline(c: Class): seq<Line>
  {
    [Line(1, c.name, c.description)] + MethodsOutline(c.methods)
  }

  /** The outlines of `cs`, one after the other. */
  function ClassesOutline(cs: seq<Class>): seq<Line>
    decreases |cs|
  {
    if |cs| == 0 then [] else ClassesOutline(cs[..|cs| - 1]) + ClassOutline(cs[|cs| - 1])
  }

  /** A package, its classes and their methods in pre-order, with their depths. */
  function PackageOutline(p: Package): seq<Line>
  {
    [Line(0, p.name, p.description)] + ClassesOutline(p.classes)
  }

  /** The outlines of a list of packages, one after the other. */
  function TreeOutline(ps: seq<Package>): seq<Line>
    decreases |ps|
  {
    if |ps| == 0 then [] else TreeOutline(ps[..|ps| - 1]) + PackageOutline(ps[|ps| - 1])
  }

  /** The number of methods below the classes `cs`. */
  function MethodCount(cs: seq<Class>): nat
    decreases |cs|
  {
    if |cs| == 0 then 0 else MethodCount(cs[..|cs| - 1]) + |cs[|cs| - 1].methods|
  }

  /** The number of nodes a package's rendering shows: itself, its classes, their methods. */
  function NodeCount(p: Package): nat
  {
    1 + |p.classes| + MethodCount(p.classes)
  }

  /** The newlines inside the names of an outline (a CSV cell may hold one). */
  function NameNewlines(ls: seq<Line>): nat
    decreases |ls|
  {
    if |ls| == 0 then 0 else NameNewlines(ls[..|ls| - 1]) + Occurrences('\n', ls[|ls| - 1].name)
  }

  /** Rendering an outline distributes over concatenation. */
  lemma {:induction false} RenderLinesAppend(a: seq<Line>, b: seq<Line>)
    ensures RenderLines(a + b) == RenderLines(a) + RenderLines(b)
    decreases |b|
  {
    if |b| == 0 {
      assert a + b == a;
    } else {
      var b' := b[..|b| - 1];
      assert (a + b)[..|a + b| - 1] == a + b';
      RenderLinesAppend(a, b');
    }
  }

  /** A list of methods renders as its outline. */
  lemma {:induction false} RenderMethodsFollowOutline(ms: seq<Method>)
    ensures RenderMethods(ms) == RenderLines(MethodsOutline(ms))
    decreases |ms|
  {
    if |ms| > 0 {
      var init := ms[..|ms| - 1];
      var m := ms[|ms| - 1];
      RenderMethodsFollowOutline(init);
      var ls := MethodsOutline(init) + [Line(2, m.name, m.description)];
      assert ls[..|ls| - 1] == MethodsOutline(init);
      assert Indent(2) == "\t\t";
    }
  }

  /** A class renders as its outline. */
  lemma RenderClassFollowsOutline(c: Class)
    ensures RenderClass(c) == RenderLines(ClassOutline(c))
  {
    var head := [Line(1, c.name, c.description)];
    RenderMethodsFollowOutline(c.methods);
    RenderLinesAppend(head, MethodsOutline(c.methods));
    assert RenderLines(head) == "\t" + c.name + "\n" by {
      assert head[..0] == [];
      assert Indent(1) == "\t";
    }
  }

  /** A list of classes renders as its outline. */
  lemma {:induction false} RenderClassesFollowOutline(cs: seq<Class>)
    ensures RenderClasses(cs) == RenderLines(ClassesOutline(cs))
    decreases |cs|
  {
    if |cs| > 0 {
      var init := cs[..|cs| - 1];
      RenderClassesFollowOutline(init);
      RenderClassFollowsOutline(cs[|cs| - 1]);
      RenderLinesAppend(ClassesOutline(init), ClassOutline(cs[|cs| - 1]));
    }
  }

  /** `API_Package.to_string` prints the package, its classes and their methods in
      pre-order, one per line, indented by depth. */
  lemma RenderFollowsOutline(p: Package)
    ensures RenderPackage(p) == RenderLines(PackageOutline(p))
  {
    RenderClassesFollowOutline(p.classes);
    RenderLinesAppend([Line(0, p.name, p.description)], ClassesOutline(p.classes));
    assert RenderLines([Line(0, p.name, p.description)]) == p.name + "\n" by {
      assert [Line(0, p.name, p.description)][..0] == [];
    }
  }

  /** An outline of `n` lines renders with `n` newlines, plus those inside names. */
  lemma {:induction false} RenderLinesNewlines(ls: seq<Line>)
    ensures Occurrences('\n', RenderLines(ls)) == |ls| + NameNewlines(ls)
    decreases |ls|
  {
    if |ls| > 0 {
      var init := ls[..|ls| - 1];
      var l := ls[|ls| - 1];
      RenderLinesNewlines(init);
      OccurrencesAppend('\n', RenderLines(init) + Indent(l.depth) + l.name, "\n");
      OccurrencesAppend('\n', RenderLines(init) + Indent(l.depth), l.name);
      OccurrencesAppend('\n', RenderLines(init), Indent(l.depth));
      IndentHasNoNewline(l.depth);
      assert Occurrences('\n', "\n") == 1 by { assert "\n"[..0] == ""; }
    }
  }

  /** An indentation holds no newline. */
  lemma {:induction false} IndentHasNoNewline(depth: nat)
    ensures Occurrences('\n', Indent(depth)) == 0
    decreases depth
  {
    if depth > 0 {
      assert Indent(depth)[..depth - 1] == Indent(depth - 1);
      IndentHasNoNewline(depth - 1);
    }
  }

  /** A list of classes outlines to one line per class and one per method. */
  lemma {:induction false} ClassesOutlineLength(cs: seq<Class>)
    ensures |ClassesOutline(cs)| == |cs| + MethodCount(cs)
    decreases |cs|
  {
    if |cs| > 0 {
      ClassesOutlineLength(cs[..|cs| - 1]);
    }
  }

  /** A rendered package has one line per node it shows: the number of newlines is the node
      count plus any newlines inside the names themselves. */
  lemma RenderedLineCount(p: Package)
    ensures Occurrences('\n', RenderPackage(p)) == NodeCount(p) + NameNewlines(PackageOutline(p))
  {
    RenderFollowsOutline(p);
    RenderLinesNewlines(PackageOutline(p));
    ClassesOutlineLength(p.classes);
  }
}
