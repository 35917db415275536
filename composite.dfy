/** The file tree of Structural/Composite/composite.cpp.

    Files and directories are objects: `setName` overwrites a name and
    `addFile` appends a child reference in place, so a node is a class (one class
    for both, a directory being a file with children).  `tree` prints one line
    per node; here it returns the lines, and it is proved against the pure
    rendering of an Entry value that the object graph unfolds to. */
module FileTree {

  // ---------------------------------------------------------------- indentation

  /** s repeated k times. */
  function Repeat(s: string, k: nat): (r: string)
    ensures |r| == k * |s|
    decreases k
  {
    if k == 0 then "" else Repeat(s, k - 1) + s
  }

  function Spaces(k: nat): (r: string)
    ensures |r| == k && forall i :: 0 <= i < k ==> r[i] == ' '
    decreases k
  {
    if k == 0 then "" else Spaces(k - 1) + " "
  }

  /** `printIndentation(level)`: nothing at level 0; otherwise `level - 1` times a
      bar followed by `2 * level` spaces, then "|-- ". */
  function Indent(level: nat): string
  {
    if level == 0 then "" else Repeat("|" + Spaces(2 * level), level - 1) + "|-- "
  }

  /** The prefix grows quadratically: (level - 1) * (2 * level + 1) + 4 characters. */
  lemma IndentShape(level: nat)
    ensures level == 0 ==> Indent(level) == ""
    ensures level > 0 ==>
      && |Indent(level)| == (level - 1) * (2 * level + 1) + 4
      && Indent(level)[|Indent(level)| - 4..] == "|-- "
  {
  }

  // ---------------------------------------------------------------- rendering

  /** The tree below a node as a value: a file, or a directory with its children
      in insertion order. */
  datatype Entry = FileEntry(name: string) | DirEntry(name: string, children: seq<Entry>)

  /** The lines `tree(level)` prints: the node's own line, then, for a
      directory, each child's tree one level deeper. */
  function Render(e: Entry, level: nat): seq<string>
    decreases e, 1
  {
    [Indent(level) + e.name] +
    match e
    case FileEntry(_) => []
    case DirEntry(_, cs) => RenderAll(cs, level + 1)
  }

  /** The trees of a directory's children at one level, in insertion order. */
  function RenderAll(cs: seq<Entry>, level: nat): seq<string>
    decreases cs, 0
  {
    if cs == [] then [] else RenderAll(cs[..|cs| - 1], level) + Render(cs[|cs| - 1], level)
  }

  /** The number of nodes. */
  function Count(e: Entry): nat
    decreases e, 1
  {
    match e
    case FileEntry(_) => 1
    case DirEntry(_, cs) => 1 + CountAll(cs)
  }

  function CountAll(cs: seq<Entry>): nat
    decreases cs, 0
  {
    if cs == [] then 0 else CountAll(cs[..|cs| - 1]) + Count(cs[|cs| - 1])
  }

  /** `tree` prints exactly one line per node. */
  lemma {:induction false} RenderCount(e: Entry, level: nat)
    ensures |Render(e, level)| == Count(e)
    decreases e, 1
  {
    if e.DirEntry? {
      RenderAllCount(e.children, level + 1);
    }
  }

  lemma {:induction false} RenderAllCount(cs: seq<Entry>, level: nat)
    ensures |RenderAll(cs, level)| == CountAll(cs)
    decreases cs, 0
  {
    if cs != [] {
      RenderAllCount(cs[..|cs| - 1], level);
      RenderCount(cs[|cs| - 1], level);
    }
  }

  /** A file renders as one line: its prefix and its name; so does the first
      line of a directory. */
  lemma RenderFirstLine(e: Entry, level: nat)
    ensures |Render(e, level)| >= 1 && Render(e, level)[0] == Indent(level) + e.name
    ensures e.FileEntry? ==> Render(e, level) == [Indent(level) + e.name]
  {
  }

  /** Adding a child to a directory adds that child's lines at the end, one level
      deeper, and leaves the earlier lines as they were. */
  lemma RenderAddChild(name: string, cs: seq<Entry>, c: Entry, level: nat)
    ensures Render(DirEntry(name, cs + [c]), level) == Render(DirEntry(name, cs), level) + Render(c, level + 1)
  {
    var line := Indent(level) + name;
    assert (cs + [c])[..|cs|] == cs;
    assert RenderAll(cs + [c], level + 1) == RenderAll(cs, level + 1) + Render(c, level + 1);
    assert [line] + (RenderAll(cs, level + 1) + Render(c, level + 1))
        == ([line] + RenderAll(cs, level + 1)) + Render(c, level + 1);
  }

  // ---------------------------------------------------------------- the objects

  /** A `File`, or a `Directory` when `isDirectory`; `files` is a directory's
      `std::vector<File*>`. */
  class Node {
    var name: string
    const isDirectory: bool
    var files: seq<Node>

    /** `File(name)`. */
    constructor File(name: string)
      ensures this.name == name && !isDirectory && files == []
    {
      this.name := name;
      isDirectory := false;
      files := [];
    }

    /** `Directory(name)`: no children yet. */
    constructor Directory(name: string)
      ensures this.name == name && isDirectory && files == []
    {
      this.name := name;
      isDirectory := true;
      files := [];
    }

    function GetName(): string
      reads this
    {
      name
    }

    method SetName(newName: string)
      modifies this
      ensures GetName() == newName && files == old(files)
    {
      name := newName;
    }

    /** `addFile`: appended after the earlier children. */
    method AddFile(f: Node)
      requires isDirectory
      modifies this
      ensures files == old(files) + [f] && name == old(name)
    {
      files := files + [f];
    }

    /** `printIndentation`: the loop writes the bar-and-spaces block level - 1 times. */
    static method PrintIndentation(level: nat) returns (p: string)
      ensures p == Indent(level)
    {
      p := "";
      if level > 0 {
        var lev := 0;
        while lev < level - 1
          invariant lev <= level - 1 && p == Repeat("|" + Spaces(level * 2), lev)
        {
          p := p + "|" + Spaces(level * 2);
          lev := lev + 1;
        }
        p := p + "|-- ";
      }
    }

    /** `tree(level)`: this node's line, then, for a directory, each child's tree
        one level deeper; the lines are those of the Entry the node unfolds to. */
    method Tree(level: nat, ghost e: Entry) returns (lines: seq<string>)
      requires Unfolds(this, e)
      ensures lines == Render(e, level)
      decreases e, 1
    {
      var p := PrintIndentation(level);
      lines := [p + name];
      if isDirectory {
        var sub := ChildTrees(level + 1, e.children);
        lines := lines + sub;
      }
    }

    /** The `for (auto&& f : files) f->tree(level + 1)` loop. */
    method ChildTrees(level: nat, ghost cs: seq<Entry>) returns (lines: seq<string>)
      requires |files| == |cs| && forall i :: 0 <= i < |cs| ==> Unfolds(files[i], cs[i])
      ensures lines == RenderAll(cs, level)
      decreases cs, 0
    {
      lines := [];
      var i := 0;
      while i < |files|
        invariant i <= |files| && lines == RenderAll(cs[..i], level)
      {
        assert cs[..i + 1][..i] == cs[..i];
        var sub := files[i].Tree(level, cs[i]);
        lines := lines + sub;
        i := i + 1;
      }
      assert cs[..i] == cs;
    }
  }

  /** The object graph below n is exactly the value e: same names, same kinds,
      same children in the same order.  A graph with a cycle unfolds to no value. */
  ghost predicate Unfolds(n: Node, e: Entry)
    reads *
    decreases e
  {
    && n.name == e.name
    && (n.isDirectory <==> e.DirEntry?)
    && (e.DirEntry? ==>
         && |n.files| == |e.children|
         && forall i :: 0 <= i < |n.files| ==> Unfolds(n.files[i], e.children[i]))
  }
}
