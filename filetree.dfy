/**
 * The part of the operating system the loader and the log readers see: a tree
 * of directories and files. A directory lists its entries in name order (the
 * order `os.ReadDir` and `filepath.Walk` use) and may refuse to be listed; a
 * file may refuse to be read. What the YAML/JSON decoder makes of a file is
 * part of the file: the decoder itself is not modelled.
 */
module FileTree {
  import opened Wrappers
  import opened Text
  import opened Unstructured

  /** The verdict of the document decoder on a file's bytes. */
  datatype Decoded = Malformed | Doc(value: Value)

  datatype Content = Unreadable | Readable(text: string, decoded: Decoded)

  datatype Node =
    | Dir(name: string, listable: bool, children: seq<Node>)
    | File(name: string, content: Content)

  /** A path as its components below the root of the tree. */
  type Path = seq<string>

  datatype FsError =
    | NotExist(path: Path)
    | NotADirectory(path: Path)
    | IsADirectory(path: Path)
    | PermissionDenied(path: Path)

  /** The first entry of `cs` called `name`. */
  function Child(cs: seq<Node>, name: string): (r: Option<Node>)
    ensures r.Some? ==> r.value in cs && r.value.name == name
    ensures r.None? <==> forall i :: 0 <= i < |cs| ==> cs[i].name != name
  {
    if |cs| == 0 then None
    else if cs[0].name == name then Some(cs[0])
    else Child(cs[1..], name)
  }

  /** `os.Stat`: the node at `p`, if there is one. */
  function Lookup(root: Node, p: Path): Option<Node>
    decreases |p|
  {
    if p == [] then Some(root)
    else match root
      case File(_, _) => None
      case Dir(_, _, cs) =>
        match Child(cs, p[0])
        case None => None
        case Some(c) => Lookup(c, p[1..])
  }

  lemma {:induction false} LookupAppend(root: Node, p: Path, q: Path)
    ensures Lookup(root, p + q) == match Lookup(root, p) case None => None case Some(n) => Lookup(n, q)
    decreases |p|
  {
    if p == [] {
      assert p + q == q;
    } else {
      assert (p + q)[0] == p[0] && (p + q)[1..] == p[1..] + q;
      if root.Dir? && Child(root.children, p[0]).Some? {
        LookupAppend(Child(root.children, p[0]).value, p[1..], q);
      }
    }
  }

  predicate IsDirAt(root: Node, p: Path) { Lookup(root, p).Some? && Lookup(root, p).value.Dir? }

  /** `os.ReadDir`: the entries of the directory at `p`. */
  function ReadDir(root: Node, p: Path): (r: Result<seq<Node>, FsError>)
    ensures r.Ok? <==> IsDirAt(root, p) && Lookup(root, p).value.listable
    ensures r.Ok? ==> r.value == Lookup(root, p).value.children
  {
    match Lookup(root, p)
    case None => Err(NotExist(p))
    case Some(File(_, _)) => Err(NotADirectory(p))
    case Some(Dir(_, listable, cs)) => if listable then Ok(cs) else Err(PermissionDenied(p))
  }

  /** `os.ReadFile`: the text and decoder verdict of the file at `p`. */
  function ReadFile(root: Node, p: Path): (r: Result<Content, FsError>)
    ensures r.Ok? <==> Lookup(root, p).Some? && Lookup(root, p).value.File? &&
                       Lookup(root, p).value.content.Readable?
    ensures r.Ok? ==> r.value == Lookup(root, p).value.content
  {
    match Lookup(root, p)
    case None => Err(NotExist(p))
    case Some(Dir(_, _, _)) => Err(IsADirectory(p))
    case Some(File(_, c)) => if c.Readable? then Ok(c) else Err(PermissionDenied(p))
  }

  /** A file reached by `filepath.Walk`, with its full path. */
  datatype Visit = Visit(path: Path, content: Content)

  /**
   * The files `filepath.Walk` visits below `n` (whose path is `p`), in
   * pre-order. A directory that cannot be listed is handed to the callback
   * with its error; every callback in the server returns that error, which
   * ends the walk.
   */
  function Walk(n: Node, p: Path): Result<seq<Visit>, FsError>
    decreases n
  {
    match n
    case File(_, c) => Ok([Visit(p, c)])
    case Dir(_, listable, cs) =>
      if !listable then Err(PermissionDenied(p)) else WalkAll(cs, p)
  }

  function WalkAll(cs: seq<Node>, p: Path): Result<seq<Visit>, FsError>
    decreases cs
  {
    if |cs| == 0 then Ok([])
    else
      match Walk(cs[0], p + [cs[0].name])
      case Err(e) => Err(e)
      case Ok(first) =>
        match WalkAll(cs[1..], p)
        case Err(e) => Err(e)
        case Ok(rest) => Ok(first + rest)
  }

  /** Every visited file lies below the walk's root, and a walk over one file visits just it. */
  lemma {:induction false} WalkBelow(n: Node, p: Path)
    ensures Walk(n, p).Ok? ==> forall v :: v in Walk(n, p).value ==> p <= v.path
    ensures n.File? ==> Walk(n, p) == Ok([Visit(p, n.content)])
    decreases n
  {
    if n.Dir? && n.listable {
      WalkAllBelow(n.children, p);
    }
  }

  lemma {:induction false} WalkAllBelow(cs: seq<Node>, p: Path)
    ensures WalkAll(cs, p).Ok? ==> forall v :: v in WalkAll(cs, p).value ==> p <= v.path
    decreases cs
  {
    if |cs| > 0 {
      WalkBelow(cs[0], p + [cs[0].name]);
      WalkAllBelow(cs[1..], p);
      if WalkAll(cs, p).Ok? {
        forall v | v in Walk(cs[0], p + [cs[0].name]).value ensures p <= v.path {
          assert p <= p + [cs[0].name];
        }
      }
    }
  }

  /** The last component of a path ("" for the root). */
  function Base(p: Path): string { if |p| == 0 then "" else p[|p| - 1] }

  /** Position of the last `c` in `s`. */
  function LastIndexOf(s: string, c: char): (r: Option<nat>)
    ensures r.Some? ==> r.value < |s| && s[r.value] == c && c !in s[r.value + 1..]
    ensures r.None? ==> c !in s
  {
    if |s| == 0 then None
    else if s[|s| - 1] == c then Some(|s| - 1)
    else
      var r := LastIndexOf(s[..|s| - 1], c);
      assert s == s[..|s| - 1] + [s[|s| - 1]];
      r
  }

  /** `filepath.Ext` of a file name: from the last "." on, or "" when there is none. */
  function Ext(name: string): (e: string)
    ensures e == "" || (e[0] == '.' && HasSuffix(name, e) && '.' !in e[1..])
    ensures '.' in name ==> e != ""
  {
    match LastIndexOf(name, '.')
    case None => ""
    case Some(i) => name[i..]
  }
}
