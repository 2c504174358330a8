/** The scope of a live session and the preparation of its jobs: which paths may be read,
    how a requested path is resolved, and what the operator could be offered to widen. */
module ServeScope {
  import opened Base

  /** An absolute clean path as its components. */
  type Path = p: seq<string> | ".." !in p

  // ----- under and Permits

  function Common(a: seq<string>, b: seq<string>): (n: nat)
    ensures n <= |a| && n <= |b| && a[..n] == b[..n]
    ensures n < |a| && n < |b| ==> a[n] != b[n]
  {
    if a == [] || b == [] || a[0] != b[0] then 0
    else
      var n := 1 + Common(a[1..], b[1..]);
      assert a[..n] == [a[0]] + a[1..][..n - 1] && b[..n] == [b[0]] + b[1..][..n - 1];
      n
  }

  /** The way from a directory to a path: up, then down. */
  function Rel(dir: Path, path: Path): seq<string> {
    seq(|dir| - Common(dir, path), _ => "..") + path[Common(dir, path)..]
  }

  predicate Under(dir: Path, path: Path) {
    var rel := Rel(dir, path);
    rel == [] || rel[0] != ".."
  }

  /** The test on the relative path says exactly that the directory is an ancestor. */
  lemma UnderIsPrefix(dir: Path, path: Path)
    ensures Under(dir, path) <==> dir <= path
  {
    var n := Common(dir, path);
    if n == |dir| {
      assert Rel(dir, path) == path[n..];
      assert dir[..n] == dir;
      assert n < |path| ==> path[n] in path;
    } else {
      assert Rel(dir, path)[0] == "..";
    }
  }

  datatype Files = Files(allowed: seq<Path>, paths: seq<Path>)

  predicate Permits(files: Files, path: Path) {
    path in files.paths || exists i :: 0 <= i < |files.allowed| && Under(files.allowed[i], path)
  }

  /** A path is permitted exactly if it was granted by name or lies at or below an allowed
      directory. */
  lemma PermitsExactly(files: Files, path: Path)
    ensures Permits(files, path) <==> path in files.paths || exists d :: d in files.allowed && d <= path
  {
    hide Under;
    if i :| 0 <= i < |files.allowed| && Under(files.allowed[i], path) {
      UnderIsPrefix(files.allowed[i], path);
      assert files.allowed[i] in files.allowed;
    }
    if d :| d in files.allowed && d <= path {
      UnderIsPrefix(d, path);
      var i :| 0 <= i < |files.allowed| && files.allowed[i] == d;
      assert Under(files.allowed[i], path);
    }
  }

  predicate AllPermitted(files: Files, paths: seq<Path>) {
    forall i :: 0 <= i < |paths| ==> Permits(files, paths[i])
  }

  /** `g` covers whatever `f` covers. */
  predicate Wider(f: Files, g: Files) { f.allowed <= g.allowed && f.paths <= g.paths }

  lemma PermitsMonotone(f: Files, g: Files, path: Path)
    requires Wider(f, g) && Permits(f, path)
    ensures Permits(g, path)
  {
    hide Under;
    if i :| 0 <= i < |f.allowed| && Under(f.allowed[i], path) {
      assert g.allowed[i] == f.allowed[i];
    }
  }

  lemma AllPermittedMonotone(f: Files, g: Files, paths: seq<Path>)
    requires Wider(f, g) && AllPermitted(f, paths)
    ensures AllPermitted(g, paths)
  {
    hide Permits, Wider;
    forall i | 0 <= i < |paths|
      ensures Permits(g, paths[i])
    {
      PermitsMonotone(f, g, paths[i]);
    }
  }

  /** A granted single name covers that name and nothing under it. */
  lemma PathsCoverOneName(paths: seq<Path>, path: Path)
    ensures Permits(Files([], paths), path) <==> path in paths
  {
  }

  // ----- the file system as a job sees it at one moment

  datatype Eval = To(path: Path) | Missing | Broken
  datatype Opening = OpenFine | OpenMissing | OpenRefused
  datatype Stat = IsDir | NotDir | NoStat

  datatype FS = FS(eval: Path -> Eval,                          // resolving links
                   opens: Path -> Opening,                      // opening inside the scope
                   stat: Path -> Stat,
                   there: Path -> bool,                        // a name is there, followed or not
                   glob: string -> Option<seq<Path>>,           // None: bad pattern
                   regular: (Path, int) -> bool)                // a regular file not older than that

  function Dir(path: Path): Path {
    if path == [] then [] else Up(path, |path| - 1)
  }

  function Up(path: Path, k: nat): Path
    requires k <= |path|
  {
    path[..k]
  }

  function Join(a: Path, path: Path, k: nat): Path
    requires k <= |path|
  {
    a + path[k..]
  }

  // ----- resolve

  datatype Resolved = Fine(path: Path) | Outside(dir: Path) | Refused

  /** The nearest ancestor, from component k up, that exists; the rest is appended. */
  function FromAncestor(fs: FS, path: Path, k: nat): Option<Path>
    requires k <= |path|
  {
    match fs.eval(Up(path, k))
    case To(r) => Some(Join(r, path, k))
    case Broken => None
    case Missing => if k == 0 then None else FromAncestor(fs, path, k - 1)
  }

  function Canonical(fs: FS, path: Path): Option<Path> {
    match fs.eval(path)
    case To(r) => Some(r)
    case Broken => None
    case Missing => FromAncestor(fs, path, |Dir(path)|)
  }

  function ResolveIn(fs: FS, files: Files, path: Option<Path>, isDir: bool): Resolved {
    if path.None? then Refused
    else if !Permits(files, path.value) then Outside(if isDir then path.value else Dir(path.value))
    else if fs.opens(path.value) == OpenRefused then Refused
    else match Canonical(fs, path.value)
      case None => Refused
      case Some(c) => if Permits(files, c) then Fine(c) else Refused
  }

  method Resolve(fs: FS, files: Files, path: Option<Path>, isDir: bool) returns (r: Resolved)
    ensures r == ResolveIn(fs, files, path, isDir)
  {
    hide Permits;
    if path.None? {
      return Refused;
    }
    var p := path.value;
    if !Permits(files, p) {
      return Outside(if isDir then p else Dir(p));
    }
    if fs.opens(p) == OpenRefused {
      return Refused;
    }
    var canonical := p;
    match fs.eval(p) {
      case To(c) => canonical := c;
      case Broken => return Refused;
      case Missing =>
        var k: nat := |Dir(p)|;
        while true
          invariant k <= |p| && FromAncestor(fs, p, k) == FromAncestor(fs, p, |Dir(p)|)
          decreases k
        {
          var e := fs.eval(Up(p, k));
          if e.To? {
            canonical := Join(e.path, p, k);
            break;
          }
          if e.Broken? || k == 0 {
            return Refused;
          }
          k := k - 1;
        }
    }
    return if Permits(files, canonical) then Fine(canonical) else Refused;
  }

  /** A path that does not exist is read as its nearest existing ancestor resolved, with
      the missing names appended. */
  lemma {:induction false} NearestAncestor(fs: FS, path: Path, k: nat)
    requires k <= |path|
    ensures FromAncestor(fs, path, k).Some? <==>
            exists j: nat :: j <= k && fs.eval(Up(path, j)).To? && MissingAbove(fs, path, j, k)
    ensures forall j: nat :: j <= k && fs.eval(Up(path, j)).To? && MissingAbove(fs, path, j, k) ==>
              FromAncestor(fs, path, k) == Some(Join(fs.eval(Up(path, j)).path, path, j))
  {
    hide Join, Up;
    if fs.eval(Up(path, k)).Missing? && k > 0 {
      NearestAncestor(fs, path, k - 1);
      assert forall j: nat :: j < k ==> (MissingAbove(fs, path, j, k) <==> MissingAbove(fs, path, j, k - 1));
    } else if fs.eval(Up(path, k)).To? {
      assert MissingAbove(fs, path, k, k);
    }
  }

  ghost predicate MissingAbove(fs: FS, path: Path, j: nat, k: nat)
    requires k <= |path|
  {
    forall i: nat :: j < i <= k ==> fs.eval(Up(path, i)).Missing?
  }

  /** Following links, the path stands for c: it resolves to c; or it is missing, its nearest
      existing ancestor j resolves, and c is that with the missing names appended. */
  ghost predicate StandsFor(fs: FS, path: Path, c: Path) {
    || fs.eval(path) == To(c)
    || (fs.eval(path).Missing? && exists j: nat :: AncestorGives(fs, path, j, c))
  }

  ghost predicate AncestorGives(fs: FS, path: Path, j: nat, c: Path) {
    && (j < |path| || j == 0) && j <= |path| && fs.eval(path[..j]).To? && c == fs.eval(path[..j]).path + path[j..]
    && forall i: nat :: j < i < |path| ==> fs.eval(Up(path, i)).Missing?
  }

  /** The name a job asks for leads to c inside the scope: both are permitted, and the name
      opens, or is missing. */
  ghost predicate LeadsTo(fs: FS, files: Files, path: Path, c: Path) {
    Permits(files, path) && fs.opens(path) != OpenRefused && StandsFor(fs, path, c) && Permits(files, c)
  }

  lemma CanonicalExactly(fs: FS, path: Path, c: Path)
    ensures Canonical(fs, path) == Some(c) <==> StandsFor(fs, path, c)
  {
    var k := |Dir(path)|;
    if fs.eval(path).Missing? {
      NearestAncestor(fs, path, k);
      if j: nat :| AncestorGives(fs, path, j, c) {
        assert fs.eval(Up(path, j)).To? && MissingAbove(fs, path, j, k);
      }
      if Canonical(fs, path) == Some(c) {
        var j: nat :| j <= k && fs.eval(Up(path, j)).To? && MissingAbove(fs, path, j, k);
        assert AncestorGives(fs, path, j, c);
      }
    }
  }

  /** What resolving a name answers: c exactly if the name leads to c inside the scope; that
      the scope does not cover it, with the directory to allow, exactly then; and otherwise a
      refusal, in particular for a link that leaves the scope. */
  lemma ResolveExactly(fs: FS, files: Files, path: Path, isDir: bool)
    ensures forall c :: ResolveIn(fs, files, Some(path), isDir) == Fine(c) <==> LeadsTo(fs, files, path, c)
    ensures forall d :: ResolveIn(fs, files, Some(path), isDir) == Outside(d) <==>
                        !Permits(files, path) && d == (if isDir || path == [] then path else path[..|path| - 1])
    ensures ResolveIn(fs, files, Some(path), isDir).Outside? <==> !Permits(files, path)
    ensures ResolveIn(fs, files, None, isDir) == Refused
  {
    hide Permits, StandsFor, Canonical;
    forall c
      ensures ResolveIn(fs, files, Some(path), isDir) == Fine(c) <==> LeadsTo(fs, files, path, c)
    {
      CanonicalExactly(fs, path, c);
      if Canonical(fs, path).Some? {
        CanonicalExactly(fs, path, Canonical(fs, path).value);
      }
    }
  }

  // ----- grants

  /** The directories that adding `dir` has to cover; None when it cannot be added. */
  function ScopeGrant(fs: FS, dir: Path): Option<seq<Path>> {
    if fs.stat(dir) != IsDir then None
    else match fs.eval(dir)
      case To(c) => Some(if c == dir then [dir] else [dir, c])
      case _ => None
  }

  /** The forms of a single name; a file-system root cannot be granted alone. */
  function PathGrant(fs: FS, path: Path): Option<seq<Path>> {
    if path == [] || !fs.there(path) then None
    else match fs.eval(path)
      case To(c) => Some(if c == path then [path] else [path, c])
      case _ => None
  }

  /** After a directory grant, a path below it that resolves below the directory's own
      resolution is inside the scope: one grant is always enough. */
  lemma GrantSuffices(fs: FS, files: Files, dir: Path, rest: seq<string>)
    requires ScopeGrant(fs, dir).Some? && ".." !in rest && fs.eval(dir).To?
    ensures var g := Files(files.allowed + ScopeGrant(fs, dir).value, files.paths);
            Permits(g, dir + rest) && Permits(g, fs.eval(dir).path + rest)
  {
    hide Under;
    var n, c := |files.allowed|, fs.eval(dir).path;
    var g := Files(files.allowed + ScopeGrant(fs, dir).value, files.paths);
    UnderIsPrefix(dir, dir + rest);
    UnderIsPrefix(c, c + rest);
    assert g.allowed[n] == dir;
    assert g.allowed[if c == dir then n else n + 1] == c;
  }

  /** What a directory grant offers: the directory, and where it leads if that is elsewhere.
      There is one exactly for a directory that resolves. */
  lemma ScopeGrantExactly(fs: FS, dir: Path, g: seq<Path>)
    ensures ScopeGrant(fs, dir) == Some(g) <==>
            fs.stat(dir) == IsDir && fs.eval(dir).To? && g == if fs.eval(dir).path == dir then [dir] else [dir, fs.eval(dir).path]
  {
  }

  /** What a name grant offers: the name, and where it leads if that is elsewhere. There is
      one exactly for a name that is there and resolves, and is no file-system root. */
  lemma PathGrantExactly(fs: FS, path: Path, g: seq<Path>)
    ensures PathGrant(fs, path) == Some(g) <==>
            path != [] && fs.there(path) && fs.eval(path).To? && g == if fs.eval(path).path == path then [path] else [path, fs.eval(path).path]
  {
  }

  lemma MorePermitted(files: Files, dirs: seq<Path>, names: seq<Path>, p: Path)
    ensures Permits(Files(files.allowed + dirs, files.paths + names), p) <==>
            Permits(files, p) || p in names || exists d :: d in dirs && d <= p
  {
    hide Permits;
    var more := Files(files.allowed + dirs, files.paths + names);
    PermitsExactly(files, p);
    PermitsExactly(more, p);
    assert forall d :: d in more.allowed <==> d in files.allowed || d in dirs;
    assert p in more.paths <==> p in files.paths || p in names;
  }

  /** A directory grant covers what lies at or below the directory or where it leads, and
      nothing else beyond the scope. */
  lemma ScopeGrantCovers(fs: FS, files: Files, dir: Path, p: Path)
    requires ScopeGrant(fs, dir).Some?
    ensures Permits(Files(files.allowed + ScopeGrant(fs, dir).value, files.paths), p) <==>
            Permits(files, p) || dir <= p || fs.eval(dir).path <= p
  {
    hide Permits;
    var g := ScopeGrant(fs, dir).value;
    MorePermitted(files, g, [], p);
    assert files.paths + [] == files.paths;
    var c := fs.eval(dir).path;
    assert forall d :: d in g <==> d == dir || d == c;
    assert dir in g && c in g;
    assert (exists d :: d in g && d <= p) <==> dir <= p || c <= p;
  }

  /** A name grant covers the name and where it leads, and nothing else beyond the scope. */
  lemma PathGrantCovers(fs: FS, files: Files, path: Path, p: Path)
    requires PathGrant(fs, path).Some?
    ensures Permits(Files(files.allowed, files.paths + PathGrant(fs, path).value), p) <==>
            Permits(files, p) || p == path || p == fs.eval(path).path
  {
    hide Permits;
    var g := PathGrant(fs, path).value;
    MorePermitted(files, [], g, p);
    assert files.allowed + [] == files.allowed;
    assert forall d :: d in g <==> d == path || d == fs.eval(path).path;
  }

  // ----- globs

  const MAX_GLOB := 200

  /** What the loop over the matches keeps: resolved, each once, readable. */
  function Kept(fs: FS, files: Files, since: int, matches: seq<Path>): seq<Path> {
    if matches == [] then []
    else
      var kept := Kept(fs, files, since, matches[..|matches| - 1]);
      match ResolveIn(fs, files, Some(matches[|matches| - 1]), false)
      case Fine(p) => if p !in kept && fs.regular(p, since) then kept + [p] else kept
      case _ => kept
  }

  datatype Glob = Glob(pattern: string, base: Option<Path>, since: int)
  datatype Expanded = Paths(paths: seq<Path>) | OutsideBase(dir: Path) | BadGlob

  function ExpandIn(fs: FS, files: Files, g: Glob): Expanded {
    match ResolveIn(fs, files, g.base, true)
    case Outside(dir) => OutsideBase(dir)
    case Refused => BadGlob
    case Fine(_) =>
      match fs.glob(g.pattern)
      case None => BadGlob
      case Some(matches) =>
        var kept := Kept(fs, files, g.since, matches);
        if |kept| > MAX_GLOB then BadGlob else Paths(kept)
  }

  lemma {:induction false} KeptPrefix(fs: FS, files: Files, since: int, matches: seq<Path>, k: nat)
    requires k <= |matches|
    ensures |Kept(fs, files, since, matches[..k])| <= |Kept(fs, files, since, matches)|
  {
    hide ResolveIn;
    if k == |matches| {
      assert matches[..k] == matches;
    } else {
      var front := matches[..|matches| - 1];
      assert front[..k] == matches[..k];
      KeptPrefix(fs, files, since, front, k);
    }
  }

  method Expand(fs: FS, files: Files, g: Glob) returns (r: Expanded)
    ensures r == ExpandIn(fs, files, g)
  {
    hide ResolveIn;
    var base := Resolve(fs, files, g.base, true);
    match base {
      case Outside(dir) => return OutsideBase(dir);
      case Refused => return BadGlob;
      case Fine(_) =>
    }
    var found := fs.glob(g.pattern);
    if found.None? {
      return BadGlob;
    }
    var matches := found.value;
    var paths: seq<Path> := [];
    var seen: set<Path> := {};
    assert matches[..|matches|] == matches;
    for i := 0 to |matches|
      invariant paths == Kept(fs, files, g.since, matches[..i]) && |paths| <= MAX_GLOB
      invariant forall p :: p in seen <==> p in paths
    {
      assert matches[..i + 1][..i] == matches[..i];
      var p := Resolve(fs, files, Some(matches[i]), false);
      if !p.Fine? || p.path in seen {
        continue;
      }
      if !fs.regular(p.path, g.since) {
        continue;
      }
      paths := paths + [p.path];
      seen := seen + {p.path};
      if |paths| > MAX_GLOB {
        KeptPrefix(fs, files, g.since, matches, i + 1);
        return BadGlob;
      }
    }
    return Paths(paths);
  }

  lemma {:induction false} KeptSound(fs: FS, files: Files, since: int, matches: seq<Path>)
    ensures AllPermitted(files, Kept(fs, files, since, matches)) && Distinct(Kept(fs, files, since, matches))
  {
    hide Permits, Canonical;
    if matches != [] {
      KeptSound(fs, files, since, matches[..|matches| - 1]);
    }
  }

  /** A match of the glob leads to p inside the scope, and p is a regular file new enough. */
  ghost predicate FoundBy(fs: FS, files: Files, since: int, matches: seq<Path>, p: Path) {
    fs.regular(p, since) && exists i :: 0 <= i < |matches| && LeadsTo(fs, files, matches[i], p)
  }

  lemma FoundByStep(fs: FS, files: Files, since: int, matches: seq<Path>, p: Path)
    requires matches != []
    ensures var n := |matches| - 1;
            FoundBy(fs, files, since, matches, p) <==>
            FoundBy(fs, files, since, matches[..n], p) || (fs.regular(p, since) && LeadsTo(fs, files, matches[n], p))
  {
    hide LeadsTo;
    var n := |matches| - 1;
    assert forall i :: 0 <= i < n ==> matches[..n][i] == matches[i];
  }

  /** The glob keeps exactly what its matches lead to, each once, in the order in which the
      matches first lead there. */
  lemma {:induction false} KeptExactly(fs: FS, files: Files, since: int, matches: seq<Path>)
    ensures forall p :: p in Kept(fs, files, since, matches) <==> FoundBy(fs, files, since, matches, p)
    ensures Distinct(Kept(fs, files, since, matches))
    ensures forall k: nat :: k <= |matches| ==> Kept(fs, files, since, matches[..k]) <= Kept(fs, files, since, matches)
  {
    hide LeadsTo, ResolveIn, FoundBy;
    if matches == [] {
      NothingFound(fs, files, since);
      assert forall k: nat :: k <= |matches| ==> matches[..k] == [];
    } else {
      var n := |matches| - 1;
      var front, kept := matches[..n], Kept(fs, files, since, matches);
      KeptExactly(fs, files, since, front);
      ResolveExactly(fs, files, matches[n], false);
      forall p
        ensures p in kept <==> FoundBy(fs, files, since, matches, p)
      {
        FoundByStep(fs, files, since, matches, p);
      }
      forall k: nat | k <= |matches|
        ensures Kept(fs, files, since, matches[..k]) <= kept
      {
        if k <= n {
          assert front[..k] == matches[..k];
        } else {
          assert matches[..k] == matches;
        }
      }
    }
  }

  lemma NothingFound(fs: FS, files: Files, since: int)
    ensures forall p :: !FoundBy(fs, files, since, [], p)
  {
  }

  // ----- parameters

  const MAX_INT := 0x7FFF_FFFF_FFFF_FFFF

  /** A regular expression that is absent, does not compile, or does. */
  datatype Regex = NoRegex | BadRegex | GoodRegex

  /** The cursor of a search: file and line. */
  datatype Cursor = NoCursor | BadCursor | At(source: int, line: int)

  /** The cursor of a journal read: a line count. */
  datatype Offset = NoOffset | BadOffset | From(skip: int)

  /** Parameters after decoding. A path or glob base that is not absolute is None, and so is
      a time that does not parse; `named` says that a unit or container name is valid, `single`
      that a container name stands for one container. */
  datatype Params =
    | Undecodable
    | ListParams(path: Option<Path>)
    | ReadParams(path: Option<Path>, first: int, last: int)
    | TailParams(path: Option<Path>, n: int)
    | SearchParams(glob: Glob, before: int, after: int, max: int, regex: Regex, sinceOk: bool, cursor: Cursor)
    | JournalParams(named: bool, tail: int, max: int, regex: Regex, offset: Offset, since: Option<int>, until: Option<int>, single: bool)
    | UnitParams(named: bool)

  datatype Job = Job(id: string, name: string, params: Params)

  const CATALOG: set<string> := {"list_dir", "read_file", "search", "tail", "journal", "docker_logs", "systemctl_status", "ps", "df"}
  const CATALOG_CLASS: int := 1

  /** The first and last line of a read: line 1 and 500 lines unless said otherwise. */
  function ReadRange(first: int, last: int): (int, int) {
    var from := if first == 0 then 1 else first;
    (from, if last == 0 && from <= MAX_INT - 499 then from + 499 else last)
  }

  /** The checks of the parameters that do not depend on the scope. */
  predicate ParamsOk(name: string, params: Params) {
    match params
    case ListParams(_) => name == "list_dir"
    case ReadParams(_, first, last) =>
      var (from, to) := ReadRange(first, last);
      name == "read_file" && 1 <= from <= to && to - from < 500
    case TailParams(_, n) => name == "tail" && (n == 0 || 1 <= n <= 500)
    case SearchParams(_, before, after, max, regex, sinceOk, _) =>
      && name == "search" && 0 <= before <= 50 && 0 <= after <= 50 && (max == 0 || 1 <= max <= 200)
      && !regex.BadRegex? && sinceOk
    case JournalParams(named, tail, max, regex, offset, since, until, single) =>
      && (name == "journal" || (name == "docker_logs" && single)) && named
      && 0 <= tail <= 500 && 0 <= max <= 500
      && (tail > 0 ==> regex.NoRegex? && max == 0 && offset.NoOffset?)
      && !regex.BadRegex? && !offset.BadOffset? && (offset.From? ==> offset.skip >= 0)
      && since.Some? && until.Some? && since.value < until.value
    case UnitParams(named) => name == "systemctl_status" && named
    case Undecodable => false
  }

  /** A read covers between 1 and 500 lines, starting at line 1 or later; left out, both ends
      give the first 500 lines, and the first alone gives 500 lines from there. */
  lemma ReadRangeSmall(path: Option<Path>, first: int, last: int)
    requires ParamsOk("read_file", ReadParams(path, first, last))
    ensures var (from, to) := ReadRange(first, last); 1 <= from && 1 <= to - from + 1 <= 500
    ensures first > 0 && last > 0 ==> ReadRange(first, last) == (first, last)
    ensures last == 0 ==> ReadRange(first, last).1 == ReadRange(first, last).0 + 499
  {
  }

  /** The limits on numbers: up to 500 lines of a tail, up to 50 lines of context and 200
      matches of a search, up to 500 journal lines and either the last ones or a window. */
  lemma LimitsExactly(path: Option<Path>, n: int, g: Glob, before: int, after: int, max: int, cursor: Cursor, tail: int, regex: Regex, offset: Offset, since: int, until: int)
    ensures ParamsOk("tail", TailParams(path, n)) <==> 0 <= n <= 500
    ensures ParamsOk("search", SearchParams(g, before, after, max, GoodRegex, true, cursor)) <==> 0 <= before <= 50 && 0 <= after <= 50 && 0 <= max <= 200
    ensures !ParamsOk("search", SearchParams(g, before, after, max, BadRegex, true, cursor)) && !ParamsOk("search", SearchParams(g, before, after, max, GoodRegex, false, cursor))
    ensures ParamsOk("journal", JournalParams(true, tail, max, regex, offset, Some(since), Some(until), true)) <==>
            && 0 <= tail <= 500 && 0 <= max <= 500 && regex != BadRegex && offset != BadOffset && (offset.From? ==> offset.skip >= 0)
            && since < until && (tail == 0 || (regex == NoRegex && max == 0 && offset == NoOffset))
  {
  }

  /** Everything about a job that is valid or not whatever the scope is: `ps` and `df` take
      no parameters and ignore what they are given. */
  predicate Admissible(job: Job, kind: int) {
    && ValidJobID(job.id) && job.name in CATALOG && kind == CATALOG_CLASS
    && (job.name == "ps" || job.name == "df" || ParamsOk(job.name, job.params))
  }

  // ----- prepare

  /** The single name a job asks for. */
  function RequestedName(job: Job): Option<Path> {
    match job.params
    case ListParams(path) => path
    case ReadParams(path, _, _) => path
    case TailParams(path, _) => path
    case _ => None
  }

  predicate IsPathJob(name: string) { name == "read_file" || name == "tail" || name == "list_dir" }

  /** `target` is the requested name when it could be granted alone. */
  datatype Prepared = Ready(paths: seq<Path>) | Invalid | OutOfScope(dir: Path, target: Option<Path>)

  function PrepareIn(fs: FS, files: Files, job: Job, kind: int): Prepared {
    if !Admissible(job, kind) then Invalid
    else if IsPathJob(job.name) then
      match ResolveIn(fs, files, RequestedName(job), job.name == "list_dir")
      case Fine(p) => Ready([p])
      case Outside(dir) => OutOfScope(dir, RequestedName(job))
      case Refused => Invalid
    else if job.name == "search" then
      match ExpandIn(fs, files, job.params.glob)
      case OutsideBase(dir) => OutOfScope(dir, None)
      case BadGlob => Invalid
      case Paths(paths) => if CursorOk(job.params.cursor, |paths|) then Ready(paths) else Invalid
    else Ready([])
  }

  predicate CursorOk(cursor: Cursor, n: nat) {
    match cursor
    case NoCursor => true
    case BadCursor => false
    case At(source, line) => 0 <= source < n && line >= 1
  }

  method Prepare(fs: FS, files: Files, job: Job, kind: int) returns (r: Prepared)
    ensures r == PrepareIn(fs, files, job, kind)
  {
    hide ResolveIn, ExpandIn;
    if !ValidJobID(job.id) || job.name !in CATALOG || kind != CATALOG_CLASS {
      return Invalid;
    }
    if job.name != "ps" && job.name != "df" && !ParamsOk(job.name, job.params) {
      return Invalid;
    }
    if job.name == "search" {
      var found := Expand(fs, files, job.params.glob);
      match found {
        case OutsideBase(dir) => return OutOfScope(dir, None);
        case BadGlob => return Invalid;
        case Paths(paths) => return if CursorOk(job.params.cursor, |paths|) then Ready(paths) else Invalid;
      }
    }
    if IsPathJob(job.name) {
      var p := Resolve(fs, files, RequestedName(job), job.name == "list_dir");
      match p {
        case Fine(q) => return Ready([q]);
        case Outside(dir) => return OutOfScope(dir, RequestedName(job));
        case Refused => return Invalid;
      }
    }
    return Ready([]);
  }

  /** What a prepared job may carry into execution. */
  predicate Cleared(job: Job, kind: int, files: Files, paths: seq<Path>) {
    Admissible(job, kind) && AllPermitted(files, paths)
  }

  /** A job is ready only if its identifier, name, class and parameters are valid, with paths
      the scope covers; it is offered a widening only if all that is valid and it asks for a
      path the scope does not cover. */
  lemma PreparedIsCleared(fs: FS, files: Files, job: Job, kind: int)
    ensures PrepareIn(fs, files, job, kind).Ready? ==> Cleared(job, kind, files, PrepareIn(fs, files, job, kind).paths)
    ensures var r := PrepareIn(fs, files, job, kind);
            r.OutOfScope? ==> Admissible(job, kind) && OutsideRequest(files, job) && r == OutOfScope(RequestedDir(job), RequestedName(job))
  {
    hide Permits, Canonical, ValidJobID;
    if job.params.SearchParams? && fs.glob(job.params.glob.pattern).Some? {
      KeptSound(fs, files, job.params.glob.since, fs.glob(job.params.glob.pattern).value);
    }
  }

  /** A job that reads one path is ready exactly if everything about it is valid and the name
      it asks for leads, inside the scope, to the path it is ready with. */
  lemma PathJobExactly(fs: FS, files: Files, job: Job, kind: int, paths: seq<Path>)
    requires IsPathJob(job.name)
    ensures PrepareIn(fs, files, job, kind) == Ready(paths) <==>
            Admissible(job, kind) && RequestedName(job).Some? && |paths| == 1 && LeadsTo(fs, files, RequestedName(job).value, paths[0])
    ensures PrepareIn(fs, files, job, kind).OutOfScope? <==>
            Admissible(job, kind) && RequestedName(job).Some? && !Permits(files, RequestedName(job).value)
  {
    hide ResolveIn, Admissible, StandsFor, Permits;
    var name := RequestedName(job);
    var r := ResolveIn(fs, files, name, job.name == "list_dir");
    if name.Some? {
      ResolveExactly(fs, files, name.value, job.name == "list_dir");
    } else {
      ResolveExactly(fs, files, [], job.name == "list_dir");
    }
    match r
    case Fine(c) =>
    case Outside(d) =>
    case Refused =>
  }

  /** A search is ready exactly if everything about it is valid, its base leads somewhere
      inside the scope, at most 200 files are found, and the cursor points at one; it is ready
      with the files its matches lead to, in order. */
  lemma SearchExactly(fs: FS, files: Files, job: Job, kind: int, paths: seq<Path>)
    requires job.name == "search" && job.params.SearchParams?
    ensures var g := job.params.glob;
            PrepareIn(fs, files, job, kind) == Ready(paths) <==>
            && Admissible(job, kind) && g.base.Some? && (exists c :: LeadsTo(fs, files, g.base.value, c))
            && fs.glob(g.pattern).Some? && paths == Kept(fs, files, g.since, fs.glob(g.pattern).value)
            && |paths| <= 200 && CursorOk(job.params.cursor, |paths|)
    ensures PrepareIn(fs, files, job, kind).OutOfScope? <==>
            Admissible(job, kind) && job.params.glob.base.Some? && !Permits(files, job.params.glob.base.value)
  {
    hide ResolveIn, Admissible, StandsFor, Permits, Kept;
    var base := job.params.glob.base;
    if base.Some? {
      ResolveExactly(fs, files, base.value, true);
    } else {
      ResolveExactly(fs, files, [], true);
    }
    var r := ResolveIn(fs, files, base, true);
    match r
    case Fine(c) => assert LeadsTo(fs, files, base.value, c);
    case Outside(d) =>
    case Refused =>
  }

  /** Jobs that read no file depend on no scope. */
  lemma OtherJobsExactly(fs: FS, files: Files, job: Job, kind: int)
    requires !IsPathJob(job.name) && job.name != "search"
    ensures PrepareIn(fs, files, job, kind) == if Admissible(job, kind) then Ready([]) else Invalid
  {
    hide Admissible;
  }

  /** The names whose resolutions a job may read: the one it asks for, or its glob's matches. */
  ghost predicate AsksFor(fs: FS, job: Job, q: Path) {
    || (IsPathJob(job.name) && RequestedName(job) == Some(q))
    || (job.name == "search" && job.params.SearchParams? && fs.glob(job.params.glob.pattern).Some? && q in fs.glob(job.params.glob.pattern).value)
  }

  /** Every path of a ready job is where a name it asks for leads, inside the scope. */
  lemma ReadyPathsResolved(fs: FS, files: Files, job: Job, kind: int, p: Path)
    requires PrepareIn(fs, files, job, kind).Ready? && p in PrepareIn(fs, files, job, kind).paths
    ensures exists q :: AsksFor(fs, job, q) && LeadsTo(fs, files, q, p)
  {
    hide LeadsTo, Kept, FoundBy;
    var paths := PrepareIn(fs, files, job, kind).paths;
    if IsPathJob(job.name) {
      PathJobExactly(fs, files, job, kind, paths);
      assert AsksFor(fs, job, RequestedName(job).value);
    } else {
      assert job.name == "search" && job.params.SearchParams?;
      SearchExactly(fs, files, job, kind, paths);
      var g := job.params.glob;
      var matches := fs.glob(g.pattern).value;
      KeptExactly(fs, files, g.since, matches);
      FoundIn(fs, files, g.since, matches, p);
      var i :| 0 <= i < |matches| && LeadsTo(fs, files, matches[i], p);
      assert AsksFor(fs, job, matches[i]);
    }
  }

  lemma FoundIn(fs: FS, files: Files, since: int, matches: seq<Path>, p: Path)
    requires FoundBy(fs, files, since, matches, p)
    ensures exists i :: 0 <= i < |matches| && LeadsTo(fs, files, matches[i], p)
  {
    hide LeadsTo;
  }

  /** The directory the operator would have to allow for a job. */
  function RequestedDir(job: Job): Path {
    match job.params
    case SearchParams(glob, _, _, _, _, _, _) => if glob.base.Some? then glob.base.value else []
    case _ =>
      var name := RequestedName(job);
      if name.None? then [] else if job.name == "list_dir" then name.value else Dir(name.value)
  }

  /** The request names something the scope does not cover. */
  predicate OutsideRequest(files: Files, job: Job) {
    match job.params
    case SearchParams(glob, _, _, _, _, _, _) => glob.base.Some? && !Permits(files, glob.base.value)
    case _ => RequestedName(job).Some? && !Permits(files, RequestedName(job).value)
  }
}
