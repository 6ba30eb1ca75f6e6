/** How a reference written in a file of a repository names another file: joined to its directory, lexically. */
module RepoPaths {
  import opened Wrappers
  import Text

  /** The segments that are left when `parts` are followed from the directory `base`. */
  function CleanOnto(base: seq<string>, parts: seq<string>): seq<string> {
    if parts == [] then base
    else
      var before, part := CleanOnto(base, parts[..|parts| - 1]), parts[|parts| - 1];
      if part == "" || part == "." then before
      else if part == ".." then if before == [] then [] else before[..|before| - 1]
      else before + [part]
  }

  function Segments(path: string): seq<string> {
    CleanOnto([], Text.Split(path, '/'))
  }

  function PathOf(segments: seq<string>): string {
    "/" + Text.Join(segments, '/')
  }

  function Dir(path: string): seq<string> {
    var segments := Segments(path);
    if segments == [] then [] else segments[..|segments| - 1]
  }

  /** Absolute, home-relative and environment-expanded paths are refused. */
  predicate Refused(part: string) {
    part == "" || part[0] == '/' || part == "~" || "~/" <= part || '$' in part
  }

  /** Paths that leave the repository are refused too. */
  function Resolve(repo: seq<string>, part: string, path: string): Option<string> {
    if Refused(part) then None
    else
      var segments := CleanOnto(Dir(path), Text.Split(part, '/'));
      if repo <= segments then Some(PathOf(segments)) else None
  }

  // ---------------------------------------------------------------- resolved paths are clean and inside

  predicate CleanSegment(s: string) {
    s != "" && s != "." && s != ".." && '/' !in s
  }

  predicate Clean(segments: seq<string>) {
    forall i :: 0 <= i < |segments| ==> CleanSegment(segments[i])
  }

  lemma {:induction false} CleanOntoClean(base: seq<string>, parts: seq<string>)
    requires Clean(base) && forall i :: 0 <= i < |parts| ==> '/' !in parts[i]
    ensures Clean(CleanOnto(base, parts))
  {
    if parts != [] { CleanOntoClean(base, parts[..|parts| - 1]); }
  }

  lemma SegmentsClean(path: string)
    ensures Clean(Segments(path)) && Clean(Dir(path))
  {
    Text.JoinSplit(path, '/');
    CleanOntoClean([], Text.Split(path, '/'));
  }

  lemma {:induction false} CleanOntoAppends(base: seq<string>, parts: seq<string>)
    requires Clean(parts)
    ensures CleanOnto(base, parts) == base + parts
  {
    if parts != [] {
      CleanOntoAppends(base, parts[..|parts| - 1]);
      assert parts == parts[..|parts| - 1] + [parts[|parts| - 1]];
    } else {
      assert base + parts == base;
    }
  }

  lemma {:induction false} CleanOntoConcat(base: seq<string>, a: seq<string>, b: seq<string>)
    ensures CleanOnto(base, a + b) == CleanOnto(CleanOnto(base, a), b)
    decreases |b|
  {
    if b == [] {
      assert a + b == a;
    } else {
      assert (a + b)[..|a + b| - 1] == a + b[..|b| - 1];
      CleanOntoConcat(base, a, b[..|b| - 1]);
    }
  }

  lemma LeadingSlash(rest: seq<string>)
    ensures CleanOnto([], [""] + rest) == CleanOnto([], rest)
  {
    CleanOntoConcat([], [""], rest);
    assert [""][..0] == [];
  }

  /** A clean path is read back as its segments. */
  lemma SegmentsOfPath(segments: seq<string>)
    requires Clean(segments)
    ensures Segments(PathOf(segments)) == segments
  {
    var joined := Text.Join(segments, '/');
    Text.SplitHead("", '/', joined);
    assert "" + ['/'] + joined == PathOf(segments);
    LeadingSlash(Text.Split(joined, '/'));
    if segments == [] {
      Text.SplitHead("", '/', "");
      LeadingSlash([]);
      assert [""] + [] == [""];
    } else {
      Text.SplitJoin(segments, '/');
      CleanOntoAppends([], segments);
      assert [] + segments == segments;
    }
  }

  /** Whatever a reference is, the file it names lies in the repository. */
  lemma StaysInRepository(repo: seq<string>, part: string, path: string)
    ensures Resolve(repo, part, path).Some? ==> repo <= Segments(Resolve(repo, part, path).value)
  {
    SegmentsClean(path);
    Text.JoinSplit(part, '/');
    var segments := CleanOnto(Dir(path), Text.Split(part, '/'));
    CleanOntoClean(Dir(path), Text.Split(part, '/'));
    SegmentsOfPath(segments);
  }

  lemma DirOf(dir: seq<string>, file: string)
    requires Clean(dir) && CleanSegment(file)
    ensures Dir(PathOf(dir + [file])) == dir
  {
    SegmentsOfPath(dir + [file]);
  }

  // ---------------------------------------------------------------- what a reference names

  /** How far the pieces of a relative path climb, and which names they then go down: read from the end. */
  function Relative(parts: seq<string>): (nat, seq<string>) {
    if parts == [] then (0, [])
    else
      var (ups, names) := Relative(parts[1..]);
      if parts[0] == "" || parts[0] == "." then (ups, names)
      else if parts[0] == ".." then (ups + 1, names)
      else if ups > 0 then (ups - 1, names)
      else (0, [parts[0]] + names)
  }

  function Climbed(dir: seq<string>, ups: nat): seq<string> {
    if ups <= |dir| then dir[..|dir| - ups] else []
  }

  /** The directory or file that the pieces lead to from `dir`. */
  function Reached(dir: seq<string>, parts: seq<string>): seq<string> {
    var (ups, names) := Relative(parts);
    Climbed(dir, ups) + names
  }

  lemma OntoOne(base: seq<string>, part: string)
    ensures CleanOnto(base, [part]) ==
      if part == "" || part == "." then base else if part == ".." then Climbed(base, 1) else base + [part]
  {
    assert [part][..0] == [];
    assert CleanOnto(base, []) == base;
  }

  /** Following the pieces one by one, from the start, leads where they lead when read from the end. */
  lemma {:induction false} OntoReached(base: seq<string>, parts: seq<string>)
    ensures CleanOnto(base, parts) == Reached(base, parts)
    decreases |parts|
  {
    if parts == [] {
      assert base[..|base|] + [] == base;
    } else {
      var first := CleanOnto(base, [parts[0]]);
      assert [parts[0]] + parts[1..] == parts;
      CleanOntoConcat(base, [parts[0]], parts[1..]);
      OntoOne(base, parts[0]);
      OntoReached(first, parts[1..]);
      var (ups, names) := Relative(parts[1..]);
      if parts[0] == ".." {
        assert Climbed(Climbed(base, 1), ups) == Climbed(base, ups + 1);
      } else if parts[0] != "" && parts[0] != "." {
        ClimbedPast(base, parts[0], ups);
        assert base + [parts[0]] + names == base + ([parts[0]] + names);
        assert base[..|base|] == base;
      }
    }
  }

  lemma ClimbedPast(base: seq<string>, name: string, ups: nat)
    ensures Climbed(base + [name], ups) == if ups > 0 then Climbed(base, ups - 1) else base + [name]
  {
    if 0 < ups <= |base| + 1 { assert (base + [name])[..|base| + 1 - ups] == base[..|base| - (ups - 1)]; }
  }

  /**
    A reference in a file is refused exactly when its form is, or when it leads out of the repository; otherwise it
    names what its pieces lead to from the file's directory.
   */
  lemma ResolvesExactly(repo: seq<string>, dir: seq<string>, file: string, part: string)
    requires Clean(dir) && CleanSegment(file)
    ensures var target := Reached(dir, Text.Split(part, '/'));
            Resolve(repo, part, PathOf(dir + [file])) ==
            if Refused(part) || !(repo <= target) then None else Some(PathOf(target))
  {
    hide CleanOnto, Segments, PathOf, Relative;
    DirOf(dir, file);
    OntoReached(dir, Text.Split(part, '/'));
  }

  /** A text is refused exactly when it is empty, absolute, starts at the home directory or holds a dollar sign. */
  lemma RefusedExactly(part: string)
    ensures Refused(part) <==>
      || part == "" || part == "~" || (exists rest :: part == "/" + rest) || (exists rest :: part == "~/" + rest)
      || (exists before, after :: part == before + "$" + after)
  {
    if part != "" && part[0] == '/' { assert part == "/" + part[1..]; }
    if "~/" <= part { assert part == "~/" + part[2..]; }
    if '$' in part {
      var i :| 0 <= i < |part| && part[i] == '$';
      assert part == part[..i] + "$" + part[i + 1..];
    }
    forall before, after | part == before + "$" + after ensures '$' in part {
      assert part[|before|] == '$';
    }
  }

  /** The pieces other than "." and the empty ones. */
  function NamesIn(parts: seq<string>): seq<string> {
    if parts == [] then []
    else (if parts[0] == "" || parts[0] == "." then [] else [parts[0]]) + NamesIn(parts[1..])
  }

  /** `ups` pieces that are two dots. */
  function Ups(ups: nat): seq<string> {
    seq(ups, _ => "..")
  }

  lemma {:induction false} NamesRelative(parts: seq<string>)
    requires ".." !in parts
    ensures Relative(parts) == (0, NamesIn(parts))
  {
    if parts != [] {
      assert parts[0] in parts;
      NamesRelative(parts[1..]);
      assert [] + NamesIn(parts[1..]) == NamesIn(parts[1..]);
    }
  }

  lemma {:induction false} UpsRelative(ups: nat, parts: seq<string>)
    requires ".." !in parts
    ensures Relative(Ups(ups) + parts) == (ups, NamesIn(parts))
    decreases ups
  {
    if ups == 0 {
      assert Ups(0) + parts == parts;
      NamesRelative(parts);
    } else {
      UpsRelative(ups - 1, parts);
      assert (Ups(ups) + parts)[0] == ".." && (Ups(ups) + parts)[1..] == Ups(ups - 1) + parts;
    }
  }

  /** The text of the pieces is split into them again, and is not absolute. */
  lemma PiecesText(parts: seq<string>)
    requires parts != [] && parts[0] != "" && forall i :: 0 <= i < |parts| ==> '/' !in parts[i]
    ensures var text := Text.Join(parts, '/'); text != "" && text[0] != '/' && Text.Split(text, '/') == parts
  {
    Text.SplitJoin(parts, '/');
    assert parts[0][0] in parts[0];
  }

  /**
    A path that climbs `ups` directories and goes down some names, with "." and empty pieces anywhere between them,
    names the file at the end of those names.
   */
  lemma NamesTheFile(repo: seq<string>, dir: seq<string>, file: string, ups: nat, parts: seq<string>)
    requires Clean(dir) && CleanSegment(file) && ".." !in parts && forall i :: 0 <= i < |parts| ==> '/' !in parts[i]
    requires ups > 0 || (parts != [] && parts[0] != "")
    requires repo <= Climbed(dir, ups) + NamesIn(parts) && !Refused(Text.Join(Ups(ups) + parts, '/'))
    ensures Resolve(repo, Text.Join(Ups(ups) + parts, '/'), PathOf(dir + [file])) ==
      Some(PathOf(Climbed(dir, ups) + NamesIn(parts)))
  {
    hide Resolve, PathOf, Refused, Relative;
    PiecesText(Ups(ups) + parts);
    UpsRelative(ups, parts);
    ResolvesExactly(repo, dir, file, Text.Join(Ups(ups) + parts, '/'));
  }

  lemma {:induction false} RelativeSame(before: seq<string>, a: seq<string>, b: seq<string>)
    requires Relative(a) == Relative(b)
    ensures Relative(before + a) == Relative(before + b)
    decreases |before|
  {
    if before == [] {
      assert before + a == a && before + b == b;
    } else {
      RelativeSame(before[1..], a, b);
      assert (before + a)[1..] == before[1..] + a && (before + b)[1..] == before[1..] + b;
    }
  }

  /** Going down a name and up again, anywhere on the way, makes no difference. */
  lemma DownAndUp(dir: seq<string>, before: seq<string>, name: string, after: seq<string>)
    requires CleanSegment(name)
    ensures Reached(dir, before + ([name, ".."] + after)) == Reached(dir, before + after)
  {
    var detour := [name, ".."] + after;
    assert detour[1..] == [".."] + after && ([".."] + after)[1..] == after;
    assert Relative([".."] + after).0 == Relative(after).0 + 1;
    RelativeSame(before, detour, after);
  }

  /** A name written in a file names the file next to it. */
  lemma Beside(repo: seq<string>, dir: seq<string>, file: string, name: string)
    requires Clean(dir) && CleanSegment(file) && CleanSegment(name) && repo <= dir && name[0] != '~' && '$' !in name
    ensures Resolve(repo, name, PathOf(dir + [file])) == Some(PathOf(dir + [name]))
  {
    hide CleanOnto, Segments, PathOf, Dir;
    DirOf(dir, file);
    Text.SplitHead(name, '/', "");
    CleanOntoAppends(dir, [name]);
  }

  lemma Up(dir: seq<string>, parent: string)
    ensures CleanOnto(dir + [parent], [".."]) == dir
  {
    assert [".."][..0] == [];
    assert (dir + [parent])[..|dir|] == dir;
  }

  /** A name behind two dots names the file beside the directory. */
  lemma OneUp(repo: seq<string>, dir: seq<string>, parent: string, file: string, name: string)
    requires Clean(dir) && CleanSegment(parent) && CleanSegment(file) && CleanSegment(name) && repo <= dir
    requires '$' !in name
    ensures Resolve(repo, "../" + name, PathOf(dir + [parent] + [file])) == Some(PathOf(dir + [name]))
  {
    hide CleanOnto, Segments, PathOf, Dir;
    DirOf(dir + [parent], file);
    Text.SplitHead(name, '/', "");
    Text.SplitHead("..", '/', name);
    assert ".." + ['/'] + name == "../" + name;
    CleanOntoConcat(dir + [parent], [".."], [name]);
    Up(dir, parent);
    CleanOntoAppends(dir, [name]);
  }
}
