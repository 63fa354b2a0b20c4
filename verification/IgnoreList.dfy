/**
  The class `IgnoreList`: filters rebuilt from the ignore files of a folder when they are more than
  ten seconds old.

  The clock and the ignore files found at the moment are parameters.
 */
module IgnoreLists {
  import opened Options
  import opened Globs

  // An ignore file: its normalised path and its lines, which are empty if it cannot be opened.
  datatype IgnoreFile = IgnoreFile(path: string, lines: seq<string>)

  // Reading paths: whether a line is a relative path, and its cleaned form.
  datatype Paths = Paths(isRelative: string -> bool, clean: string -> string)

  const SystemFolder: string := ".librevault"
  const FileName: string := ".lvignore"
  const MaxAge: int := 10 * 1000

  function Left(s: string, n: nat): string {
    if n < |s| then s[..n] else s
  }

  function Chop(s: string, n: nat): string {
    if n < |s| then s[..|s| - n] else ""
  }

  // The pattern of one line; comments, empty lines, absolute paths and ".." have none.
  function LinePattern(paths: Paths, prefix: string, line: string): Option<string> {
    if line == "" || Left(line, 1) == "#" then None
    else
      var text := if Left(line, 2) == "\\#" then line[1..] else line;
      if !paths.isRelative(text) then None
      else
        var clean := paths.clean(text);
        if Left(clean, 2) == "../" || clean == ".." then None else Some(prefix + clean)
  }

  // Exactly which pattern a line has: the cleaned line behind the prefix, with a leading backslash before '#'
  // taken off, unless the line is empty, a comment, not relative, or cleaned to "..".
  lemma LineHas(paths: Paths, prefix: string, line: string, p: string)
    ensures LinePattern(paths, prefix, line) == Some(p) <==>
              && line != "" && line[0] != '#'
              && var text := if |line| >= 2 && line[0] == '\\' && line[1] == '#' then line[1..] else line;
                 paths.isRelative(text) && paths.clean(text) != ".." && p == prefix + paths.clean(text)
  {
    if line != "" {
      assert Left(line, 1) == "#" <==> line[0] == '#';
      assert |line| >= 2 ==> Left(line, 2) == [line[0], line[1]];
    }
  }

  // The directory of an ignore file is its path without its name.
  lemma PrefixIs(dir: string)
    ensures Chop(dir + ".lvignore", |FileName|) == dir
  {
  }

  // The test for "../" never holds, so a line is turned down for leaving the directory only if it
  // is cleaned to "..".
  lemma OnlyDotsRefused(paths: Paths, prefix: string, line: string)
    requires line != "" && Left(line, 1) != "#"
    ensures var text := if Left(line, 2) == "\\#" then line[1..] else line;
            LinePattern(paths, prefix, line).None? <==> !paths.isRelative(text) || paths.clean(text) == ".."
  {
  }

  // A line that leaves the directory of its ignore file and gets a pattern all the same.
  lemma DotsAccepted()
    ensures var paths := Paths(_ => true, line => line);
            LinePattern(paths, "music/", "../x") == Some("music/../x")
  {
    var line := "../x";
    assert Left(line, 1) == "." && Left(line, 2) == "..";
    assert "music/" + line == "music/../x";
  }

  function LinePatterns(paths: Paths, prefix: string, lines: seq<string>): seq<string> {
    if lines == [] then []
    else
      var last := LinePattern(paths, prefix, lines[|lines| - 1]);
      LinePatterns(paths, prefix, lines[..|lines| - 1]) + if last.Some? then [last.value] else []
  }

  function FilePatterns(paths: Paths, file: IgnoreFile): seq<string> {
    LinePatterns(paths, Chop(file.path, |FileName|), file.lines)
  }

  function Patterns(paths: Paths, files: seq<IgnoreFile>): seq<string> {
    if files == [] then [SystemFolder]
    else Patterns(paths, files[..|files| - 1]) + FilePatterns(paths, files[|files| - 1])
  }

  // The patterns are the system folder and those of all lines of all files.
  lemma {:induction false} PatternsAre(paths: Paths, files: seq<IgnoreFile>, p: string)
    ensures p in Patterns(paths, files) <==>
              p == ".librevault" || exists f | f in files :: HasLine(paths, f, p)
    decreases |files|
  {
    if files != [] {
      var init, last := files[..|files| - 1], files[|files| - 1];
      PatternsAre(paths, init, p);
      LinesHave(paths, Chop(last.path, |FileName|), last.lines, p);
      assert |FileName| == 9;
      assert p in FilePatterns(paths, last) <==> HasLine(paths, last, p);
      assert forall f :: f in files <==> f in init || f == last;
    }
  }

  predicate HasLine(paths: Paths, f: IgnoreFile, p: string) {
    exists line | line in f.lines :: LinePattern(paths, Chop(f.path, 9), line) == Some(p)
  }

  lemma {:induction false} LinesHave(paths: Paths, prefix: string, lines: seq<string>, p: string)
    ensures p in LinePatterns(paths, prefix, lines) <==>
              exists line | line in lines :: LinePattern(paths, prefix, line) == Some(p)
    decreases |lines|
  {
    hide LinePattern;
    if lines != [] {
      LinesHave(paths, prefix, lines[..|lines| - 1], p);
      assert forall x :: x in lines <==> x in lines[..|lines| - 1] || x == lines[|lines| - 1];
    }
  }

  lemma {:induction false} SystemFolderFirst(paths: Paths, files: seq<IgnoreFile>)
    ensures Patterns(paths, files) != [] && Patterns(paths, files)[0] == SystemFolder
  {
    if files != [] {
      SystemFolderFirst(paths, files[..|files| - 1]);
    }
  }

  lemma FiltersSnoc(patterns: seq<string>, p: string)
    ensures Filters(patterns + [p]) == Filters(patterns) + Pair(p)
  {
  }

  class IgnoreList {
    const paths: Paths
    const fold: Fold
    var filters: seq<string>
    var lastRebuild: int
    // The patterns the filters were built from.
    ghost var built: seq<string>

    ghost predicate Valid()
      reads this
    {
      && filters == Filters(built)
      && (lastRebuild > 0 ==> built != [])
      && (built != [] ==> built[0] == SystemFolder)
    }

    // `now` and `later` are the times before and after a rebuild.
    constructor (paths: Paths, fold: Fold, files: seq<IgnoreFile>, now: int, later: int)
      ensures Valid() && this.paths == paths && this.fold == fold
      ensures now > MaxAge ==> built == Patterns(paths, files)
    {
      this.paths, this.fold := paths, fold;
      filters, lastRebuild, built := [], 0, [];
      new;
      LazyRebuildIgnores(files, now, later);
    }

    // Ignored is what the filters ignore after the rebuild, if one was due: what a pattern matches or is
    // beneath such a directory.
    method IsIgnored(path: string, files: seq<IgnoreFile>, now: int, later: int) returns (r: bool)
      requires Valid() && KeepsSlash(fold)
      modifies this
      ensures Valid() && (now <= later ==> now - lastRebuild <= MaxAge)
      ensures built == if now - old(lastRebuild) > 10000 then Patterns(paths, files) else old(built)
      ensures r <==> exists p | p in built :: Above(p, path, fold)
      ensures now - old(lastRebuild) > 10000 ==>
                (r <==> Above(".librevault", path, fold) || exists f, p | f in files && HasLine(paths, f, p) ::
                          Above(p, path, fold))
      ensures MaxAge < now <= later && Above(SystemFolder, path, fold) ==> r
    {
      LazyRebuildIgnores(files, now, later);
      r := Match(filters, path, fold);
      IgnoredIff(built, path, fold);
      if now - old(lastRebuild) > 10000 {
        forall p ensures p in built <==> p == ".librevault" || exists f | f in files :: HasLine(paths, f, p) {
          PatternsAre(paths, files, p);
        }
      }
    }

    static method Match(filters: seq<string>, path: string, fold: Fold) returns (r: bool)
      ensures r <==> Ignored(filters, path, fold)
    {
      hide Matches;
      for i := 0 to |filters|
        invariant forall j | 0 <= j < i :: !Matches(filters[j], path, fold)
      {
        if Matches(filters[i], path, fold) {
          return true;
        }
      }
      return false;
    }

    method LazyRebuildIgnores(files: seq<IgnoreFile>, now: int, later: int)
      requires Valid()
      modifies this
      ensures Valid() && (now <= later ==> now - lastRebuild <= MaxAge)
      ensures if now - old(lastRebuild) > 10000 then built == Patterns(paths, files) && lastRebuild == later
              else built == old(built) && lastRebuild == old(lastRebuild)
    {
      if now - lastRebuild > MaxAge {
        RebuildIgnores(files);
        lastRebuild := later;
        SystemFolderFirst(paths, files);
      }
    }

    method RebuildIgnores(files: seq<IgnoreFile>)
      modifies this`filters, this`built
      ensures filters == Filters(built) && built == Patterns(paths, files)
    {
      hide Filters;
      filters, built := [], [];
      FiltersOfNone();
      AddIgnorePattern(SystemFolder, true);
      for i := 0 to |files|
        invariant filters == Filters(built) && built == Patterns(paths, files[..i])
      {
        assert files[..i + 1][..i] == files[..i];
        ReadFile(files[i]);
      }
      assert files[..|files|] == files;
    }

    method ReadFile(file: IgnoreFile)
      requires filters == Filters(built)
      modifies this`filters, this`built
      ensures filters == Filters(built) && built == old(built) + FilePatterns(paths, file)
    {
      hide Filters;
      var prefix := Chop(file.path, |FileName|);
      for i := 0 to |file.lines|
        invariant filters == Filters(built)
        invariant built == old(built) + LinePatterns(paths, prefix, file.lines[..i])
      {
        assert file.lines[..i + 1][..i] == file.lines[..i];
        ParseLine(prefix, file.lines[i]);
      }
      assert file.lines[..|file.lines|] == file.lines;
    }

    method ParseLine(prefix: string, line: string)
      requires filters == Filters(built)
      modifies this`filters, this`built
      ensures filters == Filters(built)
      ensures var p := LinePattern(paths, prefix, line);
              built == old(built) + if p.Some? then [p.value] else []
    {
      if |line| == 0 || Left(line, 1) == "#" {
        return;
      }
      var text := line;
      if Left(text, 2) == "\\#" {
        text := text[1..];
      }
      if !paths.isRelative(text) {
        return;
      }
      text := paths.clean(text);
      if Left(text, 2) == "../" || text == ".." {
        return;
      }
      AddIgnorePattern(prefix + text, true);
    }

    method AddIgnorePattern(pattern: string, canBeDir: bool)
      modifies this`filters, this`built
      ensures filters == old(filters) + if canBeDir then [pattern, pattern + "/*"] else [pattern]
      ensures built == old(built) + [pattern]
      ensures canBeDir && old(filters) == Filters(old(built)) ==> filters == Filters(built)
    {
      filters := filters + [pattern];
      if canBeDir {
        filters := filters + [pattern + "/*"];
      }
      FiltersSnoc(built, pattern);
      built := built + [pattern];
    }
  }

  lemma FiltersOfNone()
    ensures Filters([]) == []
  {
  }
}
