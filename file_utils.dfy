/** The ignore set and the text-file selector: built-in ignore globs plus
    the lines of an optional override file, an fnmatch-style matcher, and
    the per-file test of the filtering walk. */
module FileUtils {
  import opened Wrappers
  import opened Strings
  import opened Seqs
  import opened FileSystem

  /** Things that are almost never worth scanning. */
  const DefaultIgnores: seq<string> := [
    "**/.git/**",
    "**/node_modules/**",
    "**/dist/**",
    "**/build/**",
    "**/.venv/**",
    "**/__pycache__/**",
    "**/.pytest_cache/**",
    "**/*.min.js",
    "**/*.map",
    "**/*.lock"
  ]

  /** Suffixes of files that usually hold readable text or code. */
  const TextExts: set<string> := {
    ".py", ".js", ".ts", ".jsx", ".tsx", ".java", ".go", ".rb", ".php", ".cs", ".cpp", ".c", ".h",
    ".html", ".css", ".json", ".yml", ".yaml", ".toml", ".env", ".txt", ".md", ".ini", ".cfg"
  }

  /** Files without a suffix are scanned only below this many bytes. */
  const MaxExtensionlessSize: nat := 200000

  // ---------------------------------------------------------------------
  // The ignore set

  /** An override-file line that becomes a pattern: non-empty once stripped
      and not a `#` comment. */
  predicate IsPatternLine(line: string) {
    var l := Strip(line);
    l != "" && l[0] != '#'
  }

  /** The patterns contributed by the override file's lines, in file order. */
  function ExtraPatterns(lines: seq<string>): (r: seq<string>)
    ensures forall k :: 0 <= k < |r| ==> r[k] != "" && r[k][0] != '#' && Strip(r[k]) == r[k]
    decreases |lines|
  {
    if lines == [] then []
    else
      var init := ExtraPatterns(lines[..|lines| - 1]);
      var l := Strip(lines[|lines| - 1]);
      StripIdempotent(lines[|lines| - 1]);
      if l == "" || l[0] == '#' then init else init + [l]
  }

  /** Each line, stripped. */
  function StripAll(lines: seq<string>): (r: seq<string>)
    ensures |r| == |lines|
    ensures forall k :: 0 <= k < |lines| ==> r[k] == Strip(lines[k])
  {
    seq(|lines|, k requires 0 <= k < |lines| => Strip(lines[k]))
  }

  /** The extra patterns are exactly the pattern lines, stripped, in order:
      nothing else is added, nothing is reordered. */
  lemma {:induction false} ExtraPatternsAreStrippedPatternLines(lines: seq<string>)
    ensures ExtraPatterns(lines) == StripAll(Filter(lines, IsPatternLine))
    decreases |lines|
  {
    if lines != [] {
      var init, last := lines[..|lines| - 1], lines[|lines| - 1];
      ExtraPatternsAreStrippedPatternLines(init);
      assert lines == init + [last];
      FilterAppend(init, [last], IsPatternLine);
      FilterSingleton(last, IsPatternLine);
      if IsPatternLine(last) {
        StripAllSnoc(Filter(init, IsPatternLine), last);
      }
    }
  }

  /** Stripping one more line appends its stripped form. */
  lemma StripAllSnoc(f: seq<string>, x: string)
    ensures StripAll(f + [x]) == StripAll(f) + [Strip(x)]
  {
  }

  /** One more override line adds its stripped text when it is a pattern
      line, and nothing otherwise. */
  lemma ExtraPatternsSnoc(lines: seq<string>, i: nat)
    requires i < |lines|
    ensures ExtraPatterns(lines[..i + 1]) ==
      if IsPatternLine(lines[i]) then ExtraPatterns(lines[..i]) + [Strip(lines[i])] else ExtraPatterns(lines[..i])
  {
    assert lines[..i + 1][..i] == lines[..i] && lines[..i + 1][i] == lines[i];
  }

  /** The defaults come first, unchanged, and the extras follow them. */
  lemma DefaultsThenExtras(extra: seq<string>)
    ensures (DefaultIgnores + extra)[..|DefaultIgnores|] == DefaultIgnores
    ensures forall k :: |DefaultIgnores| <= k < |DefaultIgnores + extra| ==>
      (DefaultIgnores + extra)[k] == extra[k - |DefaultIgnores|]
  {
  }

  /** `load_ignore_patterns`: a copy of the defaults, then one pattern per
      kept line of the override file when it exists. `overrideText` is the
      file's contents, or None when there is no such file. */
  method LoadIgnorePatterns(overrideText: Option<string>) returns (patterns: seq<string>)
    ensures |DefaultIgnores| <= |patterns| && patterns[..|DefaultIgnores|] == DefaultIgnores
    ensures overrideText.None? ==> patterns == DefaultIgnores
    ensures overrideText.Some? ==> patterns == DefaultIgnores + ExtraPatterns(SplitLines(overrideText.value))
    ensures forall k :: |DefaultIgnores| <= k < |patterns| ==>
      patterns[k] != "" && patterns[k][0] != '#' && Strip(patterns[k]) == patterns[k]
  {
    patterns := DefaultIgnores;
    ghost var extra: seq<string> := [];
    if overrideText.Some? {
      var lines := SplitLines(overrideText.value);
      patterns := AppendPatternLines(patterns, lines);
      extra := ExtraPatterns(lines);
    } else {
      assert DefaultIgnores + [] == DefaultIgnores;
    }
    DefaultsThenExtras(extra);
  }

  /** The loop over the override file's lines: each line is stripped, and
      kept unless it is then empty or a `#` comment. */
  method AppendPatternLines(head: seq<string>, lines: seq<string>) returns (patterns: seq<string>)
    ensures patterns == head + ExtraPatterns(lines)
  {
    patterns := head;
    for i := 0 to |lines|
      invariant patterns == head + ExtraPatterns(lines[..i])
    {
      ExtraPatternsSnoc(lines, i);
      var line := Strip(lines[i]);
      if line == "" || line[0] == '#' {
        continue;
      }
      patterns := patterns + [line];
    }
    assert lines[..|lines|] == lines;
  }

  // ---------------------------------------------------------------------
  // The glob matcher

  /** `fnmatch(name, pat)` for the wildcards `*` (any sequence, `/` included)
      and `?` (any one character); every other character stands for itself. */
  function GlobMatch(pat: string, name: string): bool
    decreases |pat| + |name|
  {
    if pat == [] then name == []
    else if pat[0] == '*' then GlobMatch(pat[1..], name) || (name != [] && GlobMatch(pat, name[1..]))
    else name != [] && (pat[0] == '?' || pat[0] == name[0]) && GlobMatch(pat[1..], name[1..])
  }

  predicate NoWildcards(pat: string) {
    '*' !in pat && '?' !in pat
  }

  /** A pattern without wildcards matches only the identical string. */
  lemma {:induction false} LiteralGlobMatchesItself(pat: string, name: string)
    requires NoWildcards(pat)
    ensures GlobMatch(pat, name) <==> name == pat
    decreases |pat|
  {
    if pat != [] {
      assert pat == [pat[0]] + pat[1..];
      if name != [] {
        LiteralGlobMatchesItself(pat[1..], name[1..]);
        assert name == [name[0]] + name[1..];
      }
    }
  }

  /** `*` matches every string, including one with `/` in it. */
  lemma {:induction false} StarMatchesAll(name: string)
    ensures GlobMatch("*", name)
    decreases |name|
  {
    if name != [] {
      StarMatchesAll(name[1..]);
    }
  }

  /** A star that matched a suffix of the name matches the whole name. */
  lemma {:induction false} StarAbsorbs(rest: string, name: string, k: nat)
    requires k <= |name| && GlobMatch(rest, name[k..])
    ensures GlobMatch(['*'] + rest, name)
    decreases k
  {
    var pat := ['*'] + rest;
    assert pat[0] == '*' && pat[1..] == rest;
    if k == 0 {
      assert name[0..] == name;
    } else {
      assert name[1..][k - 1..] == name[k..];
      StarAbsorbs(rest, name[1..], k - 1);
    }
  }

  /** A star that matched the whole name left some suffix for `rest`. */
  lemma {:induction false} StarLeavesSuffix(rest: string, name: string) returns (k: nat)
    requires GlobMatch(['*'] + rest, name)
    ensures k <= |name| && GlobMatch(rest, name[k..])
    decreases |name|
  {
    var pat := ['*'] + rest;
    assert pat[0] == '*' && pat[1..] == rest;
    if GlobMatch(rest, name) {
      k := 0;
      assert name[0..] == name;
    } else {
      assert name != [] && GlobMatch(pat, name[1..]);
      var j := StarLeavesSuffix(rest, name[1..]);
      k := j + 1;
      assert name[1..][j..] == name[k..];
    }
  }

  /** `*` followed by `rest` matches exactly when `rest` matches some suffix:
      the star absorbs any prefix, possibly empty. */
  lemma StarSplit(rest: string, name: string)
    ensures GlobMatch(['*'] + rest, name) <==> exists k :: 0 <= k <= |name| && GlobMatch(rest, name[k..])
  {
    if GlobMatch(['*'] + rest, name) {
      var k := StarLeavesSuffix(rest, name);
    }
    if exists k :: 0 <= k <= |name| && GlobMatch(rest, name[k..]) {
      var k :| 0 <= k <= |name| && GlobMatch(rest, name[k..]);
      StarAbsorbs(rest, name, k);
    }
  }

  /** `?` matches exactly one character, whatever it is. */
  lemma QuestionMatchesOne(rest: string, c: char, name: string)
    ensures GlobMatch(['?'] + rest, [c] + name) <==> GlobMatch(rest, name)
    ensures !GlobMatch(['?'] + rest, "")
  {
    assert (['?'] + rest)[1..] == rest && ([c] + name)[1..] == name;
  }

  /** A literal prefix of the pattern consumes the same prefix of the name. */
  lemma {:induction false} LiteralPrefixMatch(lit: string, rest: string, name: string)
    requires NoWildcards(lit)
    ensures GlobMatch(lit + rest, lit + name) <==> GlobMatch(rest, name)
    decreases |lit|
  {
    if lit != [] {
      assert (lit + rest)[1..] == lit[1..] + rest;
      assert (lit + name)[1..] == lit[1..] + name;
      LiteralPrefixMatch(lit[1..], rest, name);
    } else {
      assert lit + rest == rest && lit + name == name;
    }
  }

  /** A pattern made of two stars, a slash and then anything matches only a
      name that holds a slash. */
  lemma SlashAfterStars(q: string, name: string)
    requires GlobMatch(['*', '*', '/'] + q, name)
    ensures '/' in name
  {
    assert ['*', '*', '/'] + q == ['*'] + (['*'] + (['/'] + q));
    StarSplit(['*'] + (['/'] + q), name);
    var i :| 0 <= i <= |name| && GlobMatch(['*'] + (['/'] + q), name[i..]);
    StarSplit(['/'] + q, name[i..]);
    var j :| 0 <= j <= |name[i..]| && GlobMatch(['/'] + q, name[i..][j..]);
    var tail := name[i..][j..];
    assert tail != [] && tail[0] == '/';
    assert name[i + j] == '/';
  }

  // Every default pattern begins with two stars and a slash, and the slash
  // has to be matched literally: a path with no slash at all, that is a file
  // at the top of the scanned tree, is never caught by a default pattern.
  lemma TopLevelPathsEscapeDefaults(name: string)
    requires '/' !in name
    ensures forall k :: 0 <= k < |DefaultIgnores| ==> !GlobMatch(DefaultIgnores[k], name)
  {
    forall k | 0 <= k < |DefaultIgnores| ensures !GlobMatch(DefaultIgnores[k], name) {
      var p := DefaultIgnores[k];
      assert p == ['*', '*', '/'] + p[3..];
      if GlobMatch(p, name) {
        SlashAfterStars(p[3..], name);
      }
    }
  }

  // ---------------------------------------------------------------------
  // is_ignored

  /** Some pattern of the list matches the path. */
  predicate Ignored(relPosix: string, patterns: seq<string>) {
    exists k :: 0 <= k < |patterns| && GlobMatch(patterns[k], relPosix)
  }

  /** `is_ignored`: try the patterns in order, stop at the first match. */
  method IsIgnored(relPosix: string, patterns: seq<string>) returns (ignored: bool)
    ensures ignored <==> exists k :: 0 <= k < |patterns| && GlobMatch(patterns[k], relPosix)
    ensures patterns == [] ==> !ignored
  {
    for i := 0 to |patterns|
      invariant forall k :: 0 <= k < i ==> !GlobMatch(patterns[k], relPosix)
    {
      if GlobMatch(patterns[i], relPosix) {
        return true;
      }
    }
    return false;
  }

  /** Appending patterns never turns an ignored path into a scanned one. */
  lemma IgnoredMonotone(relPosix: string, patterns: seq<string>, more: seq<string>)
    requires Ignored(relPosix, patterns)
    ensures Ignored(relPosix, patterns + more)
  {
    var k :| 0 <= k < |patterns| && GlobMatch(patterns[k], relPosix);
    assert (patterns + more)[k] == patterns[k];
  }

  /** A nested `.git` directory is ignored by the defaults. */
  lemma NestedGitDirIgnored()
    ensures Ignored("src/.git/HEAD", DefaultIgnores)
  {
    var name := "src/.git/HEAD";
    assert GlobMatch("**", "HEAD") by {
      StarMatchesAll("HEAD");
      StarSplit("*", "HEAD");
      assert "HEAD"[0..] == "HEAD";
    }
    assert GlobMatch("/.git/**", "/.git/HEAD") by {
      LiteralPrefixMatch("/.git/", "**", "HEAD");
      assert "/.git/" + "**" == "/.git/**" && "/.git/" + "HEAD" == "/.git/HEAD";
    }
    assert GlobMatch("*/.git/**", name[3..]) by {
      assert name[3..] == "/.git/HEAD";
      StarSplit("/.git/**", name[3..]);
      assert name[3..][0..] == name[3..];
    }
    assert GlobMatch("**/.git/**", name) by {
      StarSplit("*/.git/**", name);
    }
    assert DefaultIgnores[0] == "**/.git/**";
  }

  // ---------------------------------------------------------------------
  // iter_text_files

  /** The selection test: a regular file whose relative path is not ignored
      and whose lower-cased suffix is a text suffix, or which has no suffix
      and is smaller than 200000 bytes. */
  predicate IsTextFile(e: FileEntry, patterns: seq<string>) {
    e.isFile
    && !Ignored(e.relPath, patterns)
    && (Lower(e.suffix) in TextExts || (e.suffix == "" && e.size < MaxExtensionlessSize))
  }

  /** `iter_text_files` over the walk: keeps the walk's order and exactly the
      entries that pass the selection test. */
  method IterTextFiles(walk: seq<FileEntry>, patterns: seq<string>) returns (files: seq<FileEntry>)
    ensures files == Filter(walk, e => IsTextFile(e, patterns))
    ensures forall e :: e in files <==> e in walk && IsTextFile(e, patterns)
  {
    files := [];
    for i := 0 to |walk|
      invariant files == Filter(walk[..i], e => IsTextFile(e, patterns))
    {
      assert walk[..i + 1][..i] == walk[..i] && walk[..i + 1][i] == walk[i];
      var p := walk[i];
      if !p.isFile {
        continue;
      }
      var ignored := IsIgnored(p.relPath, patterns);
      if ignored {
        continue;
      }
      if Lower(p.suffix) in TextExts || (p.suffix == "" && p.size < MaxExtensionlessSize) {
        files := files + [p];
      }
    }
    assert walk[..|walk|] == walk;
    forall e | e in walk && IsTextFile(e, patterns) ensures e in files {
      FilterKeeps(walk, e => IsTextFile(e, patterns), e);
    }
  }
}
