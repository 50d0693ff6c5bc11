/** The secret scanner: walks the candidate files, runs every rule of the
    table over every line, and records one masked finding per rule that
    matches a line. */
module SecretsScanner {
  import opened Wrappers
  import opened Strings
  import opened Seqs
  import opened FileSystem
  import opened SecretsRules

  /** The scanner's own list of text suffixes (shorter than the selector's:
      no `.cpp`, `.c` or `.h`). */
  const TextExts: set<string> := {
    ".py", ".js", ".ts", ".jsx", ".tsx", ".java", ".go", ".rb", ".php", ".cs",
    ".html", ".css", ".json", ".yml", ".yaml", ".toml", ".env", ".txt", ".md",
    ".ini", ".cfg"
  }

  // ---------------------------------------------------------------------
  // Candidate files

  /** A regular file with a known text suffix (compared lower-cased), or a
      file named exactly `.env`. */
  predicate IsCandidate(e: FileEntry) {
    e.isFile && (Lower(e.suffix) in TextExts || e.name == ".env")
  }

  /** `iter_candidate_files` over the walk: the candidates, in walk order. */
  method IterCandidateFiles(walk: seq<FileEntry>) returns (files: seq<FileEntry>)
    ensures files == Filter(walk, IsCandidate)
    ensures forall e :: e in files <==> e in walk && IsCandidate(e)
  {
    files := [];
    for i := 0 to |walk|
      invariant files == Filter(walk[..i], IsCandidate)
    {
      assert walk[..i + 1][..i] == walk[..i] && walk[..i + 1][i] == walk[i];
      var p := walk[i];
      if p.isFile && (Lower(p.suffix) in TextExts || p.name == ".env") {
        files := files + [p];
      }
    }
    assert walk[..|walk|] == walk;
    forall e | e in walk && IsCandidate(e) ensures e in files {
      FilterKeeps(walk, IsCandidate, e);
    }
  }

  // ---------------------------------------------------------------------
  // Masking

  /** `mask_evidence`: six characters or fewer become as many stars; a
      longer value keeps its first three and last three characters around
      three stars. */
  function MaskEvidence(val: string): (r: string)
    ensures |val| <= 6 ==> |r| == |val| && forall k :: 0 <= k < |r| ==> r[k] == '*'
    ensures |val| > 6 ==> |r| == 9 && r[..3] == val[..3] && r[3..6] == "***" && r[6..] == val[|val| - 3..]
  {
    if |val| <= 6 then seq(|val|, _ => '*') else val[..3] + "***" + val[|val| - 3..]
  }

  /** The mask shows nothing but the length of a short value, and nothing
      but its first and last three characters of a long one: two values
      that agree on those have the same mask. */
  lemma MaskRevealsOnlyEnds(a: string, b: string)
    requires (|a| <= 6 && |b| <= 6 && |a| == |b|) || (|a| > 6 && |b| > 6 && a[..3] == b[..3] && a[|a| - 3..] == b[|b| - 3..])
    ensures MaskEvidence(a) == MaskEvidence(b)
  {
  }

  /** A non-empty value without stars never comes back unmasked: at least
      one of its characters is replaced by `*`. */
  lemma MaskHidesSomething(val: string)
    requires val != [] && '*' !in val
    ensures MaskEvidence(val) != val
  {
    var r := MaskEvidence(val);
    if |val| <= 6 {
      assert r[0] == '*' && val[0] != '*';
    } else if |val| == 9 {
      assert r[3] == '*' && val[3] != '*';
    } else {
      assert |r| != |val|;
    }
  }

  // ---------------------------------------------------------------------
  // Findings

  /** One finding: a flat record with the rule's metadata, the file, the
      1-based line and the masked evidence. */
  datatype Finding = Finding(
    ruleId: string,
    title: string,
    severity: string,
    file: string,
    line: nat,
    evidenceMasked: string,
    recommendation: string)

  /** The finding `rule` produces on line `lineNo` of `file`, when its
      pattern matches somewhere in the line: the evidence is the leftmost
      match, masked. */
  function RuleHit(rule: SecretRule, file: string, lineNo: nat, line: string): Option<Finding> {
    match Search(rule.pattern, line)
    case None => None
    case Some(m) => Some(Finding(rule.id, rule.title, rule.severity, file, lineNo, MaskEvidence(m.text), rule.recommendation))
  }

  /** The findings of the first `k` rules on one line, in table order. */
  function LineFindings(file: string, lineNo: nat, line: string, k: nat): (r: seq<Finding>)
    requires k <= |Rules|
    ensures |r| <= k
    ensures forall a :: 0 <= a < |r| ==> r[a].file == file && r[a].line == lineNo
    decreases k
  {
    if k == 0 then []
    else
      var init := LineFindings(file, lineNo, line, k - 1);
      match RuleHit(Rules[k - 1], file, lineNo, line)
      case None => init
      case Some(f) => init + [f]
  }

  /** Findings are listed by line and, within a line, by the rule's place
      in the table. */
  predicate Before(a: Finding, b: Finding) {
    a.line < b.line || (a.line == b.line && RuleRank(a.ruleId) < RuleRank(b.ruleId))
  }

  /** The findings of `lines`, numbered from 1. */
  function LinesFindings(file: string, lines: seq<string>): (r: seq<Finding>)
    ensures forall a :: 0 <= a < |r| ==> r[a].file == file && 1 <= r[a].line <= |lines|
    decreases |lines|
  {
    if lines == [] then []
    else LinesFindings(file, lines[..|lines| - 1]) + LineFindings(file, |lines|, lines[|lines| - 1], |Rules|)
  }

  /** The findings of one file; a file that cannot be read contributes none. */
  function FileFindings(e: FileEntry): seq<Finding> {
    match e.text
    case None => []
    case Some(t) => LinesFindings(e.path, SplitLines(t))
  }

  /** The findings of `files`, file after file. */
  function FilesFindings(files: seq<FileEntry>): seq<Finding> {
    Flatten(files, FileFindings)
  }

  /** What `scan_secrets` returns for a walk. */
  function Scan(walk: seq<FileEntry>): seq<Finding> {
    FilesFindings(Filter(walk, IsCandidate))
  }

  /** `scan_secrets`: for each candidate file, each line, each rule in table
      order, append the finding of a rule whose pattern matches the line. */
  method ScanSecrets(walk: seq<FileEntry>) returns (findings: seq<Finding>)
    ensures findings == Scan(walk)
  {
    var files := IterCandidateFiles(walk);
    findings := [];
    for fi := 0 to |files|
      invariant findings == FilesFindings(files[..fi])
    {
      assert files[..fi + 1][..fi] == files[..fi];
      assert FilesFindings(files[..fi + 1]) == FilesFindings(files[..fi]) + FileFindings(files[fi]);
      var fp := files[fi];
      if fp.text.None? {
        continue;
      }
      findings := ScanFile(findings, fp.path, SplitLines(fp.text.value));
    }
    assert files[..|files|] == files;
  }

  /** The per-line loop of `scan_secrets` for one file, appending to
      `acc`. */
  method ScanFile(acc: seq<Finding>, path: string, lines: seq<string>) returns (findings: seq<Finding>)
    ensures findings == acc + LinesFindings(path, lines)
  {
    findings := acc;
    for ln := 0 to |lines|
      invariant findings == acc + LinesFindings(path, lines[..ln])
    {
      ghost var done := LinesFindings(path, lines[..ln]);
      ghost var prev := findings;
      findings := ScanLine(findings, path, ln + 1, lines[ln]);
      ghost var added := LineFindings(path, ln + 1, lines[ln], |Rules|);
      ConcatAssoc(acc, done, added);
      assert lines[..ln + 1][..ln] == lines[..ln];
    }
    assert lines[..|lines|] == lines;
  }

  /** The per-rule loop of `scan_secrets` for one line, appending to `acc`. */
  method ScanLine(acc: seq<Finding>, path: string, lineNo: nat, line: string) returns (findings: seq<Finding>)
    ensures findings == acc + LineFindings(path, lineNo, line, |Rules|)
  {
    findings := acc;
    for r := 0 to |Rules|
      invariant findings == acc + LineFindings(path, lineNo, line, r)
    {
      var rule := Rules[r];
      var m := Search(rule.pattern, line);
      if m.None? {
        continue;
      }
      var evidence := m.value.text;
      findings := findings + [Finding(rule.id, rule.title, rule.severity, path, lineNo, MaskEvidence(evidence), rule.recommendation)];
    }
  }

  // ---------------------------------------------------------------------
  // What the scan reports

  /** `f` is what `rule` reports for `line`: the rule's pattern matches the
      line, `f` carries the rule's metadata, and its evidence is the masked
      leftmost match. */
  ghost predicate ReportsRule(f: Finding, rule: SecretRule, line: string) {
    Search(rule.pattern, line).Some?
    && f.ruleId == rule.id && f.title == rule.title && f.severity == rule.severity
    && f.recommendation == rule.recommendation
    && f.evidenceMasked == MaskEvidence(Search(rule.pattern, line).value.text)
  }

  /** A finding comes from file `e`: a readable candidate, a line of it, and
      a rule of the table that reports the finding for that line. */
  ghost predicate FindingFrom(e: FileEntry, f: Finding) {
    IsCandidate(e) && e.text.Some?
    && f.file == e.path
    && 1 <= f.line <= |SplitLines(e.text.value)|
    && exists j :: 0 <= j < |Rules| && ReportsRule(f, Rules[j], SplitLines(e.text.value)[f.line - 1])
  }

  /** One more rule adds its hit, if any, after the hits of the rules before it. */
  lemma LineFindingsSnoc(file: string, lineNo: nat, line: string, k: nat)
    requires 0 < k <= |Rules|
    ensures var h := RuleHit(Rules[k - 1], file, lineNo, line);
      LineFindings(file, lineNo, line, k) ==
        LineFindings(file, lineNo, line, k - 1) + (if h.Some? then [h.value] else [])
  {
  }

  /** The same step, naming the new hit and the rule it carries. */
  lemma LineFindingsStep(file: string, lineNo: nat, line: string, k: nat) returns (hit: Option<Finding>)
    requires 0 < k <= |Rules|
    ensures LineFindings(file, lineNo, line, k) ==
      LineFindings(file, lineNo, line, k - 1) + (if hit.Some? then [hit.value] else [])
    ensures hit.Some? ==> hit.value.ruleId == Rules[k - 1].id
  {
    hit := RuleHit(Rules[k - 1], file, lineNo, line);
    LineFindingsSnoc(file, lineNo, line, k);
  }

  lemma {:induction false} LineFindingsMembers(file: string, lineNo: nat, line: string, k: nat, f: Finding)
    requires k <= |Rules|
    ensures f in LineFindings(file, lineNo, line, k) <==> exists j :: 0 <= j < k && RuleHit(Rules[j], file, lineNo, line) == Some(f)
    decreases k
  {
    if k > 0 {
      LineFindingsMembers(file, lineNo, line, k - 1, f);
      var init := LineFindings(file, lineNo, line, k - 1);
      var h := RuleHit(Rules[k - 1], file, lineNo, line);
      LineFindingsSnoc(file, lineNo, line, k);
      assert init + [] == init;
      if f in LineFindings(file, lineNo, line, k) && f !in init {
        assert h == Some(f);
      }
      if j :| 0 <= j < k && RuleHit(Rules[j], file, lineNo, line) == Some(f) {
        if j == k - 1 {
          assert h == Some(f);
        } else {
          assert f in init;
        }
      }
    }
  }

  lemma {:induction false} LinesFindingsMembers(file: string, lines: seq<string>, f: Finding)
    ensures f in LinesFindings(file, lines) <==>
      1 <= f.line <= |lines| && f in LineFindings(file, f.line, lines[f.line - 1], |Rules|)
    decreases |lines|
  {
    if lines != [] {
      var init := lines[..|lines| - 1];
      LinesFindingsMembers(file, init, f);
      if 1 <= f.line < |lines| {
        assert init[f.line - 1] == lines[f.line - 1];
      }
    }
  }

  lemma FileFindingsMembers(e: FileEntry, f: Finding)
    requires IsCandidate(e) && e.text.Some?
    ensures f in FileFindings(e) <==> FindingFrom(e, f)
  {
    var lines := SplitLines(e.text.value);
    assert FileFindings(e) == LinesFindings(e.path, lines);
    LinesFindingsMembers(e.path, lines, f);
    if f in FileFindings(e) {
      var line := lines[f.line - 1];
      LineFindingsMembers(e.path, f.line, line, |Rules|, f);
      var j :| 0 <= j < |Rules| && RuleHit(Rules[j], e.path, f.line, line) == Some(f);
      RuleHitReports(Rules[j], e.path, f.line, line, f);
      assert FindingFrom(e, f);
    }
    if FindingFrom(e, f) {
      var line := lines[f.line - 1];
      var j :| 0 <= j < |Rules| && ReportsRule(f, Rules[j], line);
      RuleHitReports(Rules[j], e.path, f.line, line, f);
      LineFindingsMembers(e.path, f.line, line, |Rules|, f);
    }
  }

  /** A rule's hit on a line is exactly the finding that reports the rule
      for that line, at that file and line number. */
  lemma RuleHitReports(rule: SecretRule, file: string, lineNo: nat, line: string, f: Finding)
    ensures RuleHit(rule, file, lineNo, line) == Some(f) <==>
      (f.file == file && f.line == lineNo && ReportsRule(f, rule, line))
  {
  }

  /** Soundness and completeness of the scan: a finding is reported exactly
      when some candidate file of the walk is readable and some rule's
      pattern matches the finding's line of it, and the finding then carries
      that rule's metadata and the masked leftmost match. */
  lemma ScanFindsExactly(walk: seq<FileEntry>, f: Finding)
    ensures f in Scan(walk) <==> exists e :: e in walk && FindingFrom(e, f)
  {
    var files := Filter(walk, IsCandidate);
    FlattenMembers(files, FileFindings, f);
    forall e | e in walk && IsCandidate(e) ensures e in files {
      FilterKeeps(walk, IsCandidate, e);
    }
    forall e | e in walk && IsCandidate(e) && e.text.Some?
      ensures f in FileFindings(e) <==> FindingFrom(e, f)
    {
      FileFindingsMembers(e, f);
    }
  }

  /** A finding carries the id and severity of some rule of the table. */
  predicate FromTable(f: Finding) {
    exists j :: 0 <= j < |Rules| && f.ruleId == Rules[j].id && f.severity == Rules[j].severity
  }

  /** Every reported finding carries the id and severity of a rule of the
      table. */
  lemma ScanFindingsFromTable(walk: seq<FileEntry>)
    ensures forall f :: f in Scan(walk) ==> FromTable(f)
  {
    forall f | f in Scan(walk) ensures FromTable(f) {
      ScanFindsExactly(walk, f);
      var e :| e in walk && FindingFrom(e, f);
      var j :| 0 <= j < |Rules| && ReportsRule(f, Rules[j], SplitLines(e.text.value)[f.line - 1]);
    }
  }

  /** Findings whose rules' ranks are all below `k` and strictly increase. */
  predicate RankedBelow(r: seq<Finding>, k: nat) {
    && (forall a :: 0 <= a < |r| ==> RuleRank(r[a].ruleId) < k)
    && Ascending(r, RankLess)
  }

  /** `a`'s rule comes before `b`'s in the table. */
  predicate RankLess(a: Finding, b: Finding) {
    RuleRank(a.ruleId) < RuleRank(b.ruleId)
  }

  /** Appending at most one finding of the next rule keeps findings ranked. */
  lemma RankedStep(init: seq<Finding>, hit: Option<Finding>, k: nat)
    requires k > 0 && RankedBelow(init, k - 1)
    requires hit.Some? ==> RuleRank(hit.value.ruleId) == k - 1
    ensures RankedBelow(init + (if hit.Some? then [hit.value] else []), k)
  {
    match hit
    case None =>
      assert init + [] == init;
    case Some(h) =>
      var r := init + [h];
      forall a, b | 0 <= a < |init| && 0 <= b < |[h]| ensures RankLess(init[a], [h][b]) {
      }
      AscendingAppend(init, [h], RankLess);
      forall a | 0 <= a < |r| ensures RuleRank(r[a].ruleId) < k {
        if a < |init| {
          assert r[a] == init[a];
        }
      }
  }

  /** The rules' findings on one line come in table order, each rule at most
      once. */
  lemma {:induction false} LineFindingsRanked(file: string, lineNo: nat, line: string, k: nat)
    requires k <= |Rules|
    ensures RankedBelow(LineFindings(file, lineNo, line, k), k)
    decreases k
  {
    if k > 0 {
      LineFindingsRanked(file, lineNo, line, k - 1);
      var hit := LineFindingsStep(file, lineNo, line, k);
      RuleRankOfIndex(k - 1);
      RankedStep(LineFindings(file, lineNo, line, k - 1), hit, k);
    }
  }

  /** The findings of one more line come after those of the lines before it. */
  lemma LinesFindingsSnoc(file: string, lines: seq<string>)
    requires lines != []
    ensures LinesFindings(file, lines) ==
      LinesFindings(file, lines[..|lines| - 1]) + LineFindings(file, |lines|, lines[|lines| - 1], |Rules|)
  {
  }

  /** The findings of a file's lines are strictly ordered by (line, rule
      rank). */
  lemma {:induction false} LinesFindingsOrdered(file: string, lines: seq<string>)
    ensures Ascending(LinesFindings(file, lines), Before)
    decreases |lines|
  {
    if lines != [] {
      var init := LinesFindings(file, lines[..|lines| - 1]);
      var last := LineFindings(file, |lines|, lines[|lines| - 1], |Rules|);
      LinesFindingsOrdered(file, lines[..|lines| - 1]);
      LineFindingsRanked(file, |lines|, lines[|lines| - 1], |Rules|);
      forall a, b | 0 <= a < b < |last| ensures Before(last[a], last[b]) {
      }
      forall a, b | 0 <= a < |init| && 0 <= b < |last| ensures Before(init[a], last[b]) {
      }
      AscendingAppend(init, last, Before);
      LinesFindingsSnoc(file, lines);
    }
  }

  /** Within one file, findings are strictly ordered by (line, rule rank);
      in particular one line yields at most one finding per rule. */
  lemma FileFindingsOrdered(e: FileEntry)
    ensures forall a, b :: 0 <= a < b < |FileFindings(e)| ==> Before(FileFindings(e)[a], FileFindings(e)[b])
    ensures forall a, b :: 0 <= a < b < |FileFindings(e)| ==>
      FileFindings(e)[a].line != FileFindings(e)[b].line || FileFindings(e)[a].ruleId != FileFindings(e)[b].ruleId
  {
    if e.text.Some? {
      LinesFindingsOrdered(e.path, SplitLines(e.text.value));
    }
  }

  /** Scanning two walks one after the other reports the findings of the
      first, then those of the second: files are scanned independently, in
      walk order. */
  lemma ScanAppend(w1: seq<FileEntry>, w2: seq<FileEntry>)
    ensures Scan(w1 + w2) == Scan(w1) + Scan(w2)
  {
    FilterAppend(w1, w2, IsCandidate);
    FlattenAppend(Filter(w1, IsCandidate), Filter(w2, IsCandidate), FileFindings);
  }

  /** Files that are not candidates, or cannot be read, add nothing. */
  lemma {:induction false} NonCandidatesAddNothing(walk: seq<FileEntry>, e: FileEntry)
    requires !IsCandidate(e) || e.text.None?
    ensures Scan(walk + [e]) == Scan(walk)
  {
    ScanAppend(walk, [e]);
    assert Filter([e], IsCandidate) == Filter([], IsCandidate) + (if IsCandidate(e) then [e] else []);
    if IsCandidate(e) {
      assert Flatten([e], FileFindings) == Flatten([], FileFindings) + FileFindings(e);
    }
  }
}
