/** The command line's pure core: the CI gate that decides the exit code,
    the summary tallies, and the Markdown report. Findings arrive as
    dictionaries whose keys may be missing, so every field is optional. */
module Cli {
  import opened Wrappers
  import opened Strings
  import opened Seqs
  import SecretsRules
  import SecretsScanner
  import opened FileSystem

  /** The ordinal of each known severity. */
  const SeverityOrder: map<string, nat> := map["low" := 1, "medium" := 2, "high" := 3, "critical" := 4]

  /** A finding dictionary: `None` stands for a missing key or a `None`
      value. */
  datatype Report = Report(
    ruleId: Option<string>,
    title: Option<string>,
    severity: Option<string>,
    confidence: Option<string>,
    file: Option<string>,
    line: Option<int>,
    evidenceMasked: Option<string>,
    recommendation: Option<string>)

  /** The severity a finding is counted under: a missing or empty severity
      is `low`, and the name is lower-cased. */
  function SeverityKey(f: Report): string {
    Lower(OrDefault(f.severity, "low"))
  }

  /** `SEVERITY_ORDER.get(sev, 0)`: an unknown severity ranks 0. */
  function Ordinal(f: Report): nat {
    var s := SeverityKey(f);
    if s in SeverityOrder then SeverityOrder[s] else 0
  }

  // ---------------------------------------------------------------------
  // The CI gate

  /** The gate's meaning: some finding ranks at or above `threshold`. */
  predicate HitsThreshold(fs: seq<Report>, threshold: nat) {
    exists k :: 0 <= k < |fs| && Ordinal(fs[k]) >= threshold
  }

  /** `findings_hit_threshold`: scan the findings in order and stop at the
      first one whose severity ranks at or above `failOn`'s. The command line
      only accepts the four known severities for `failOn`. */
  method FindingsHitThreshold(fs: seq<Report>, failOn: string) returns (hit: bool)
    requires failOn in SeverityOrder
    ensures hit <==> HitsThreshold(fs, SeverityOrder[failOn])
    ensures fs == [] ==> !hit
  {
    var threshold := SeverityOrder[failOn];
    for i := 0 to |fs|
      invariant forall k :: 0 <= k < i ==> Ordinal(fs[k]) < threshold
    {
      var sev := Lower(OrDefault(fs[i].severity, "low"));
      if (if sev in SeverityOrder then SeverityOrder[sev] else 0) >= threshold {
        return true;
      }
    }
    return false;
  }

  /** A finding without a severity is a `low` one. */
  lemma MissingSeverityIsLow(f: Report)
    requires f.severity.None? || f.severity == Some("")
    ensures SeverityKey(f) == "low" && Ordinal(f) == 1
  {
    assert Lower("low") == "low";
  }

  /** Every threshold the command line accepts is at least 1, so a finding
      with an unknown severity never fires the gate, whatever else is in the
      list. */
  lemma UnknownSeverityNeverFires(fs: seq<Report>, f: Report, failOn: string)
    requires failOn in SeverityOrder
    requires SeverityKey(f) !in SeverityOrder
    ensures HitsThreshold(fs + [f], SeverityOrder[failOn]) <==> HitsThreshold(fs, SeverityOrder[failOn])
  {
    var t := SeverityOrder[failOn];
    assert t >= 1;
    if HitsThreshold(fs + [f], t) {
      var k :| 0 <= k < |fs + [f]| && Ordinal((fs + [f])[k]) >= t;
      assert k < |fs| && (fs + [f])[k] == fs[k];
    }
    if HitsThreshold(fs, t) {
      var k :| 0 <= k < |fs| && Ordinal(fs[k]) >= t;
      assert (fs + [f])[k] == fs[k];
    }
  }

  /** The gate is monotone in the threshold: if it fires at some level it
      fires at every lower level. */
  lemma GateMonotone(fs: seq<Report>, failOn: string, lower: string)
    requires failOn in SeverityOrder && lower in SeverityOrder
    requires SeverityOrder[lower] <= SeverityOrder[failOn]
    requires HitsThreshold(fs, SeverityOrder[failOn])
    ensures HitsThreshold(fs, SeverityOrder[lower])
  {
    var k :| 0 <= k < |fs| && Ordinal(fs[k]) >= SeverityOrder[failOn];
  }

  // ---------------------------------------------------------------------
  // The summary

  /** The severity keys of the findings, in order. */
  function SeverityKeys(fs: seq<Report>): (r: seq<string>)
    ensures |r| == |fs| && forall i :: 0 <= i < |fs| ==> r[i] == SeverityKey(fs[i])
  {
    MapSeq(fs, SeverityKey)
  }

  /** The category of a finding: the part of its stripped rule id before the
      first `-`, or `OTHER` when there is no rule id. */
  function CategoryKey(f: Report): string {
    var id := Strip(OrDefault(f.ruleId, ""));
    if id != "" then BeforeFirst(id, '-') else "OTHER"
  }

  /** A missing or blank rule id is filed under `OTHER`; otherwise the
      category is the longest prefix of the stripped id without a `-`, and it
      ends where the id ends or at its first `-`. */
  lemma CategoryKeyShape(f: Report)
    ensures Strip(OrDefault(f.ruleId, "")) == "" ==> CategoryKey(f) == "OTHER"
    ensures Strip(OrDefault(f.ruleId, "")) != "" ==>
      var id, r := Strip(OrDefault(f.ruleId, "")), CategoryKey(f);
      '-' !in r && |r| <= |id| && r == id[..|r|] && (|r| == |id| || id[|r|] == '-')
  {
  }

  /** The category keys of the findings, in order. */
  function CategoryKeys(fs: seq<Report>): (r: seq<string>)
    ensures |r| == |fs| && forall i :: 0 <= i < |fs| ==> r[i] == CategoryKey(fs[i])
  {
    MapSeq(fs, CategoryKey)
  }

  /** Both key sequences grow by one key per finding. */
  lemma KeysSnoc(fs: seq<Report>, i: nat)
    requires i < |fs|
    ensures SeverityKeys(fs[..i + 1]) == SeverityKeys(fs[..i]) + [SeverityKey(fs[i])]
    ensures CategoryKeys(fs[..i + 1]) == CategoryKeys(fs[..i]) + [CategoryKey(fs[i])]
  {
    MapSeqSnoc(fs, i, SeverityKey);
    MapSeqSnoc(fs, i, CategoryKey);
  }

  /** The gate fires exactly when the severity tally has a known severity at
      or above the threshold with a non-zero count. */
  lemma GateReadsTally(fs: seq<Report>, threshold: nat)
    requires threshold >= 1
    ensures HitsThreshold(fs, threshold) <==>
      exists s :: s in SeverityOrder && SeverityOrder[s] >= threshold && Occurrences(SeverityKeys(fs), s) > 0
  {
    var keys := SeverityKeys(fs);
    if HitsThreshold(fs, threshold) {
      var k :| 0 <= k < |fs| && Ordinal(fs[k]) >= threshold;
      assert keys[k] in keys;
    }
    if exists s :: s in SeverityOrder && SeverityOrder[s] >= threshold && Occurrences(keys, s) > 0 {
      var s :| s in SeverityOrder && SeverityOrder[s] >= threshold && Occurrences(keys, s) > 0;
      var k :| 0 <= k < |keys| && keys[k] == s;
      assert Ordinal(fs[k]) >= threshold;
    }
  }

  /** `m` is the `Counter` of `keys`: it has exactly the keys that occur,
      each mapped to its number of occurrences, and its counts add up to the
      number of keys. */
  ghost predicate IsTally(m: map<string, nat>, keys: seq<string>) {
    (forall k :: k in m <==> k in keys)
    && (forall k :: k in m ==> m[k] == Occurrences(keys, k))
    && MapSum(m) == |keys|
  }

  /** One step of a `Counter`: bump `key`, starting from zero. */
  function Bump(m: map<string, nat>, key: string): (r: map<string, nat>)
    ensures key in r && r[key] == (if key in m then m[key] else 0) + 1
    ensures forall k :: k != key ==> (k in r <==> k in m) && (k in m ==> r[k] == m[k])
  {
    m[key := (if key in m then m[key] else 0) + 1]
  }

  /** Bumping a key keeps a tally a tally of the extended sequence. */
  lemma BumpTally(m: map<string, nat>, keys: seq<string>, key: string)
    requires IsTally(m, keys)
    ensures IsTally(Bump(m, key), keys + [key])
  {
    MapSumIncrement(m, key);
    forall k ensures Occurrences(keys + [key], k) == Occurrences(keys, k) + (if key == k then 1 else 0) {
      OccurrencesSnoc(keys, key, k);
    }
  }

  /** A tally is determined by its keys: it is the map from each key that
      occurs to its count. */
  lemma TallyIsCounts(m: map<string, nat>, keys: seq<string>)
    requires IsTally(m, keys)
    ensures m == Counts(keys)
  {
  }

  /** The counts of a sequence of keys, as a map. */
  function Counts(keys: seq<string>): map<string, nat> {
    map k | k in keys :: Occurrences(keys, k)
  }

  /** `summarize`: the two tallies and the total. Each tally has exactly the
      keys that occur, counts each key's occurrences, and adds up to the
      number of findings. */
  method Summarize(fs: seq<Report>) returns (bySeverity: map<string, nat>, byCategory: map<string, nat>, total: nat)
    ensures total == |fs|
    ensures IsTally(bySeverity, SeverityKeys(fs)) && IsTally(byCategory, CategoryKeys(fs))
  {
    bySeverity, byCategory := map[], map[];
    for i := 0 to |fs|
      invariant IsTally(bySeverity, SeverityKeys(fs[..i]))
      invariant IsTally(byCategory, CategoryKeys(fs[..i]))
    {
      KeysSnoc(fs, i);
      var f := fs[i];
      var sev := Lower(OrDefault(f.severity, "low"));
      BumpTally(bySeverity, SeverityKeys(fs[..i]), sev);
      bySeverity := Bump(bySeverity, sev);
      var ruleId := Strip(OrDefault(f.ruleId, ""));
      var prefix := if ruleId != "" then BeforeFirst(ruleId, '-') else "OTHER";
      BumpTally(byCategory, CategoryKeys(fs[..i]), prefix);
      byCategory := Bump(byCategory, prefix);
    }
    assert fs[..|fs|] == fs;
    total := |fs|;
  }

  // ---------------------------------------------------------------------
  // The Markdown report

  /** The heading line of the report. */
  const ReportHeading: string := "# AminScan Report\n"

  /** The line that replaces the summary for an empty report. */
  const NoFindingsLine: string := "\U{2705} No findings.\n"

  /** `f.get("title", "Finding")`: the default applies only to a missing key. */
  function Title(f: Report): string {
    if f.title.Some? then f.title.value else "Finding"
  }

  /** The location of a finding: its file, with `:line` when the line is
      known; empty when there is no file. */
  function Location(f: Report): string {
    if OrDefault(f.file, "") != "" then
      f.file.value + (if f.line.Some? then ":" + IntToString(f.line.value) else "")
    else ""
  }

  /** A Markdown bullet: `- ` and the text. */
  function Bullet(text: string): (r: string)
    ensures |r| == |text| + 2 && r[0] == '-' && r[1] == ' ' && r[2..] == text
  {
    "- " + text
  }

  /** The one-line list `[line]` when `present`, else no line. */
  function LineIf(present: bool, line: string): (r: seq<string>)
    ensures present ==> r == [line]
    ensures !present ==> r == []
  {
    if present then [line] else []
  }

  /** The heading of the `i`-th finding's section. */
  function Heading(i: nat, f: Report): (r: string)
    ensures HasAt(r, 0, "### ")
  {
    "### " + NatToString(i) + ". " + Title(f)
  }

  /** The section's severity line; a missing or empty severity shows as `LOW`. */
  function SeverityLine(f: Report): string {
    Bullet("Severity: **" + Upper(OrDefault(f.severity, "low")) + "**")
  }

  /** The section's confidence line; a missing or empty confidence shows as `HIGH`. */
  function ConfidenceLine(f: Report): string {
    Bullet("Confidence: **" + Upper(OrDefault(f.confidence, "high")) + "**")
  }

  function LocationLine(f: Report): string {
    Bullet("Location: `" + Location(f) + "`")
  }

  function RuleLine(f: Report): string {
    Bullet("Rule: `" + OrDefault(f.ruleId, "") + "`")
  }

  function EvidenceLine(f: Report): string {
    Bullet("Evidence (masked): `" + OrDefault(f.evidenceMasked, "") + "`")
  }

  function FixLine(f: Report): string {
    Bullet("Fix: " + OrDefault(f.recommendation, ""))
  }

  /** The lines of the `i`-th finding's section: heading, severity,
      confidence, then location, rule, masked evidence and fix when present,
      and a blank line. */
  function FindingBlock(i: nat, f: Report): (r: seq<string>)
    ensures |r| >= 4 && r[|r| - 1] == ""
  {
    [Heading(i, f), SeverityLine(f), ConfidenceLine(f)]
    + LineIf(Location(f) != "", LocationLine(f))
    + LineIf(OrDefault(f.ruleId, "") != "", RuleLine(f))
    + LineIf(OrDefault(f.evidenceMasked, "") != "", EvidenceLine(f))
    + LineIf(OrDefault(f.recommendation, "") != "", FixLine(f))
    + [""]
  }

  /** The sections of all findings, numbered from 1. */
  function Blocks(fs: seq<Report>): seq<string>
    decreases |fs|
  {
    if fs == [] then [] else Blocks(fs[..|fs| - 1]) + FindingBlock(|fs|, fs[|fs| - 1])
  }

  /** `bs.get(key, 0)`. */
  function CountOf(m: map<string, nat>, key: string): nat {
    if key in m then m[key] else 0
  }

  /** The summary's total line. */
  function TotalLine(n: nat): string {
    Bullet("Total findings: **" + NatToString(n) + "**")
  }

  /** The summary's per-severity line for the given severity tally. */
  function SeverityCountsLine(bySeverity: map<string, nat>): string {
    Bullet("Critical: **" + NatToString(CountOf(bySeverity, "critical")) + "**, High: **"
      + NatToString(CountOf(bySeverity, "high")) + "**, Medium: **"
      + NatToString(CountOf(bySeverity, "medium")) + "**, Low: **"
      + NatToString(CountOf(bySeverity, "low")) + "**\n")
  }

  /** The report's lines before the findings' sections: the heading, then
      either the no-findings line or the summary and the details heading. */
  function Preamble(fs: seq<Report>): seq<string> {
    if fs == [] then [ReportHeading, NoFindingsLine]
    else [ReportHeading, "## Summary\n", TotalLine(|fs|), SeverityCountsLine(Counts(SeverityKeys(fs))), "## Findings\n"]
  }

  /** The report's lines before they are joined with newlines. */
  function MarkdownLines(fs: seq<Report>): seq<string> {
    Preamble(fs) + Blocks(fs)
  }

  /** `render_markdown`: the report for the findings, line by line, joined
      with newlines. */
  method RenderMarkdown(fs: seq<Report>) returns (md: string)
    ensures md == Join(MarkdownLines(fs), "\n")
  {
    var lines := [ReportHeading];
    if fs == [] {
      lines := lines + [NoFindingsLine];
      assert lines == MarkdownLines(fs);
      return Join(lines, "\n");
    }
    lines := AppendSummary(lines, fs);
    lines := AppendBlocks(lines, fs);
    md := Join(lines, "\n");
  }

  /** The summary part of `render_markdown` for a non-empty list: the
      summary heading, the total, the per-severity counts and the details
      heading, after the report heading. */
  method AppendSummary(head: seq<string>, fs: seq<Report>) returns (lines: seq<string>)
    requires head == [ReportHeading] && fs != []
    ensures lines == Preamble(fs)
  {
    var bs, _, total := Summarize(fs);
    TallyIsCounts(bs, SeverityKeys(fs));
    lines := head;
    lines := lines + ["## Summary\n"];
    lines := lines + [TotalLine(total)];
    lines := lines + [SeverityCountsLine(bs)];
    lines := lines + ["## Findings\n"];
    AppendFive(ReportHeading, "## Summary\n", TotalLine(total), SeverityCountsLine(bs), "## Findings\n");
  }

  /** The `enumerate(findings, 1)` loop of `render_markdown`. */
  method AppendBlocks(head: seq<string>, fs: seq<Report>) returns (lines: seq<string>)
    ensures lines == head + Blocks(fs)
  {
    lines := head;
    for i := 0 to |fs|
      invariant lines == head + Blocks(fs[..i])
    {
      assert fs[..i + 1][..i] == fs[..i] && fs[..i + 1][i] == fs[i];
      ghost var done := Blocks(fs[..i]);
      lines := AppendBlock(lines, i + 1, fs[i]);
      ConcatAssoc(head, done, FindingBlock(i + 1, fs[i]));
    }
    assert fs[..|fs|] == fs;
  }

  /** The loop body of `render_markdown` for the `i`-th finding: its lines,
      built in order and appended to `lines`. */
  method AppendBlock(lines: seq<string>, i: nat, f: Report) returns (out: seq<string>)
    ensures out == lines + FindingBlock(i, f)
  {
    var title := Title(f);
    var severity := Upper(OrDefault(f.severity, "low"));
    var confidence := Upper(OrDefault(f.confidence, "high"));
    var location := "";
    if OrDefault(f.file, "") != "" {
      location := f.file.value;
      if f.line.Some? {
        location := location + ":" + IntToString(f.line.value);
      }
    }
    assert location == Location(f);
    var block := ["### " + NatToString(i) + ". " + title, Bullet("Severity: **" + severity + "**"),
      Bullet("Confidence: **" + confidence + "**")];
    ghost var done := [Heading(i, f), SeverityLine(f), ConfidenceLine(f)];
    assert block == done;
    if location != "" {
      block := block + [Bullet("Location: `" + location + "`")];
    }
    done := done + LineIf(Location(f) != "", LocationLine(f));
    assert block == done;
    if OrDefault(f.ruleId, "") != "" {
      block := block + [Bullet("Rule: `" + f.ruleId.value + "`")];
    }
    done := done + LineIf(OrDefault(f.ruleId, "") != "", RuleLine(f));
    assert block == done;
    if OrDefault(f.evidenceMasked, "") != "" {
      block := block + [Bullet("Evidence (masked): `" + f.evidenceMasked.value + "`")];
    }
    done := done + LineIf(OrDefault(f.evidenceMasked, "") != "", EvidenceLine(f));
    assert block == done;
    if OrDefault(f.recommendation, "") != "" {
      block := block + [Bullet("Fix: " + f.recommendation.value)];
    }
    done := done + LineIf(OrDefault(f.recommendation, "") != "", FixLine(f));
    assert block == done;
    block := block + [""];
    out := lines + block;
  }

  // ---------------------------------------------------------------------
  // What the report shows

  /** The report for no findings names the tool's report. */
  lemma EmptyReportNamesReport()
    ensures Contains(Join(MarkdownLines([]), "\n"), "AminScan Report")
  {
    EmptyReportText();
    HasAtMiddle("# ", "AminScan Report", "\n");
    assert "# " + "AminScan Report" + "\n" == ReportHeading;
    HasAtExtend(ReportHeading, "\n", 2, "AminScan Report");
    HasAtExtend(ReportHeading + "\n", NoFindingsLine, 2, "AminScan Report");
  }

  /** The report for no findings says there are none. */
  lemma EmptyReportSaysNoFindings()
    ensures Contains(Join(MarkdownLines([]), "\n"), "No findings")
  {
    EmptyReportText();
    HasAtMiddle("\U{2705} ", "No findings", ".\n");
    assert "\U{2705} " + "No findings" + ".\n" == NoFindingsLine;
    HasAtShift(ReportHeading + "\n", NoFindingsLine, 2, "No findings");
  }

  /** The report for no findings holds no summary. */
  lemma EmptyReportOmitsSummary()
    ensures !Contains(Join(MarkdownLines([]), "\n"), "Summary")
  {
    EmptyReportText();
    assert 'y' !in ReportHeading && 'y' !in NoFindingsLine;
    assert 'y' in "Summary";
    MissingCharNotContained(ReportHeading + "\n" + NoFindingsLine, "Summary", 'y');
  }

  /** The text of the report for no findings. */
  lemma EmptyReportText()
    ensures Join(MarkdownLines([]), "\n") == ReportHeading + "\n" + NoFindingsLine
    ensures Join(MarkdownLines([]), "\n") == "# AminScan Report\n\n\U{2705} No findings.\n"
  {
    assert MarkdownLines([]) == [ReportHeading, NoFindingsLine];
    assert ReportHeading + "\n" + NoFindingsLine == "# AminScan Report\n\n\U{2705} No findings.\n";
  }

  /** A line that starts a finding's section. */
  predicate IsHeading(line: string) {
    HasAt(line, 0, "### ")
  }

  /** The section headings the report should have: one per finding, numbered
      from 1 in list order, with the finding's title. */
  function Headings(fs: seq<Report>): (r: seq<string>)
    ensures |r| == |fs| && forall i :: 0 <= i < |fs| ==> r[i] == Heading(i + 1, fs[i])
  {
    seq(|fs|, i requires 0 <= i < |fs| => Heading(i + 1, fs[i]))
  }

  /** An optional line filters to itself when present and kept. */
  lemma FilterLineIf(present: bool, line: string, keep: string -> bool)
    ensures Filter(LineIf(present, line), keep) == if present && keep(line) then [line] else []
  {
    FilterSingleton(line, keep);
  }

  /** A bullet is never a heading. */
  lemma BulletNotHeading(text: string)
    ensures !IsHeading(Bullet(text))
  {
    NotPrefixAt(Bullet(text), "### ", 0);
  }

  /** Of a section's parts, only the first holds a heading, its first line. */
  lemma HeadingParts(i: nat, f: Report)
    ensures Filter([Heading(i, f), SeverityLine(f), ConfidenceLine(f)], IsHeading) == [Heading(i, f)]
    ensures Filter(LineIf(Location(f) != "", LocationLine(f)), IsHeading) == []
    ensures Filter(LineIf(OrDefault(f.ruleId, "") != "", RuleLine(f)), IsHeading) == []
    ensures Filter(LineIf(OrDefault(f.evidenceMasked, "") != "", EvidenceLine(f)), IsHeading) == []
    ensures Filter(LineIf(OrDefault(f.recommendation, "") != "", FixLine(f)), IsHeading) == []
    ensures Filter([""], IsHeading) == []
  {
    BulletNotHeading("Severity: **" + Upper(OrDefault(f.severity, "low")) + "**");
    BulletNotHeading("Confidence: **" + Upper(OrDefault(f.confidence, "high")) + "**");
    BulletNotHeading("Location: `" + Location(f) + "`");
    BulletNotHeading("Rule: `" + OrDefault(f.ruleId, "") + "`");
    BulletNotHeading("Evidence (masked): `" + OrDefault(f.evidenceMasked, "") + "`");
    BulletNotHeading("Fix: " + OrDefault(f.recommendation, ""));
    FilterFirstOnly([Heading(i, f), SeverityLine(f), ConfidenceLine(f)], IsHeading);
    FilterLineIf(Location(f) != "", LocationLine(f), IsHeading);
    FilterLineIf(OrDefault(f.ruleId, "") != "", RuleLine(f), IsHeading);
    FilterLineIf(OrDefault(f.evidenceMasked, "") != "", EvidenceLine(f), IsHeading);
    FilterLineIf(OrDefault(f.recommendation, "") != "", FixLine(f), IsHeading);
    FilterSingleton("", IsHeading);
  }

  /** A finding's section has exactly one heading, its first line. */
  lemma BlockHeading(i: nat, f: Report)
    ensures Filter(FindingBlock(i, f), IsHeading) == [Heading(i, f)]
  {
    HeadingParts(i, f);
    FilterSixParts([Heading(i, f), SeverityLine(f), ConfidenceLine(f)],
      LineIf(Location(f) != "", LocationLine(f)),
      LineIf(OrDefault(f.ruleId, "") != "", RuleLine(f)),
      LineIf(OrDefault(f.evidenceMasked, "") != "", EvidenceLine(f)),
      LineIf(OrDefault(f.recommendation, "") != "", FixLine(f)),
      [""], IsHeading);
    assert [Heading(i, f)] + [] + [] + [] + [] + [] == [Heading(i, f)];
  }

  /** The headings of the first findings' sections, then the last one's. */
  lemma HeadingsSnoc(fs: seq<Report>)
    requires fs != []
    ensures Headings(fs) == Headings(fs[..|fs| - 1]) + [Heading(|fs|, fs[|fs| - 1])]
  {
  }

  lemma {:induction false} BlocksHeadings(fs: seq<Report>)
    ensures Filter(Blocks(fs), IsHeading) == Headings(fs)
    decreases |fs|
  {
    if fs != [] {
      var init := fs[..|fs| - 1];
      BlocksHeadings(init);
      FilterAppend(Blocks(init), FindingBlock(|fs|, fs[|fs| - 1]), IsHeading);
      BlockHeading(|fs|, fs[|fs| - 1]);
      HeadingsSnoc(fs);
    }
  }

  /** No line before the findings' sections is a heading. */
  lemma PreambleHasNoHeading(fs: seq<Report>)
    ensures Filter(Preamble(fs), IsHeading) == []
  {
    NotPrefixAt(ReportHeading, "### ", 1);
    if fs == [] {
      NotPrefixAt(NoFindingsLine, "### ", 0);
      FilterNone([ReportHeading, NoFindingsLine], IsHeading);
    } else {
      var total := TotalLine(|fs|);
      var counts := SeverityCountsLine(Counts(SeverityKeys(fs)));
      NotPrefixAt("## Summary\n", "### ", 2);
      NotPrefixAt("## Findings\n", "### ", 2);
      NotPrefixAt(total, "### ", 0);
      NotPrefixAt(counts, "### ", 0);
      FilterNone([ReportHeading, "## Summary\n", total, counts, "## Findings\n"], IsHeading);
    }
  }

  /** The report's headings are the findings' titles numbered 1..n in order:
      no other line of the report looks like a heading. */
  lemma ReportHeadingsNumbered(fs: seq<Report>)
    ensures Filter(MarkdownLines(fs), IsHeading) == Headings(fs)
  {
    PreambleHasNoHeading(fs);
    FilterAppend(Preamble(fs), Blocks(fs), IsHeading);
    BlocksHeadings(fs);
  }

  /** The words Python's `upper()` gives for the two defaults. */
  lemma UpperDefaults()
    ensures Upper("low") == "LOW" && Upper("high") == "HIGH"
  {
  }

  /** The severity and confidence lines for the defaults. */
  lemma DefaultLines(f: Report)
    ensures OrDefault(f.severity, "") == "" ==> SeverityLine(f) == "- Severity: **LOW**"
    ensures OrDefault(f.confidence, "") == "" ==> ConfidenceLine(f) == "- Confidence: **HIGH**"
  {
    UpperDefaults();
  }

  /** A missing or empty severity is shown as `LOW` and a missing or empty
      confidence as `HIGH`. */
  lemma BlockDefaults(i: nat, f: Report)
    ensures OrDefault(f.severity, "") == "" ==> FindingBlock(i, f)[1] == "- Severity: **LOW**"
    ensures OrDefault(f.confidence, "") == "" ==> FindingBlock(i, f)[2] == "- Confidence: **HIGH**"
  {
    assert FindingBlock(i, f)[1] == SeverityLine(f) && FindingBlock(i, f)[2] == ConfidenceLine(f);
    DefaultLines(f);
  }

  /** A line that shows a finding's location. */
  predicate IsLocationLine(line: string) {
    HasAt(line, 0, "- Location: ")
  }

  /** A bullet whose text does not start with `L` is no location line. */
  lemma BulletNotLocation(text: string)
    requires text != [] && text[0] != 'L'
    ensures !IsLocationLine(Bullet(text))
  {
    assert Bullet(text)[2] == text[0];
  }

  /** Of a section's lines, only the location line is a location line. */
  lemma LocationLineKinds(i: nat, f: Report)
    ensures IsLocationLine(LocationLine(f))
    ensures !IsLocationLine(Heading(i, f)) && !IsLocationLine(SeverityLine(f)) && !IsLocationLine(ConfidenceLine(f))
    ensures !IsLocationLine(RuleLine(f)) && !IsLocationLine(EvidenceLine(f)) && !IsLocationLine(FixLine(f))
    ensures !IsLocationLine("")
  {
    assert HasAt("Location: `", 0, "Location: ");
    PrefixOfConcat("Location: `", Location(f), "Location: ");
    PrefixOfConcat("Location: `" + Location(f), "`", "Location: ");
    PrefixPrepend("- ", "Location: `" + Location(f) + "`", "Location: ");
    assert "- " + "Location: " == "- Location: ";
    NotPrefixAt(Heading(i, f), "- Location: ", 0);
    BulletNotLocation("Severity: **" + Upper(OrDefault(f.severity, "low")) + "**");
    BulletNotLocation("Confidence: **" + Upper(OrDefault(f.confidence, "high")) + "**");
    BulletNotLocation("Rule: `" + OrDefault(f.ruleId, "") + "`");
    BulletNotLocation("Evidence (masked): `" + OrDefault(f.evidenceMasked, "") + "`");
    BulletNotLocation("Fix: " + OrDefault(f.recommendation, ""));
  }

  /** Of a section's parts, only the optional location line holds a
      location line. */
  lemma LocationParts(i: nat, f: Report)
    ensures Filter([Heading(i, f), SeverityLine(f), ConfidenceLine(f)], IsLocationLine) == []
    ensures Filter(LineIf(Location(f) != "", LocationLine(f)), IsLocationLine) == LineIf(Location(f) != "", LocationLine(f))
    ensures Filter(LineIf(OrDefault(f.ruleId, "") != "", RuleLine(f)), IsLocationLine) == []
    ensures Filter(LineIf(OrDefault(f.evidenceMasked, "") != "", EvidenceLine(f)), IsLocationLine) == []
    ensures Filter(LineIf(OrDefault(f.recommendation, "") != "", FixLine(f)), IsLocationLine) == []
    ensures Filter([""], IsLocationLine) == []
  {
    LocationLineKinds(i, f);
    FilterNone([Heading(i, f), SeverityLine(f), ConfidenceLine(f)], IsLocationLine);
    FilterLineIf(Location(f) != "", LocationLine(f), IsLocationLine);
    FilterLineIf(OrDefault(f.ruleId, "") != "", RuleLine(f), IsLocationLine);
    FilterLineIf(OrDefault(f.evidenceMasked, "") != "", EvidenceLine(f), IsLocationLine);
    FilterLineIf(OrDefault(f.recommendation, "") != "", FixLine(f), IsLocationLine);
    FilterSingleton("", IsLocationLine);
  }

  /** The location shown is empty exactly when the finding has no
      non-empty file; otherwise it is the file, followed by `:` and the line
      number only when the line is known. */
  lemma LocationShape(f: Report)
    ensures Location(f) != "" <==> OrDefault(f.file, "") != ""
    ensures OrDefault(f.file, "") != "" ==> HasAt(Location(f), 0, f.file.value)
    ensures OrDefault(f.file, "") != "" && f.line.None? ==> Location(f) == f.file.value
    ensures OrDefault(f.file, "") != "" && f.line.Some? ==>
      Location(f)[|f.file.value|..] == ":" + IntToString(f.line.value)
  {
    if OrDefault(f.file, "") != "" {
      var rest := if f.line.Some? then ":" + IntToString(f.line.value) else "";
      assert Location(f) == f.file.value + rest;
      assert Location(f)[..|f.file.value|] == f.file.value;
      assert Location(f)[|f.file.value|..] == rest;
    }
  }

  /** The section has one location line, showing `Location(f)`, when the
      finding has a non-empty file, and none otherwise. */
  lemma BlockLocation(i: nat, f: Report)
    ensures Filter(FindingBlock(i, f), IsLocationLine) ==
      if OrDefault(f.file, "") != "" then [Bullet("Location: `" + Location(f) + "`")] else []
  {
    LocationShape(f);
    LocationParts(i, f);
    FilterOnlyPart([Heading(i, f), SeverityLine(f), ConfidenceLine(f)],
      LineIf(Location(f) != "", LocationLine(f)),
      LineIf(OrDefault(f.ruleId, "") != "", RuleLine(f)),
      LineIf(OrDefault(f.evidenceMasked, "") != "", EvidenceLine(f)),
      LineIf(OrDefault(f.recommendation, "") != "", FixLine(f)),
      [""], IsLocationLine);
  }

  /** A finding's non-empty rule id is shown on a `Rule` line of its
      section. */
  lemma BlockShowsRule(i: nat, f: Report)
    requires OrDefault(f.ruleId, "") != ""
    ensures Bullet("Rule: `" + f.ruleId.value + "`") in FindingBlock(i, f)
  {
    var p0 := [Heading(i, f), SeverityLine(f), ConfidenceLine(f)] + LineIf(Location(f) != "", LocationLine(f));
    var p2 := LineIf(OrDefault(f.evidenceMasked, "") != "", EvidenceLine(f))
      + LineIf(OrDefault(f.recommendation, "") != "", FixLine(f)) + [""];
    assert FindingBlock(i, f) == p0 + [RuleLine(f)] + p2;
    assert (p0 + [RuleLine(f)] + p2)[|p0|] == RuleLine(f);
  }

  /** A line of the `k`-th finding's section is a line of the sections of
      all findings. */
  lemma {:induction false} BlocksHold(fs: seq<Report>, k: nat, line: string)
    requires k < |fs| && line in FindingBlock(k + 1, fs[k])
    ensures line in Blocks(fs)
    decreases |fs|
  {
    var init := fs[..|fs| - 1];
    assert Blocks(fs) == Blocks(init) + FindingBlock(|fs|, fs[|fs| - 1]);
    if k < |fs| - 1 {
      assert init[k] == fs[k];
      BlocksHold(init, k, line);
    }
  }

  /** A report with findings has its summary and details headings, so its
      text holds both words. */
  lemma ReportHasSummary(fs: seq<Report>)
    requires fs != []
    ensures "## Summary\n" in MarkdownLines(fs) && "## Findings\n" in MarkdownLines(fs)
    ensures Contains(Join(MarkdownLines(fs), "\n"), "Summary")
    ensures Contains(Join(MarkdownLines(fs), "\n"), "Findings")
  {
    var lines := MarkdownLines(fs);
    var md := Join(lines, "\n");
    assert lines[1] == "## Summary\n" && lines[4] == "## Findings\n";
    var p := JoinHasLine(lines, "\n", 1);
    var q := JoinHasLine(lines, "\n", 4);
    SectionHeadingWords();
    HasAtWithin(md, p, "## Summary\n", 3, "Summary");
    HasAtWithin(md, q, "## Findings\n", 3, "Findings");
  }

  /** The words the summary and details headings carry. */
  lemma SectionHeadingWords()
    ensures HasAt("## Summary\n", 3, "Summary") && HasAt("## Findings\n", 3, "Findings")
  {
    HasAtMiddle("## ", "Summary", "\n");
    assert "## " + "Summary" + "\n" == "## Summary\n";
    HasAtMiddle("## ", "Findings", "\n");
    assert "## " + "Findings" + "\n" == "## Findings\n";
  }

  /** A finding's non-empty rule id appears in the report's text. */
  lemma ReportShowsRule(fs: seq<Report>, k: nat)
    requires k < |fs| && OrDefault(fs[k].ruleId, "") != ""
    ensures Contains(Join(MarkdownLines(fs), "\n"), fs[k].ruleId.value)
  {
    var id := fs[k].ruleId.value;
    var line := Bullet("Rule: `" + id + "`");
    BlockShowsRule(k + 1, fs[k]);
    BlocksHold(fs, k, line);
    var lines := MarkdownLines(fs);
    assert line in lines;
    var m :| 0 <= m < |lines| && lines[m] == line;
    var p := JoinHasLine(lines, "\n", m);
    HasAtMiddle("Rule: `", id, "`");
    HasAtShift("- ", "Rule: `" + id + "`", 7, id);
    HasAtWithin(Join(lines, "\n"), p, line, 9, id);
  }

  // ---------------------------------------------------------------------
  // The scanner's findings through the command line

  /** The dictionary a scanner finding becomes: every key but `confidence`
      is present. */
  function AsReport(f: SecretsScanner.Finding): Report {
    Report(Some(f.ruleId), Some(f.title), Some(f.severity), None, Some(f.file), Some(f.line as int),
      Some(f.evidenceMasked), Some(f.recommendation))
  }

  function AsReports(fs: seq<SecretsScanner.Finding>): (r: seq<Report>)
    ensures |r| == |fs| && forall i :: 0 <= i < |fs| ==> r[i] == AsReport(fs[i])
  {
    seq(|fs|, i requires 0 <= i < |fs| => AsReport(fs[i]))
  }

  /** A rule id of the form `SEC-…` with no whitespace at its end is filed
      under `SEC`. */
  lemma SecCategory(f: Report)
    requires f.ruleId.Some? && |f.ruleId.value| > 4 && f.ruleId.value[..4] == "SEC-"
    requires !IsSpace(f.ruleId.value[|f.ruleId.value| - 1])
    ensures CategoryKey(f) == "SEC"
  {
    var id := f.ruleId.value;
    assert id[0] == 'S' && id[1] == 'E' && id[2] == 'C' && id[3] == '-';
    StripUnchanged(id);
    var r := BeforeFirst(id, '-');
    assert |r| == 3;
    assert r == id[..3];
  }

  /** A finding of one of the table's rules ranks at least `medium`. */
  lemma RuleOrdinal(f: SecretsScanner.Finding, j: nat)
    requires j < |SecretsRules.Rules|
    requires f.severity == SecretsRules.Rules[j].severity
    ensures Ordinal(AsReport(f)) >= SeverityOrder["medium"]
  {
    SecretsRules.RuleIdShape(j);
    var sev := f.severity;
    assert sev == "medium" || sev == "high" || sev == "critical";
    LowerUnchanged(sev);
    assert SeverityKey(AsReport(f)) == sev;
  }

  /** A finding of one of the table's rules is filed under the `SEC`
      category, ranks at least `medium` and shows the default confidence. */
  lemma RuleReportShape(f: SecretsScanner.Finding, j: nat)
    requires j < |SecretsRules.Rules|
    requires f.ruleId == SecretsRules.Rules[j].id && f.severity == SecretsRules.Rules[j].severity
    ensures CategoryKey(AsReport(f)) == "SEC"
    ensures Ordinal(AsReport(f)) >= SeverityOrder["medium"]
    ensures ConfidenceLine(AsReport(f)) == "- Confidence: **HIGH**"
  {
    SecretsRules.RuleIdShape(j);
    SecCategory(AsReport(f));
    RuleOrdinal(f, j);
    DefaultLines(AsReport(f));
  }

  /** Findings that all come from the table fail the gate at `medium`
      exactly when there is at least one. */
  lemma TableFindingsGateAtMedium(fs: seq<SecretsScanner.Finding>)
    requires forall k :: 0 <= k < |fs| ==> SecretsScanner.FromTable(fs[k])
    ensures HitsThreshold(AsReports(fs), SeverityOrder["medium"]) <==> fs != []
  {
    if fs != [] {
      assert SecretsScanner.FromTable(fs[0]);
      var j :| 0 <= j < |SecretsRules.Rules| && fs[0].ruleId == SecretsRules.Rules[j].id
        && fs[0].severity == SecretsRules.Rules[j].severity;
      RuleOrdinal(fs[0], j);
      var r := AsReports(fs);
      assert r[0] == AsReport(fs[0]);
    }
  }

  /** Every scanner finding is filed under `SEC` and is shown with the
      default confidence `HIGH`. */
  lemma ScanReportsShape(walk: seq<FileEntry>)
    ensures forall f :: f in SecretsScanner.Scan(walk) ==>
      CategoryKey(AsReport(f)) == "SEC" && ConfidenceLine(AsReport(f)) == "- Confidence: **HIGH**"
  {
    SecretsScanner.ScanFindingsFromTable(walk);
    forall f | f in SecretsScanner.Scan(walk)
      ensures CategoryKey(AsReport(f)) == "SEC" && ConfidenceLine(AsReport(f)) == "- Confidence: **HIGH**"
    {
      assert SecretsScanner.FromTable(f);
      var j :| 0 <= j < |SecretsRules.Rules| && f.ruleId == SecretsRules.Rules[j].id
        && f.severity == SecretsRules.Rules[j].severity;
      RuleReportShape(f, j);
    }
  }

  /** With `--fail-on medium` (or `low`), a scan of the secret rules fails
      the build exactly when it found anything: every rule ranks at least
      `medium`. */
  lemma ScanGateAtMedium(walk: seq<FileEntry>)
    ensures HitsThreshold(AsReports(SecretsScanner.Scan(walk)), SeverityOrder["medium"]) <==> SecretsScanner.Scan(walk) != []
  {
    var fs := SecretsScanner.Scan(walk);
    SecretsScanner.ScanFindingsFromTable(walk);
    forall k | 0 <= k < |fs| ensures SecretsScanner.FromTable(fs[k]) {
      assert fs[k] in fs;
    }
    TableFindingsGateAtMedium(fs);
  }
}
