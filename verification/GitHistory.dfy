/**
 * A repository's history as a Markdown document: reading the log that git prints, and rendering
 * one section a commit.  The rendered text goes through the same section splitter as every other
 * Markdown file, so what matters is that no commit can open a heading or a fence in the middle of
 * its own section.
 */
module GitHistory {
  import opened Options
  import opened Text
  import opened Markdown

  datatype Commit = Commit(shortHash: string, date: string, subject: string, body: string, files: seq<string>)

  const RECENT_COMMITS := 15
  const MAX_FILES_PER_COMMIT := 15
  const RECORD_SEP := '\U{1e}'
  const FIELD_SEP := '\U{1f}'

  // ---------------------------------------------------------------- reading the log

  function NotBlank(lines: seq<string>): seq<string>
  {
    if lines == [] then []
    else
      var init, last := NotBlank(lines[..|lines| - 1]), lines[|lines| - 1];
      if Strip(last) != "" then init + [last] else init
  }

  function CommitOf(fields: seq<string>): Commit
    requires |fields| == 5
  {
    Commit(fields[0], fields[1], Strip(fields[2]), Strip(fields[3]), NotBlank(SplitLines(fields[4])))
  }

  function Read(record: string): Option<Commit>
  {
    var fields := Split(record, [FIELD_SEP]);
    if |fields| == 5 then Some(CommitOf(fields)) else None
  }

  /** A commit for each record, in order. */
  ghost predicate ReadsAs(records: seq<string>, commits: seq<Commit>)
  {
    |commits| == |records| && forall i | 0 <= i < |records| :: Read(records[i]) == Some(commits[i])
  }

  /** What git prints before the first separator is dropped. */
  function RecordsOf(output: string): seq<string>
  {
    Split(output, [RECORD_SEP])[1..]
  }

  lemma {:induction false} FilesAreLines(lines: seq<string>)
    requires forall l | l in lines :: Unbroken(l)
    ensures forall f | f in NotBlank(lines) :: Unbroken(f)
  {
    if lines != [] {
      assert lines[|lines| - 1] in lines && forall l | l in lines[..|lines| - 1] :: l in lines;
      FilesAreLines(lines[..|lines| - 1]);
    }
  }

  /** None is the ValueError of a message that holds a separator; the repository is then skipped. */
  method ParseLog(output: string) returns (commits: Option<seq<Commit>>)
    ensures commits == None <==> exists record | record in RecordsOf(output) :: Read(record) == None
    ensures commits.Some? ==> ReadsAs(RecordsOf(output), commits.value)
    ensures commits.Some? ==> forall c, f | c in commits.value && f in c.files :: Unbroken(f)
  {
    var records := RecordsOf(output);
    var read: seq<Commit> := [];
    for i := 0 to |records|
      invariant |read| == i && forall j | 0 <= j < i :: Read(records[j]) == Some(read[j])
      invariant forall c, f | c in read && f in c.files :: Unbroken(f)
    {
      var fields := Split(records[i], [FIELD_SEP]);
      if |fields| != 5 {
        assert Read(records[i]) == None;
        return None;
      }
      FilesAreLines(SplitLines(fields[4]));
      read := read + [CommitOf(fields)];
    }
    commits := Some(read);
  }

  // ---------------------------------------------------------------- what git writes

  /** The file names follow the record, each on a line, after an empty line. */
  function FileLines(files: seq<string>): string
  {
    "\n" + if files == [] then "" else "\n" + LinesOf(files)
  }

  function Fields(c: Commit): seq<string>
  {
    [c.shortHash, c.date, c.subject, c.body, FileLines(c.files)]
  }

  function Records(commits: seq<Commit>): seq<string>
  {
    seq(|commits|, i requires 0 <= i < |commits| => Join([FIELD_SEP], Fields(commits[i])))
  }

  function LogOf(commits: seq<Commit>): string
  {
    Join([RECORD_SEP], [""] + Records(commits))
  }

  predicate SeparatorFree(s: string)
  {
    RECORD_SEP !in s && FIELD_SEP !in s
  }

  predicate Plain(c: Commit)
  {
    && SeparatorFree(c.shortHash) && SeparatorFree(c.date) && SeparatorFree(c.subject) && SeparatorFree(c.body)
    && forall f | f in c.files :: SeparatorFree(f) && Unbroken(f) && Strip(f) != ""
  }

  lemma {:induction false} LinesSeparatorFree(lines: seq<string>)
    requires forall l | l in lines :: SeparatorFree(l)
    ensures SeparatorFree(LinesOf(lines))
  {
    if lines != [] {
      assert lines[0] in lines && forall l | l in lines[1..] :: l in lines;
      LinesSeparatorFree(lines[1..]);
    }
  }

  lemma FieldsSeparatorFree(c: Commit)
    requires Plain(c)
    ensures forall f | f in Fields(c) :: SeparatorFree(f)
  {
    LinesSeparatorFree(c.files);
  }

  lemma {:induction false} JoinRecordFree(parts: seq<string>)
    requires forall p | p in parts :: RECORD_SEP !in p
    ensures RECORD_SEP !in Join([FIELD_SEP], parts)
  {
    if parts != [] {
      assert parts[0] in parts && forall p | p in parts[1..] :: p in parts;
      JoinRecordFree(parts[1..]);
    }
  }

  lemma {:induction false} NotBlankConcat(a: seq<string>, b: seq<string>)
    ensures NotBlank(a + b) == NotBlank(a) + NotBlank(b)
  {
    if b == [] {
      assert a + b == a;
    } else {
      assert (a + b)[..|a + b| - 1] == a + b[..|b| - 1];
      NotBlankConcat(a, b[..|b| - 1]);
    }
  }

  lemma {:induction false} AllNotBlank(lines: seq<string>)
    requires forall i | 0 <= i < |lines| :: Strip(lines[i]) != ""
    ensures NotBlank(lines) == lines
  {
    if lines != [] {
      var init := lines[..|lines| - 1];
      AllNotBlank(init);
      assert lines == init + [lines[|lines| - 1]];
    }
  }

  lemma EmptyLineDropped(text: string)
    ensures NotBlank(SplitLines("\n" + text)) == NotBlank(SplitLines(text))
  {
    SplitFirstLine("", text, "\n" + text);
    var lines := SplitLines(text);
    NotBlankConcat([""], lines);
    assert [""][..0] == [] && NotBlank([""]) == [];
  }

  lemma FilesReadBack(files: seq<string>)
    requires forall f | f in files :: Unbroken(f) && Strip(f) != ""
    ensures NotBlank(SplitLines(FileLines(files))) == files
  {
    if files == [] {
      EmptyLineDropped("");
    } else {
      EmptyLineDropped("\n" + LinesOf(files));
      EmptyLineDropped(LinesOf(files));
      SplitLinesOf(files);
      AllNotBlank(files);
    }
  }

  function StrippedCommit(c: Commit): Commit
  {
    c.(subject := Strip(c.subject), body := Strip(c.body))
  }

  function StrippedCommits(commits: seq<Commit>): seq<Commit>
  {
    seq(|commits|, i requires 0 <= i < |commits| => StrippedCommit(commits[i]))
  }

  lemma RecordReadBack(c: Commit)
    requires Plain(c)
    ensures RECORD_SEP !in Join([FIELD_SEP], Fields(c))
    ensures Read(Join([FIELD_SEP], Fields(c))) == Some(StrippedCommit(c))
  {
    FieldsSeparatorFree(c);
    SplitJoin(FIELD_SEP, Fields(c));
    JoinRecordFree(Fields(c));
    FilesReadBack(c.files);
  }

  /** Reading inverts writing, up to stripping, for commits free of the two separators. */
  lemma ParseInvertsLog(commits: seq<Commit>)
    requires forall c | c in commits :: Plain(c)
    ensures ReadsAs(RecordsOf(LogOf(commits)), StrippedCommits(commits))
  {
    var records := Records(commits);
    forall i | 0 <= i < |commits|
      ensures RECORD_SEP !in records[i] && Read(records[i]) == Some(StrippedCommits(commits)[i])
    {
      RecordReadBack(commits[i]);
    }
    SplitJoin(RECORD_SEP, [""] + records);
    assert ([""] + records)[1..] == records;
  }

  // ---------------------------------------------------------------- rendering

  function Digits(n: nat): string
  {
    if n < 10 then ["0123456789"[n]] else Digits(n / 10) + ["0123456789"[n % 10]]
  }

  function Title(repo: string): string
  {
    "# Git history of " + repo
  }

  function RecentTitle(repo: string): string
  {
    "## Recent changes to " + repo + " (newest first)"
  }

  function RecentLine(c: Commit): string
  {
    "- " + c.date + " " + c.shortHash + " " + c.subject
  }

  function Heading(repo: string, c: Commit): string
  {
    "## " + repo + " commit " + c.shortHash + " (" + c.date + "): " + c.subject
  }

  function RecentLines(commits: seq<Commit>): seq<string>
  {
    seq(if |commits| < RECENT_COMMITS then |commits| else RECENT_COMMITS,
        i requires 0 <= i < |commits| => RecentLine(commits[i]))
  }

  /** Indented, so that no body line can open a heading or a fence. */
  function Indented(line: string): string
  {
    if Strip(line) != "" then "    " + line else ""
  }

  function IndentedAll(lines: seq<string>): (r: seq<string>)
    ensures |r| == |lines| && forall i | 0 <= i < |r| :: r[i] == Indented(lines[i])
  {
    seq(|lines|, i requires 0 <= i < |lines| => Indented(lines[i]))
  }

  function Shown(files: seq<string>): seq<string>
  {
    if |files| <= MAX_FILES_PER_COMMIT then files else files[..MAX_FILES_PER_COMMIT]
  }

  function FilesLine(files: seq<string>): string
  {
    var more := |files| - |Shown(files)|;
    "Files: " + Join(", ", Shown(files)) + if more > 0 then " (+" + Digits(more) + " more)" else ""
  }

  /** The lines of a commit after its heading. */
  function Details(c: Commit): seq<string>
  {
    (if c.body == "" then [] else [""] + IndentedAll(SplitLines(c.body)))
    + (if c.files == [] then [] else ["", FilesLine(c.files)])
  }

  function Preamble(repo: string, commits: seq<Commit>): seq<string>
  {
    [Title(repo), "", RecentTitle(repo), ""] + RecentLines(commits)
  }

  function CommitSection(repo: string, c: Commit): seq<string>
  {
    [Heading(repo, c)] + Details(c)
  }

  /** For every commit an empty line and its section. */
  function CommitLines(repo: string, commits: seq<Commit>): seq<string>
  {
    if commits == [] then []
    else CommitLines(repo, commits[..|commits| - 1]) + ([""] + CommitSection(repo, commits[|commits| - 1]))
  }

  lemma CommitLinesTake(repo: string, commits: seq<Commit>, i: nat)
    requires i < |commits|
    ensures CommitLines(repo, commits[..i + 1])
            == CommitLines(repo, commits[..i]) + ([""] + CommitSection(repo, commits[i]))
  {
    assert commits[..i + 1][..i] == commits[..i];
  }

  lemma Assoc(a: seq<string>, b: seq<string>, c: seq<string>)
    ensures (a + b) + c == a + (b + c)
  {
  }

  method AddDetails(c: Commit, lines: seq<string>) returns (longer: seq<string>)
    ensures longer == lines + Details(c)
  {
    var body := if c.body == "" then [] else [""] + IndentedAll(SplitLines(c.body));
    var files := if c.files == [] then [] else ["", FilesLine(c.files)];
    longer := lines;
    if c.body != "" {
      longer := longer + body;
    }
    if c.files != [] {
      longer := longer + files;
    }
    Assoc(lines, body, files);
  }

  method AddCommits(repo: string, commits: seq<Commit>, lines: seq<string>) returns (longer: seq<string>)
    ensures longer == lines + CommitLines(repo, commits)
  {
    longer := lines;
    for i := 0 to |commits|
      invariant longer == lines + CommitLines(repo, commits[..i])
    {
      ghost var prior := CommitLines(repo, commits[..i]);
      longer := longer + ["", Heading(repo, commits[i])];
      longer := AddDetails(commits[i], longer);
      CommitLinesTake(repo, commits, i);
      Snoc2(lines, prior, Heading(repo, commits[i]), Details(commits[i]));
    }
    assert commits[..|commits|] == commits;
  }

  lemma Snoc2(lines: seq<string>, prior: seq<string>, heading: string, details: seq<string>)
    ensures (lines + prior) + ["", heading] + details == lines + (prior + ([""] + ([heading] + details)))
  {
  }

  /** Behind an empty line the lines of the body, indented where they are not blank. */
  ghost predicate BodyWritten(body: string, lines: seq<string>)
  {
    if body == "" then lines == []
    else
      var given := SplitLines(body);
      && |lines| == 1 + |given| && lines[0] == ""
      && forall k | 0 <= k < |given| :: lines[k + 1] == if Strip(given[k]) == "" then "" else "    " + given[k]
  }

  /** Behind an empty line the first fifteen file names, and how many more there are. */
  ghost predicate FilesWritten(files: seq<string>, lines: seq<string>)
  {
    lines == if files == [] then []
             else if |files| <= 15 then ["", "Files: " + Join(", ", files)]
             else ["", "Files: " + Join(", ", files[..15]) + (" (+" + Digits(|files| - 15) + " more)")]
  }

  ghost predicate CommitWritten(repo: string, c: Commit, body: seq<string>, files: seq<string>, lines: seq<string>)
  {
    && BodyWritten(c.body, body) && FilesWritten(c.files, files)
    && lines == ["", "## " + repo + " commit " + c.shortHash + " (" + c.date + "): " + c.subject] + body + files
  }

  ghost predicate CommitShown(repo: string, c: Commit, lines: seq<string>)
  {
    exists body, files :: CommitWritten(repo, c, body, files, lines)
  }

  ghost predicate AllShown(repo: string, commits: seq<Commit>, sections: seq<seq<string>>)
  {
    |sections| == |commits| && forall i | 0 <= i < |commits| :: CommitShown(repo, commits[i], sections[i])
  }

  /** The title, a line for each of the first fifteen commits, and then every commit, all in the order given. */
  ghost predicate HistoryWritten(repo: string, commits: seq<Commit>, recent: seq<string>, sections: seq<seq<string>>,
                                 lines: seq<string>)
  {
    && lines == ["# Git history of " + repo, "", "## Recent changes to " + repo + " (newest first)", ""]
                + recent + Flat(sections)
    && |recent| == (if |commits| < 15 then |commits| else 15)
    && (forall i | 0 <= i < |recent| ::
          recent[i] == "- " + commits[i].date + " " + commits[i].shortHash + " " + commits[i].subject)
    && AllShown(repo, commits, sections)
  }

  predicate Decimal(digits: string)
  {
    forall i | 0 <= i < |digits| :: '0' <= digits[i] <= '9'
  }

  function Value(digits: string): int
    requires Decimal(digits)
  {
    if digits == "" then 0 else 10 * Value(digits[..|digits| - 1]) + digits[|digits| - 1] as int - '0' as int
  }

  /** The number is written in decimal. */
  lemma {:induction false} DigitsValue(n: nat)
    ensures Decimal(Digits(n)) && Value(Digits(n)) == n
  {
    var last := "0123456789"[n % 10];
    assert last as int - '0' as int == n % 10;
    if n < 10 {
      assert Digits(n) == [last] && Digits(n)[..0] == "";
    } else {
      DigitsValue(n / 10);
      assert Digits(n)[..|Digits(n)| - 1] == Digits(n / 10);
    }
  }

  lemma BodyIsWritten(body: string)
    ensures BodyWritten(body, if body == "" then [] else [""] + IndentedAll(SplitLines(body)))
  {
  }

  lemma FilesAreWritten(files: seq<string>)
    ensures FilesWritten(files, if files == [] then [] else ["", FilesLine(files)])
  {
    if 0 < |files| <= 15 {
      assert "Files: " + Join(", ", files) + "" == "Files: " + Join(", ", files);
    }
  }

  lemma DetailsShown(repo: string, c: Commit)
    ensures CommitShown(repo, c, [""] + CommitSection(repo, c))
  {
    var body := if c.body == "" then [] else [""] + IndentedAll(SplitLines(c.body));
    var files := if c.files == [] then [] else ["", FilesLine(c.files)];
    BodyIsWritten(c.body);
    FilesAreWritten(c.files);
    Prepend(Heading(repo, c), body, files);
    assert CommitWritten(repo, c, body, files, [""] + CommitSection(repo, c));
  }

  lemma Prepend(heading: string, body: seq<string>, files: seq<string>)
    ensures [""] + ([heading] + (body + files)) == ["", heading] + body + files
  {
  }

  lemma AllShownSnoc(repo: string, init: seq<Commit>, sections: seq<seq<string>>, c: Commit, section: seq<string>)
    requires AllShown(repo, init, sections) && CommitShown(repo, c, section)
    ensures AllShown(repo, init + [c], sections + [section])
  {
  }

  lemma {:induction false} CommitLinesShown(repo: string, commits: seq<Commit>) returns (sections: seq<seq<string>>)
    ensures CommitLines(repo, commits) == Flat(sections) && AllShown(repo, commits, sections)
  {
    if commits == [] {
      sections := [];
    } else {
      var init, c := commits[..|commits| - 1], commits[|commits| - 1];
      assert commits == init + [c];
      var before := CommitLinesShown(repo, init);
      var section := [""] + CommitSection(repo, c);
      DetailsShown(repo, c);
      AllShownSnoc(repo, init, before, c, section);
      FlatSnoc(before, section);
      sections := before + [section];
    }
  }

  lemma HistoryIsWritten(repo: string, commits: seq<Commit>) returns (sections: seq<seq<string>>)
    ensures HistoryWritten(repo, commits, RecentLines(commits), sections,
                           Preamble(repo, commits) + CommitLines(repo, commits))
  {
    sections := CommitLinesShown(repo, commits);
  }

  method RenderHistory(repo: string, commits: seq<Commit>)
    returns (text: string, ghost recent: seq<string>, ghost sections: seq<seq<string>>, ghost written: seq<string>)
    ensures text == LinesOf(Preamble(repo, commits) + CommitLines(repo, commits))
    ensures HistoryWritten(repo, commits, recent, sections, written) && text == Join("\n", written) + "\n"
  {
    sections := HistoryIsWritten(repo, commits);
    recent, written := RecentLines(commits), Preamble(repo, commits) + CommitLines(repo, commits);
    var lines := AddCommits(repo, commits, Preamble(repo, commits));
    LinesOfJoin(lines);
    text := Join("\n", lines) + "\n";
  }

  // ---------------------------------------------------------------- sections of the rendered document

  /** A line that neither heads a section nor opens a fence. */
  predicate Ordinary(line: string)
  {
    !IsHeader(line) && FenceOf(line) == None
  }

  /** Sections as written: a header and then ordinary lines. */
  predicate Written(group: seq<string>)
  {
    group != [] && IsHeader(group[0]) && forall i | 0 < i < |group| :: Ordinary(group[i])
  }

  predicate NoFenceIn(lines: seq<string>)
  {
    forall l | l in lines :: FenceOf(l) == None
  }

  lemma {:induction false} NoFences(lines: seq<string>, n: nat)
    requires n <= |lines| && NoFenceIn(lines)
    ensures !Fenced(lines, n)
  {
    assert forall o | 0 <= o < n :: FenceOf(lines[o]) == None by {
      assert forall o | 0 <= o < n :: lines[o] in lines;
    }
  }

  /** The sections of lines among which no fence is. */
  function ByHeader(lines: seq<string>): seq<seq<string>>
  {
    if lines == [] then [] else AddLine(ByHeader(lines[..|lines| - 1]), lines[|lines| - 1])
  }

  function AddLine(prior: seq<seq<string>>, line: string): seq<seq<string>>
  {
    if prior == [] || IsHeader(line) then prior + [[line]]
    else prior[|prior| - 1 := prior[|prior| - 1] + [line]]
  }

  lemma {:induction false} SectionsByHeader(lines: seq<string>, n: nat)
    requires n <= |lines| && NoFenceIn(lines)
    ensures Sections(lines, n) == ByHeader(lines[..n])
  {
    if n > 0 {
      SectionsByHeader(lines, n - 1);
      NoFences(lines, n - 1);
      assert lines[..n][..n - 1] == lines[..n - 1];
    }
  }

  lemma ByHeaderSnoc(lines: seq<string>, line: string, longer: seq<string>)
    requires longer == lines + [line]
    ensures ByHeader(longer) == AddLine(ByHeader(lines), line)
  {
    assert longer[..|lines|] == lines;
  }

  lemma AddToLast(prior: seq<seq<string>>, last: seq<string>, line: string)
    requires !IsHeader(line)
    ensures AddLine(prior + [last], line) == prior + [last + [line]]
  {
  }

  /** Adding one written section's first n lines to a document. */
  lemma {:induction false} SectionGrows(before: seq<string>, group: seq<string>, n: nat)
    requires Written(group) && 0 < n <= |group|
    ensures ByHeader(before + group[..n]) == ByHeader(before) + [group[..n]]
    decreases n
  {
    if n == 1 {
      assert group[..1] == [group[0]];
      ByHeaderSnoc(before, group[0], before + group[..1]);
    } else {
      SectionGrows(before, group, n - 1);
      assert before + group[..n] == (before + group[..n - 1]) + [group[n - 1]];
      ByHeaderSnoc(before + group[..n - 1], group[n - 1], before + group[..n]);
      assert Ordinary(group[n - 1]) && group[..n - 1] + [group[n - 1]] == group[..n];
      AddToLast(ByHeader(before), group[..n - 1], group[n - 1]);
    }
  }

  predicate AllWritten(groups: seq<seq<string>>)
  {
    forall g | g in groups :: Written(g)
  }

  lemma {:induction false} WrittenHasNoFence(groups: seq<seq<string>>)
    requires AllWritten(groups)
    ensures NoFenceIn(Flat(groups))
  {
    if groups != [] {
      var n := |groups| - 1;
      assert groups[n] in groups && forall g | g in groups[..n] :: g in groups;
      WrittenHasNoFence(groups[..n]);
      HeaderIsNoFence(groups[n][0]);
      forall l | l in groups[n] ensures FenceOf(l) == None {
        var i :| 0 <= i < |groups[n]| && groups[n][i] == l;
      }
    }
  }

  lemma {:induction false} ByHeaderAsWritten(groups: seq<seq<string>>)
    requires AllWritten(groups)
    ensures ByHeader(Flat(groups)) == groups
  {
    if groups != [] {
      var n := |groups| - 1;
      assert groups[n] in groups && forall g | g in groups[..n] :: g in groups;
      ByHeaderAsWritten(groups[..n]);
      OneMoreSection(groups[..n], groups[n]);
      assert groups == groups[..n] + [groups[n]];
    }
  }

  lemma OneMoreSection(groups: seq<seq<string>>, group: seq<string>)
    requires ByHeader(Flat(groups)) == groups && Written(group)
    ensures ByHeader(Flat(groups) + group) == groups + [group]
  {
    SectionGrows(Flat(groups), group, |group|);
    assert group[..|group|] == group;
  }

  /** The splitter finds exactly the sections that were written. */
  lemma SectionsAsWritten(groups: seq<seq<string>>)
    requires AllWritten(groups)
    ensures Sections(Flat(groups), |Flat(groups)|) == groups
  {
    WrittenHasNoFence(groups);
    ByHeaderAsWritten(groups);
    SectionsByHeader(Flat(groups), |Flat(groups)|);
    assert Flat(groups)[..|Flat(groups)|] == Flat(groups);
  }

  // ---------------------------------------------------------------- the rendered lines as sections

  lemma OrdinaryLines(repo: string, c: Commit)
    ensures IsHeader(Title(repo)) && IsHeader(RecentTitle(repo)) && IsHeader(Heading(repo, c))
    ensures Ordinary("") && Ordinary(RecentLine(c)) && Ordinary(FilesLine(c.files))
  {
    assert Title(repo)[0] == '#' && Title(repo)[1] == ' ' && Title(repo)[1..][0] == ' ';
    TwoHashes(RecentTitle(repo));
    TwoHashes(Heading(repo, c));
    assert RecentLine(c)[0] == '-' && FilesLine(c.files)[0] == 'F';
  }

  lemma TwoHashes(line: string)
    requires |line| > 2 && line[0] == line[1] == '#' && line[2] == ' '
    ensures IsHeader(line)
  {
    assert line[1..][0] == '#' && line[1..][1..][0] == ' ';
  }

  lemma IndentedIsOrdinary(line: string)
    ensures Ordinary(Indented(line))
  {
    if Strip(line) != "" {
      var l := "    " + line;
      assert l[0] == l[1] == l[2] == l[3] == ' ';
      assert LeadingRun(l, ' ') >= 4 by {
        assert forall i | 0 <= i < 4 :: l[i] == ' ';
      }
    }
  }

  lemma DetailsAreOrdinary(repo: string, c: Commit)
    ensures forall l | l in Details(c) :: Ordinary(l)
  {
    OrdinaryLines(repo, c);
    var lines := SplitLines(c.body);
    forall l | l in IndentedAll(lines) ensures Ordinary(l) {
      var i :| 0 <= i < |lines| && IndentedAll(lines)[i] == l;
      IndentedIsOrdinary(lines[i]);
    }
  }

  // The document's sections: the title, the recent changes, and one per commit.  Each but the last
  // ends with the empty line that precedes the next heading.
  function LastGroup(repo: string, recent: seq<Commit>, commits: seq<Commit>): seq<string>
  {
    if commits == [] then [RecentTitle(repo), ""] + RecentLines(recent)
    else CommitSection(repo, commits[|commits| - 1])
  }

  function ClosedGroups(repo: string, recent: seq<Commit>, commits: seq<Commit>): seq<seq<string>>
  {
    if commits == [] then [[Title(repo), ""]]
    else
      var init := commits[..|commits| - 1];
      ClosedGroups(repo, recent, init) + [LastGroup(repo, recent, init) + [""]]
  }

  function Groups(repo: string, recent: seq<Commit>, commits: seq<Commit>): seq<seq<string>>
  {
    ClosedGroups(repo, recent, commits) + [LastGroup(repo, recent, commits)]
  }

  lemma {:induction false} GroupCount(repo: string, recent: seq<Commit>, commits: seq<Commit>)
    ensures |ClosedGroups(repo, recent, commits)| == 1 + |commits|
  {
    if commits != [] { GroupCount(repo, recent, commits[..|commits| - 1]); }
  }

  lemma ClosedSnoc(closed: seq<seq<string>>, last: seq<string>, groups: seq<seq<string>>, k: nat)
    requires groups == closed + [last] && k <= |closed|
    ensures groups[k] == if k < |closed| then closed[k] else last
  {
  }

  lemma {:induction false} ClosedGroupOf(repo: string, recent: seq<Commit>, commits: seq<Commit>, i: nat)
    requires i < |commits| - 1
    ensures |ClosedGroups(repo, recent, commits)| == 1 + |commits|
    ensures ClosedGroups(repo, recent, commits)[2 + i] == CommitSection(repo, commits[i]) + [""]
  {
    var init := commits[..|commits| - 1];
    GroupCount(repo, recent, commits);
    GroupCount(repo, recent, init);
    ClosedSnoc(ClosedGroups(repo, recent, init), LastGroup(repo, recent, init) + [""],
               ClosedGroups(repo, recent, commits), 2 + i);
    if i < |commits| - 2 {
      ClosedGroupOf(repo, recent, init, i);
    }
  }

  /** Section 2 + i is commit i's, with the empty line before the next heading when there is one. */
  lemma GroupOfCommit(repo: string, recent: seq<Commit>, commits: seq<Commit>, i: nat)
    requires i < |commits|
    ensures |Groups(repo, recent, commits)| == 2 + |commits|
    ensures Groups(repo, recent, commits)[2 + i]
            == CommitSection(repo, commits[i]) + if i < |commits| - 1 then [""] else []
  {
    GroupCount(repo, recent, commits);
    ClosedSnoc(ClosedGroups(repo, recent, commits), LastGroup(repo, recent, commits),
               Groups(repo, recent, commits), 2 + i);
    if i < |commits| - 1 {
      ClosedGroupOf(repo, recent, commits, i);
    } else {
      assert CommitSection(repo, commits[i]) + [] == CommitSection(repo, commits[i]);
    }
  }

  lemma GroupsGrow(closed: seq<seq<string>>, last: seq<string>, next: seq<string>)
    ensures Flat((closed + [last + [""]]) + [next]) == Flat(closed + [last]) + ([""] + next)
  {
    FlatSnoc(closed + [last + [""]], next);
    FlatSnoc(closed, last + [""]);
    FlatSnoc(closed, last);
  }

  lemma FlatOfTwo(a: seq<string>, b: seq<string>)
    ensures Flat([a] + [b]) == a + b
  {
    FlatSnoc([a], b);
    FlatSnoc([], a);
    assert [] + [a] == [a];
  }

  lemma NoCommits(repo: string, recent: seq<Commit>)
    ensures Flat(Groups(repo, recent, [])) == Preamble(repo, recent) + CommitLines(repo, [])
  {
    FlatOfTwo([Title(repo), ""], [RecentTitle(repo), ""] + RecentLines(recent));
    Assoc([Title(repo), ""], [RecentTitle(repo), ""], RecentLines(recent));
  }

  lemma {:induction false} GroupsAreLines(repo: string, recent: seq<Commit>, commits: seq<Commit>)
    ensures Flat(Groups(repo, recent, commits)) == Preamble(repo, recent) + CommitLines(repo, commits)
  {
    if commits == [] {
      NoCommits(repo, recent);
    } else {
      var init := commits[..|commits| - 1];
      GroupsAreLines(repo, recent, init);
      GroupsGrow(ClosedGroups(repo, recent, init), LastGroup(repo, recent, init), LastGroup(repo, recent, commits));
      Assoc(Preamble(repo, recent), CommitLines(repo, init), [""] + LastGroup(repo, recent, commits));
    }
  }

  lemma LastIsWritten(repo: string, recent: seq<Commit>, commits: seq<Commit>)
    ensures Written(LastGroup(repo, recent, commits)) && Written(LastGroup(repo, recent, commits) + [""])
  {
    var last := LastGroup(repo, recent, commits);
    OrdinaryLines(repo, if commits == [] then Commit("", "", "", "", []) else commits[|commits| - 1]);
    forall i | 0 < i < |last| ensures Ordinary(last[i]) {
      if commits == [] {
        if i > 1 { OrdinaryLines(repo, recent[i - 2]); }
      } else {
        DetailsAreOrdinary(repo, commits[|commits| - 1]);
        assert last[i] in Details(commits[|commits| - 1]);
      }
    }
  }

  lemma {:induction false} GroupsAreWritten(repo: string, recent: seq<Commit>, commits: seq<Commit>)
    ensures AllWritten(ClosedGroups(repo, recent, commits)) && AllWritten(Groups(repo, recent, commits))
  {
    LastIsWritten(repo, recent, commits);
    if commits == [] {
      OrdinaryLines(repo, Commit("", "", "", "", []));
    } else {
      GroupsAreWritten(repo, recent, commits[..|commits| - 1]);
      LastIsWritten(repo, recent, commits[..|commits| - 1]);
    }
  }

  // ---------------------------------------------------------------- the round trip

  lemma ConcatUnbroken(a: string, b: string)
    ensures Unbroken(a + b) <==> Unbroken(a) && Unbroken(b)
  {
    assert forall c :: c in a + b <==> c in a || c in b;
  }

  lemma {:induction false} DigitsUnbroken(n: nat)
    ensures Unbroken(Digits(n))
  {
    if n >= 10 { DigitsUnbroken(n / 10); }
  }

  predicate AllUnbroken(lines: seq<string>)
  {
    forall l | l in lines :: Unbroken(l)
  }

  lemma BothUnbroken(a: seq<string>, b: seq<string>)
    ensures AllUnbroken(a + b) <==> AllUnbroken(a) && AllUnbroken(b)
  {
    assert forall l :: l in a + b <==> l in a || l in b;
  }

  lemma {:induction false} JoinUnbroken(separator: string, parts: seq<string>)
    requires Unbroken(separator)
    ensures Unbroken(Join(separator, parts)) <==> AllUnbroken(parts)
  {
    if |parts| == 1 {
      assert parts[0] in parts;
    } else if parts != [] {
      JoinUnbroken(separator, parts[1..]);
      ConcatUnbroken(parts[0] + separator, Join(separator, parts[1..]));
      ConcatUnbroken(parts[0], separator);
      BothUnbroken([parts[0]], parts[1..]);
      assert parts == [parts[0]] + parts[1..] && parts[0] in [parts[0]];
    }
  }

  /** What the document shows of a commit on one line each; bodies, and files past the fifteenth, are free. */
  predicate OneLine(c: Commit)
  {
    Unbroken(c.shortHash) && Unbroken(c.date) && Unbroken(c.subject) && AllUnbroken(Shown(c.files))
  }

  predicate OneLined(repo: string, commits: seq<Commit>)
  {
    Unbroken(repo) && forall c | c in commits :: OneLine(c)
  }

  lemma WrappedUnbroken(before: string, text: string, after: string)
    requires Unbroken(before) && Unbroken(after)
    ensures Unbroken(before + text + after) <==> Unbroken(text)
  {
    ConcatUnbroken(before + text, after);
    ConcatUnbroken(before, text);
  }

  lemma MoreUnbroken(more: nat)
    ensures Unbroken(" (+" + Digits(more) + " more)")
  {
    DigitsUnbroken(more);
    WrappedUnbroken(" (+", Digits(more), " more)");
  }

  lemma FilesLineUnbroken(files: seq<string>)
    ensures Unbroken(FilesLine(files)) <==> AllUnbroken(Shown(files))
  {
    var more := |files| - |Shown(files)|;
    MoreUnbroken(more);
    JoinUnbroken(", ", Shown(files));
    WrappedUnbroken("Files: ", Join(", ", Shown(files)), if more > 0 then " (+" + Digits(more) + " more)" else "");
  }

  lemma BodyUnbroken(c: Commit)
    ensures AllUnbroken(IndentedAll(SplitLines(c.body)))
  {
    var lines := SplitLines(c.body);
    forall l | l in IndentedAll(lines) ensures Unbroken(l) {
      var i :| 0 <= i < |lines| && IndentedAll(lines)[i] == l;
      assert lines[i] in lines;
      ConcatUnbroken("    ", lines[i]);
    }
  }

  lemma DetailsUnbroken(c: Commit)
    ensures AllUnbroken(Details(c)) <==> AllUnbroken(Shown(c.files))
  {
    FilesLineUnbroken(c.files);
    BodyUnbroken(c);
    var body := if c.body == "" then [] else [""] + IndentedAll(SplitLines(c.body));
    var files := if c.files == [] then [] else ["", FilesLine(c.files)];
    BothUnbroken([""], IndentedAll(SplitLines(c.body)));
    BothUnbroken(body, files);
    assert c.files != [] ==> files[1] in files;
  }

  lemma HeadingUnbroken(repo: string, c: Commit)
    ensures Unbroken(Heading(repo, c)) <==>
              Unbroken(repo) && Unbroken(c.shortHash) && Unbroken(c.date) && Unbroken(c.subject)
  {
    var upToHash := "## " + repo + " commit " + c.shortHash;
    ConcatUnbroken("## ", repo);
    ConcatUnbroken("## " + repo, " commit ");
    ConcatUnbroken("## " + repo + " commit ", c.shortHash);
    ConcatUnbroken(upToHash, " (");
    ConcatUnbroken(upToHash + " (", c.date);
    ConcatUnbroken(upToHash + " (" + c.date, "): ");
    ConcatUnbroken(upToHash + " (" + c.date + "): ", c.subject);
  }

  lemma SectionUnbroken(repo: string, c: Commit)
    ensures AllUnbroken([""] + CommitSection(repo, c)) <==> Unbroken(repo) && OneLine(c)
  {
    HeadingUnbroken(repo, c);
    DetailsUnbroken(c);
    BothUnbroken([""], CommitSection(repo, c));
    BothUnbroken([Heading(repo, c)], Details(c));
    assert Heading(repo, c) in [Heading(repo, c)];
  }

  lemma {:induction false} CommitLinesUnbroken(repo: string, commits: seq<Commit>)
    requires Unbroken(repo)
    ensures AllUnbroken(CommitLines(repo, commits)) <==> OneLined(repo, commits)
  {
    if commits != [] {
      var init, c := commits[..|commits| - 1], commits[|commits| - 1];
      assert commits == init + [c] && c in commits;
      CommitLinesUnbroken(repo, init);
      SectionUnbroken(repo, c);
      BothUnbroken(CommitLines(repo, init), [""] + CommitSection(repo, c));
    }
  }

  lemma RecentLineUnbroken(c: Commit)
    requires OneLine(c)
    ensures Unbroken(RecentLine(c))
  {
    ConcatUnbroken("- ", c.date);
    ConcatUnbroken("- " + c.date, " ");
    ConcatUnbroken("- " + c.date + " ", c.shortHash);
    ConcatUnbroken("- " + c.date + " " + c.shortHash, " ");
    ConcatUnbroken("- " + c.date + " " + c.shortHash + " ", c.subject);
  }

  lemma RecentUnbroken(commits: seq<Commit>)
    requires forall c | c in commits :: OneLine(c)
    ensures AllUnbroken(RecentLines(commits))
  {
    forall l | l in RecentLines(commits) ensures Unbroken(l) {
      var i :| 0 <= i < |RecentLines(commits)| && RecentLine(commits[i]) == l;
      assert commits[i] in commits;
      RecentLineUnbroken(commits[i]);
    }
  }

  lemma TitleUnbroken(repo: string)
    ensures Unbroken(Title(repo)) <==> Unbroken(repo)
  {
    ConcatUnbroken("# Git history of ", repo);
  }

  lemma RecentTitleUnbroken(repo: string)
    ensures Unbroken(RecentTitle(repo)) <==> Unbroken(repo)
  {
    WrappedUnbroken("## Recent changes to ", repo, " (newest first)");
  }

  lemma TitlesUnbroken(repo: string, first: string, second: string)
    requires first == Title(repo) && second == RecentTitle(repo)
    ensures AllUnbroken([first, "", second, ""]) <==> Unbroken(repo)
  {
    TitleUnbroken(repo);
    RecentTitleUnbroken(repo);
    var titles := [first, "", second, ""];
    assert titles[0] in titles;
  }

  lemma PreambleUnbroken(repo: string, commits: seq<Commit>)
    ensures AllUnbroken(Preamble(repo, commits)) ==> Unbroken(repo)
    ensures OneLined(repo, commits) ==> AllUnbroken(Preamble(repo, commits))
  {
    TitlesUnbroken(repo, Title(repo), RecentTitle(repo));
    BothUnbroken([Title(repo), "", RecentTitle(repo), ""], RecentLines(commits));
    if OneLined(repo, commits) {
      RecentUnbroken(commits);
    }
  }

  lemma RenderedUnbroken(repo: string, commits: seq<Commit>)
    ensures AllUnbroken(Preamble(repo, commits) + CommitLines(repo, commits)) <==> OneLined(repo, commits)
  {
    PreambleUnbroken(repo, commits);
    BothUnbroken(Preamble(repo, commits), CommitLines(repo, commits));
    if Unbroken(repo) {
      CommitLinesUnbroken(repo, commits);
    }
  }

  function SectionOf(repo: string, commits: seq<Commit>, i: nat): seq<string>
    requires i < |commits|
  {
    CommitSection(repo, commits[i]) + if i < |commits| - 1 then [""] else []
  }

  /**
   * The title, the recent changes and one section per commit, in order, each starting with its
   * commit's heading; all but the last end with the empty line before the next heading.
   */
  ghost predicate AsRendered(repo: string, commits: seq<Commit>, sections: seq<seq<string>>)
  {
    && |sections| == 2 + |commits| && sections[0] == [Title(repo), ""]
    && sections[1] == [RecentTitle(repo), ""] + RecentLines(commits) + (if commits != [] then [""] else [])
    && forall i | 0 <= i < |commits| :: sections[2 + i] == SectionOf(repo, commits, i)
  }

  /**
   * The splitter gives back the sections of the rendered document exactly when what it shows on
   * one line is one line, whatever the bodies hold.
   */
  method RenderThenSplit(repo: string, commits: seq<Commit>) returns (text: string, sections: seq<seq<string>>)
    ensures text == LinesOf(Preamble(repo, commits) + CommitLines(repo, commits))
    ensures sections == Sections(SplitLines(text), |SplitLines(text)|)
    ensures AsRendered(repo, commits, sections) <==> OneLined(repo, commits)
  {
    ghost var recent, given, written;
    text, recent, given, written := RenderHistory(repo, commits);
    sections := SplitSections(SplitLines(text));
    GroupsAreLines(repo, commits, commits);
    RenderedUnbroken(repo, commits);
    WrittenGroups(repo, commits);
    AsRenderedIffGroups(repo, commits, sections);
    SplitsBackIff(Groups(repo, commits, commits), sections);
  }

  /** Written lines are split into the sections they were written in exactly when each is one line. */
  lemma SplitsBackIff(groups: seq<seq<string>>, sections: seq<seq<string>>)
    requires Sections(Flat(groups), |Flat(groups)|) == groups
    requires var lines := SplitLines(LinesOf(Flat(groups))); sections == Sections(lines, |lines|)
    ensures sections == groups <==> AllUnbroken(Flat(groups))
  {
    var lines := SplitLines(LinesOf(Flat(groups)));
    SectionsPartition(lines, |lines|);
    assert lines[..|lines|] == lines;
    if AllUnbroken(Flat(groups)) {
      SplitLinesOf(Flat(groups));
    }
  }

  /** What the sync of one repository writes and what indexing then makes of it: a log in, sections out. */
  method LogToSections(repo: string, output: string)
    returns (commits: Option<seq<Commit>>, text: string, sections: seq<seq<string>>)
    ensures commits == None <==> exists record | record in RecordsOf(output) :: Read(record) == None
    ensures commits.Some? ==> ReadsAs(RecordsOf(output), commits.value)
    ensures commits.Some? ==>
              (AsRendered(repo, commits.value, sections) <==>
               && Unbroken(repo)
               && forall c | c in commits.value :: Unbroken(c.shortHash) && Unbroken(c.date) && Unbroken(c.subject))
  {
    text, sections := "", [];
    commits := ParseLog(output);
    if commits.Some? {
      text, sections := RenderThenSplit(repo, commits.value);
      forall c | c in commits.value ensures AllUnbroken(Shown(c.files)) {
        assert forall f | f in Shown(c.files) :: f in c.files;
      }
    }
  }

  // ---------------------------------------------------------------- a subject that opens sections

  /** NEXT LINE: a line break for str.splitlines, and a character like any other for git. */
  const NEL := '\U{85}'

  lemma LineFirst(line: string, after: seq<string>)
    requires Unbroken(line)
    ensures SplitLines(LinesOf([line] + after)) == [line] + SplitLines(LinesOf(after))
  {
    var lines := [line] + after;
    assert lines[0] == line && lines[1..] == after;
    SplitFirstLine(line, LinesOf(after), LinesOf(lines));
  }

  lemma UnbrokenNext(init: seq<string>, line: string, after: seq<string>)
    requires Unbroken(line)
    requires SplitLines(LinesOf(init + ([line] + after))) == init + SplitLines(LinesOf([line] + after))
    ensures SplitLines(LinesOf((init + [line]) + after)) == (init + [line]) + SplitLines(LinesOf(after))
  {
    LineFirst(line, after);
    Assoc(init, [line], after);
    Assoc(init, [line], SplitLines(LinesOf(after)));
  }

  lemma {:induction false} UnbrokenFirst(before: seq<string>, after: seq<string>)
    requires AllUnbroken(before)
    ensures SplitLines(LinesOf(before + after)) == before + SplitLines(LinesOf(after))
  {
    if before == [] {
      assert before + after == after;
    } else {
      var init, last := before[..|before| - 1], before[|before| - 1];
      assert before == init + [last] && last in before;
      UnbrokenFirst(init, [last] + after);
      UnbrokenNext(init, last, after);
    }
  }

  /** A line that holds a break is read back as two. */
  lemma BrokenFirst(x: string, y: string, after: seq<string>)
    requires Unbroken(x) && Unbroken(y)
    ensures SplitLines(LinesOf([x + [NEL] + y] + after)) == [x] + ([y] + SplitLines(LinesOf(after)))
  {
    var lines := [x + [NEL] + y] + after;
    assert lines[1..] == after;
    var rest := y + "\n" + LinesOf(after);
    assert LinesOf(lines) == x + [NEL] + rest;
    SplitAtBreak(x, NEL, rest, LinesOf(lines));
    SplitFirstLine(y, LinesOf(after), rest);
  }

  /** The document of one commit without body and files. */
  lemma BareDocument(repo: string, c: Commit)
    requires c.body == "" && c.files == []
    ensures Preamble(repo, [c]) + CommitLines(repo, [c])
            == [Title(repo), "", RecentTitle(repo), ""] + ([RecentLine(c)] + ([""] + ([Heading(repo, c)] + [])))
  {
    assert [c][..0] == [];
    assert RecentLines([c]) == [RecentLine(c)];
    assert CommitSection(repo, c) == [Heading(repo, c)];
  }

  /** What the recent changes and the heading show before and after a break in the subject. */
  lemma SubjectBreaks(repo: string, c: Commit, x: string, h: string)
    requires c.subject == x + [NEL] + h
    ensures RecentLine(c) == RecentLine(c.(subject := x)) + [NEL] + h
    ensures Heading(repo, c) == Heading(repo, c.(subject := x)) + [NEL] + h
  {
  }

  lemma TwoBroken(titles: seq<string>, recent: string, heading: string, h: string)
    requires AllUnbroken(titles) && Unbroken(recent) && Unbroken(heading) && Unbroken(h)
    ensures SplitLines(LinesOf(titles + ([recent + [NEL] + h] + ([""] + ([heading + [NEL] + h] + [])))))
            == titles + ([recent] + ([h] + ([""] + ([heading] + [h]))))
  {
    assert SplitLines(LinesOf([])) == [];
    BrokenFirst(heading, h, []);
    UnbrokenFirst([""], [heading + [NEL] + h] + []);
    BrokenFirst(recent, h, [""] + ([heading + [NEL] + h] + []));
    UnbrokenFirst(titles, [recent + [NEL] + h] + ([""] + ([heading + [NEL] + h] + [])));
    assert [h] + [] == [h];
  }

  /** The lines that the document of such a commit is read back as. */
  lemma BrokenLines(repo: string, c: Commit, x: string, h: string)
    requires c.body == "" && c.files == [] && c.subject == x + [NEL] + h
    requires Unbroken(repo) && Unbroken(c.shortHash) && Unbroken(c.date) && Unbroken(x) && Unbroken(h)
    ensures var short := c.(subject := x);
      SplitLines(LinesOf(Preamble(repo, [c]) + CommitLines(repo, [c])))
      == [Title(repo), "", RecentTitle(repo), ""]
         + ([RecentLine(short)] + ([h] + ([""] + ([Heading(repo, short)] + [h]))))
  {
    var short := c.(subject := x);
    BareDocument(repo, c);
    SubjectBreaks(repo, c, x, h);
    TitlesUnbroken(repo, Title(repo), RecentTitle(repo));
    RecentLineUnbroken(short);
    HeadingUnbroken(repo, short);
    TwoBroken([Title(repo), "", RecentTitle(repo), ""], RecentLine(short), Heading(repo, short), h);
  }

  /** Five headers among lines that open no fence. */
  lemma FiveSections(title: string, recent: string, entry: string, heading: string, h: string)
    requires IsHeader(title) && IsHeader(recent) && IsHeader(heading) && IsHeader(h) && Ordinary(entry) && Ordinary("")
    ensures var lines := [title, "", recent, ""] + ([entry] + ([h] + ([""] + ([heading] + [h]))));
      Sections(lines, |lines|) == [[title, ""], [recent, "", entry], [h, ""], [heading], [h]]
  {
    var groups := [[title, ""], [recent, "", entry], [h, ""], [heading], [h]];
    FlatOfFive([title, ""], [recent, "", entry], [h, ""], [heading], [h]);
    assert Flat(groups) == [title, "", recent, ""] + ([entry] + ([h] + ([""] + ([heading] + [h]))));
    assert AllWritten(groups);
    SectionsAsWritten(groups);
  }

  /**
   * A line break in a subject, followed by what looks like a heading, opens two sections that no
   * commit has: one among the recent changes and one behind the commit's own heading.
   */
  lemma BrokenSubjectOpensSections(repo: string, c: Commit, x: string, h: string)
    requires c.body == "" && c.files == [] && c.subject == x + [NEL] + h && IsHeader(h)
    requires Unbroken(repo) && Unbroken(c.shortHash) && Unbroken(c.date) && Unbroken(x) && Unbroken(h)
    ensures var lines, short := SplitLines(LinesOf(Preamble(repo, [c]) + CommitLines(repo, [c]))), c.(subject := x);
      Sections(lines, |lines|) == [[Title(repo), ""], [RecentTitle(repo), "", RecentLine(short)], [h, ""],
                                   [Heading(repo, short)], [h]]
  {
    var short := c.(subject := x);
    BrokenLines(repo, c, x, h);
    OrdinaryLines(repo, short);
    FiveSections(Title(repo), RecentTitle(repo), RecentLine(short), Heading(repo, short), h);
  }

  lemma FlatOfFive(a: seq<string>, b: seq<string>, c: seq<string>, d: seq<string>, e: seq<string>)
    ensures Flat([a, b, c, d, e]) == a + b + c + d + e
  {
    FlatSnoc([a, b, c, d], e);
    FlatSnoc([a, b, c], d);
    FlatSnoc([a, b], c);
    FlatOfTwo(a, b);
    assert [a, b, c, d, e] == [a, b, c, d] + [e] && [a, b, c, d] == [a, b, c] + [d];
    assert [a, b, c] == [a, b] + [c] && [a, b] == [a] + [b];
  }

  /** One commit, and five sections instead of three. */
  method RenderBrokenSubject() returns (commit: Commit, sections: seq<seq<string>>)
    ensures commit == Commit("h", "d", "a" + [NEL] + "# b", "", [])
    ensures |sections| == 5 > 2 + |[commit]| && sections[2] == ["# b", ""]
  {
    commit := Commit("h", "d", "a" + [NEL] + "# b", "", []);
    var text;
    text, sections := RenderThenSplit("r", [commit]);
    BrokenSubjectOpensSections("r", commit, "a", "# b");
  }

  lemma AsRenderedIffGroups(repo: string, commits: seq<Commit>, sections: seq<seq<string>>)
    ensures AsRendered(repo, commits, sections) <==> sections == Groups(repo, commits, commits)
  {
    var groups := Groups(repo, commits, commits);
    GroupCount(repo, commits, commits);
    FirstGroups(repo, commits, commits);
    forall i | 0 <= i < |commits| ensures groups[2 + i] == SectionOf(repo, commits, i) {
      GroupOfCommit(repo, commits, commits, i);
    }
    assert AsRendered(repo, commits, groups);
    if AsRendered(repo, commits, sections) {
      AsRenderedIsUnique(repo, commits, sections, groups);
    }
  }

  lemma AsRenderedIsUnique(repo: string, commits: seq<Commit>, a: seq<seq<string>>, b: seq<seq<string>>)
    requires AsRendered(repo, commits, a) && AsRendered(repo, commits, b)
    ensures a == b
  {
    forall k | 0 <= k < |a| ensures a[k] == b[k] {
      if k >= 2 {
        var i := k - 2;
        assert a[2 + i] == SectionOf(repo, commits, i) == b[2 + i];
      }
    }
  }

  lemma WrittenGroups(repo: string, commits: seq<Commit>)
    ensures var groups := Groups(repo, commits, commits); Sections(Flat(groups), |Flat(groups)|) == groups
  {
    GroupsAreWritten(repo, commits, commits);
    SectionsAsWritten(Groups(repo, commits, commits));
  }

  lemma {:induction false} FirstGroups(repo: string, recent: seq<Commit>, commits: seq<Commit>)
    ensures var groups, closed := Groups(repo, recent, commits), ClosedGroups(repo, recent, commits);
      && |groups| >= 2 && |closed| >= 1 && groups[0] == closed[0] == [Title(repo), ""]
      && (commits != [] ==> |closed| >= 2 && closed[1] == [RecentTitle(repo), ""] + RecentLines(recent) + [""])
      && groups[1] == [RecentTitle(repo), ""] + RecentLines(recent) + (if commits != [] then [""] else [])
  {
    if commits == [] {
      assert [RecentTitle(repo), ""] + RecentLines(recent) + [] == [RecentTitle(repo), ""] + RecentLines(recent);
    } else {
      FirstGroups(repo, recent, commits[..|commits| - 1]);
    }
  }

  lemma {:induction false} RStripKeepsPrefix(a: string, b: string)
    ensures RStrip(a) <= RStrip(a + b)
    decreases |b|
  {
    if b == "" {
      assert a + b == a;
    } else if IsSpace(b[|b| - 1]) {
      assert (a + b)[..|a + b| - 1] == a + b[..|b| - 1];
      RStripKeepsPrefix(a, b[..|b| - 1]);
    }
  }

  /** Joined and stripped for the chunker, a section still starts with its heading. */
  lemma StrippedSectionStartsWithHeading(section: seq<string>)
    requires section != [] && IsHeader(section[0])
    ensures RStrip(section[0]) <= Strip(Join("\n", section))
  {
    var heading, text := section[0], Join("\n", section);
    assert heading <= text && text[0] == '#' && !IsSpace(text[0]);
    assert LStrip(text) == text;
    RStripKeepsPrefix(heading, text[|heading|..]);
    assert heading + text[|heading|..] == text;
  }
}
