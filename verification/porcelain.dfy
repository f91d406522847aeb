/** `git push --porcelain`: the report git prints and the parser that reads it back.
 *
 * The printer follows the OUTPUT section of git-push(1); `core.abbrev=40` makes every
 * object name in it a full one.
 */
module Porcelain {
  import opened Graph
  import opened Refs
  import opened Events
  import opened Text

  /** What happened to one ref of a push. */
  datatype Status =
    | UpToDate
    | Created(newTip: Oid)
    | FastForward(oldTip: Oid, newTip: Oid)
    | Forced(oldTip: Oid, newTip: Oid)
    | Stale                      // the lease failed
    | Refused(why: string)       // a hook or a protected branch said no

  datatype RefOutcome = RefOutcome(ref: Ref, status: Status) {
    predicate Rejected() { status.Stale? || status.Refused? }
    predicate Moved() { status.Created? || status.FastForward? || status.Forced? }
  }

  datatype PushResult = PushResult(changed: bool, forced: seq<ForcedRef>, rejected: seq<string>)

  const NOTHING_PUSHED := PushResult(false, [], [])

  const STALE_LEASE_MARKER := "stale info"

  // ---- what git prints ------------------------------------------------------

  function SummaryText(s: Status): string {
    match s
    case UpToDate => "[up to date]"
    case Created(_) => "[new reference]"
    case FastForward(o, n) => o + ".." + n
    case Forced(o, n) => o + "..." + n + " (forced update)"
    case Stale => "[rejected] (" + STALE_LEASE_MARKER + ")"
    case Refused(why) => "[remote rejected] (" + why + ")"
  }

  function Flag(s: Status): char {
    match s
    case UpToDate => '='
    case Created(_) => '*'
    case FastForward(_, _) => ' '
    case Forced(_, _) => '+'
    case Stale => '!'
    case Refused(_) => '!'
  }

  /** The "<from>:<to>" field: every push here writes a ref to its own name. */
  function Pair(o: RefOutcome): string {
    FullName(o.ref) + ":" + FullName(o.ref)
  }

  function PrintLine(o: RefOutcome): string {
    [Flag(o.status)] + "\t" + Pair(o) + "\t" + SummaryText(o.status)
  }

  function PrintLines(os: seq<RefOutcome>): string {
    if os == [] then "" else PrintLine(os[0]) + "\n" + PrintLines(os[1..])
  }

  /** Git's closing line, when nothing was rejected. */
  function Ending(os: seq<RefOutcome>): string {
    if exists o :: o in os && o.Rejected() then "" else "Done\n"
  }

  /** The whole report: the destination, one line per ref, and the end. */
  function PrintReport(url: string, os: seq<RefOutcome>): string {
    "To " + url + "\n" + PrintLines(os) + Ending(os)
  }

  // ---- what is legal on such a line -----------------------------------------

  /** The characters `git check-ref-format` refuses, as far as they matter to a line. */
  predicate LegalRefName(s: string) {
    s != [] && forall c :: c in s ==> c > ' ' && c != ':'
  }

  predicate FullSha(s: string) {
    |s| == 40 && forall c :: c in s ==> '0' <= c <= '9' || 'a' <= c <= 'f'
  }

  predicate OneLine(s: string) {
    forall c :: c in s ==> c >= ' '
  }

  predicate LegalStatus(s: Status) {
    match s
    case Created(n) => FullSha(n)
    case FastForward(p, n) => FullSha(p) && FullSha(n)
    case Forced(p, n) => FullSha(p) && FullSha(n)
    case Refused(why) => OneLine(why)
    case _ => true
  }

  predicate LegalRef(r: Ref) {
    r.WellFormed() && LegalRefName(FullName(r))
  }

  predicate Legal(o: RefOutcome) {
    LegalRef(o.ref) && LegalStatus(o.status)
  }

  // ---- the parser ------------------------------------------------------------

  /** The destination half of a "<from>:<to>" field. */
  function DestinationOf(field: string): string {
    field[LastIndex(field, ':') + 1..]
  }

  function ParseRejectedLine(line: string): string {
    var fields := Split(line, '\t');
    if |fields| < 2 then TrimSpace(line)
    else
      var ref := DestinationOf(fields[1]);
      if |fields| < 3 then ref else ref + ": " + TrimSpace(fields[2])
  }

  function ParseForcedLine(line: string): Option<ForcedRef> {
    var fields := Split(line, '\t');
    if |fields| < 3 then None
    else
      var ref := DestinationOf(fields[1]);
      var cut := Index(fields[2], "...");
      if cut < 0 then None
      else
        var rest := fields[2][cut + 3..];
        var blank := Index(rest, " ");
        var oldTip := TrimSpace(fields[2][..cut]);
        var newTip := TrimSpace(if blank >= 0 then rest[..blank] else rest);
        if ref == "" || oldTip == "" || newTip == "" then None
        else Some(Unclassified(Parse(ref), oldTip, newTip))
  }

  predicate Ignored(line: string) {
    TrimSpace(line) == "" || "To " <= line || "Done" <= line
  }

  /** What one line adds to the result. */
  function AddLine(res: PushResult, rawLine: string): PushResult {
    var line := TrimCarriageReturns(rawLine);
    if Ignored(line) || line == "" || line[0] == '=' then res
    else if line[0] == '!' then res.(rejected := res.rejected + [ParseRejectedLine(line)])
    else
      var moved := res.(changed := true);
      if line[0] != '+' then moved
      else
        match ParseForcedLine(line)
        case None => moved
        case Some(f) => moved.(forced := moved.forced + [f])
  }

  function ParseLines(lines: seq<string>): PushResult {
    if lines == [] then NOTHING_PUSHED
    else AddLine(ParseLines(lines[..|lines| - 1]), lines[|lines| - 1])
  }

  /** What the program reads in a whole report. */
  function Parsed(output: string): PushResult { ParseLines(Split(output, '\n')) }

  method ParsePush(output: string) returns (res: PushResult)
    ensures res == Parsed(output)
  {
    res := NOTHING_PUSHED;
    var lines := Split(output, '\n');
    for i := 0 to |lines|
      invariant res == ParseLines(lines[..i])
    {
      assert lines[..i + 1][..i] == lines[..i];
      var line := TrimCarriageReturns(lines[i]);
      if Ignored(line) || line == "" || line[0] == '=' { continue; }
      if line[0] == '!' {
        res := res.(rejected := res.rejected + [ParseRejectedLine(line)]);
        continue;
      }
      res := res.(changed := true);
      if line[0] != '+' { continue; }
      var f := ParseForcedLine(line);
      if f.Some? {
        res := res.(forced := res.forced + [f.value]);
      }
    }
    assert lines[..|lines|] == lines;
  }

  /** Lines git never prints whole: a refusal without its ref field is kept as it stands, an
      overwrite without its tips only says that something moved, and so does any other flag. */
  lemma MalformedLines(res: PushResult, line: string)
    requires line != "" && '\t' !in line && TrimCarriageReturns(line) == line && !Ignored(line)
    ensures AddLine(res, line) ==
      if line[0] == '=' then res
      else if line[0] == '!' then PushResult(res.changed, res.forced, res.rejected + [TrimSpace(line)])
      else PushResult(true, res.forced, res.rejected)
  {
    SplitWithoutSeparator(line, '\t');
    hide TrimSpace, TrimCarriageReturns, Split, Ignored;
  }

  predicate AllStaleLease(rejected: seq<string>) {
    rejected != [] && forall r :: r in rejected ==> Contains(r, STALE_LEASE_MARKER)
  }

  // ---- the meaning of a report -----------------------------------------------

  function RejectionText(o: RefOutcome): string {
    FullName(o.ref) + ": " + SummaryText(o.status)
  }

  function AddOutcome(res: PushResult, o: RefOutcome): PushResult {
    PushResult(
      res.changed || o.Moved(),
      res.forced + (if o.status.Forced? then [Unclassified(o.ref, o.status.oldTip, o.status.newTip)] else []),
      res.rejected + (if o.Rejected() then [RejectionText(o)] else []))
  }

  /** What a push did, read off the outcomes themselves. */
  function Summary(os: seq<RefOutcome>): PushResult {
    if os == [] then NOTHING_PUSHED
    else AddOutcome(Summary(os[..|os| - 1]), os[|os| - 1])
  }

  lemma {:induction false} SummaryOfConcat(a: seq<RefOutcome>, b: seq<RefOutcome>)
    ensures Summary(a + b).changed == (Summary(a).changed || Summary(b).changed)
    ensures Summary(a + b).forced == Summary(a).forced + Summary(b).forced
    ensures Summary(a + b).rejected == Summary(a).rejected + Summary(b).rejected
  {
    if b == [] {
      assert a + b == a;
    } else {
      var n := |b| - 1;
      assert (a + b)[..|a| + n] == a + b[..n];
      SummaryOfConcat(a, b[..n]);
    }
  }

  lemma {:induction false} SummaryForced(os: seq<RefOutcome>)
    ensures forall f :: f in Summary(os).forced <==>
      exists o :: o in os && o.status.Forced? && f == Unclassified(o.ref, o.status.oldTip, o.status.newTip)
  {
    if os != [] {
      var n := |os| - 1;
      SummaryForced(os[..n]);
      assert os == os[..n] + [os[n]];
      hide RejectionText;
    }
  }

  lemma {:induction false} SummaryVerdicts(os: seq<RefOutcome>)
    ensures Summary(os).changed <==> exists o :: o in os && o.Moved()
    ensures Summary(os).rejected == [] <==> forall o :: o in os ==> !o.Rejected()
  {
    if os != [] {
      var n := |os| - 1;
      SummaryVerdicts(os[..n]);
      assert os == os[..n] + [os[n]];
      hide RejectionText;
    }
  }

  lemma SummaryMeaning(os: seq<RefOutcome>)
    ensures Summary(os).changed <==> exists o :: o in os && o.Moved()
    ensures forall f :: f in Summary(os).forced <==>
      exists o :: o in os && o.status.Forced? && f == Unclassified(o.ref, o.status.oldTip, o.status.newTip)
    ensures Summary(os).rejected == [] <==> forall o :: o in os ==> !o.Rejected()
  {
    hide Summary;
    SummaryForced(os);
    SummaryVerdicts(os);
  }

  // ---- round trip --------------------------------------------------------------

  lemma ShaCharacters(s: string)
    requires FullSha(s)
    ensures '.' !in s && ' ' !in s && '\t' !in s && '\r' !in s && '\n' !in s
    ensures TrimSpace(s) == s
  {
    assert s[0] in s && s[39] in s;
    TrimSpaceIdentity(s);
  }

  lemma {:induction false} TrimSpaceKeepsText(s: string, i: nat)
    requires i < |s| && !IsSpace(s[i])
    ensures TrimSpace(s) != ""
  {
    var l := TrimLeftKeeps(s, i);
    TrimRightKeeps(TrimLeft(s), l);
  }

  lemma {:induction false} TrimLeftKeeps(s: string, i: nat) returns (j: nat)
    requires i < |s| && !IsSpace(s[i])
    ensures j < |TrimLeft(s)| && !IsSpace(TrimLeft(s)[j])
  {
    if IsSpace(s[0]) { j := TrimLeftKeeps(s[1..], i - 1); } else { j := i; }
  }

  lemma {:induction false} TrimRightKeeps(s: string, i: nat)
    requires i < |s| && !IsSpace(s[i])
    ensures TrimRight(s) != ""
  {
    if IsSpace(s[|s| - 1]) { TrimRightKeeps(s[..|s| - 1], i); }
  }

  /** Nothing in a printed text can be taken for a separator. */
  predicate Printable(s: string) {
    '\t' !in s && '\r' !in s && '\n' !in s
  }

  lemma PrintableConcat(a: string, b: string, c: string)
    requires Printable(a) && Printable(b) && Printable(c)
    ensures Printable(a + b + c)
  {
  }

  lemma TwoShas(p: Oid, between: string, n: Oid, after: string)
    requires FullSha(p) && FullSha(n) && Printable(between) && Printable(after)
    ensures Printable(p + between + n + after)
  {
    ShaCharacters(p);
    ShaCharacters(n);
    hide FullSha, TrimSpace;
    PrintableConcat(p, between, n);
    PrintableConcat(p + between + n, after, "");
    assert p + between + n + after + "" == p + between + n + after;
  }

  lemma SummaryCharacters(s: Status)
    requires LegalStatus(s)
    ensures Printable(SummaryText(s)) && SummaryText(s) != ""
  {
    hide FullSha, OneLine;
    match s
    case FastForward(p, n) =>
      TwoShas(p, "..", n, "");
      assert p + ".." + n + "" == p + ".." + n;
    case Forced(p, n) => TwoShas(p, "...", n, " (forced update)");
    case Refused(why) => RefusalCharacters(why);
    case _ =>
  }

  lemma RefusalCharacters(why: string)
    requires OneLine(why)
    ensures Printable("[remote rejected] (" + why + ")")
  {
    assert Printable(why);
    PrintableConcat("[remote rejected] (", why, ")");
  }

  /** A text that starts with a flag, a tab and a name is never skipped or shortened. */
  lemma FlaggedLineShape(flag: char, name: string, text: string)
    requires flag in "=* +!" && name != "" && !IsSpace(name[0])
    requires text != "" && '\r' !in text
    ensures var line := [flag] + "\t" + name + "\t" + text;
      TrimCarriageReturns(line) == line && !Ignored(line)
  {
    var line := [flag] + "\t" + name + "\t" + text;
    assert line[|line| - 1] == text[|text| - 1];
    assert line[2] == name[0] && line[0] == flag;
    TrimSpaceKeepsText(line, 2);
  }

  lemma ThreeFields(a: string, b: string, c: string)
    requires '\t' !in a && '\t' !in b && '\t' !in c
    ensures Split(a + "\t" + b + "\t" + c, '\t') == [a, b, c]
  {
    assert a + "\t" + b + "\t" + c == a + ['\t'] + (b + ['\t'] + c);
    SplitAtFirst(a, '\t', b + ['\t'] + c);
    SplitAtFirst(b, '\t', c);
    SplitWithoutSeparator(c, '\t');
  }

  lemma {:induction false} LastIndexIs(s: string, c: char, k: nat)
    requires k < |s| && s[k] == c && c !in s[k + 1..]
    ensures LastIndex(s, c) == k
  {
    var n := |s| - 1;
    if k < n {
      assert s[n] in s[k + 1..];
      assert s[..n][k + 1..] <= s[k + 1..];
      LastIndexIs(s[..n], c, k);
    }
  }

  lemma PairDestination(name: string)
    requires ':' !in name
    ensures DestinationOf(name + ":" + name) == name
  {
    var pair := name + ":" + name;
    assert pair[|name| + 1..] == name;
    LastIndexIs(pair, ':', |name|);
  }

  lemma PairCharacters(o: RefOutcome)
    requires Legal(o)
    ensures Pair(o) != "" && !IsSpace(Pair(o)[0]) && Printable(Pair(o))
    ensures DestinationOf(Pair(o)) == FullName(o.ref)
  {
    hide FullName;
    var name := FullName(o.ref);
    assert Pair(o)[0] == name[0] && name[0] in name;
    PrintableConcat(name, ":", name);
    hide LegalRefName, Legal, Printable;
    PairDestination(name);
  }

  lemma PrintedLineShape(o: RefOutcome)
    requires Legal(o)
    ensures PrintLine(o) != "" && '\n' !in PrintLine(o)
    ensures TrimCarriageReturns(PrintLine(o)) == PrintLine(o) && !Ignored(PrintLine(o))
    ensures PrintLine(o)[0] == Flag(o.status)
    ensures Split(PrintLine(o), '\t') == [[Flag(o.status)], Pair(o), SummaryText(o.status)]
  {
    var flag, pair, text := Flag(o.status), Pair(o), SummaryText(o.status);
    PairCharacters(o);
    SummaryCharacters(o.status);
    assert PrintLine(o) == [flag] + "\t" + pair + "\t" + text;
    FlaggedLineShape(flag, pair, text);
    ThreeFields([flag], pair, text);
  }

  lemma ForcedTextParses(p: Oid, n: Oid)
    requires FullSha(p) && FullSha(n)
    ensures var text := SummaryText(Forced(p, n)); var rest := n + " (forced update)";
      && Index(text, "...") == 40 && text[..40] == p && text[43..] == rest
      && Index(rest, " ") == 40 && rest[..40] == n
  {
    ShaCharacters(p);
    ShaCharacters(n);
    var text, rest := SummaryText(Forced(p, n)), n + " (forced update)";
    assert OccursAt(text, "...", 40);
    forall k | 0 <= k < 40 ensures !OccursAt(text, "...", k) {
      assert text[k] == p[k] && p[k] in p;
      assert k + 3 <= |text| ==> text[k..k + 3][0] == text[k];
    }
    assert OccursAt(rest, " ", 40);
    forall k | 0 <= k < 40 ensures !OccursAt(rest, " ", k) {
      assert rest[k] == n[k] && n[k] in n;
      assert rest[k..k + 1][0] == rest[k];
    }
  }

  lemma ForcedLineParses(line: string, o: RefOutcome)
    requires Legal(o) && o.status.Forced?
    requires Split(line, '\t') == [[Flag(o.status)], Pair(o), SummaryText(o.status)]
    ensures ParseForcedLine(line) == Some(Unclassified(o.ref, o.status.oldTip, o.status.newTip))
  {
    PairCharacters(o);
    ForcedTextParses(o.status.oldTip, o.status.newTip);
    ShaCharacters(o.status.oldTip);
    ShaCharacters(o.status.newTip);
    ParseFullName(o.ref);
    hide Split, Pair, FullName, LegalRefName, SummaryText, Index, TrimSpace, DestinationOf, Parse;
  }

  lemma RejectedLineParses(line: string, o: RefOutcome)
    requires Legal(o) && o.Rejected()
    requires Split(line, '\t') == [[Flag(o.status)], Pair(o), SummaryText(o.status)]
    ensures ParseRejectedLine(line) == RejectionText(o)
  {
    PairCharacters(o);
    TrimSpaceIdentity(SummaryText(o.status));
    hide Split, Pair, FullName, LegalRefName, SummaryText, TrimSpace, DestinationOf;
  }

  /** Reading one printed line adds exactly that line's outcome. */
  lemma PrintedLineParses(res: PushResult, o: RefOutcome)
    requires Legal(o)
    ensures AddLine(res, PrintLine(o)) == AddOutcome(res, o)
  {
    hide Ignored, TrimCarriageReturns, PrintLine, Legal, Split, RejectionText, ParseForcedLine, ParseRejectedLine;
    hide Pair, SummaryText;
    PrintedLineShape(o);
    if o.status.Forced? { ForcedLineParses(PrintLine(o), o); }
    if o.Rejected() { RejectedLineParses(PrintLine(o), o); }
  }

  function Lines(os: seq<RefOutcome>): seq<string> {
    seq(|os|, i requires 0 <= i < |os| => PrintLine(os[i]))
  }

  lemma {:induction false} PrintLinesSplit(os: seq<RefOutcome>, tail: string)
    requires forall o :: o in os ==> Legal(o)
    ensures Split(PrintLines(os) + tail, '\n') == Lines(os) + Split(tail, '\n')
  {
    hide Legal, PrintLine, Split;
    if os == [] {
      assert PrintLines(os) + tail == tail;
    } else {
      PrintedLineShape(os[0]);
      assert PrintLines(os) + tail == PrintLine(os[0]) + ['\n'] + (PrintLines(os[1..]) + tail);
      SplitAtFirst(PrintLine(os[0]), '\n', PrintLines(os[1..]) + tail);
      PrintLinesSplit(os[1..], tail);
      assert Lines(os) == [PrintLine(os[0])] + Lines(os[1..]);
    }
  }

  lemma ParseLinesSnoc(a: seq<string>, x: string)
    ensures ParseLines(a + [x]) == AddLine(ParseLines(a), x)
  {
    assert (a + [x])[..|a|] == a;
  }

  lemma {:induction false} LinesParse(first: string, os: seq<RefOutcome>)
    requires forall o :: o in os ==> Legal(o)
    requires ParseLines([first]) == NOTHING_PUSHED
    ensures ParseLines([first] + Lines(os)) == Summary(os)
  {
    hide AddLine, Legal, PrintLine;
    if os == [] {
      assert [first] + Lines(os) == [first];
    } else {
      var n := |os| - 1;
      LinesParse(first, os[..n]);
      ParseLinesSnoc([first] + Lines(os[..n]), PrintLine(os[n]));
      assert [first] + Lines(os) == [first] + Lines(os[..n]) + [PrintLine(os[n])];
      PrintedLineParses(Summary(os[..n]), os[n]);
    }
  }

  lemma IgnoredLine(res: PushResult, line: string)
    requires line == "" || "To " <= line || line == "Done"
    ensures AddLine(res, line) == res
  {
    if "To " <= line { TrimmedKeepsPrefix(line); }
  }

  lemma {:induction false} TrimmedKeepsPrefix(line: string)
    requires "To " <= line
    ensures "To " <= TrimCarriageReturns(line)
  {
    if line[|line| - 1] == '\r' {
      assert |line| > 3;
      TrimmedKeepsPrefix(line[..|line| - 1]);
    }
  }

  lemma ClosingLines(a: seq<string>, done: string)
    requires done == "" || done == "Done\n"
    ensures ParseLines(a + Split(done, '\n')) == ParseLines(a)
  {
    ParseLinesSnoc(a, "");
    IgnoredLine(ParseLines(a), "");
    if done != "" {
      assert done == "Done" + ['\n'] + "";
      SplitAtFirst("Done", '\n', "");
      hide AddLine;
      assert a + ["Done", ""] == a + ["Done"] + [""];
      ParseLinesSnoc(a, "Done");
      ParseLinesSnoc(a + ["Done"], "");
      IgnoredLine(ParseLines(a), "Done");
      assert Split(done, '\n') == ["Done", ""];
    } else {
      assert Split(done, '\n') == [""];
    }
  }

  lemma ReportSplits(url: string, os: seq<RefOutcome>)
    requires OneLine(url) && forall o :: o in os ==> Legal(o)
    ensures Split(PrintReport(url, os), '\n') == ["To " + url] + Lines(os) + Split(Ending(os), '\n')
  {
    hide Legal, Lines, PrintLines, Split;
    var head, done := "To " + url, Ending(os);
    assert PrintReport(url, os) == head + ['\n'] + (PrintLines(os) + done);
    SplitAtFirst(head, '\n', PrintLines(os) + done);
    PrintLinesSplit(os, done);
    assert [head] + (Lines(os) + Split(done, '\n')) == [head] + Lines(os) + Split(done, '\n');
  }

  lemma HeadIsIgnored(url: string)
    ensures ParseLines(["To " + url]) == NOTHING_PUSHED
  {
    var head := "To " + url;
    IgnoredLine(NOTHING_PUSHED, head);
    ParseLinesSnoc([], head);
    assert [] + [head] == [head];
  }

  /** The parser recovers the outcomes of any push: whether a ref moved, every forced
      update with both tips and every rejection, each in the order git reported it. */
  lemma ReportRoundTrip(url: string, os: seq<RefOutcome>)
    requires OneLine(url)
    requires forall o :: o in os ==> Legal(o)
    ensures Parsed(PrintReport(url, os)) == Summary(os)
  {
    hide Legal, Lines, PrintLines, PrintReport, ParseLines, Summary, Split, OneLine;
    ReportSplits(url, os);
    HeadIsIgnored(url);
    LinesParse("To " + url, os);
    ClosingLines(["To " + url] + Lines(os), Ending(os));
  }

  // ---- is a failed push benign? ------------------------------------------------

  /** In `name + before + why + after` the marker can only sit inside `why`: `name` has
      none of its blank, `before` starts with a colon and has none of its first letter,
      `after` is one character it does not use. */
  lemma MarkerSitsInside(name: string, before: string, why: string, after: string, k: int)
    requires ' ' !in name && before != "" && before[0] == ':' && 's' !in before && after == ")"
    requires OccursAt(name + before + why + after, STALE_LEASE_MARKER, k)
    ensures OccursAt(why, STALE_LEASE_MARKER, k - |name| - |before|)
  {
    var m, all, start := STALE_LEASE_MARKER, name + before + why + after, |name| + |before|;
    assert forall j :: k <= j < k + 10 ==> all[j] == all[k..k + 10][j - k];
    assert all[k] == 's' && all[k + 5] == ' ' && all[k + 9] == 'o';
    assert forall j :: k <= j < k + 10 ==> all[j] == m[j - k] != ':';
    assert forall i :: 0 <= i < |name| ==> all[i] == name[i] && name[i] in name;
    assert forall i :: |name| <= i < start ==> all[i] == before[i - |name|] && before[i - |name|] in before;
    assert all[|name|] == ':' && all[|all| - 1] == ')';
    assert k >= |name|;
    assert k >= start && k + 10 < |all|;
    assert why[k - start..k - start + 10] == all[k..k + 10];
  }

  /** An occurrence inside a part is an occurrence in the whole, further along. */
  lemma OccursShifted(before: string, inner: string, after: string, sub: string, k: int)
    requires OccursAt(inner, sub, k)
    ensures OccursAt(before + inner + after, sub, |before| + k)
  {
    var at := |before| + k;
    assert (before + inner + after)[at..at + |sub|] == inner[k..k + |sub|];
  }

  lemma LeaseRejectionMarker(name: string)
    ensures Contains(name + ": " + "[rejected] (" + STALE_LEASE_MARKER + ")", STALE_LEASE_MARKER)
  {
    hide Index;
    OccursShifted(name + ": " + "[rejected] (", STALE_LEASE_MARKER, ")", STALE_LEASE_MARKER, 0);
    ContainsMeansOccurs(name + ": " + "[rejected] (" + STALE_LEASE_MARKER + ")", STALE_LEASE_MARKER);
  }

  lemma RefusalMarker(name: string, why: string)
    requires ' ' !in name
    ensures Contains(name + (": " + "[remote rejected] (") + why + ")", STALE_LEASE_MARKER) <==>
            Contains(why, STALE_LEASE_MARKER)
  {
    hide Index;
    var before := ": " + "[remote rejected] (";
    var all := name + before + why + ")";
    ContainsMeansOccurs(all, STALE_LEASE_MARKER);
    ContainsMeansOccurs(why, STALE_LEASE_MARKER);
    hide Contains;
    if k :| OccursAt(all, STALE_LEASE_MARKER, k) {
      MarkerSitsInside(name, before, why, ")", k);
    }
    if k :| OccursAt(why, STALE_LEASE_MARKER, k) {
      OccursShifted(name + before, why, ")", STALE_LEASE_MARKER, k);
    }
  }

  lemma RejectionMarker(o: RefOutcome)
    requires Legal(o) && o.Rejected()
    ensures Contains(RejectionText(o), STALE_LEASE_MARKER) <==> ReadsAsStale(o)
  {
    hide FullName, Contains;
    var name := FullName(o.ref);
    if o.status.Stale? {
      LeaseRejectionMarker(name);
      assert RejectionText(o) == name + ": " + "[rejected] (" + STALE_LEASE_MARKER + ")";
    } else {
      RefusalMarker(name, o.status.why);
      assert RejectionText(o) == name + (": " + "[remote rejected] (") + o.status.why + ")";
    }
  }

  lemma {:induction false} RejectedTexts(os: seq<RefOutcome>)
    ensures forall r :: r in Summary(os).rejected <==> exists o :: o in os && o.Rejected() && r == RejectionText(o)
  {
    hide RejectionText;
    if os != [] {
      var n := |os| - 1;
      RejectedTexts(os[..n]);
      assert os == os[..n] + [os[n]];
    }
  }

  /** Whether a rejection is the lease firing, or reads like it: a hook whose message
      happens to contain the marker cannot be told apart. */
  predicate ReadsAsStale(o: RefOutcome) {
    o.status.Stale? || (o.status.Refused? && Contains(o.status.why, STALE_LEASE_MARKER))
  }

  /** A push is written off as benign exactly when something was rejected and every
      rejection is, or quotes, a failed lease. */
  lemma BenignExactly(os: seq<RefOutcome>)
    requires forall o :: o in os ==> Legal(o)
    ensures AllStaleLease(Summary(os).rejected) <==>
      (exists o :: o in os && o.Rejected()) && (forall o :: o in os && o.Rejected() ==> ReadsAsStale(o))
  {
    RejectedTexts(os);
    SummaryMeaning(os);
    forall o | o in os && o.Rejected()
      ensures Contains(RejectionText(o), STALE_LEASE_MARKER) <==> ReadsAsStale(o)
      ensures RejectionText(o) in Summary(os).rejected
    {
      RejectionMarker(o);
    }
    hide RejectionText, Contains, Summary, Legal, ReadsAsStale;
  }

  /** The case the wording cannot separate: one hook refusal, read as the guard working. */
  lemma HookQuotingTheMarkerReadsAsBenign(o: RefOutcome)
    requires Legal(o) && o.status == Refused(STALE_LEASE_MARKER)
    ensures AllStaleLease(Summary([o]).rejected)
  {
    assert OccursAt(STALE_LEASE_MARKER, STALE_LEASE_MARKER, 0);
    ContainsMeansOccurs(STALE_LEASE_MARKER, STALE_LEASE_MARKER);
    hide Legal, Contains, Summary;
    assert o in [o] && o.Rejected();
    BenignExactly([o]);
  }
}
