/**
  Rendering prompt sections under budgets, and the loop that shrinks them until the
  prompt fits (moss/context/manager.py).
*/
module PromptBudget {
  import opened TokenBudget

  /** The sections that may be reduced; the current request is not one of them. */
  datatype Section = Prefix | Transcript | Memory | RelevantMemory | Constraints

  /** One value per reducible section. */
  datatype PerSection<T> = PerSection(prefix: T, transcript: T, memory: T, relevantMemory: T, constraints: T) {
    function At(s: Section): T {
      match s
      case Prefix => prefix
      case Transcript => transcript
      case Memory => memory
      case RelevantMemory => relevantMemory
      case Constraints => constraints
    }

    function With(s: Section, value: T): PerSection<T> {
      match s
      case Prefix => this.(prefix := value)
      case Transcript => this.(transcript := value)
      case Memory => this.(memory := value)
      case RelevantMemory => this.(relevantMemory := value)
      case Constraints => this.(constraints := value)
    }
  }

  type Budgets = PerSection<int>
  type Sections = PerSection<string>

  datatype Item = ToolItem(tag: string, content: string, keep: Keep) | TurnItem(speaker: string, content: string)

  /** A history entry after the lossy compression of older entries, which is not modelled. */
  datatype Compressed = Compressed(recent: bool, lines: seq<string>)

  datatype Inputs = Inputs(
    prefix: string,
    memory: string,
    constraints: string,
    request: string,
    anchorLine: string,
    notes: seq<string>,
    history: seq<Item>,
    rawHistory: string,
    compressed: seq<Compressed>)

  const EMPTY_TRANSCRIPT := "Transcript:\n- empty"

  function Join(lines: seq<string>, separator: string): string {
    if |lines| == 0 then ""
    else if |lines| == 1 then lines[0]
    else Join(lines[..|lines| - 1], separator) + separator + lines[|lines| - 1]
  }

  // ---- Relevant memory ----

  function Lead(inputs: Inputs): seq<string> {
    ["Relevant memory:"] + if inputs.anchorLine == "" then [] else [inputs.anchorLine]
  }

  function Bullets(inputs: Inputs): seq<string> {
    seq(|inputs.notes|, i requires 0 <= i < |inputs.notes| => "- " + inputs.notes[i])
  }

  function RawRelevant(inputs: Inputs): string {
    Join(Lead(inputs) + if |inputs.notes| == 0 then ["- none"] else Bullets(inputs), "\n")
  }

  /** One bulleted line per text. */
  function BulletList(texts: seq<string>): string {
    if |texts| == 0 then "" else BulletList(texts[..|texts| - 1]) + "\n- " + texts[|texts| - 1]
  }

  lemma {:induction false} JoinBullets(lead: seq<string>, inputs: Inputs, n: nat)
    requires |lead| > 0 && n <= |inputs.notes|
    ensures Join(lead + Bullets(inputs)[..n], "\n") == Join(lead, "\n") + BulletList(inputs.notes[..n])
  {
    if n == 0 {
      assert lead + Bullets(inputs)[..0] == lead;
      assert Join(lead, "\n") + "" == Join(lead, "\n");
    } else {
      hide Join;
      JoinBullets(lead, inputs, n - 1);
      var bullet := "- " + inputs.notes[n - 1];
      assert lead + Bullets(inputs)[..n] == lead + Bullets(inputs)[..n - 1] + [bullet];
      JoinMore(lead + Bullets(inputs)[..n - 1], bullet);
      assert inputs.notes[..n][..n - 1] == inputs.notes[..n - 1];
      assert "\n" + bullet == "\n- " + inputs.notes[n - 1];
    }
  }

  /** The whole section: its title, the anchor line if there is one, then a bullet for every note. */
  lemma {:induction false} RelevantMemoryReads(inputs: Inputs)
    ensures RawRelevant(inputs) ==
            "Relevant memory:" + (if inputs.anchorLine == "" then "" else "\n" + inputs.anchorLine)
            + (if inputs.notes == [] then "\n- none" else BulletList(inputs.notes))
  {
    hide Join;
    var title := ["Relevant memory:"];
    var head := "Relevant memory:" + if inputs.anchorLine == "" then "" else "\n" + inputs.anchorLine;
    assert Join(title, "\n") == "Relevant memory:" by { OneLine("Relevant memory:"); }
    JoinMore(title, inputs.anchorLine);
    assert Lead(inputs) == if inputs.anchorLine == "" then title else title + [inputs.anchorLine];
    assert Join(Lead(inputs), "\n") == head;
    if inputs.notes == [] {
      JoinMore(Lead(inputs), "- none");
      assert "\n" + "- none" == "\n- none";
    } else {
      JoinBullets(Lead(inputs), inputs, |inputs.notes|);
      assert Bullets(inputs)[..|inputs.notes|] == Bullets(inputs) && inputs.notes[..|inputs.notes|] == inputs.notes;
    }
  }

  lemma OneLine(line: string)
    ensures Join([line], "\n") == line
  {
  }

  /** Each bullet stays if it still fits after those that stayed before it. */
  function Greedy(lead: seq<string>, bullets: seq<string>, budget: int, measure: Measure): seq<string> {
    if |bullets| == 0 then []
    else
      var kept, bullet := Greedy(lead, bullets[..|bullets| - 1], budget, measure), bullets[|bullets| - 1];
      if measure(Join(lead + kept + [bullet], "\n")) <= budget then kept + [bullet] else kept
  }

  /** When no bullet fits: the first note clipped, or the whole text clipped. */
  function FirstNoteClipped(inputs: Inputs, budget: int, measure: Measure): string
    requires |inputs.notes| > 0
  {
    var lead := Lead(inputs);
    var room := budget - measure(Join(lead, "\n")) - 3;
    var rendered := Join(lead + ["- " + Clipped(inputs.notes[0], if room < 1 then 1 else room, measure)], "\n");
    if measure(rendered) > budget then Clipped(RawRelevant(inputs), budget, measure) else rendered
  }

  function RelevantText(inputs: Inputs, budget: int, measure: Measure): string {
    if budget <= 0 then ""
    else if |inputs.notes| == 0 then Clipped(RawRelevant(inputs), budget, measure)
    else
      var kept := Greedy(Lead(inputs), Bullets(inputs), budget, measure);
      if kept != [] then Join(Lead(inputs) + kept, "\n") else FirstNoteClipped(inputs, budget, measure)
  }

  method RenderRelevantMemory(inputs: Inputs, budget: int, measure: Measure) returns (rendered: string)
    requires measure("") == 0
    ensures rendered == RelevantText(inputs, budget, measure)
    ensures budget <= 0 ==> rendered == ""
    ensures budget > 0 ==> measure(rendered) <= budget
  {
    hide Join, Clipped, Greedy;
    RelevantFits(inputs, budget, measure);
    var lead, bullets := Lead(inputs), Bullets(inputs);
    if budget <= 0 {
      return "";
    }
    if |inputs.notes| == 0 {
      rendered := ClipToBudget(RawRelevant(inputs), budget, measure);
      return;
    }
    var kept := KeepBullets(lead, bullets, budget, measure);
    if kept != [] {
      return Join(lead + kept, "\n");
    }
    var room := budget - measure(Join(lead, "\n")) - 3;
    var first := ClipToBudget(inputs.notes[0], if room < 1 then 1 else room, measure);
    rendered := Join(lead + ["- " + first], "\n");
    if measure(rendered) > budget {
      rendered := ClipToBudget(RawRelevant(inputs), budget, measure);
    }
  }

  method KeepBullets(lead: seq<string>, bullets: seq<string>, budget: int, measure: Measure) returns (kept: seq<string>)
    ensures kept == Greedy(lead, bullets, budget, measure)
  {
    kept := [];
    for i := 0 to |bullets|
      invariant kept == Greedy(lead, bullets[..i], budget, measure)
    {
      assert bullets[..i + 1][..i] == bullets[..i];
      if measure(Join(lead + kept + [bullets[i]], "\n")) <= budget {
        kept := kept + [bullets[i]];
      }
    }
    assert bullets[..|bullets|] == bullets;
  }

  lemma {:induction false} GreedyFits(lead: seq<string>, bullets: seq<string>, budget: int, measure: Measure)
    ensures var kept := Greedy(lead, bullets, budget, measure);
            kept == [] || measure(Join(lead + kept, "\n")) <= budget
    decreases |bullets|
  {
    if |bullets| > 0 {
      hide Join;
      var kept, bullet := Greedy(lead, bullets[..|bullets| - 1], budget, measure), bullets[|bullets| - 1];
      GreedyFits(lead, bullets[..|bullets| - 1], budget, measure);
      assert lead + (kept + [bullet]) == lead + kept + [bullet];
    }
  }

  lemma {:induction false} RelevantFits(inputs: Inputs, budget: int, measure: Measure)
    requires measure("") == 0
    ensures budget > 0 ==> measure(RelevantText(inputs, budget, measure)) <= budget
  {
    hide Join, Clipped, Greedy;
    ClipIsBest(RawRelevant(inputs), budget, measure, Head, "...");
    GreedyFits(Lead(inputs), Bullets(inputs), budget, measure);
  }

  /** Longer texts never measure less. */
  ghost predicate GrowsWithSuffix(measure: Measure) {
    forall a, b :: measure(a) <= measure(a + b)
  }

  lemma {:induction false} JoinMore(lead: seq<string>, line: string)
    requires |lead| > 0
    ensures Join(lead + [line], "\n") == Join(lead, "\n") + ("\n" + line)
  {
    assert (lead + [line])[..|lead|] == lead;
  }

  lemma {:induction false} GreedyKeepsAll(lead: seq<string>, bullets: seq<string>, budget: int, measure: Measure)
    requires |lead| > 0 && GrowsWithSuffix(measure) && measure(Join(lead + bullets, "\n")) <= budget
    ensures Greedy(lead, bullets, budget, measure) == bullets
    decreases |bullets|
  {
    if |bullets| > 0 {
      hide Join;
      var front, last := bullets[..|bullets| - 1], bullets[|bullets| - 1];
      assert lead + front + [last] == lead + bullets && front + [last] == bullets;
      JoinMore(lead + front, last);
      GreedyKeepsAll(lead, front, budget, measure);
    }
  }

  /** Relevant memory is shown whole whenever it fits. */
  lemma {:induction false} RelevantWholeWhenItFits(inputs: Inputs, budget: int, measure: Measure)
    requires GrowsWithSuffix(measure) && budget > 0 && measure(RawRelevant(inputs)) <= budget
    ensures RelevantText(inputs, budget, measure) == RawRelevant(inputs)
  {
    hide Join, Greedy;
    if |inputs.notes| > 0 {
      GreedyKeepsAll(Lead(inputs), Bullets(inputs), budget, measure);
    }
  }

  // ---- History ----

  function ItemLines(item: Item, limit: int, measure: Measure): seq<string> {
    match item
    case ToolItem(tag, content, keep) => [tag, Clipped(content, if limit < 20 then 20 else limit, measure, keep), "</tool_result>"]
    case TurnItem(speaker, content) => [speaker + Clipped(content, limit, measure)]
  }

  method RenderItem(item: Item, limit: int, measure: Measure) returns (lines: seq<string>)
    requires measure("") == 0
    ensures lines == ItemLines(item, limit, measure)
    ensures limit > 0 && measure(item.content) <= limit ==>
              lines == if item.ToolItem? then [item.tag, item.content, "</tool_result>"] else [item.speaker + item.content]
  {
    match item
    case ToolItem(tag, content, keep) =>
      var clipped := ClipToBudget(content, if limit < 20 then 20 else limit, measure, keep);
      lines := [tag, clipped, "</tool_result>"];
    case TurnItem(speaker, content) =>
      var clipped := ClipToBudget(content, limit, measure);
      lines := [speaker + clipped];
  }

  function SumOfMeasures(lines: seq<string>, measure: Measure): nat {
    if |lines| == 0 then 0 else SumOfMeasures(lines[..|lines| - 1], measure) + measure(lines[|lines| - 1]) + 1
  }

  function ClippedLines(lines: seq<string>, limit: int, measure: Measure): seq<string> {
    seq(|lines|, i requires 0 <= i < |lines| => Clipped(lines[i], limit, measure))
  }

  method ClipLines(lines: seq<string>, limit: int, measure: Measure) returns (clipped: seq<string>)
    requires measure("") == 0 && limit > 0
    ensures clipped == ClippedLines(lines, limit, measure)
    ensures forall i :: 0 <= i < |clipped| ==> measure(clipped[i]) <= limit
  {
    hide Clipped;
    clipped := [];
    for i := 0 to |lines|
      invariant |clipped| == i && forall j :: 0 <= j < i ==> clipped[j] == Clipped(lines[j], limit, measure)
      invariant forall j :: 0 <= j < i ==> measure(clipped[j]) <= limit
    {
      var line := ClipToBudget(lines[i], limit, measure);
      clipped := clipped + [line];
    }
  }

  function AllLines(items: seq<Item>, limit: int, measure: Measure): seq<string> {
    if |items| == 0 then [] else AllLines(items[..|items| - 1], limit, measure) + ItemLines(items[|items| - 1], limit, measure)
  }

  function FullText(inputs: Inputs, budget: int, measure: Measure): string {
    Join(["Transcript:"] + AllLines(inputs.history, budget, measure), "\n")
  }

  method FullHistory(inputs: Inputs, budget: int, measure: Measure) returns (rendered: string)
    requires measure("") == 0
    ensures rendered == FullText(inputs, budget, measure)
  {
    hide ItemLines, Join;
    var items := inputs.history;
    var lines: seq<string> := [];
    for i := 0 to |items|
      invariant lines == AllLines(items[..i], budget, measure)
    {
      assert items[..i + 1][..i] == items[..i];
      var item := RenderItem(items[i], budget, measure);
      lines := lines + item;
    }
    assert items[..|items|] == items;
    rendered := Join(["Transcript:"] + lines, "\n");
  }

  function LineLimit(entry: Compressed, kept: seq<string>, budget: int, measure: Measure): int {
    var available := budget - measure("Transcript:") - SumOfMeasures(kept, measure) - 1;
    if entry.recent && available > 20 then available else 20
  }

  predicate TranscriptFits(lines: seq<string>, budget: int, measure: Measure) {
    measure(Join(["Transcript:"] + lines, "\n")) <= budget
  }

  /** One entry in front of the newer lines already kept: whole, clipped, or not at all. */
  function KeepEntry(entry: Compressed, kept: seq<string>, budget: int, measure: Measure): seq<string> {
    var smaller := ClippedLines(entry.lines, LineLimit(entry, kept, budget, measure), measure) + kept;
    if TranscriptFits(entry.lines + kept, budget, measure) then entry.lines + kept
    else if TranscriptFits(smaller, budget, measure) then smaller
    else kept
  }

  function KeptLines(entries: seq<Compressed>, budget: int, measure: Measure): seq<string> {
    if |entries| == 0 then [] else KeepEntry(entries[0], KeptLines(entries[1..], budget, measure), budget, measure)
  }

  /** Newest entries first, each kept whole, clipped, or dropped. */
  method CompressedHistory(entries: seq<Compressed>, budget: int, measure: Measure) returns (kept: seq<string>)
    requires measure("") == 0
    ensures kept == KeptLines(entries, budget, measure)
    ensures kept == [] || measure(Join(["Transcript:"] + kept, "\n")) <= budget
  {
    hide TranscriptFits, ClippedLines, SumOfMeasures;
    kept := [];
    var k := |entries|;
    while k > 0
      invariant 0 <= k <= |entries| && kept == KeptLines(entries[k..], budget, measure)
      invariant kept == [] || TranscriptFits(kept, budget, measure)
    {
      assert entries[k - 1..][1..] == entries[k..];
      k := k - 1;
      var lines := entries[k].lines;
      if TranscriptFits(lines + kept, budget, measure) {
        kept := lines + kept;
        continue;
      }
      var limit := 20;
      if entries[k].recent {
        var available := budget - measure("Transcript:") - SumOfMeasures(kept, measure) - 1;
        limit := if available < 20 then 20 else available;
      }
      var smaller := ClipLines(lines, limit, measure);
      if TranscriptFits(smaller + kept, budget, measure) {
        kept := smaller + kept;
      }
    }
    assert entries[0..] == entries;
    FitsMeans(kept, budget, measure);
  }

  lemma FitsMeans(lines: seq<string>, budget: int, measure: Measure)
    ensures TranscriptFits(lines, budget, measure) <==> measure(Join(["Transcript:"] + lines, "\n")) <= budget
  {
  }

  /** What the loop counts as used is the room the kept lines take: counted in characters, exactly their text. */
  lemma {:induction false} UsedIsTheirText(title: string, lines: seq<string>)
    ensures SumOfMeasures(lines, (s: string) => |s|) == |Join([title] + lines, "\n")| - |title|
    decreases |lines|
  {
    if |lines| == 0 {
      assert [title] + lines == [title];
    } else {
      hide Join;
      var front, last := lines[..|lines| - 1], lines[|lines| - 1];
      UsedIsTheirText(title, front);
      JoinMore([title] + front, last);
      assert [title] + lines == [title] + front + [last];
    }
  }

  function LinesOf(entries: seq<Compressed>): seq<string> {
    if |entries| == 0 then [] else entries[0].lines + LinesOf(entries[1..])
  }

  /** Every line behind a line break. */
  function Broken(lines: seq<string>): string {
    if |lines| == 0 then "" else Broken(lines[..|lines| - 1]) + ("\n" + lines[|lines| - 1])
  }

  lemma {:induction false} JoinUnder(title: string, lines: seq<string>)
    ensures Join([title] + lines, "\n") == title + Broken(lines)
    decreases |lines|
  {
    if |lines| == 0 {
      OneLine(title);
      assert [title] + lines == [title] && title + "" == title;
    } else {
      var front, last := lines[..|lines| - 1], lines[|lines| - 1];
      assert Broken(lines) == Broken(front) + ("\n" + last);
      hide Join, Broken;
      JoinUnder(title, front);
      JoinMore([title] + front, last);
      assert [title] + lines == [title] + front + [last];
      Associative(title, Broken(front), "\n" + last);
    }
  }

  lemma Associative(a: string, b: string, c: string)
    ensures a + b + c == a + (b + c)
  {
  }

  lemma {:induction false} BrokenConcat(a: seq<string>, b: seq<string>)
    ensures Broken(a + b) == Broken(a) + Broken(b)
    decreases |b|
  {
    if |b| == 0 {
      assert a + b == a && Broken(a) + "" == Broken(a);
    } else {
      var front, last := b[..|b| - 1], b[|b| - 1];
      BrokenConcat(a, front);
      assert (a + b)[..|a + b| - 1] == a + front && (a + b)[|a + b| - 1] == last;
      assert Broken(a + b) == Broken(a + front) + ("\n" + last);
      assert Broken(b) == Broken(front) + ("\n" + last);
      hide Broken;
      Associative(Broken(a), Broken(front), "\n" + last);
    }
  }

  /** A measure that only grows when text is inserted. */
  ghost predicate GrowsWithText(measure: Measure) {
    forall a, b, c :: measure(a + c) <= measure(a + b + c)
  }

  lemma FewerLinesAreSmaller(title: string, lines: seq<string>, rest: seq<string>, measure: Measure)
    requires GrowsWithText(measure)
    ensures measure(Join([title] + rest, "\n")) <= measure(Join([title] + (lines + rest), "\n"))
  {
    hide Join, Broken;
    JoinUnder(title, lines + rest);
    JoinUnder(title, rest);
    BrokenConcat(lines, rest);
    assert title + (Broken(lines) + Broken(rest)) == title + Broken(lines) + Broken(rest);
  }

  lemma KeptWhole(entry: Compressed, kept: seq<string>, budget: int, measure: Measure)
    requires TranscriptFits(entry.lines + kept, budget, measure)
    ensures KeepEntry(entry, kept, budget, measure) == entry.lines + kept
  {
    hide TranscriptFits, ClippedLines, LineLimit;
  }

  /** Compressed history is shown whole whenever it fits. */
  lemma {:induction false} CompressedWholeWhenItFits(entries: seq<Compressed>, budget: int, measure: Measure)
    requires GrowsWithText(measure) && measure(Join(["Transcript:"] + LinesOf(entries), "\n")) <= budget
    ensures KeptLines(entries, budget, measure) == LinesOf(entries)
    decreases |entries|
  {
    if |entries| > 0 {
      hide Join, KeepEntry, GrowsWithText;
      var rest := LinesOf(entries[1..]);
      FewerLinesAreSmaller("Transcript:", entries[0].lines, rest, measure);
      CompressedWholeWhenItFits(entries[1..], budget, measure);
      KeptWhole(entries[0], rest, budget, measure);
    }
  }

  function TranscriptText(inputs: Inputs, budget: int, measure: Measure): string {
    var full := FullText(inputs, budget, measure);
    var compressed := Join(["Transcript:"] + KeptLines(inputs.compressed, budget, measure), "\n");
    if inputs.history == [] then EMPTY_TRANSCRIPT
    else if measure(full) <= budget then full
    else if measure(compressed) > budget && budget > 0 then Clipped(inputs.rawHistory, budget, measure, Tail)
    else compressed
  }

  method RenderTranscript(inputs: Inputs, budget: int, measure: Measure) returns (rendered: string)
    requires measure("") == 0
    ensures rendered == TranscriptText(inputs, budget, measure)
    ensures inputs.history == [] ==> rendered == EMPTY_TRANSCRIPT
    ensures inputs.history != [] && budget > 0 ==> measure(rendered) <= budget
  {
    hide FullText, KeptLines, Join, Clipped;
    if inputs.history == [] {
      return EMPTY_TRANSCRIPT;
    }
    rendered := FullHistory(inputs, budget, measure);
    if measure(rendered) <= budget {
      return;
    }
    var kept := CompressedHistory(inputs.compressed, budget, measure);
    rendered := Join(["Transcript:"] + kept, "\n");
    if measure(rendered) > budget && budget > 0 {
      rendered := ClipToBudget(inputs.rawHistory, budget, measure, Tail);
    }
  }

  // ---- All sections ----

  /** The one way a section with a positive budget can exceed it: the fixed text for an empty history. */
  predicate WithinBudget(inputs: Inputs, s: Section, rendered: string, budget: int, measure: Measure) {
    || measure(rendered) <= budget
    || budget <= 0
    || (s == Transcript && inputs.history == [] && measure(EMPTY_TRANSCRIPT) > budget)
  }

  predicate AllWithin(inputs: Inputs, rendered: Sections, budgets: Budgets, measure: Measure) {
    forall s: Section :: WithinBudget(inputs, s, rendered.At(s), budgets.At(s), measure)
  }

  function Rendered(inputs: Inputs, budgets: Budgets, measure: Measure): Sections {
    PerSection(
      Clipped(inputs.prefix, budgets.At(Prefix), measure),
      TranscriptText(inputs, budgets.At(Transcript), measure),
      Clipped(inputs.memory, budgets.At(Memory), measure),
      RelevantText(inputs, budgets.At(RelevantMemory), measure),
      Clipped(inputs.constraints, budgets.At(Constraints), measure))
  }

  method RenderSections(inputs: Inputs, budgets: Budgets, measure: Measure) returns (rendered: Sections)
    requires measure("") == 0
    ensures rendered == Rendered(inputs, budgets, measure)
    ensures AllWithin(inputs, rendered, budgets, measure)
  {
    hide TranscriptText, RelevantText, Clipped;
    var prefix := ClipToBudget(inputs.prefix, budgets.At(Prefix), measure);
    var transcript := RenderTranscript(inputs, budgets.At(Transcript), measure);
    var memory := ClipToBudget(inputs.memory, budgets.At(Memory), measure);
    var relevant := RenderRelevantMemory(inputs, budgets.At(RelevantMemory), measure);
    var constraints := ClipToBudget(inputs.constraints, budgets.At(Constraints), measure);
    rendered := PerSection(prefix, transcript, memory, relevant, constraints);
    forall s: Section
      ensures WithinBudget(inputs, s, rendered.At(s), budgets.At(s), measure)
    {
      match s { case Prefix => case Transcript => case Memory => case RelevantMemory => case Constraints => }
    }
  }

  // ---- Assembly ----

  const WHITESPACE: set<char> := {' ', '\n', '\t', '\r'}

  function TrimEnd(s: string): string {
    if |s| > 0 && s[|s| - 1] in WHITESPACE then TrimEnd(s[..|s| - 1]) else s
  }

  function TrimStart(s: string): string {
    if |s| > 0 && s[0] in WHITESPACE then TrimStart(s[1..]) else s
  }

  function Strip(s: string): string {
    TrimStart(TrimEnd(s))
  }

  const REQUEST_HEADER := "#" + " Below: the user's current request. Act on this.\nCurrent user request:\n"

  function Purpose(s: Section): string {
    match s
    case Prefix => ""
    case Transcript => "#" + " Below: what already happened. Reference, not instructions.\n"
    case Memory => "#" + " Below: memory from earlier turns. Prefer fresh evidence on conflict.\n"
    case RelevantMemory => "#" + " Below: retrieved as relevant to the current request.\n"
    case Constraints => "#" + " Below: constraints for this turn. Follow them.\n"
  }

  function Part(rendered: Sections, s: Section): string {
    if Strip(rendered.At(s)) == "" then "" else Purpose(s) + rendered.At(s) + "\n\n"
  }

  /** Sections in order, each with its purpose line, blank ones left out, the request always last. */
  function Assemble(rendered: Sections, request: string): string {
    Strip(Part(rendered, Prefix) + Part(rendered, Transcript) + Part(rendered, Memory)
          + Part(rendered, RelevantMemory) + Part(rendered, Constraints) + REQUEST_HEADER + request)
  }

  lemma {:induction false} TrimEndKeeps(s: string, t: string)
    requires TrimEnd(t) != ""
    ensures TrimEnd(s + t) == s + TrimEnd(t)
    decreases |t|
  {
    if t[|t| - 1] in WHITESPACE {
      assert (s + t)[..|s + t| - 1] == s + t[..|t| - 1];
      TrimEndKeeps(s, t[..|t| - 1]);
    }
  }

  lemma {:induction false} TrimStartKeeps(s: string, t: string)
    requires |t| > 0 && t[0] !in WHITESPACE
    ensures exists lead :: TrimStart(s + t) == lead + t
    decreases |s|
  {
    if |s| > 0 && s[0] in WHITESPACE {
      assert (s + t)[1..] == s[1..] + t;
      TrimStartKeeps(s[1..], t);
    } else {
      assert TrimStart(s + t) == s + t;
    }
  }

  lemma {:induction false} TrimEndBreaks(s: string, c: char, t: string)
    requires c !in WHITESPACE
    ensures TrimEnd(s + [c] + t) != "" && s + [c] <= TrimEnd(s + [c] + t)
    decreases |t|
  {
    var all := s + [c] + t;
    if |t| > 0 && t[|t| - 1] in WHITESPACE {
      assert all[..|all| - 1] == s + [c] + t[..|t| - 1];
      TrimEndBreaks(s, c, t[..|t| - 1]);
    }
  }

  /** The request goes out in full, whatever the budgets: only blanks at its very end are trimmed. */
  lemma {:induction false} RequestNeverClipped(rendered: Sections, request: string)
    ensures exists lead :: Assemble(rendered, request) == lead + TrimEnd(REQUEST_HEADER + request)
  {
    hide TrimEnd, TrimStart, Part;
    var front := Part(rendered, Prefix) + Part(rendered, Transcript) + Part(rendered, Memory)
      + Part(rendered, RelevantMemory) + Part(rendered, Constraints);
    var tail := REQUEST_HEADER + request;
    assert REQUEST_HEADER[0] == '#';
    assert tail == [] + ['#'] + tail[1..];
    TrimEndBreaks([], '#', tail[1..]);
    TrimEndKeeps(front, tail);
    assert front + REQUEST_HEADER + request == front + tail;
    TrimStartKeeps(front, TrimEnd(tail));
  }

  predicate Blank(text: string) {
    forall c <- text :: c in WHITESPACE
  }

  /** Trimming takes blanks off one end, and all of them. */
  lemma {:induction false} TrimEndTakes(s: string)
    ensures TrimEnd(s) <= s && Blank(s[|TrimEnd(s)|..])
    ensures TrimEnd(s) == "" || TrimEnd(s)[|TrimEnd(s)| - 1] !in WHITESPACE
    decreases |s|
  {
    if |s| > 0 && s[|s| - 1] in WHITESPACE {
      TrimEndTakes(s[..|s| - 1]);
    }
  }

  lemma {:induction false} TrimStartTakes(s: string) returns (k: nat)
    ensures k <= |s| && TrimStart(s) == s[k..] && Blank(s[..k])
    ensures TrimStart(s) == "" || TrimStart(s)[0] !in WHITESPACE
    decreases |s|
  {
    if |s| > 0 && s[0] in WHITESPACE {
      var rest := s[1..];
      k := TrimStartTakes(rest);
      assert rest[k..] == s[k + 1..];
      assert s[..k + 1] == [s[0]] + rest[..k];
      k := k + 1;
    } else {
      k := 0;
    }
  }

  lemma {:induction false} BlankIff(text: string)
    ensures Blank(text) <==> Strip(text) == ""
  {
    hide TrimEnd, TrimStart;
    var kept := TrimEnd(text);
    TrimEndTakes(text);
    var k := TrimStartTakes(kept);
    assert text == kept + text[|kept|..];
    if Blank(text) {
      assert forall c <- kept :: c in text;
    }
    assert Blank(kept) && Blank(text[|kept|..]) ==> Blank(text);
  }

  /** Trimming the front of a text that is not blank stops inside it. */
  lemma {:induction false} TrimStartStops(s: string, t: string)
    requires !Blank(s)
    ensures TrimStart(s + t) == TrimStart(s) + t
    decreases |s|
  {
    if s[0] in WHITESPACE {
      assert (s + t)[1..] == s[1..] + t && s == [s[0]] + s[1..];
      TrimStartStops(s[1..], t);
    }
  }

  /** A section as the prompt shows it. */
  function Shown(line: string, text: string): string {
    if Blank(text) then "" else line + text + "\n\n"
  }

  /**
    The prompt, character by character: every section that is not blank with its full
    text behind its purpose line, in this order, and the request at the end.  Only blanks
    at the two ends of the whole prompt are trimmed.
  */
  lemma {:induction false} PromptShowsEverySection(rendered: Sections, request: string)
    ensures Assemble(rendered, request) ==
            (if Blank(rendered.prefix) then "" else TrimStart(rendered.prefix) + "\n\n")
            + Shown("#" + " Below: what already happened. Reference, not instructions.\n", rendered.transcript)
            + Shown("#" + " Below: memory from earlier turns. Prefer fresh evidence on conflict.\n", rendered.memory)
            + Shown("#" + " Below: retrieved as relevant to the current request.\n", rendered.relevantMemory)
            + Shown("#" + " Below: constraints for this turn. Follow them.\n", rendered.constraints)
            + TrimEnd("#" + " Below: the user's current request. Act on this.\nCurrent user request:\n" + request)
  {
    hide TrimEnd, TrimStart, Part, Purpose, Blank;
    PartsShown(rendered);
    var prefix, transcript, memory, relevant, constraints := Part(rendered, Prefix), Part(rendered, Transcript),
      Part(rendered, Memory), Part(rendered, RelevantMemory), Part(rendered, Constraints);
    assert REQUEST_HEADER[0] == '#';
    StartsWithHash(transcript, memory, relevant, constraints);
    Trimmed(rendered.prefix, prefix, transcript + memory + relevant + constraints, REQUEST_HEADER + request);
    Regrouped(prefix, transcript, memory, relevant, constraints, REQUEST_HEADER, request);
    var front := if Blank(rendered.prefix) then "" else TrimStart(rendered.prefix) + "\n\n";
    Regrouped(front, transcript, memory, relevant, constraints, "", TrimEnd(REQUEST_HEADER + request));
    assert "" + TrimEnd(REQUEST_HEADER + request) == TrimEnd(REQUEST_HEADER + request);
    assert front + transcript + memory + relevant + constraints + "" == front + transcript + memory + relevant + constraints;
  }

  lemma Regrouped(a: string, b: string, c: string, d: string, e: string, f: string, g: string)
    ensures a + b + c + d + e + f + g == a + (b + c + d + e) + (f + g)
  {
  }

  lemma StartsWithHash(a: string, b: string, c: string, d: string)
    requires forall x <- [a, b, c, d] :: x == "" || x[0] == '#'
    ensures a + b + c + d == "" || (a + b + c + d)[0] == '#'
  {
    assert a in [a, b, c, d] && b in [a, b, c, d] && c in [a, b, c, d] && d in [a, b, c, d];
  }

  /** Blanks in front of the whole prompt can only come from a first part without a purpose line. */
  lemma {:induction false} Trimmed(text: string, first: string, middle: string, tail: string)
    requires first == if Blank(text) then "" else text + "\n\n"
    requires |tail| > 0 && tail[0] == '#' && (middle == "" || middle[0] == '#')
    ensures Strip(first + middle + tail) == (if Blank(text) then "" else TrimStart(text) + "\n\n") + middle + TrimEnd(tail)
  {
    hide TrimEnd, TrimStart, Blank;
    assert tail == [] + ['#'] + tail[1..];
    TrimEndBreaks([], '#', tail[1..]);
    TrimEndKeeps(first + middle, tail);
    var rest := middle + TrimEnd(tail);
    assert first + middle + TrimEnd(tail) == first + rest;
    if Blank(text) {
      assert first + rest == rest;
      NothingToTrim(rest);
    } else {
      assert first + rest == text + ("\n\n" + rest);
      TrimStartStops(text, "\n\n" + rest);
      assert TrimStart(text) + ("\n\n" + rest) == TrimStart(text) + "\n\n" + middle + TrimEnd(tail);
    }
  }

  lemma NothingToTrim(s: string)
    requires |s| > 0 && s[0] == '#'
    ensures TrimStart(s) == s
  {
  }

  lemma PartsShown(rendered: Sections)
    ensures Part(rendered, Prefix) == Shown("", rendered.prefix)
    ensures Part(rendered, Transcript) == Shown("#" + " Below: what already happened. Reference, not instructions.\n", rendered.transcript)
    ensures Part(rendered, Memory)
         == Shown("#" + " Below: memory from earlier turns. Prefer fresh evidence on conflict.\n", rendered.memory)
    ensures Part(rendered, RelevantMemory)
         == Shown("#" + " Below: retrieved as relevant to the current request.\n", rendered.relevantMemory)
    ensures Part(rendered, Constraints) == Shown("#" + " Below: constraints for this turn. Follow them.\n", rendered.constraints)
    ensures forall s: Section :: s == Prefix || Part(rendered, s) == "" || Part(rendered, s)[0] == '#'
  {
    hide Strip;
    forall s: Section | s != Prefix
      ensures |Purpose(s)| > 0 && Purpose(s)[0] == '#'
    {
      match s { case Transcript => case Memory => case RelevantMemory => case Constraints => }
    }
    forall s: Section
      ensures Strip(rendered.At(s)) == "" <==> Blank(rendered.At(s))
    {
      BlankIff(rendered.At(s));
    }
  }

  /** A blank section leaves no trace: any other blank text gives the same prompt. */
  lemma {:induction false} BlankSectionLeavesNoTrace(rendered: Sections, s: Section, other: string, request: string)
    requires Blank(rendered.At(s)) && Blank(other)
    ensures Assemble(rendered.With(s, other), request) == Assemble(rendered, request)
  {
    hide Assemble, Blank, TrimEnd, TrimStart;
    PromptShowsEverySection(rendered, request);
    PromptShowsEverySection(rendered.With(s, other), request);
    match s { case Prefix => case Transcript => case Memory => case RelevantMemory => case Constraints => }
  }

  // ---- The reduction loop ----

  function Above(budget: int, floor: int): nat {
    if budget <= floor then 0 else budget - floor
  }

  /** The sum of the budgets above their floors. */
  function Slack(budgets: Budgets, floors: Budgets): nat {
    Above(budgets.At(Prefix), floors.At(Prefix)) + Above(budgets.At(Transcript), floors.At(Transcript))
    + Above(budgets.At(Memory), floors.At(Memory)) + Above(budgets.At(RelevantMemory), floors.At(RelevantMemory))
    + Above(budgets.At(Constraints), floors.At(Constraints))
  }

  lemma SlackDrops(budgets: Budgets, floors: Budgets, s: Section, smaller: int)
    requires floors.At(s) <= smaller < budgets.At(s)
    ensures Slack(budgets.With(s, smaller), floors) < Slack(budgets, floors)
  {
    match s { case Prefix => case Transcript => case Memory => case RelevantMemory => case Constraints => }
  }

  /** Nothing more can be taken from section `s`. */
  predicate Exhausted(inputs: Inputs, s: Section, rendered: string, budget: int, floor: int, measure: Measure) {
    || budget <= floor
    || measure(rendered) <= floor
    || budget <= 0
    || (s == Transcript && inputs.history == [] && measure(EMPTY_TRANSCRIPT) > budget)
  }

  /** Budgets only shrink, never below the floor, and only for sections in the reduction order. */
  predicate ReducedFrom(budgets: Budgets, start: Budgets, floors: Budgets, order: seq<Section>) {
    forall s: Section ::
      && budgets.At(s) <= start.At(s)
      && (budgets.At(s) != start.At(s) ==> s in order && floors.At(s) <= budgets.At(s))
  }

  function LoweredTo(size: int, overflow: int, floor: int): int {
    if size - overflow < floor then floor else size - overflow
  }

  predicate Reducible(s: Section, budgets: Budgets, floors: Budgets, rendered: Sections, overflow: int, measure: Measure) {
    var size := measure(rendered.At(s));
    budgets.At(s) > floors.At(s) && size > floors.At(s) && LoweredTo(size, overflow, floors.At(s)) < budgets.At(s)
  }

  function FirstReducible(budgets: Budgets, floors: Budgets, rendered: Sections, order: seq<Section>, overflow: int,
                          measure: Measure, from: nat): (k: nat)
    requires from <= |order|
    ensures from <= k <= |order|
    ensures k < |order| ==> Reducible(order[k], budgets, floors, rendered, overflow, measure)
    ensures forall j :: from <= j < k ==> !Reducible(order[j], budgets, floors, rendered, overflow, measure)
    decreases |order| - from
  {
    if from == |order| || Reducible(order[from], budgets, floors, rendered, overflow, measure) then from
    else FirstReducible(budgets, floors, rendered, order, overflow, measure, from + 1)
  }

  /** The budgets the loop ends with: each round lowers the first section in order that can be, by the overflow. */
  function Reduction(inputs: Inputs, budgets: Budgets, floors: Budgets, total: int, order: seq<Section>, measure: Measure): Budgets
    decreases Slack(budgets, floors)
  {
    var rendered := Rendered(inputs, budgets, measure);
    var overflow := measure(Assemble(rendered, inputs.request)) - total;
    var k := FirstReducible(budgets, floors, rendered, order, overflow, measure, 0);
    if overflow <= 0 || k == |order| then budgets
    else
      var s := order[k];
      var smaller := LoweredTo(measure(rendered.At(s)), overflow, floors.At(s));
      SlackDrops(budgets, floors, s, smaller);
      Reduction(inputs, budgets.With(s, smaller), floors, total, order, measure)
  }

  /** One round of the reduction, stated on its own. */
  ghost predicate Round(inputs: Inputs, before: Budgets, after: Budgets, floors: Budgets, total: int, order: seq<Section>,
                        measure: Measure)
  {
    var rendered := Rendered(inputs, before, measure);
    var overflow := measure(Assemble(rendered, inputs.request)) - total;
    && overflow > 0
    && exists k ::
         && 0 <= k < |order|
         && Lowered(rendered, before, after, floors, order[k], overflow, measure)
         && forall j, other :: 0 <= j < k ==> !Lowered(rendered, before, other, floors, order[j], overflow, measure)
  }

  /**
    The section gives up the overflow, as far as its floor allows; it can only if its budget
    and its text are above the floor, and its budget really becomes smaller.
  */
  ghost predicate Lowered(rendered: Sections, before: Budgets, after: Budgets, floors: Budgets, s: Section, overflow: int,
                          measure: Measure)
  {
    var size, floor := measure(rendered.At(s)), floors.At(s);
    && before.At(s) > floor && size > floor && after.At(s) < before.At(s)
    && (after.At(s) == size - overflow || (after.At(s) == floor && size - overflow < floor)) && after.At(s) >= floor
    && forall other: Section :: other != s ==> after.At(other) == before.At(other)
  }

  /** Consecutive budgets differ by one round. */
  ghost predicate Rounds(inputs: Inputs, path: seq<Budgets>, floors: Budgets, total: int, order: seq<Section>, measure: Measure) {
    |path| > 0 && forall i :: 0 <= i < |path| - 1 ==> Round(inputs, path[i], path[i + 1], floors, total, order, measure)
  }

  ghost predicate NoRound(inputs: Inputs, last: Budgets, floors: Budgets, total: int, order: seq<Section>, measure: Measure) {
    forall next :: !Round(inputs, last, next, floors, total, order, measure)
  }

  lemma {:induction false} ReducibleIff(rendered: Sections, before: Budgets, floors: Budgets, s: Section, overflow: int, measure: Measure)
    ensures Reducible(s, before, floors, rendered, overflow, measure) <==>
            exists after :: Lowered(rendered, before, after, floors, s, overflow, measure)
    ensures Reducible(s, before, floors, rendered, overflow, measure) ==>
              var smaller := LoweredTo(measure(rendered.At(s)), overflow, floors.At(s));
              Lowered(rendered, before, before.With(s, smaller), floors, s, overflow, measure)
  {
    var smaller := LoweredTo(measure(rendered.At(s)), overflow, floors.At(s));
    WithAt(before, s, smaller);
    if Reducible(s, before, floors, rendered, overflow, measure) {
      assert Lowered(rendered, before, before.With(s, smaller), floors, s, overflow, measure);
    }
  }

  lemma WithAt(budgets: Budgets, s: Section, value: int)
    ensures budgets.With(s, value).At(s) == value
    ensures forall other: Section :: other != s ==> budgets.With(s, value).At(other) == budgets.At(other)
  {
    match s { case Prefix => case Transcript => case Memory => case RelevantMemory => case Constraints => }
  }

  /**
    The reduction is a run of such rounds, from the budgets given to the ones used, and it
    ends only when the prompt fits or no round is possible.
  */
  lemma {:induction false} ReductionIsARunOfRounds(inputs: Inputs, budgets: Budgets, floors: Budgets, total: int,
                                                   order: seq<Section>, measure: Measure) returns (path: seq<Budgets>)
    ensures Rounds(inputs, path, floors, total, order, measure) && path[0] == budgets
    ensures path[|path| - 1] == Reduction(inputs, budgets, floors, total, order, measure)
    ensures NoRound(inputs, path[|path| - 1], floors, total, order, measure)
    decreases Slack(budgets, floors)
  {
    hide Assemble, Rendered, Lowered, LoweredTo, Reducible;
    var rendered := Rendered(inputs, budgets, measure);
    var overflow := measure(Assemble(rendered, inputs.request)) - total;
    var k := FirstReducible(budgets, floors, rendered, order, overflow, measure, 0);
    forall s: Section { ReducibleIff(rendered, budgets, floors, s, overflow, measure); }
    if overflow <= 0 || k == |order| {
      path := [budgets];
    } else {
      var s := order[k];
      var smaller := LoweredTo(measure(rendered.At(s)), overflow, floors.At(s));
      ReducibleMeans(s, budgets, floors, rendered, overflow, measure);
      SlackDrops(budgets, floors, s, smaller);
      var rest := ReductionIsARunOfRounds(inputs, budgets.With(s, smaller), floors, total, order, measure);
      assert Round(inputs, budgets, rest[0], floors, total, order, measure);
      path := [budgets] + rest;
    }
  }

  method Build(inputs: Inputs, start: Budgets, floors: Budgets, total: int, order: seq<Section>, measure: Measure)
    returns (prompt: string, budgets: Budgets, rendered: Sections, overBudget: bool)
    requires measure("") == 0
    ensures budgets == Reduction(inputs, start, floors, total, order, measure)
    ensures rendered == Rendered(inputs, budgets, measure) && prompt == Assemble(rendered, inputs.request)
    ensures overBudget <==> measure(prompt) > total
    ensures AllWithin(inputs, rendered, budgets, measure)
    ensures ReducedFrom(budgets, start, floors, order)
    ensures overBudget ==>
              forall s <- order :: Exhausted(inputs, s, rendered.At(s), budgets.At(s), floors.At(s), measure)
    ensures DefaultFloors(floors, measure) && (forall s: Section :: start.At(s) >= floors.At(s)) ==>
              forall s: Section :: measure(rendered.At(s)) <= budgets.At(s)
    ensures overBudget && DefaultFloors(floors, measure) ==>
              forall s <- order :: budgets.At(s) <= floors.At(s) || measure(rendered.At(s)) <= floors.At(s)
  {
    hide Assemble, Slack, Rendered, AllWithin, Reducible, FirstReducible;
    budgets := start;
    rendered := RenderSections(inputs, budgets, measure);
    prompt := Assemble(rendered, inputs.request);
    while measure(prompt) > total
      invariant rendered == Rendered(inputs, budgets, measure) && prompt == Assemble(rendered, inputs.request)
      invariant AllWithin(inputs, rendered, budgets, measure)
      invariant ReducedFrom(budgets, start, floors, order)
      invariant Reduction(inputs, start, floors, total, order, measure)
             == Reduction(inputs, budgets, floors, total, order, measure)
      decreases Slack(budgets, floors)
    {
      var overflow := measure(prompt) - total;
      var k, found := FindReducible(budgets, floors, rendered, order, overflow, measure);
      if !found {
        NothingLeft(inputs, budgets, floors, rendered, order, overflow, measure);
        break;
      }
      var section := order[k];
      ReducibleMeans(section, budgets, floors, rendered, overflow, measure);
      var smaller := LoweredTo(measure(rendered.At(section)), overflow, floors.At(section));
      SlackDrops(budgets, floors, section, smaller);
      ReducedMore(budgets, start, floors, order, section, smaller);
      budgets := budgets.With(section, smaller);
      rendered := RenderSections(inputs, budgets, measure);
      prompt := Assemble(rendered, inputs.request);
    }
    overBudget := measure(prompt) > total;
    if DefaultFloors(floors, measure) && forall s: Section :: start.At(s) >= floors.At(s) {
      NothingExempt(inputs, rendered, budgets, start, floors, order, measure);
    }
  }

  /** With default floors neither exemption applies. */
  lemma NothingExempt(inputs: Inputs, rendered: Sections, budgets: Budgets, start: Budgets, floors: Budgets,
                      order: seq<Section>, measure: Measure)
    requires AllWithin(inputs, rendered, budgets, measure) && ReducedFrom(budgets, start, floors, order)
    requires DefaultFloors(floors, measure) && forall s: Section :: start.At(s) >= floors.At(s)
    ensures forall s: Section :: measure(rendered.At(s)) <= budgets.At(s)
  {
    forall s: Section
      ensures measure(rendered.At(s)) <= budgets.At(s)
    {
      assert WithinBudget(inputs, s, rendered.At(s), budgets.At(s), measure);
    }
  }

  /** The inner loop: the first section whose budget can still be lowered by the overflow. */
  method FindReducible(budgets: Budgets, floors: Budgets, rendered: Sections, order: seq<Section>,
                       overflow: int, measure: Measure)
    returns (k: nat, found: bool)
    ensures k == FirstReducible(budgets, floors, rendered, order, overflow, measure, 0)
    ensures found <==> k < |order|
  {
    for i := 0 to |order|
      invariant FirstReducible(budgets, floors, rendered, order, overflow, measure, 0)
             == FirstReducible(budgets, floors, rendered, order, overflow, measure, i)
    {
      var section := order[i];
      if budgets.At(section) <= floors.At(section) {
        continue;
      }
      var size := measure(rendered.At(section));
      if size <= floors.At(section) {
        continue;
      }
      if LoweredTo(size, overflow, floors.At(section)) >= budgets.At(section) {
        continue;
      }
      return i, true;
    }
    return |order|, false;
  }

  lemma ReducibleMeans(s: Section, budgets: Budgets, floors: Budgets, rendered: Sections, overflow: int, measure: Measure)
    requires Reducible(s, budgets, floors, rendered, overflow, measure)
    ensures floors.At(s) <= LoweredTo(measure(rendered.At(s)), overflow, floors.At(s)) < budgets.At(s)
  {
  }

  lemma ReducedMore(budgets: Budgets, start: Budgets, floors: Budgets, order: seq<Section>, s: Section, smaller: int)
    requires ReducedFrom(budgets, start, floors, order) && s in order && floors.At(s) <= smaller < budgets.At(s)
    ensures ReducedFrom(budgets.With(s, smaller), start, floors, order)
  {
    match s { case Prefix => case Transcript => case Memory => case RelevantMemory => case Constraints => }
  }

  /** When the loop gives up, every section of the order is exhausted. */
  lemma {:induction false} NothingLeft(inputs: Inputs, budgets: Budgets, floors: Budgets, rendered: Sections,
                                       order: seq<Section>, overflow: int, measure: Measure)
    requires overflow > 0 && AllWithin(inputs, rendered, budgets, measure)
    requires FirstReducible(budgets, floors, rendered, order, overflow, measure, 0) == |order|
    ensures forall s <- order :: Exhausted(inputs, s, rendered.At(s), budgets.At(s), floors.At(s), measure)
  {
    forall s | s in order
      ensures Exhausted(inputs, s, rendered.At(s), budgets.At(s), floors.At(s), measure)
    {
      var j :| 0 <= j < |order| && order[j] == s;
      assert !Reducible(order[j], budgets, floors, rendered, overflow, measure);
      assert WithinBudget(inputs, s, rendered.At(s), budgets.At(s), measure);
    }
  }

  /** A prompt that fits is built from the budgets as given, with nothing reduced. */
  lemma NothingReducedWhenItFits(inputs: Inputs, budgets: Budgets, floors: Budgets, total: int, order: seq<Section>, measure: Measure)
    ensures measure(Assemble(Rendered(inputs, budgets, measure), inputs.request)) <= total ==>
              Reduction(inputs, budgets, floors, total, order, measure) == budgets
  {
  }

  // ---- Default floors and phase shifts ----

  predicate DefaultFloors(floors: Budgets, measure: Measure) {
    (forall s: Section :: floors.At(s) >= 20) && measure(EMPTY_TRANSCRIPT) <= 20
  }

  /** _compute_section_floors without overrides. */
  function Floor(budget: int): int {
    if budget / 4 < 20 then 20 else budget / 4
  }

  /** Estimated or counted in characters, the empty transcript stays under every default floor. */
  lemma EmptyTranscriptIsSmall()
    ensures EstimateTokens(EMPTY_TRANSCRIPT) <= 20 && |EMPTY_TRANSCRIPT| <= 20
  {
    CjkBound(EMPTY_TRANSCRIPT);
  }

  /** _phase_adjusted_budgets in the edit phase. */
  function PhaseAdjusted(budgets: Budgets, floors: Budgets, total: nat): Budgets {
    var room := budgets.At(Transcript) - floors.At(Transcript);
    var wanted := if total / 20 < room then total / 20 else room;
    var shift := if wanted < 0 then 0 else wanted;
    budgets.(transcript := budgets.transcript - shift,
             relevantMemory := budgets.relevantMemory + shift / 2,
             constraints := budgets.constraints + (shift - shift / 2))
  }

  /**
    Editing moves a twentieth of the total, or what history has above its floor if that is
    less, from history to relevant memory and constraints in halves; none is created or lost.
  */
  lemma PhaseShiftConserves(budgets: Budgets, floors: Budgets, total: nat)
    ensures var after := PhaseAdjusted(budgets, floors, total);
            var moved, room := budgets.transcript - after.transcript, budgets.transcript - floors.transcript;
            && after.prefix == budgets.prefix && after.memory == budgets.memory
            && after.transcript + after.relevantMemory + after.constraints
               == budgets.transcript + budgets.relevantMemory + budgets.constraints
            && (room <= 0 ==> moved == 0)
            && (room > 0 ==> moved <= room && 20 * moved <= total && (moved == room || 20 * (moved + 1) > total))
            && 0 <= (after.constraints - budgets.constraints) - (after.relevantMemory - budgets.relevantMemory) <= 1
  {
  }

  /** The default floors: a quarter of each budget, but at least 20. */
  function DefaultFloorsOf(budgets: Budgets): Budgets {
    PerSection(Floor(budgets.prefix), Floor(budgets.transcript), Floor(budgets.memory), Floor(budgets.relevantMemory),
               Floor(budgets.constraints))
  }

  lemma DefaultFloorsAreQuarters(budgets: Budgets)
    ensures DefaultFloors(DefaultFloorsOf(budgets), EstimateTokens)
    ensures forall s: Section ::
              var budget, floor := budgets.At(s), DefaultFloorsOf(budgets).At(s);
              if budget < 80 then floor == 20 else 0 <= budget - 4 * floor < 4
  {
    EmptyTranscriptIsSmall();
    hide EstimateTokens;
  }
}
