/**
 The line scanner that says which lines of an Org file are document structure
 and which are the content of a block or of a Babel result
 (`crates/vissue-core/src/org.rs`).
 */
module Org {
  import opened Text

  // ---- line predicates ----

  function LeadingStars(line: string): (n: nat)
    ensures n <= |line|
    ensures n == |line| || line[n] != '*'
    ensures forall i :: 0 <= i < n ==> line[i] == '*'
  {
    if line != "" && line[0] == '*' then 1 + LeadingStars(line[1..]) else 0
  }

  predicate IsHeadline(line: string) {
    var n := LeadingStars(line);
    0 < n < |line| && line[n] == ' '
  }

  /// The start of the next issue, as the heading parser sees it.
  predicate EndsTheIssue(line: string) {
    "* " <= line
  }

  predicate OpensDrawer(trimmed: string) {
    && |trimmed| > 2
    && trimmed[0] == ':'
    && trimmed[|trimmed| - 1] == ':'
    && !SameNoCase(trimmed, ":END:")
    && forall i :: 1 <= i < |trimmed| - 1 ==> !IsSpace(trimmed[i])
  }

  predicate IsBlockBegin(trimmed: string) {
    "#+" <= trimmed && (StartsNoCase(trimmed[2..], "BEGIN_") || StartsNoCase(trimmed[2..], "BEGIN:"))
  }

  predicate IsBlockEnd(trimmed: string) {
    "#+" <= trimmed && (StartsNoCase(trimmed[2..], "END_") || StartsNoCase(trimmed[2..], "END:"))
  }

  predicate IsResultsKeyword(trimmed: string) {
    var t := Trim(trimmed);
    && "#+" <= t
    && StartsNoCase(t[2..], "RESULT")
    && var after := TrimStart(if StartsNoCase(t[2..], "RESULTS") then t[9..] else t[8..]);
       && after != ""
       && (after[0] == ':' || (after[0] == '[' && ':' in after))
  }

  predicate IsTableLine(trimmed: string) {
    "|" <= trimmed
  }

  predicate IsFixedWidthLine(line: string) {
    var t := TrimStart(line);
    && (t == ":" || ": " <= t || ":\t" <= t)
    && !OpensDrawer(t)
    && !SameNoCase(t, ":END:")
  }

  function TrimBulletEnd(s: string): (r: string)
  {
    if s != "" && (s[|s| - 1] == '.' || s[|s| - 1] == ')') then TrimBulletEnd(s[..|s| - 1]) else s
  }

  predicate IsDigit(c: char) { '0' <= c <= '9' }

  predicate IsLetter(c: char) { 'a' <= c <= 'z' || 'A' <= c <= 'Z' }

  predicate IsListLine(line: string) {
    var t := TrimStart(line);
    var token := t[..WordLength(t)];
    var rest := TrimStart(t[WordLength(t)..]);
    var bare := TrimBulletEnd(token);
    && !IsHeadline(line)
    && (|| "- " <= t
        || "+ " <= t
        || (&& t != ""
            && (rest != "" || token[|token| - 1] == '.' || token[|token| - 1] == ')')
            && bare != ""
            && bare != token
            && (|| (forall i :: 0 <= i < |bare| ==> IsDigit(bare[i]))
                || (|bare| == 1 && IsLetter(bare[0])))))
  }

  predicate IsListContinuation(line: string) {
    && !IsHeadline(line)
    && (" " <= line || "\t" <= line)
    && Trim(line) != ""
  }

  // ---- the scanner as a function ----

  datatype ResultsState =
    | Out
    | Awaiting
    | ViaBlock
    | Drawer
    | Table
    | FixedWidth
    | List
    | Headline(stars: nat)

  datatype Scan = Scan(depth: nat, results: ResultsState)

  const START := Scan(0, Out)

  /// Depth after `line`, and whether the line is part of a block.
  function NestStep(depth: nat, line: string): (nat, bool) {
    var t := TrimStart(line);
    if IsBlockEnd(t) then (if depth == 0 then 0 else depth - 1, true)
    else if IsBlockBegin(t) then (depth + 1, true)
    else (depth, depth > 0)
  }

  /// The result element a line opens just after `#+RESULTS:`.
  function OpenedElement(line: string): ResultsState {
    var t := Trim(line);
    if OpensDrawer(t) then Drawer
    else if IsTableLine(t) then Table
    else if IsFixedWidthLine(line) then FixedWidth
    else if IsListLine(line) then List
    else if IsHeadline(line) then Headline(LeadingStars(line))
    else Out
  }

  /// Whether a line goes on inside the result element `r`.
  predicate Continues(r: ResultsState, line: string) {
    match r
    case Out => false
    case Awaiting => true
    case ViaBlock => false
    case Drawer => true
    case Table => IsTableLine(Trim(line))
    case FixedWidth => IsFixedWidthLine(line)
    case List => Trim(line) == "" || IsListLine(line) || IsListContinuation(line)
    case Headline(stars) => !(IsHeadline(line) && LeadingStars(line) <= stars)
  }

  /// The result element after a line that continued `r`.
  function AfterContinuing(r: ResultsState, line: string): ResultsState {
    match r
    case Awaiting => if Trim(line) == "" then Awaiting else OpenedElement(line)
    case Drawer => if SameNoCase(Trim(line), ":END:") then Out else Drawer
    case List => if Trim(line) == "" then Out else List
    case _ => r
  }

  /// State after `line`, and whether the line is hidden from the parser.
  function Step(s: Scan, line: string): (Scan, bool) {
    var t := TrimStart(line);
    if s.depth > 0 || IsBlockEnd(t) then
      var (depth, inBlock) := NestStep(s.depth, line);
      var results := if depth == 0 && s.results.ViaBlock? then Out else s.results;
      (Scan(depth, results), inBlock || results.ViaBlock?)
    else if IsResultsKeyword(Trim(line)) then
      (s.(results := Awaiting), true)
    else if IsBlockBegin(t) then
      (Scan(1, if s.results.Awaiting? then ViaBlock else s.results), true)
    else if Continues(s.results, line) then
      (s.(results := AfterContinuing(s.results, line)), true)
    else
      (s.(results := Out), false)
  }

  lemma StepOutside(line: string)
    requires !IsBlockEnd(TrimStart(line)) && !IsBlockBegin(TrimStart(line)) && !IsResultsKeyword(Trim(line))
    ensures Step(START, line) == (START, false)
  {
  }

  function Run(s: Scan, lines: seq<string>): Scan
    decreases |lines|
  {
    if lines == [] then s else Run(Step(s, lines[0]).0, lines[1..])
  }

  // ---- the scanner as the program keeps it ----

  class BlockNest {
    var depth: nat

    constructor ()
      ensures depth == 0
    {
      depth := 0;
    }

    method Observe(line: string) returns (inBlock: bool)
      modifies this
      ensures (depth, inBlock) == NestStep(old(depth), line)
    {
      var trimmed := TrimStart(line);
      if IsBlockEnd(trimmed) {
        depth := if depth == 0 then 0 else depth - 1;
        return true;
      }
      if IsBlockBegin(trimmed) {
        depth := depth + 1;
        return true;
      }
      return depth > 0;
    }
  }

  class OrgScan {
    const blocks: BlockNest
    var results: ResultsState

    function State(): Scan
      reads this, blocks
    {
      Scan(blocks.depth, results)
    }

    constructor ()
      ensures fresh(blocks)
      ensures State() == START
    {
      blocks := new BlockNest();
      results := Out;
    }

    method Observe(line: string) returns (hidden: bool)
      modifies this, blocks
      ensures (State(), hidden) == Step(old(State()), line)
      decreases results != Out, 2
    {
      var trimmed := TrimStart(line);
      if blocks.depth > 0 || IsBlockEnd(trimmed) {
        var inBlock := blocks.Observe(line);
        if blocks.depth == 0 && results.ViaBlock? {
          results := Out;
        }
        return inBlock || results.ViaBlock?;
      }
      if IsResultsKeyword(Trim(line)) {
        results := Awaiting;
        return true;
      }
      if IsBlockBegin(trimmed) {
        if results.Awaiting? {
          results := ViaBlock;
        }
        hidden := blocks.Observe(line);
        return;
      }
      hidden := ObserveElement(line);
    }

    /// A line outside every block, read against the current result element.
    method ObserveElement(line: string) returns (hidden: bool)
      requires blocks.depth == 0
      requires !IsBlockEnd(TrimStart(line)) && !IsBlockBegin(TrimStart(line)) && !IsResultsKeyword(Trim(line))
      modifies this, blocks
      ensures hidden == Continues(old(results), line)
      ensures State() == Scan(0, if hidden then AfterContinuing(old(results), line) else Out)
      decreases results != Out, 1
    {
      hidden := true;
      match results {
        case Out =>
          hidden := false;
        case ViaBlock =>
          results := Out;
          hidden := false;
        case Awaiting =>
          if Trim(line) != "" {
            StartResultElement(line);
          }
        case Drawer =>
          if SameNoCase(Trim(line), ":END:") {
            results := Out;
          }
        case Table =>
          if !IsTableLine(Trim(line)) {
            hidden := ObserveAfterElement(line);
          }
        case FixedWidth =>
          if !IsFixedWidthLine(line) {
            hidden := ObserveAfterElement(line);
          }
        case List =>
          if Trim(line) == "" {
            results := Out;
          } else if !IsListLine(line) && !IsListContinuation(line) {
            hidden := ObserveAfterElement(line);
          }
        case Headline(stars) =>
          if IsHeadline(line) && LeadingStars(line) <= stars {
            hidden := ObserveAfterElement(line);
          }
      }
    }

    /// The result element is over: the line is read again outside it.
    method ObserveAfterElement(line: string) returns (hidden: bool)
      requires results != Out && blocks.depth == 0
      requires !IsBlockEnd(TrimStart(line)) && !IsBlockBegin(TrimStart(line)) && !IsResultsKeyword(Trim(line))
      modifies this, blocks
      ensures !hidden && State() == START
      decreases true, 0
    {
      results := Out;
      StepOutside(line);
      hidden := Observe(line);
    }

    method StartResultElement(line: string)
      modifies this
      ensures results == OpenedElement(line)
    {
      var trimmed := Trim(line);
      if OpensDrawer(trimmed) {
        results := Drawer;
      } else if IsTableLine(trimmed) {
        results := Table;
      } else if IsFixedWidthLine(line) {
        results := FixedWidth;
      } else if IsListLine(line) {
        results := List;
      } else if IsHeadline(line) {
        results := Headline(LeadingStars(line));
      } else {
        results := Out;
      }
    }
  }
}
