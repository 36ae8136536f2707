/** What recording one provenance entry does to the lines of a plan's frontmatter,
    and how the entries that are already there are found and read back. */
module PlanFrontmatter {
  import opened Options
  import opened LineScans
  import opened LineText

  datatype Kind = Review | Revision

  function ListKey(kind: Kind): string {
    match kind
    case Review => "reviews"
    case Revision => "revisions"
  }

  function JudgmentKey(kind: Kind): string {
    match kind
    case Review => "verdict"
    case Revision => "mode"
  }

  predicate IsJudgment(kind: Kind, s: string) {
    match kind
    case Review => s == "approved" || s == "changes-requested" || s == "comments"
    case Revision => s == "implement" || s == "update" || s == "discuss" || s == "other"
  }

  function Other(kind: Kind): Kind {
    if kind == Review then Revision else Review
  }

  /** One event to record. An absent harness or note is the empty string;
      `judgment` is the verdict of a review or the mode of a revision. */
  datatype Request = Request(kind: Kind, model: string, harness: string, judgment: string, note: string, at: string)

  predicate IsDigit(c: char) { '0' <= c <= '9' }

  predicate IsStampChar(i: nat, c: char) {
    if i == 4 || i == 7 then c == '-'
    else if i == 10 then c == 'T'
    else if i == 13 || i == 16 then c == ':'
    else if i == 19 then c == 'Z'
    else IsDigit(c)
  }

  /** `YYYY-MM-DDTHH:MM:SSZ`, the only form of timestamp that reaches the file. */
  predicate IsStamp(s: string) {
    |s| == 20 && forall i | 0 <= i < 20 :: IsStampChar(i, s[i])
  }

  /** What the script has checked before it opens the plan. */
  predicate Valid(req: Request) {
    req.model != "" && IsJudgment(req.kind, req.judgment) && IsStamp(req.at)
  }

  // ---------------------------------------------------------------------
  // Writing an entry
  // ---------------------------------------------------------------------

  datatype Field = Field(key: string, raw: string)

  function Fields(req: Request): (fields: seq<Field>)
    ensures fields != []
  {
    [Field("model", Quote(req.model))]
    + (if req.harness != "" then [Field("harness", Quote(req.harness))] else [])
    + [Field("at", req.at)]
    + [Field(JudgmentKey(req.kind), Quote(req.judgment))]
    + (if req.note != "" then [Field("note", Quote(req.note))] else [])
  }

  function FieldText(f: Field): string {
    f.key + ": " + f.raw
  }

  function ContLines(fields: seq<Field>, indent: string): seq<string> {
    if fields == [] then [] else [indent + ("  " + FieldText(fields[0]))] + ContLines(fields[1..], indent)
  }

  function EntryLines(req: Request, indent: string): seq<string> {
    [indent + ("- " + FieldText(Fields(req)[0]))] + ContLines(Fields(req)[1..], indent)
  }

  // ---------------------------------------------------------------------
  // Reading entries back
  // ---------------------------------------------------------------------

  type Entry = map<string, string>

  predicate IsWordChar(c: char) {
    'a' <= c <= 'z' || 'A' <= c <= 'Z' || IsDigit(c) || c == '_'
  }

  function WordRun(s: string): (n: nat)
    ensures n <= |s|
    ensures forall i {:trigger IsWordChar(s[i])} | 0 <= i < n :: IsWordChar(s[i])
    ensures n < |s| ==> !IsWordChar(s[n])
  {
    if s == [] || !IsWordChar(s[0]) then 0 else 1 + WordRun(s[1..])
  }

  /** `(\w+):\s*(.*)$` */
  function MatchField(s: string): Option<Field> {
    var n := WordRun(s);
    if n == 0 || n == |s| || s[n] != ':' then None
    else
      var value := s[n + 1..][SpaceRun(s[n + 1..])..];
      if NoBreak(value) then Some(Field(s[..n], value)) else None
  }

  /** `\s+(\w+):\s*(.*)$` */
  function MatchSpacedField(s: string): Option<Field> {
    if SpaceRun(s) == 0 then None else MatchField(s[SpaceRun(s)..])
  }

  /** A line that starts a list item, under the indentation of the list's items. */
  function MatchItem(line: string, indent: string): Option<Field> {
    if StartsWith(line, indent + "-") then MatchSpacedField(line[|indent| + 1..]) else None
  }

  /** A line that continues a list item. */
  function MatchCont(line: string, indent: string): Option<Field> {
    if StartsWith(line, indent) then MatchSpacedField(line[|indent|..]) else None
  }

  function Absorb(entries: seq<Entry>, line: string, indent: string): seq<Entry> {
    match MatchItem(line, indent)
    case Some(f) => entries + [map[f.key := Unquote(f.raw)]]
    case None =>
      match MatchCont(line, indent)
      case Some(f) =>
        if entries == [] then entries
        else entries[..|entries| - 1] + [entries[|entries| - 1][f.key := Unquote(f.raw)]]
      case None => entries
  }

  function ParseFrom(entries: seq<Entry>, lines: seq<string>, indent: string): seq<Entry>
    decreases |lines|
  {
    if lines == [] then entries else ParseFrom(Absorb(entries, lines[0], indent), lines[1..], indent)
  }

  // ---------------------------------------------------------------------
  // Finding the block, the list and its items
  // ---------------------------------------------------------------------

  /** `^---\s*$` */
  predicate IsDelimiter(line: string) {
    StartsWith(line, "---") && Blank(line[3..])
  }

  /** `^provenance:(.*)$` */
  predicate IsProvenance(line: string) {
    StartsWith(line, "provenance:") && NoBreak(line[11..])
  }

  /** `^(\s+)key:(.*)$` */
  predicate IsKey(line: string, key: string) {
    var n := SpaceRun(line);
    n > 0 && StartsWith(line[n..], key + ":") && NoBreak(line[n + |key| + 1..])
  }

  predicate LeavesBlock(line: string) {
    !Blank(line) && !(line != "" && IsSpace(line[0]))
  }

  predicate HasInk(line: string) { !Blank(line) }

  /** `^(\s+)-\s` */
  predicate IsDash(line: string) {
    var n := SpaceRun(line);
    n > 0 && n + 1 < |line| && line[n] == '-' && IsSpace(line[n + 1])
  }

  function KeyTest(key: string): string -> bool { line => IsKey(line, key) }

  predicate Dedents(line: string, width: nat) { !Blank(line) && SpaceRun(line) <= width }

  function DedentTest(width: nat): string -> bool { line => Dedents(line, width) }

  /** What follows the key on its line, trimmed: nothing, a comment, or a value written inline. */
  predicate IsInline(trailing: string) {
    trailing != "" && trailing[0] != '#'
  }

  function KeyTrailing(line: string, key: string): string
    requires IsKey(line, key)
  {
    Trim(line[SpaceRun(line) + |key| + 1..])
  }

  function ProvIdx(fm: seq<string>): (q: nat)
    ensures q <= |fm|
  {
    First(fm, 0, |fm|, IsProvenance)
  }

  function BlockEnd(fm: seq<string>, q: nat): (b: nat)
    requires q < |fm|
    ensures q < b <= |fm|
  {
    RunEnd(fm, q + 1, |fm|, LeavesBlock, Blank)
  }

  function ChildIndent(fm: seq<string>, q: nat, b: nat): string
    requires q < b <= |fm|
  {
    var c := First(fm, q + 1, b, HasInk);
    if c < b then IndentOf(fm[c]) else "  "
  }

  function ListEnd(fm: seq<string>, h: nat, b: nat): (e: nat)
    requires h < b <= |fm|
    ensures h < e <= b
  {
    RunEnd(fm, h + 1, b, DedentTest(SpaceRun(fm[h])), Blank)
  }

  function ItemIndent(fm: seq<string>, h: nat, e: nat): string
    requires h < e <= |fm|
  {
    var d := First(fm, h + 1, e, IsDash);
    if d < e then IndentOf(fm[d]) else IndentOf(fm[h]) + "  "
  }

  /** Where an entry of one kind goes. */
  datatype Place =
    | Refused                       // a value is written inline
    | NoBlock                       // no `provenance:` key
    | NoList(end: nat)              // a block without this list, and the end of the block
    | InList(header: nat, end: nat) // the list's key line and the end of its lines

  predicate InlineBlock(line: string)
    requires IsProvenance(line)
  {
    IsInline(Trim(line[11..]))
  }

  predicate InlineList(line: string, key: string)
    requires IsKey(line, key)
  {
    KeyTrailing(line, key) != "[]" && IsInline(KeyTrailing(line, key))
  }

  /** There is a `provenance:` block to look into. */
  predicate HasBlock(fm: seq<string>) {
    ProvIdx(fm) < |fm| && !InlineBlock(fm[ProvIdx(fm)])
  }

  function End(fm: seq<string>): (b: nat)
    requires HasBlock(fm)
    ensures ProvIdx(fm) < b <= |fm|
  {
    BlockEnd(fm, ProvIdx(fm))
  }

  /** The index of the list's key line, or the end of the block. */
  function Header(fm: seq<string>, kind: Kind): (h: nat)
    requires HasBlock(fm)
    ensures ProvIdx(fm) < h <= End(fm)
    ensures h < End(fm) ==> IsKey(fm[h], ListKey(kind))
  {
    First(fm, ProvIdx(fm) + 1, End(fm), KeyTest(ListKey(kind)))
  }

  function Locate(fm: seq<string>, kind: Kind): (place: Place)
    ensures place.NoList? ==> ProvIdx(fm) < place.end <= |fm|
    ensures place.InList? ==> place.header < place.end <= |fm| && IsKey(fm[place.header], ListKey(kind))
  {
    if ProvIdx(fm) == |fm| then NoBlock
    else if !HasBlock(fm) then Refused
    else
      var h := Header(fm, kind);
      if h == End(fm) then NoList(h)
      else if InlineList(fm[h], ListKey(kind)) then Refused
      else InList(h, ListEnd(fm, h, End(fm)))
  }

  /** The lines that belong to the list of `kind`. */
  function Extent(fm: seq<string>, kind: Kind): seq<string> {
    match Locate(fm, kind)
    case InList(h, e) => fm[h + 1..e]
    case _ => []
  }

  /** The entries of `kind` as the script itself reads them. */
  function Entries(fm: seq<string>, kind: Kind): seq<Entry> {
    match Locate(fm, kind)
    case InList(h, e) => ParseFrom([], fm[h + 1..e], ItemIndent(fm, h, e))
    case _ => []
  }

  // ---------------------------------------------------------------------
  // Recording
  // ---------------------------------------------------------------------

  /** The key line of a list, with an inline empty list taken away. */
  function BareHeader(line: string, key: string): string
    requires IsKey(line, key)
  {
    if KeyTrailing(line, key) == "[]" then IndentOf(line) + key + ":" else line
  }

  /** The frontmatter after an entry was recorded. */
  function Recorded(fm: seq<string>, req: Request): seq<string>
    requires !Locate(fm, req.kind).Refused?
  {
    var key := ListKey(req.kind);
    match Locate(fm, req.kind)
    case NoBlock =>
      fm[..Back(fm, 0, |fm|, Blank)] + (["provenance:", "  " + key + ":"] + EntryLines(req, "    "))
    case NoList(b) =>
      var indent := ChildIndent(fm, ProvIdx(fm), b);
      Insert(fm, b, [indent + key + ":"] + EntryLines(req, indent + "  "))
    case InList(h, e) =>
      Insert(fm[h := BareHeader(fm[h], key)], e, EntryLines(req, ItemIndent(fm, h, e)))
  }

  function GetOr(e: Entry, key: string, default: string): string {
    if key in e then e[key] else default
  }

  /** The newest entry repeats the request: same model, note, judgment and UTC day. */
  predicate IsDuplicate(entries: seq<Entry>, req: Request) {
    entries != [] &&
    var newest := entries[|entries| - 1];
    && "model" in newest && newest["model"] == req.model
    && GetOr(newest, "note", "") == req.note
    && (match req.kind
        case Review => GetOr(newest, "verdict", "comments") == req.judgment
        case Revision => "mode" in newest && newest["mode"] == req.judgment)
    && Day(GetOr(newest, "at", "")) == Day(req.at)
  }

  /** `s.slice(0, 10)` */
  function Day(s: string): string {
    if |s| <= 10 then s else s[..10]
  }

  // ---------------------------------------------------------------------
  // Whole files
  // ---------------------------------------------------------------------

  datatype Plan =
    | Unclosed
    | Plan(hadFrontmatter: bool, fm: seq<string>, rest: seq<string>)

  function OpenPlan(lines: seq<string>): Plan
    requires lines != []
  {
    if IsDelimiter(lines[0]) then
      var close := First(lines, 1, |lines|, IsDelimiter);
      if close == |lines| then Unclosed else Plan(true, lines[1..close], lines[close + 1..])
    else Plan(false, [], lines)
  }

  function Render(plan: Plan): (lines: seq<string>)
    requires plan.Plan?
    ensures lines != []
  {
    ["---"] + plan.fm + ["---"] + (if plan.hadFrontmatter then [] else [""]) + plan.rest
  }

  datatype Outcome =
    | Died
    | Skipped
    | Written(text: string)

  /** One run of the script over the text of a plan. */
  function RecordIn(text: string, req: Request, allowDuplicate: bool): Outcome {
    var plan := OpenPlan(SplitLines(text));
    if plan.Unclosed? || Locate(plan.fm, req.kind).Refused? then Died
    else if !allowDuplicate && IsDuplicate(Entries(plan.fm, req.kind), req) then Skipped
    else Written(JoinLines(Render(plan.(fm := Recorded(plan.fm, req)))))
  }
}
