/** What the script's regular expressions match, said as ways to put a line together. */
module ScriptPatterns {
  import opened Options
  import opened LineText
  import opened PlanFrontmatter
  import opened EntryReadback
  import opened RecordingLaws

  lemma StartsMeans(s: string, prefix: string)
    ensures StartsWith(s, prefix) <==> exists rest :: s == prefix + rest
  {
    if StartsWith(s, prefix) { assert s == prefix + s[|prefix|..]; }
    if rest :| s == prefix + rest { assert s[..|prefix|] == prefix; }
  }

  lemma BlankMeans(s: string)
    ensures Blank(s) <==> AllSpace(s)
  {
    hide IsSpace;
    if SpaceRun(s) < |s| { assert !IsSpace(s[SpaceRun(s)]); }
  }

  /** `^---\s*$` */
  lemma DelimiterMeans(line: string)
    ensures IsDelimiter(line) <==> exists gap :: AllSpace(gap) && line == "---" + gap
  {
    hide AllSpace, Blank;
    if IsDelimiter(line) {
      BlankMeans(line[3..]);
      assert line == "---" + line[3..];
    }
    if gap :| AllSpace(gap) && line == "---" + gap {
      BlankMeans(gap);
      assert line[..3] == "---" && line[3..] == gap;
    }
  }

  /** The first character of ink in a text. */
  ghost predicate FirstInk(s: string, c: char) {
    !IsSpace(c) && exists gap, rest :: s == gap + [c] + rest && AllSpace(gap)
  }

  /** A value after a key is inline when there is ink and it does not start a comment. */
  lemma InlineMeans(value: string)
    ensures IsInline(Trim(value)) <==> exists c :: FirstInk(value, c) && c != '#'
  {
    hide IsSpace, TrimEnd;
    var n := SpaceRun(value);
    var gap := value[..n];
    assert AllSpace(gap) by { forall i | 0 <= i < n ensures IsSpace(gap[i]) { assert IsSpace(value[i]); } }
    if n < |value| {
      assert value == gap + [value[n]] + value[n + 1..];
      assert FirstInk(value, value[n]);
      var ink := value[n..];
      assert ink[0] == value[n];
      TrimKeepsInk(ink);
    }
    if c :| FirstInk(value, c) && c != '#' { FirstInkIs(value, c); }
  }

  lemma TrimKeepsInk(ink: string)
    requires ink != "" && !IsSpace(ink[0])
    ensures TrimEnd(ink) != "" && TrimEnd(ink)[0] == ink[0]
  {
    hide IsSpace;
  }

  lemma FirstInkIs(s: string, c: char)
    requires FirstInk(s, c)
    ensures SpaceRun(s) < |s| && s[SpaceRun(s)] == c
  {
    hide IsSpace, SpaceRun, AllSpace;
    var gap, rest :| s == gap + [c] + rest && AllSpace(gap);
    assert s == gap + ([c] + rest);
    SpaceRunOfIndented(gap, [c] + rest);
  }

  /** `^provenance:(.*)$`, and what makes the value inline. */
  lemma ProvenanceMeans(line: string)
    ensures IsProvenance(line) <==> exists value :: NoBreak(value) && line == "provenance:" + value
    ensures forall value | line == "provenance:" + value && IsProvenance(line) ::
              InlineBlock(line) <==> exists c :: FirstInk(value, c) && c != '#'
  {
    hide NoBreak, IsInline, Trim, FirstInk;
    if IsProvenance(line) { assert line == "provenance:" + line[11..]; }
    if value :| NoBreak(value) && line == "provenance:" + value {
      assert line[..11] == "provenance:" && line[11..] == value;
    }
    forall value | line == "provenance:" + value && IsProvenance(line)
      ensures InlineBlock(line) <==> exists c :: FirstInk(value, c) && c != '#'
    {
      assert line[11..] == value;
      InlineMeans(value);
    }
  }

  function KeyColon(kind: Kind): string {
    if kind == Review then "reviews:" else "revisions:"
  }

  /** `^(\s+)reviews:(.*)$` or `^(\s+)revisions:(.*)$`, with its two groups. */
  predicate KeyLine(line: string, kind: Kind, indent: string, value: string) {
    line == indent + KeyColon(kind) + value && indent != "" && AllSpace(indent) && NoBreak(value)
  }

  lemma KeyMeans(line: string, kind: Kind)
    ensures IsKey(line, ListKey(kind)) <==> exists indent, value :: KeyLine(line, kind, indent, value)
  {
    hide IsKey, KeyLine, ListKey;
    if IsKey(line, ListKey(kind)) { KeyTaken(line, kind); }
    if indent, value :| KeyLine(line, kind, indent, value) { KeyParts(line, kind, indent, value); }
  }

  lemma KeyTaken(line: string, kind: Kind)
    requires IsKey(line, ListKey(kind))
    ensures exists indent, value :: KeyLine(line, kind, indent, value)
  {
    hide IsSpace, NoBreak, AllSpace, SpaceRun, ListKey, KeyColon;
    var n := SpaceRun(line);
    var ink := line[n..];
    var m := |ListKey(kind)| + 1;
    KeyColonIs(kind);
    SpacesTaken(line);
    assert ink == ink[..m] + ink[m..];
    assert ink[m..] == line[n + m..];
    assert line == line[..n] + KeyColon(kind) + ink[m..];
    assert KeyLine(line, kind, line[..n], ink[m..]);
  }

  lemma RIsInk()
    ensures !IsSpace('r') && !IsSpace('-')
  {
  }

  lemma KeyParts(line: string, kind: Kind, indent: string, value: string)
    requires KeyLine(line, kind, indent, value)
    ensures IsKey(line, ListKey(kind)) && IndentOf(line) == indent && SpaceRun(line) == |indent|
    ensures KeyTrailing(line, ListKey(kind)) == Trim(value)
  {
    hide IsSpace, NoBreak, Trim, AllSpace, SpaceRun, ListKey, KeyColon;
    var key, ink := ListKey(kind), KeyColon(kind) + value;
    KeyColonIs(kind);
    RIsInk();
    assert line == indent + ink;
    SpaceRunOfIndented(indent, ink);
    assert line[|indent|..] == ink && ink[..|key| + 1] == key + ":";
    assert line[|indent| + |key| + 1..] == value;
  }

  lemma KeyColonIs(kind: Kind)
    ensures KeyColon(kind) == ListKey(kind) + ":" && KeyColon(kind)[0] == 'r'
  {
  }

  /** What the value says: `[]` is taken away, any other ink but a comment is refused. */
  lemma KeyValueMeans(line: string, kind: Kind, indent: string, value: string)
    requires KeyLine(line, kind, indent, value)
    ensures IsKey(line, ListKey(kind))
    ensures InlineList(line, ListKey(kind)) <==> !IsCore("[]", value) && exists c :: FirstInk(value, c) && c != '#'
    ensures BareHeader(line, ListKey(kind)) == if IsCore("[]", value) then indent + KeyColon(kind) else line
  {
    hide IsKey, KeyTrailing, Trim, IsCore, FirstInk, KeyLine;
    KeyParts(line, kind, indent, value);
    TrimExact(value, "[]");
    InlineMeans(value);
    assert indent + ListKey(kind) + ":" == indent + KeyColon(kind);
  }

  /** `^(\s+)-\s`, with its group. */
  lemma DashMeans(line: string, indent: string)
    ensures IsDash(line) && IndentOf(line) == indent <==>
            indent != "" && AllSpace(indent) && exists c, rest :: IsSpace(c) && line == indent + "-" + [c] + rest
  {
    hide IsSpace;
    RIsInk();
    if IsDash(line) && IndentOf(line) == indent {
      var n := SpaceRun(line);
      assert line == indent + "-" + [line[n + 1]] + line[n + 2..];
      forall i | 0 <= i < n ensures IsSpace(indent[i]) { assert IsSpace(line[i]); }
    }
    if indent != "" && AllSpace(indent) && exists c, rest :: IsSpace(c) && line == indent + "-" + [c] + rest {
      var c, rest :| IsSpace(c) && line == indent + "-" + [c] + rest;
      assert line == indent + ("-" + [c] + rest);
      SpaceRunOfIndented(indent, "-" + [c] + rest);
      assert line[|indent| + 1] == c;
    }
  }

  /** What ends a block: ink in the first column. */
  lemma LeavesMeans(line: string)
    ensures LeavesBlock(line) <==> line != "" && !IsSpace(line[0])
    ensures HasInk(line) <==> !AllSpace(line)
  {
    hide IsSpace;
    BlankMeans(line);
  }

  /** What ends a list: ink no deeper than its key. */
  lemma DedentsMeans(line: string, width: nat)
    ensures Dedents(line, width) <==>
            exists n :: 0 <= n <= width && n < |line| && AllSpace(line[..n]) && !IsSpace(line[n])
  {
    hide IsSpace;
    var n := SpaceRun(line);
    forall i | 0 <= i < n ensures IsSpace(line[..n][i]) { assert IsSpace(line[i]); }
    if m :| 0 <= m <= width && m < |line| && AllSpace(line[..m]) && !IsSpace(line[m]) {
      assert line == line[..m] + line[m..];
      SpaceRunOfIndented(line[..m], line[m..]);
    }
  }

  // ---------------------------------------------------------------------
  // Fields of entries
  // ---------------------------------------------------------------------

  /** The 63 characters of `\w` by code point. */
  predicate WordChar(c: char) {
    c as int in {
      0x30, 0x31, 0x32, 0x33, 0x34, 0x35, 0x36, 0x37, 0x38, 0x39,
      0x41, 0x42, 0x43, 0x44, 0x45, 0x46, 0x47, 0x48, 0x49, 0x4a, 0x4b, 0x4c, 0x4d,
      0x4e, 0x4f, 0x50, 0x51, 0x52, 0x53, 0x54, 0x55, 0x56, 0x57, 0x58, 0x59, 0x5a,
      0x5f, 0x61, 0x62, 0x63, 0x64, 0x65, 0x66, 0x67, 0x68, 0x69, 0x6a, 0x6b, 0x6c, 0x6d,
      0x6e, 0x6f, 0x70, 0x71, 0x72, 0x73, 0x74, 0x75, 0x76, 0x77, 0x78, 0x79, 0x7a}
  }

  lemma WordCharsAre(c: char)
    ensures IsWordChar(c) <==> WordChar(c)
  {
  }

  predicate Word(s: string) {
    s != "" && forall i | 0 <= i < |s| :: WordChar(s[i])
  }

  lemma WordIs(s: string)
    ensures IsWord(s) <==> Word(s)
  {
    hide IsWordChar, WordChar;
    forall i | 0 <= i < |s| ensures IsWordChar(s[i]) <==> WordChar(s[i]) { WordCharsAre(s[i]); }
  }

  /** The text is `\s+(\w+):\s*(.*)$` with these two groups. */
  ghost predicate SpacedField(s: string, key: string, raw: string) {
    && Word(key) && NoBreak(raw) && (raw != "" ==> !IsSpace(raw[0]))
    && exists gap, space :: s == gap + key + ":" + space + raw && gap != "" && AllSpace(gap) && AllSpace(space)
  }

  lemma WordRunIs(key: string, rest: string)
    requires IsWord(key)
    ensures WordRun(key + ":" + rest) == |key|
  {
    assert key + ":" + rest == key + (":" + rest);
    WordRunOfKey(key, rest);
  }

  lemma FieldIs(s: string, key: string, space: string, raw: string)
    requires s == key + ":" + space + raw && IsWord(key) && AllSpace(space) && (raw != "" ==> !IsSpace(raw[0]))
    ensures MatchField(s) == if NoBreak(raw) then Some(Field(key, raw)) else None
  {
    hide *;
    ThreeParts(key, space, raw);
    WordRunIs(key, space + raw);
    WordIsText(key);
    SpacesThen(space, raw);
    MatchFieldWith(s, key, space + raw, |space|, raw);
  }

  lemma ThreeParts(key: string, space: string, raw: string)
    ensures key + ":" + space + raw == key + ":" + (space + raw)
    ensures (space + raw)[|space|..] == raw
    ensures var s := key + ":" + space + raw;
            |s| > |key| && s[..|key|] == key && s[|key|] == ':' && s[|key| + 1..] == space + raw
  {
    hide *;
  }

  lemma MatchFieldWith(s: string, key: string, after: string, m: nat, raw: string)
    requires WordRun(s) == |key| && 0 < |key| < |s| && s[..|key|] == key && s[|key|] == ':' && s[|key| + 1..] == after
    requires SpaceRun(after) == m && after[m..] == raw
    ensures MatchField(s) == if NoBreak(raw) then Some(Field(key, raw)) else None
  {
    hide NoBreak, WordRun, SpaceRun, IsWordChar, IsSpace;
  }

  lemma WordIsText(key: string)
    requires IsWord(key)
    ensures key != "" && !IsSpace(key[0])
  {
    assert IsWordChar(key[0]);
  }

  lemma SpacesThen(space: string, raw: string)
    requires AllSpace(space) && (raw != "" ==> !IsSpace(raw[0]))
    ensures SpaceRun(space + raw) == |space|
  {
    hide IsSpace;
    if raw == "" {
      assert space + raw == space;
      BlankMeans(space);
    } else {
      SpaceRunOfIndented(space, raw);
    }
  }

  lemma SpacesTaken(s: string)
    ensures AllSpace(s[..SpaceRun(s)]) && s == s[..SpaceRun(s)] + s[SpaceRun(s)..]
  {
    hide IsSpace;
    var gap := s[..SpaceRun(s)];
    forall i | 0 <= i < |gap| ensures IsSpace(gap[i]) { assert IsSpace(s[i]); }
  }

  lemma WordTaken(s: string)
    requires WordRun(s) > 0
    ensures IsWord(s[..WordRun(s)])
  {
    hide IsWordChar;
    var key := s[..WordRun(s)];
    forall i | 0 <= i < |key| ensures IsWordChar(key[i]) { assert IsWordChar(s[i]); }
  }

  lemma PartsJoin(s: string, n: nat, m: nat)
    requires n < |s| && s[n] == ':' && m <= |s| - n - 1
    ensures s == s[..n] + ":" + s[n + 1..][..m] + s[n + 1..][m..]
  {
    hide *;
  }

  lemma MatchFieldIs(s: string, n: nat, after: string, f: Field)
    requires MatchField(s) == Some(f) && n == WordRun(s) && after == if n < |s| then s[n + 1..] else ""
    ensures 0 < n < |s| && s[n] == ':' && f == Field(s[..n], after[SpaceRun(after)..]) && NoBreak(f.raw)
  {
    hide NoBreak, WordRun, SpaceRun, IsWordChar, IsSpace;
  }

  lemma FieldParts(s: string, f: Field)
    requires MatchField(s) == Some(f)
    ensures IsWord(f.key) && NoBreak(f.raw) && (f.raw != "" ==> !IsSpace(f.raw[0]))
    ensures exists space :: AllSpace(space) && s == f.key + ":" + space + f.raw
  {
    hide *;
    var n := WordRun(s);
    var after := if n < |s| then s[n + 1..] else "";
    MatchFieldIs(s, n, after, f);
    WordTaken(s);
    SpacesTaken(after);
    PartsJoin(s, n, SpaceRun(after));
    assert f.raw != "" ==> f.raw[0] == after[SpaceRun(after)];
  }

  lemma SpacedFieldParts(s: string, f: Field)
    requires MatchSpacedField(s) == Some(f)
    ensures SpacedField(s, f.key, f.raw)
  {
    hide IsSpace, NoBreak, IsWord, Word, MatchField, AllSpace, SpaceRun;
    WordIs(f.key);
    var gap, ink := s[..SpaceRun(s)], s[SpaceRun(s)..];
    FieldParts(ink, f);
    SpacesTaken(s);
    var space :| AllSpace(space) && ink == f.key + ":" + space + f.raw;
    FourParts(gap, f.key, space, f.raw);
    assert gap != "";
  }

  lemma FourParts(gap: string, key: string, space: string, raw: string)
    ensures gap + (key + ":" + space + raw) == gap + key + ":" + space + raw
  {
    hide *;
  }

  lemma SpacedFieldMatches(s: string, f: Field)
    requires SpacedField(s, f.key, f.raw)
    ensures MatchSpacedField(s) == Some(f)
  {
    hide IsSpace, NoBreak, IsWord, Word, MatchField, AllSpace;
    WordIs(f.key);
    var gap, space :| s == gap + f.key + ":" + space + f.raw && gap != "" && AllSpace(gap) && AllSpace(space);
    var ink := f.key + ":" + space + f.raw;
    assert s == gap + ink;
    WordIsText(f.key);
    assert ink[0] == f.key[0];
    SpaceRunOfIndented(gap, ink);
    assert s[|gap|..] == ink;
    FieldIs(ink, f.key, space, f.raw);
  }

  lemma SpacedFieldMeans(s: string, f: Field)
    ensures MatchSpacedField(s) == Some(f) <==> SpacedField(s, f.key, f.raw)
  {
    hide MatchSpacedField, SpacedField;
    if MatchSpacedField(s) == Some(f) { SpacedFieldParts(s, f); }
    if SpacedField(s, f.key, f.raw) { SpacedFieldMatches(s, f); }
  }

  /** The line opens an item under the indentation: `^indent-\s+(\w+):\s*(.*)$`. */
  ghost predicate OpensItem(line: string, indent: string, key: string, raw: string) {
    exists s :: line == indent + "-" + s && SpacedField(s, key, raw)
  }

  /** It goes on with one: `^indent\s+(\w+):\s*(.*)$`. */
  ghost predicate GoesOn(line: string, indent: string, key: string, raw: string) {
    exists s :: line == indent + s && SpacedField(s, key, raw)
  }

  lemma ItemMeans(line: string, indent: string, f: Field)
    ensures MatchItem(line, indent) == Some(f) <==> OpensItem(line, indent, f.key, f.raw)
    ensures MatchCont(line, indent) == Some(f) <==> GoesOn(line, indent, f.key, f.raw)
  {
    hide MatchSpacedField, SpacedField;
    forall s ensures MatchSpacedField(s) == Some(f) <==> SpacedField(s, f.key, f.raw) { SpacedFieldMeans(s, f); }
    StartsMeans(line, indent + "-");
    StartsMeans(line, indent);
    if StartsWith(line, indent + "-") { assert line == indent + "-" + line[|indent| + 1..]; }
    if StartsWith(line, indent) { assert line == indent + line[|indent|..]; }
    if s :| line == indent + "-" + s && SpacedField(s, f.key, f.raw) {
      assert line == (indent + "-") + s && line[|indent| + 1..] == s;
    }
    if s :| line == indent + s && SpacedField(s, f.key, f.raw) { assert line[|indent|..] == s; }
  }

  /** What the parser does with a line: it opens an entry, sets a field of the newest one, or nothing. */
  lemma AbsorbMeans(entries: seq<Entry>, line: string, indent: string, key: string, raw: string)
    ensures OpensItem(line, indent, key, raw) ==> Absorb(entries, line, indent) == entries + [map[key := Unquote(raw)]]
    ensures GoesOn(line, indent, key, raw) && (forall k, r :: !OpensItem(line, indent, k, r)) ==>
              Absorb(entries, line, indent) ==
              if entries == [] then []
              else entries[..|entries| - 1] + [entries[|entries| - 1][key := Unquote(raw)]]
    ensures (forall k, r :: !OpensItem(line, indent, k, r) && !GoesOn(line, indent, k, r)) ==>
              Absorb(entries, line, indent) == entries
  {
    hide MatchItem, MatchCont, OpensItem, GoesOn, Unquote;
    ItemMeans(line, indent, Field(key, raw));
    if MatchItem(line, indent).Some? {
      var f := MatchItem(line, indent).value;
      ItemMeans(line, indent, f);
      assert OpensItem(line, indent, f.key, f.raw);
    }
    if MatchCont(line, indent).Some? {
      var f := MatchCont(line, indent).value;
      ItemMeans(line, indent, f);
      assert GoesOn(line, indent, f.key, f.raw);
    }
  }
}
