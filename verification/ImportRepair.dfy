/** `repair_schema_imports.py`: the orphaned tails of multi-line barrel imports, indented names down
    to a closing parenthesis, are replaced by imports from the modules that define the names. */
module ImportRepair {
  import opened Collections
  import opened Text
  import opened ImportRewriter

  // ----- lines -----

  /** The lines of a text, each with the line break that ends it. */
  function LinesOf(text: string): seq<string> {
    if text == "" then []
    else
      var rest := LinesOf(text[1..]);
      if text[0] == '\n' then ["\n"] + rest
      else if rest == [] then [[text[0]]]
      else [[text[0]] + rest[0]] + rest[1..]
  }

  function Concat(lines: seq<string>): string {
    if lines == [] then "" else lines[0] + Concat(lines[1..])
  }

  predicate IsLine(l: string) {
    l != "" && Lacks(l[..|l| - 1], '\n')
  }

  predicate Ended(l: string) {
    IsLine(l) && l[|l| - 1] == '\n'
  }

  /** Lines as a text has them: all but the last end in a line break. */
  predicate AreLines(lines: seq<string>) {
    lines == [] || (IsLine(lines[0]) && (|lines| > 1 ==> Ended(lines[0])) && AreLines(lines[1..]))
  }

  lemma {:induction false} LinesMakeText(text: string)
    ensures AreLines(LinesOf(text)) && Concat(LinesOf(text)) == text
  {
    if text != "" {
      LinesMakeText(text[1..]);
      var rest := LinesOf(text[1..]);
      assert text == [text[0]] + text[1..];
      if text[0] != '\n' && rest != [] {
        LongerLine(text[0], rest[0]);
        assert ([[text[0]] + rest[0]] + rest[1..])[1..] == rest[1..];
      } else if text[0] != '\n' {
        assert text[1..] == "";
      }
    }
  }

  lemma LongerLine(c: char, l: string)
    requires IsLine(l) && c != '\n'
    ensures IsLine([c] + l) && (Ended(l) ==> Ended([c] + l))
  {
    assert ([c] + l)[..|l|] == [c] + l[..|l| - 1];
  }

  lemma {:induction false} FirstLine(l: string, text: string)
    requires Ended(l)
    ensures LinesOf(l + text) == [l] + LinesOf(text)
  {
    if |l| == 1 {
      assert l == "\n" && (l + text)[1..] == text;
    } else {
      var rest := l[1..];
      assert (l + text)[1..] == rest + text && l == [l[0]] + rest;
      assert l[..|l| - 1][0] == l[0];
      assert rest[..|rest| - 1] == l[..|l| - 1][1..];
      FirstLine(rest, text);
    }
  }

  lemma {:induction false} OnlyLine(l: string)
    requires IsLine(l)
    ensures LinesOf(l) == [l]
  {
    if |l| > 1 {
      assert l[..|l| - 1][0] == l[0] && l == [l[0]] + l[1..];
      assert l[1..][..|l[1..]| - 1] == l[..|l| - 1][1..];
      OnlyLine(l[1..]);
    } else {
      assert l[1..] == "" && l == [l[0]];
    }
  }

  lemma {:induction false} LinesOfConcat(lines: seq<string>)
    requires AreLines(lines)
    ensures LinesOf(Concat(lines)) == lines
  {
    if |lines| == 1 {
      assert Concat(lines) == lines[0] + "" == lines[0];
      OnlyLine(lines[0]);
    } else if |lines| > 1 {
      LinesOfConcat(lines[1..]);
      FirstLine(lines[0], Concat(lines[1..]));
    }
  }

  lemma {:induction false} ConcatAppend(a: seq<string>, b: seq<string>)
    ensures Concat(a + b) == Concat(a) + Concat(b)
  {
    if a == [] {
      assert a + b == b;
    } else {
      assert (a + b)[1..] == a[1..] + b;
      ConcatAppend(a[1..], b);
    }
  }

  // ----- the pattern -----

  /** `[ \t]` */
  predicate IsBlank(c: char) {
    c == ' ' || c == '\t'
  }

  function SkipBlanks(s: string): string {
    if s != "" && IsBlank(s[0]) then SkipBlanks(s[1..]) else s
  }

  predicate IsNameChar(c: char) {
    'A' <= c <= 'Z' || 'a' <= c <= 'z' || '0' <= c <= '9' || c == '_'
  }

  /** `[A-Za-z0-9_]*` at the start of `s`, taken greedily. */
  function NameAt(s: string): string {
    if s != "" && IsNameChar(s[0]) then [s[0]] + NameAt(s[1..]) else ""
  }

  function DropName(s: string): string {
    if s != "" && IsNameChar(s[0]) then DropName(s[1..]) else s
  }

  /** `[ \t]*\r?\n`, and nothing after it on the line. */
  predicate IsLineEnd(s: string) {
    SkipBlanks(s) == "\n" || SkipBlanks(s) == "\r\n"
  }

  function DropComma(s: string): string {
    if s != "" && s[0] == ',' then s[1..] else s
  }

  /** An indented capitalised name, perhaps with a comma, alone on its line. */
  predicate IsNameLine(l: string) {
    && l != "" && IsBlank(l[0])
    && var s := SkipBlanks(l);
       s != "" && 'A' <= s[0] <= 'Z' && IsLineEnd(DropComma(DropName(s)))
  }

  /** A closing parenthesis alone on its line. */
  predicate IsCloseLine(l: string) {
    l != "" && l[0] == ')' && IsLineEnd(l[1..])
  }

  /** How many name lines come first. */
  function Names(lines: seq<string>): nat
    ensures Names(lines) <= |lines|
  {
    if lines == [] || !IsNameLine(lines[0]) then 0 else 1 + Names(lines[1..])
  }

  /** The lines after the leading name lines begin with a closing parenthesis. */
  predicate Closes(lines: seq<string>) {
    Names(lines) < |lines| && IsCloseLine(lines[Names(lines)])
  }

  /** The pattern matches at the first line: it takes the name lines and the closing line. */
  predicate OrphanAt(lines: seq<string>) {
    Names(lines) > 0 && Closes(lines)
  }

  /** `re.findall(...)` on the matched lines: the name of each name line. */
  function Symbols(lines: seq<string>): seq<string> {
    Map(lines[..Names(lines)], SymbolOf)
  }

  function SymbolOf(l: string): string {
    NameAt(SkipBlanks(l))
  }

  // ----- what the pattern means -----

  ghost predicate Blanks(s: string) {
    forall i :: 0 <= i < |s| ==> s[i] == ' ' || s[i] == '\t'
  }

  /** A class name: a capital letter, then letters, digits and underscores. */
  ghost predicate IsCapitalised(s: string) {
    && s != "" && 'A' <= s[0] <= 'Z'
    && forall i :: 0 <= i < |s| ==> 'A' <= s[i] <= 'Z' || 'a' <= s[i] <= 'z' || '0' <= s[i] <= '9' || s[i] == '_'
  }

  /** The line is indented, holds the name, perhaps a comma, perhaps blanks, and ends. */
  ghost predicate Spells(l: string, lead: string, name: string, comma: string, trail: string, end: string) {
    && l == lead + name + comma + trail + end
    && lead != "" && Blanks(lead) && IsCapitalised(name) && (comma == "" || comma == ",")
    && Blanks(trail) && (end == "\n" || end == "\r\n")
  }

  lemma {:induction false} BlanksThen(lead: string, rest: string)
    requires Blanks(lead) && (rest != "" ==> !IsBlank(rest[0]))
    ensures SkipBlanks(lead + rest) == rest
  {
    if lead == "" {
      assert lead + rest == rest;
    } else {
      BlanksThen(lead[1..], rest);
      assert (lead + rest)[1..] == lead[1..] + rest;
    }
  }

  lemma {:induction false} LeadingBlanks(s: string) returns (lead: string)
    ensures s == lead + SkipBlanks(s) && Blanks(lead)
    ensures SkipBlanks(s) != "" ==> !IsBlank(SkipBlanks(s)[0])
  {
    if s != "" && IsBlank(s[0]) {
      lead := LeadingBlanks(s[1..]);
      lead := [s[0]] + lead;
      assert s == [s[0]] + s[1..];
    } else {
      lead := "";
      assert s == "" + s;
    }
  }

  lemma {:induction false} NameThen(name: string, rest: string)
    requires forall i :: 0 <= i < |name| ==> IsNameChar(name[i])
    requires rest != "" ==> !IsNameChar(rest[0])
    ensures NameAt(name + rest) == name && DropName(name + rest) == rest
  {
    if name == "" {
      assert name + rest == rest;
    } else {
      NameThen(name[1..], rest);
      assert (name + rest)[1..] == name[1..] + rest;
      assert name == [name[0]] + name[1..];
    }
  }

  lemma {:induction false} NameAndRest(s: string)
    ensures s == NameAt(s) + DropName(s) && forall i :: 0 <= i < |NameAt(s)| ==> IsNameChar(NameAt(s)[i])
  {
    if s != "" && IsNameChar(s[0]) {
      NameAndRest(s[1..]);
      assert s == [s[0]] + s[1..];
    }
  }

  lemma LineEndIff(s: string)
    ensures IsLineEnd(s) <==> exists trail, end :: s == trail + end && Blanks(trail) && (end == "\n" || end == "\r\n")
  {
    if IsLineEnd(s) {
      var trail := LeadingBlanks(s);
      assert s == trail + SkipBlanks(s);
    }
    if trail, end :| s == trail + end && Blanks(trail) && (end == "\n" || end == "\r\n") {
      BlanksThen(trail, end);
    }
  }

  lemma SpelledIsNameLine(l: string, lead: string, name: string, comma: string, trail: string, end: string)
    requires Spells(l, lead, name, comma, trail, end)
    ensures IsNameLine(l) && SymbolOf(l) == name
  {
    var rest := comma + trail + end;
    assert l == lead + (name + rest);
    BlanksThen(lead, name + rest);
    assert rest == comma + (trail + end);
    NameThen(name, rest);
    LineEndIff(trail + end);
    assert DropComma(rest) == trail + end;
  }

  lemma FiveParts(l: string, lead: string, s: string, name: string, rest: string, comma: string, tail: string,
                  trail: string, end: string)
    requires l == lead + s && s == name + rest && rest == comma + tail && tail == trail + end
    ensures l == lead + name + comma + trail + end
  {
  }

  lemma CommaAndTail(rest: string) returns (comma: string)
    ensures rest == comma + DropComma(rest) && (comma == "" || comma == ",")
  {
    if rest != "" && rest[0] == ',' {
      comma := ",";
    } else {
      comma := "";
      assert rest == "" + rest;
    }
  }

  lemma TrailAndEnd(tail: string) returns (trail: string, end: string)
    requires IsLineEnd(tail)
    ensures tail == trail + end && Blanks(trail) && (end == "\n" || end == "\r\n")
  {
    LineEndIff(tail);
    trail, end :| tail == trail + end && Blanks(trail) && (end == "\n" || end == "\r\n");
  }

  lemma NameLineSpells(l: string) returns (lead: string, comma: string, trail: string, end: string)
    requires IsNameLine(l)
    ensures Spells(l, lead, SymbolOf(l), comma, trail, end)
  {
    lead := LeadingBlanks(l);
    var s := SkipBlanks(l);
    assert lead != "" by {
      assert !IsBlank(s[0]);
    }
    NameAndRest(s);
    comma := CommaAndTail(DropName(s));
    trail, end := TrailAndEnd(DropComma(DropName(s)));
    FiveParts(l, lead, s, NameAt(s), DropName(s), comma, DropComma(DropName(s)), trail, end);
  }

  /** A line is one of the pattern's name lines, with this name captured, exactly when it is spelled so. */
  lemma NameLineIff(l: string, name: string)
    ensures (IsNameLine(l) && SymbolOf(l) == name)
       <==> exists lead, comma, trail, end :: Spells(l, lead, name, comma, trail, end)
  {
    if IsNameLine(l) && SymbolOf(l) == name {
      var lead, comma, trail, end := NameLineSpells(l);
      assert Spells(l, lead, name, comma, trail, end);
    }
    if lead, comma, trail, end :| Spells(l, lead, name, comma, trail, end) {
      SpelledIsNameLine(l, lead, name, comma, trail, end);
    }
  }

  /** The closing line is a parenthesis, perhaps blanks, and the line's end. */
  lemma CloseLineIff(l: string)
    ensures IsCloseLine(l)
       <==> exists trail, end :: l == ")" + (trail + end) && Blanks(trail) && (end == "\n" || end == "\r\n")
  {
    if IsCloseLine(l) {
      LineEndIff(l[1..]);
      var trail, end :| l[1..] == trail + end && Blanks(trail) && (end == "\n" || end == "\r\n");
      assert l == ")" + (trail + end);
    }
    if trail, end :| l == ")" + (trail + end) && Blanks(trail) && (end == "\n" || end == "\r\n") {
      assert l[1..] == trail + end;
      LineEndIff(l[1..]);
    }
  }

  /** There are `n` name lines, at least one, and then a closing line. */
  ghost predicate IsTail(lines: seq<string>, n: nat) {
    && 0 < n < |lines| && IsCloseLine(lines[n])
    && forall i :: 0 <= i < n ==> IsNameLine(lines[i])
  }

  lemma {:induction false} NamesUpTo(lines: seq<string>, n: nat)
    requires n < |lines| && IsCloseLine(lines[n]) && forall i :: 0 <= i < n ==> IsNameLine(lines[i])
    ensures Names(lines) == n
  {
    if n > 0 {
      NamesUpTo(lines[1..], n - 1);
    }
  }

  lemma {:induction false} NamesAreNames(lines: seq<string>)
    ensures forall i :: 0 <= i < Names(lines) ==> IsNameLine(lines[i])
  {
    if lines != [] && IsNameLine(lines[0]) {
      NamesAreNames(lines[1..]);
    }
  }

  /** A match starts at the first line exactly when an orphaned tail does; it takes its name lines and its
      closing line, and its symbols are the names in order. */
  lemma OrphanIff(lines: seq<string>, n: nat)
    ensures IsTail(lines, n) <==> OrphanAt(lines) && Names(lines) == n
    ensures IsTail(lines, n) ==>
              |Symbols(lines)| == n && forall i :: 0 <= i < n ==> Symbols(lines)[i] == SymbolOf(lines[i])
  {
    NamesAreNames(lines);
    if IsTail(lines, n) {
      NamesUpTo(lines, n);
    }
  }

  /** The search finds a match exactly when an orphaned tail starts at some line. */
  lemma {:induction false} HasOrphanIff(lines: seq<string>)
    ensures HasOrphan(lines) <==> exists k, n :: 0 <= k <= |lines| && IsTail(lines[k..], n)
  {
    if lines == [] {
      assert forall k :: 0 <= k <= |lines| ==> lines[k..] == [];
    } else {
      HasOrphanIff(lines[1..]);
      OrphanIff(lines, Names(lines));
      assert lines[0..] == lines;
      forall k | 0 < k <= |lines|
        ensures lines[1..][k - 1..] == lines[k..]
      {
      }
      if OrphanAt(lines) {
        assert IsTail(lines[0..], Names(lines));
      } else if HasOrphan(lines[1..]) {
        var k, n :| 0 <= k <= |lines[1..]| && IsTail(lines[1..][k..], n);
        assert lines[k + 1..] == lines[1..][k..];
        assert IsTail(lines[k + 1..], n);
      }
      if k, n :| 0 <= k <= |lines| && IsTail(lines[k..], n) {
        OrphanIff(lines[k..], n);
        if k > 0 {
          assert IsTail(lines[1..][k - 1..], n);
        }
      }
    }
  }

  // ----- the repair -----

  /** `_replace_block`: the text an orphaned tail of names is replaced by. */
  method ReplaceBlock(block: string, symbols: seq<string>, symbolModules: map<string, string>) returns (r: string)
    ensures r == Repaired(block, symbols, symbolModules)
  {
    if symbols == [] || !AllKnown(symbols, symbolModules) {
      return block;
    }
    var grouped := GroupSymbols(symbols, symbolModules);
    return PrintLines(SortedLines(grouped)) + "\n";
  }

  function Repaired(block: string, symbols: seq<string>, symbolModules: map<string, string>): string {
    if symbols == [] || !AllKnown(symbols, symbolModules) then block
    else PrintLines(Lines(symbols, symbolModules)) + "\n"
  }

  function PrintEnded(l: ImportLine): string {
    PrintLine(l) + "\n"
  }

  /** The lines the match at the first line is replaced by. */
  function Replaced(lines: seq<string>, symbolModules: map<string, string>): seq<string>
    requires OrphanAt(lines)
  {
    if AllKnown(Symbols(lines), symbolModules) then Map(Lines(Symbols(lines), symbolModules), PrintEnded)
    else lines[..Names(lines) + 1]
  }

  /** `ORPHAN_BLOCK.sub(...)`: the left-most match first, then the lines after it. */
  function Repair(lines: seq<string>, symbolModules: map<string, string>): seq<string> {
    if lines == [] then []
    else if OrphanAt(lines) then Replaced(lines, symbolModules) + Repair(lines[Names(lines) + 1..], symbolModules)
    else [lines[0]] + Repair(lines[1..], symbolModules)
  }

  /** `ORPHAN_BLOCK.search(...)` */
  predicate HasOrphan(lines: seq<string>) {
    lines != [] && (OrphanAt(lines) || HasOrphan(lines[1..]))
  }

  function RepairText(text: string, symbolModules: map<string, string>): string {
    Concat(Repair(LinesOf(text), symbolModules))
  }

  lemma {:induction false} PrintedText(lines: seq<ImportLine>)
    requires lines != []
    ensures Concat(Map(lines, PrintEnded)) == PrintLines(lines) + "\n"
  {
    var ended, printed := Map(lines, PrintEnded), Map(lines, PrintLine);
    assert ended[1..] == Map(lines[1..], PrintEnded) && printed[1..] == Map(lines[1..], PrintLine);
    if |lines| == 1 {
      assert Concat(ended) == ended[0] + "";
    } else {
      PrintedText(lines[1..]);
      assert Join(['\n'], printed) == printed[0] + ['\n'] + Join(['\n'], printed[1..]);
    }
  }

  lemma KnownText(symbols: seq<string>, symbolModules: map<string, string>)
    requires symbols != []
    ensures Concat(Map(Lines(symbols, symbolModules), PrintEnded)) == PrintLines(Lines(symbols, symbolModules)) + "\n"
  {
    NoLinesIff(symbols, symbolModules);
    PrintedText(Lines(symbols, symbolModules));
  }

  lemma ReplacedText(lines: seq<string>, symbolModules: map<string, string>)
    requires OrphanAt(lines)
    ensures Concat(Replaced(lines, symbolModules))
         == Repaired(Concat(lines[..Names(lines) + 1]), Symbols(lines), symbolModules)
  {
    assert Symbols(lines) != [];
    KnownText(Symbols(lines), symbolModules);
  }

  /** `_repair_file`: nothing is written without a match; otherwise every match has been replaced. */
  method RepairFile(text: string, symbolModules: map<string, string>) returns (written: Option<string>)
    ensures written == if HasOrphan(LinesOf(text)) then Some(RepairText(text, symbolModules)) else None
  {
    var lines := LinesOf(text);
    if !HasOrphan(lines) {
      return None;
    }
    var out := SubstituteAll(lines, symbolModules);
    return Some(out);
  }

  /** The substitution, match by match. */
  method SubstituteAll(lines: seq<string>, symbolModules: map<string, string>) returns (out: string)
    ensures out == Concat(Repair(lines, symbolModules))
  {
    out := "";
    var rest := lines;
    ghost var all := Concat(Repair(lines, symbolModules));
    while rest != []
      invariant out + Concat(Repair(rest, symbolModules)) == all
      decreases |rest|
    {
      var piece, count := RepairFirst(rest, symbolModules);
      assert (out + piece) + Concat(Repair(rest[count..], symbolModules)) == all;
      out := out + piece;
      rest := rest[count..];
    }
    assert out + "" == out;
  }

  /** The first line, or the match that starts there. */
  method RepairFirst(lines: seq<string>, symbolModules: map<string, string>) returns (piece: string, count: nat)
    requires lines != []
    ensures 0 < count <= |lines|
    ensures Concat(Repair(lines, symbolModules)) == piece + Concat(Repair(lines[count..], symbolModules))
  {
    if OrphanAt(lines) {
      count := Names(lines) + 1;
      piece := ReplaceBlock(Concat(lines[..count]), Symbols(lines), symbolModules);
      ReplacedText(lines, symbolModules);
      MatchFirst(lines, symbolModules);
    } else {
      count, piece := 1, lines[0];
    }
  }

  // ----- once is enough -----

  /** No match names known symbols only. */
  predicate NothingToRepair(lines: seq<string>, symbolModules: map<string, string>) {
    lines != [] ==>
      if OrphanAt(lines) then
        !AllKnown(Symbols(lines), symbolModules) && NothingToRepair(lines[Names(lines) + 1..], symbolModules)
      else NothingToRepair(lines[1..], symbolModules)
  }

  lemma PrintedIsNoName(l: ImportLine)
    ensures !IsNameLine(PrintEnded(l)) && !IsCloseLine(PrintEnded(l))
  {
    assert PrintEnded(l)[0] == 'f';
  }

  lemma KeptHead(lines: seq<string>, symbolModules: map<string, string>)
    requires lines != [] && !(OrphanAt(lines) && AllKnown(Symbols(lines), symbolModules))
    ensures var n := if OrphanAt(lines) then Names(lines) + 1 else 1;
            Repair(lines, symbolModules) == lines[..n] + Repair(lines[n..], symbolModules)
  {
  }

  lemma SameTail<T>(xs: seq<T>, n: nat, tail: seq<T>)
    requires n <= |xs|
    ensures xs[..n] + tail == xs <==> tail == xs[n..]
  {
    assert (xs[..n] + tail)[n..] == tail;
    assert xs[..n] + xs[n..] == xs;
  }

  /** The repair leaves a file alone exactly when there is nothing to repair. */
  lemma {:induction false} UnchangedIff(lines: seq<string>, symbolModules: map<string, string>)
    ensures Repair(lines, symbolModules) == lines <==> NothingToRepair(lines, symbolModules)
  {
    if lines != [] {
      if OrphanAt(lines) && AllKnown(Symbols(lines), symbolModules) {
        RepairedStartsAnew(lines, symbolModules);
      } else {
        var n := if OrphanAt(lines) then Names(lines) + 1 else 1;
        UnchangedIff(lines[n..], symbolModules);
        KeptHead(lines, symbolModules);
        SameTail(lines, n, Repair(lines[n..], symbolModules));
      }
    }
  }

  lemma RepairedStartsAnew(lines: seq<string>, symbolModules: map<string, string>)
    requires OrphanAt(lines) && AllKnown(Symbols(lines), symbolModules)
    ensures Repair(lines, symbolModules) != []
    ensures !IsNameLine(Repair(lines, symbolModules)[0]) && !IsCloseLine(Repair(lines, symbolModules)[0])
    ensures Repair(lines, symbolModules) != lines
  {
    NoLinesIff(Symbols(lines), symbolModules);
    PrintedIsNoName(Lines(Symbols(lines), symbolModules)[0]);
    assert IsNameLine(lines[0]);
  }

  /** Repairing never makes name lines run into a closing line. */
  lemma {:induction false} ClosesBefore(lines: seq<string>, symbolModules: map<string, string>)
    ensures Closes(Repair(lines, symbolModules)) ==> Closes(lines)
  {
    if lines != [] {
      if OrphanAt(lines) {
        if AllKnown(Symbols(lines), symbolModules) {
          RepairedStartsAnew(lines, symbolModules);
        }
      } else {
        ClosesBefore(lines[1..], symbolModules);
        ClosesTail(lines[0], lines[1..]);
        ClosesTail(lines[0], Repair(lines[1..], symbolModules));
        assert lines == [lines[0]] + lines[1..];
      }
    }
  }

  lemma ClosesTail(l: string, rest: seq<string>)
    ensures IsNameLine(l) ==> Names([l] + rest) == 1 + Names(rest) && (Closes([l] + rest) <==> Closes(rest))
    ensures !IsNameLine(l) ==> Names([l] + rest) == 0 && (Closes([l] + rest) <==> IsCloseLine(l))
  {
    assert ([l] + rest)[1..] == rest;
  }

  /** A match is found again whatever follows its closing line. */
  lemma {:induction false} SameMatch(lines: seq<string>, rest: seq<string>)
    requires Closes(lines)
    ensures var block := lines[..Names(lines) + 1];
            Names(block + rest) == Names(lines) && Closes(block + rest)
  {
    var block := lines[..Names(lines) + 1];
    if Names(lines) > 0 {
      SameMatch(lines[1..], rest);
      assert block[1..] == lines[1..][..Names(lines[1..]) + 1];
      assert (block + rest)[1..] == block[1..] + rest;
    }
  }

  lemma SkipLine(l: string, rest: seq<string>, symbolModules: map<string, string>)
    requires !IsNameLine(l) && NothingToRepair(rest, symbolModules)
    ensures NothingToRepair([l] + rest, symbolModules)
  {
    assert ([l] + rest)[1..] == rest;
  }

  lemma {:induction false} PrintedNeedNoRepair(printed: seq<ImportLine>, rest: seq<string>,
                                               symbolModules: map<string, string>)
    requires NothingToRepair(rest, symbolModules)
    ensures NothingToRepair(Map(printed, PrintEnded) + rest, symbolModules)
  {
    if printed == [] {
      assert Map(printed, PrintEnded) + rest == rest;
    } else {
      var more := Map(printed[1..], PrintEnded) + rest;
      PrintedIsNoName(printed[0]);
      PrintedNeedNoRepair(printed[1..], rest, symbolModules);
      SkipLine(PrintEnded(printed[0]), more, symbolModules);
      assert Map(printed, PrintEnded) + rest == [PrintEnded(printed[0])] + more;
    }
  }

  lemma SameSymbols(lines: seq<string>, rest: seq<string>)
    requires Closes(lines)
    ensures Symbols(lines[..Names(lines) + 1] + rest) == Symbols(lines)
  {
    SameMatch(lines, rest);
    assert (lines[..Names(lines) + 1] + rest)[..Names(lines)] == lines[..Names(lines)];
  }

  lemma UnknownNeedsNoRepair(lines: seq<string>, rest: seq<string>, symbolModules: map<string, string>)
    requires OrphanAt(lines) && !AllKnown(Symbols(lines), symbolModules) && NothingToRepair(rest, symbolModules)
    ensures NothingToRepair(lines[..Names(lines) + 1] + rest, symbolModules)
  {
    SameMatch(lines, rest);
    SameSymbols(lines, rest);
    assert (lines[..Names(lines) + 1] + rest)[Names(lines) + 1..] == rest;
  }

  lemma {:induction false} RepairedNeedsNoRepair(lines: seq<string>, symbolModules: map<string, string>)
    ensures NothingToRepair(Repair(lines, symbolModules), symbolModules)
  {
    if lines != [] {
      if OrphanAt(lines) {
        var rest := lines[Names(lines) + 1..];
        RepairedNeedsNoRepair(rest, symbolModules);
        if AllKnown(Symbols(lines), symbolModules) {
          PrintedNeedNoRepair(Lines(Symbols(lines), symbolModules), Repair(rest, symbolModules), symbolModules);
        } else {
          UnknownNeedsNoRepair(lines, Repair(rest, symbolModules), symbolModules);
        }
      } else {
        var out := Repair(lines[1..], symbolModules);
        RepairedNeedsNoRepair(lines[1..], symbolModules);
        ClosesBefore(lines[1..], symbolModules);
        ClosesTail(lines[0], lines[1..]);
        ClosesTail(lines[0], out);
        assert lines == [lines[0]] + lines[1..] && ([lines[0]] + out)[1..] == out;
      }
    }
  }

  // ----- texts -----

  lemma {:induction false} ReplacedAreLines(printed: seq<ImportLine>, rest: seq<string>)
    requires forall i :: 0 <= i < |printed| ==> Printable(printed[i])
    requires AreLines(rest)
    ensures AreLines(Map(printed, PrintEnded) + rest)
  {
    var lines := Map(printed, PrintEnded);
    if printed == [] {
      assert lines + rest == rest;
    } else {
      PrintedLine(printed[0]);
      assert PrintEnded(printed[0])[..|PrintEnded(printed[0])| - 1] == PrintLine(printed[0]);
      ReplacedAreLines(printed[1..], rest);
      assert (lines + rest)[1..] == Map(printed[1..], PrintEnded) + rest;
    }
  }

  lemma {:induction false} KeptAreLines(lines: seq<string>, n: nat, rest: seq<string>)
    requires AreLines(lines) && n <= |lines| && AreLines(rest)
    requires forall i :: 0 <= i < n ==> Ended(lines[i])
    ensures AreLines(lines[..n] + rest) && AreLines(lines[n..])
  {
    if n == 0 {
      assert lines[..0] + rest == rest && lines[0..] == lines;
    } else {
      KeptAreLines(lines[1..], n - 1, rest);
      assert (lines[..n] + rest)[1..] == lines[1..][..n - 1] + rest;
      assert lines[1..][n - 1..] == lines[n..];
    }
  }

  lemma {:induction false} SkipBlanksEnd(s: string)
    ensures SkipBlanks(s) != "" ==> s != "" && s[|s| - 1] == SkipBlanks(s)[|SkipBlanks(s)| - 1]
  {
    if s != "" && IsBlank(s[0]) {
      SkipBlanksEnd(s[1..]);
    }
  }

  lemma {:induction false} DropNameEnd(s: string)
    ensures DropName(s) != "" ==> s != "" && s[|s| - 1] == DropName(s)[|DropName(s)| - 1]
  {
    if s != "" && IsNameChar(s[0]) {
      DropNameEnd(s[1..]);
    }
  }

  lemma MatchedLineEnds(l: string)
    requires IsLine(l) && (IsNameLine(l) || IsCloseLine(l))
    ensures Ended(l)
  {
    if IsNameLine(l) {
      var s := SkipBlanks(l);
      SkipBlanksEnd(DropComma(DropName(s)));
      DropNameEnd(s);
      SkipBlanksEnd(l);
    } else {
      SkipBlanksEnd(l[1..]);
    }
  }

  lemma {:induction false} LineAt(lines: seq<string>, i: nat)
    requires AreLines(lines) && i < |lines|
    ensures IsLine(lines[i])
  {
    if i > 0 {
      LineAt(lines[1..], i - 1);
    }
  }

  lemma {:induction false} NameAtLine(lines: seq<string>, i: nat)
    requires i < Names(lines)
    ensures IsNameLine(lines[i])
  {
    if i > 0 {
      NameAtLine(lines[1..], i - 1);
    }
  }

  lemma MatchEnds(lines: seq<string>)
    requires AreLines(lines) && Closes(lines)
    ensures forall i :: 0 <= i <= Names(lines) ==> Ended(lines[i])
  {
    forall i | 0 <= i <= Names(lines)
      ensures Ended(lines[i])
    {
      LineAt(lines, i);
      if i < Names(lines) {
        NameAtLine(lines, i);
      }
      MatchedLineEnds(lines[i]);
    }
  }

  lemma {:induction false} NameAtIsName(s: string)
    ensures forall i :: 0 <= i < |NameAt(s)| ==> IsNameChar(NameAt(s)[i])
  {
    if s != "" && IsNameChar(s[0]) {
      NameAtIsName(s[1..]);
    }
  }

  lemma CapitalisedIsName(s: string)
    requires s != "" && 'A' <= s[0] <= 'Z'
    ensures IsName(NameAt(s))
  {
    var name := NameAt(s);
    NameAtIsName(s);
    assert name == [s[0]] + NameAt(s[1..]);
    assert IsNameChar(name[|name| - 1]);
    forall i | 0 <= i < |name|
      ensures name[i] != ',' && name[i] != '\n'
    {
      assert IsNameChar(name[i]);
    }
  }

  /** What the pattern captures are names. */
  lemma SymbolsAreNames(lines: seq<string>)
    ensures AreNames(Symbols(lines))
  {
    forall i | 0 <= i < |Symbols(lines)|
      ensures IsName(Symbols(lines)[i])
    {
      NameAtLine(lines, i);
      CapitalisedIsName(SkipBlanks(lines[i]));
      assert Symbols(lines)[i] == SymbolOf(lines[i]);
    }
  }

  lemma {:induction false} RepairedAreLines(lines: seq<string>, symbolModules: map<string, string>)
    requires AreLines(lines) && PrintableModules(symbolModules)
    ensures AreLines(Repair(lines, symbolModules))
  {
    if lines != [] {
      if OrphanAt(lines) {
        MatchEnds(lines);
        KeptAreLines(lines, Names(lines) + 1, []);
        var rest := Repair(lines[Names(lines) + 1..], symbolModules);
        RepairedAreLines(lines[Names(lines) + 1..], symbolModules);
        if AllKnown(Symbols(lines), symbolModules) {
          SymbolsAreNames(lines);
          LinesPrint(Symbols(lines), symbolModules);
          ReplacedAreLines(Lines(Symbols(lines), symbolModules), rest);
        } else {
          KeptAreLines(lines, Names(lines) + 1, rest);
        }
      } else {
        RepairedAreLines(lines[1..], symbolModules);
        assert ([lines[0]] + Repair(lines[1..], symbolModules))[1..] == Repair(lines[1..], symbolModules);
        if |lines| == 1 {
          assert lines[1..] == [];
        }
      }
    }
  }

  /** Repairing a repaired file changes nothing. */
  lemma RepairTwice(text: string, symbolModules: map<string, string>)
    requires PrintableModules(symbolModules)
    ensures RepairText(RepairText(text, symbolModules), symbolModules) == RepairText(text, symbolModules)
  {
    var lines := LinesOf(text);
    LinesMakeText(text);
    RepairedAreLines(lines, symbolModules);
    LinesOfConcat(Repair(lines, symbolModules));
    RepairedNeedsNoRepair(lines, symbolModules);
    UnchangedIff(Repair(lines, symbolModules), symbolModules);
  }

  /** A file keeps its text exactly when each of its orphaned tails names an unknown symbol. */
  lemma TextUnchangedIff(text: string, symbolModules: map<string, string>)
    requires PrintableModules(symbolModules)
    ensures RepairText(text, symbolModules) == text <==> NothingToRepair(LinesOf(text), symbolModules)
  {
    var lines := LinesOf(text);
    LinesMakeText(text);
    RepairedAreLines(lines, symbolModules);
    LinesOfConcat(Repair(lines, symbolModules));
    UnchangedIff(lines, symbolModules);
  }

  // ----- bindings -----

  /** How often the tails with known symbols list `s`, if the symbol map assigns it to `m`. */
  function Restored(lines: seq<string>, symbolModules: map<string, string>, m: string, s: string): nat {
    if lines == [] then 0
    else if OrphanAt(lines) then
      (if AllKnown(Symbols(lines), symbolModules) then ListedIn(Symbols(lines), symbolModules, m, s) else 0)
      + Restored(lines[Names(lines) + 1..], symbolModules, m, s)
    else Restored(lines[1..], symbolModules, m, s)
  }

  lemma BindingsOfLine(l: string, text: string, m: string, s: string)
    requires Ended(l)
    ensures CountIn(l + text, m, s) == CountIn(l[..|l| - 1], m, s) + CountIn(text, m, s)
  {
    assert l + text == l[..|l| - 1] + ['\n'] + text;
    BindingsAtBreak(l[..|l| - 1], text, m, s);
  }

  lemma FromStartsWithF(t: string)
    requires StartsWith(t, "from ")
    ensures t[0] == 'f'
  {
    assert t[..5][0] == t[0];
  }

  lemma MatchedLineImportsNothing(l: string, m: string, s: string)
    requires Ended(l) && (IsNameLine(l) || IsCloseLine(l))
    ensures CountIn(l[..|l| - 1], m, s) == 0
  {
    var t := l[..|l| - 1];
    SplitLacks(t, '\n');
    assert t != "" ==> t[0] == l[0] != 'f';
    if StartsWith(t, "from ") {
      FromStartsWithF(t);
    }
    var lines := Map(Split(t, '\n'), ReadLine);
    assert lines == [ImportLine("", [])] && lines[..0] == [];
    assert NamesUnder(lines[..0], m) == [];
  }

  ghost predicate AreMatched(block: seq<string>) {
    forall l :: l in block ==> Ended(l) && (IsNameLine(l) || IsCloseLine(l))
  }

  lemma {:induction false} MatchImportsNothing(block: seq<string>, text: string, m: string, s: string)
    requires AreMatched(block)
    ensures CountIn(Concat(block) + text, m, s) == CountIn(text, m, s)
  {
    if block == [] {
      assert Concat(block) + text == text;
    } else {
      var rest := Concat(block[1..]) + text;
      MatchImportsNothing(block[1..], text, m, s);
      assert Concat(block) + text == block[0] + rest;
      BindingsOfLine(block[0], rest, m, s);
      MatchedLineImportsNothing(block[0], m, s);
    }
  }

  lemma ReplacedBindings(lines: seq<string>, text: string, symbolModules: map<string, string>, m: string, s: string)
    requires AreLines(lines) && OrphanAt(lines) && PrintableModules(symbolModules)
    ensures CountIn(Concat(Replaced(lines, symbolModules)) + text, m, s)
         == CountIn(text, m, s)
            + if AllKnown(Symbols(lines), symbolModules) then ListedIn(Symbols(lines), symbolModules, m, s) else 0
  {
    ReplacedText(lines, symbolModules);
    if AllKnown(Symbols(lines), symbolModules) {
      SymbolsAreNames(lines);
      var block := Block(0, 0, Symbols(lines));
      PieceBindings(block, symbolModules, m, s);
      assert Replacement(symbolModules)(block) == PrintLines(Lines(Symbols(lines), symbolModules));
      BindingsAtBreak(PrintLines(Lines(Symbols(lines), symbolModules)), text, m, s);
    } else {
      KeptMatchBindings(lines, text, m, s);
    }
  }

  lemma KeptMatchBindings(lines: seq<string>, text: string, m: string, s: string)
    requires AreLines(lines) && OrphanAt(lines)
    ensures CountIn(Concat(lines[..Names(lines) + 1]) + text, m, s) == CountIn(text, m, s)
  {
    MatchLines(lines);
    MatchImportsNothing(lines[..Names(lines) + 1], text, m, s);
  }

  lemma MatchLines(lines: seq<string>)
    requires AreLines(lines) && Closes(lines)
    ensures AreMatched(lines[..Names(lines) + 1])
  {
    MatchEnds(lines);
    forall l | l in lines[..Names(lines) + 1]
      ensures Ended(l) && (IsNameLine(l) || IsCloseLine(l))
    {
      var i :| 0 <= i <= Names(lines) && l == lines[i];
      if i < Names(lines) {
        NameAtLine(lines, i);
      }
    }
  }

  lemma MatchFirst(lines: seq<string>, symbolModules: map<string, string>)
    requires OrphanAt(lines)
    ensures Concat(lines) == Concat(lines[..Names(lines) + 1]) + Concat(lines[Names(lines) + 1..])
    ensures Concat(Repair(lines, symbolModules))
         == Concat(Replaced(lines, symbolModules)) + Concat(Repair(lines[Names(lines) + 1..], symbolModules))
  {
    CutConcat(lines, Names(lines) + 1);
    RepairUnfold(lines, symbolModules);
    ConcatAppend(Replaced(lines, symbolModules), Repair(lines[Names(lines) + 1..], symbolModules));
  }

  lemma RepairUnfold(lines: seq<string>, symbolModules: map<string, string>)
    requires OrphanAt(lines)
    ensures Repair(lines, symbolModules)
         == Replaced(lines, symbolModules) + Repair(lines[Names(lines) + 1..], symbolModules)
  {
  }

  lemma CutConcat(lines: seq<string>, n: nat)
    requires n <= |lines|
    ensures Concat(lines) == Concat(lines[..n]) + Concat(lines[n..])
  {
    var a, b := lines[..n], lines[n..];
    assert a + b == lines;
    ConcatAppend(a, b);
  }

  lemma MatchBindings(lines: seq<string>, symbolModules: map<string, string>, m: string, s: string)
    requires AreLines(lines) && OrphanAt(lines) && PrintableModules(symbolModules)
    requires var rest := lines[Names(lines) + 1..];
             CountIn(Concat(Repair(rest, symbolModules)), m, s)
             == CountIn(Concat(rest), m, s) + Restored(rest, symbolModules, m, s)
    ensures CountIn(Concat(Repair(lines, symbolModules)), m, s)
         == CountIn(Concat(lines), m, s) + Restored(lines, symbolModules, m, s)
  {
    var tail := lines[Names(lines) + 1..];
    MatchFirst(lines, symbolModules);
    ReplacedBindings(lines, Concat(Repair(tail, symbolModules)), symbolModules, m, s);
    KeptMatchBindings(lines, Concat(tail), m, s);
  }

  lemma {:induction false} LineBindings(lines: seq<string>, symbolModules: map<string, string>, m: string, s: string)
    requires AreLines(lines) && PrintableModules(symbolModules)
    ensures CountIn(Concat(Repair(lines, symbolModules)), m, s)
         == CountIn(Concat(lines), m, s) + Restored(lines, symbolModules, m, s)
  {
    if lines != [] {
      if OrphanAt(lines) {
        assert AreLines(lines[Names(lines) + 1..]) by {
          MatchEnds(lines);
          KeptAreLines(lines, Names(lines) + 1, []);
        }
        LineBindings(lines[Names(lines) + 1..], symbolModules, m, s);
        MatchBindings(lines, symbolModules, m, s);
      } else {
        LineBindings(lines[1..], symbolModules, m, s);
        if |lines| > 1 {
          BindingsOfLine(lines[0], Concat(lines[1..]), m, s);
          BindingsOfLine(lines[0], Concat(Repair(lines[1..], symbolModules)), m, s);
          assert ([lines[0]] + Repair(lines[1..], symbolModules))[1..] == Repair(lines[1..], symbolModules);
        } else {
          assert lines[1..] == [];
        }
      }
    }
  }

  /** The bindings of a repaired file: its own, plus each name of the tails whose names are all known,
      as often as listed, from the module the symbol map assigns to it. */
  lemma RepairedBindings(text: string, symbolModules: map<string, string>, m: string, s: string)
    requires PrintableModules(symbolModules)
    ensures CountIn(RepairText(text, symbolModules), m, s)
         == CountIn(text, m, s) + Restored(LinesOf(text), symbolModules, m, s)
  {
    LinesMakeText(text);
    LineBindings(LinesOf(text), symbolModules, m, s);
  }
}
