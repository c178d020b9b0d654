/** `migrate_schema_imports.py`: replacing barrel imports
    `from app.schemas import ...` by imports from the modules that define the names. */
module ImportRewriter {
  import opened Collections
  import opened Ordering
  import opened Grouping
  import opened Text

  // ----- reading names -----

  /** `[part.strip() for part in body.replace("\n", " ").split(",") if part.strip()]` */
  function ParseNames(body: string): seq<string> {
    StripAll(Split(Replace(body, '\n', ' '), ','))
  }

  function StripAll(parts: seq<string>): seq<string> {
    if parts == [] then []
    else if Strip(parts[0]) == "" then StripAll(parts[1..])
    else [Strip(parts[0])] + StripAll(parts[1..])
  }

  /** A name that survives being printed in a comma-separated list. */
  predicate IsName(s: string) {
    s != "" && Stripped(s) && Lacks(s, ',') && Lacks(s, '\n')
  }

  predicate AreNames(names: seq<string>) {
    forall i :: 0 <= i < |names| ==> IsName(names[i])
  }

  lemma {:induction false} StripAllNames(parts: seq<string>)
    requires forall i :: 0 <= i < |parts| ==> Lacks(parts[i], ',') && Lacks(parts[i], '\n')
    ensures AreNames(StripAll(parts))
  {
    if parts != [] {
      StripAllNames(parts[1..]);
      StripKeeps(parts[0], ',');
      StripKeeps(parts[0], '\n');
    }
  }

  /** Whatever the text between the parentheses, the parsed symbols are printable names. */
  lemma ParseYieldsNames(body: string)
    ensures AreNames(ParseNames(body))
  {
    var flat := Replace(body, '\n', ' ');
    SplitPartsLack(flat, ',', ',');
    SplitPartsLack(flat, ',', '\n');
    StripAllNames(Split(flat, ','));
  }

  lemma {:induction false} JoinLacksNewline(parts: seq<string>)
    requires forall i :: 0 <= i < |parts| ==> Lacks(parts[i], '\n')
    ensures Lacks(Join(", ", parts), '\n')
  {
    if |parts| > 1 {
      JoinLacksNewline(parts[1..]);
    }
  }

  lemma StripAllCons(part: string, rest: seq<string>)
    requires Strip(part) != ""
    ensures StripAll([part] + rest) == [Strip(part)] + StripAll(rest)
  {
    assert ([part] + rest)[1..] == rest;
  }

  /** Splitting a printed list, with or without the blank that follows a comma. */
  lemma {:induction false} SplitNames(names: seq<string>, lead: string)
    requires names != [] && AreNames(names) && (lead == "" || lead == " ")
    ensures StripAll(Split(lead + Join(", ", names), ',')) == names
  {
    var first := lead + names[0];
    LeadIsStripped(names[0], lead);
    if |names| == 1 {
      SplitLacks(first, ',');
      StripAllCons(first, []);
      assert [first] + [] == [first];
    } else {
      SplitNames(names[1..], " ");
      SplitMore(first, names);
      JoinMore(names, lead);
      assert names == [names[0]] + names[1..];
    }
  }

  lemma LeadIsStripped(name: string, lead: string)
    requires IsName(name) && (lead == "" || lead == " ")
    ensures Strip(lead + name) == name && Lacks(lead + name, ',')
  {
    StripLeftSpace(name);
    assert lead == "" ==> lead + name == name;
  }

  lemma JoinMore(names: seq<string>, lead: string)
    requires |names| > 1
    ensures lead + Join(", ", names) == (lead + names[0]) + [','] + (" " + Join(", ", names[1..]))
  {
    CommaBlank(lead, names[0], Join(", ", names[1..]));
  }

  lemma CommaBlank(lead: string, first: string, rest: string)
    ensures lead + (first + ", " + rest) == (lead + first) + [','] + (" " + rest)
  {
  }

  lemma SplitMore(first: string, names: seq<string>)
    requires |names| > 1 && Lacks(first, ',') && Strip(first) != ""
    ensures var rest := " " + Join(", ", names[1..]);
            StripAll(Split(first + [','] + rest, ',')) == [Strip(first)] + StripAll(Split(rest, ','))
  {
    var rest := " " + Join(", ", names[1..]);
    SplitAtFirst(first, ',', rest);
    StripAllCons(first, Split(rest, ','));
  }

  /** Round trip: reading a printed name list back yields the list. */
  lemma ParsePrinted(names: seq<string>)
    requires AreNames(names)
    ensures ParseNames(Join(", ", names)) == names
  {
    if names != [] {
      JoinLacksNewline(names);
      assert Replace(Join(", ", names), '\n', ' ') == Join(", ", names);
      SplitNames(names, "");
      assert "" + Join(", ", names) == Join(", ", names);
    } else {
      assert Strip("") == "";
      assert Split(Replace("", '\n', ' '), ',') == [""];
    }
  }

  lemma StripAllHead(part: string, rest: seq<string>)
    ensures StripAll([part] + rest) == (if Strip(part) == "" then [] else [Strip(part)]) + StripAll(rest)
  {
    assert ([part] + rest)[1..] == rest;
  }

  lemma {:induction false} StripAllAppend(a: seq<string>, b: seq<string>)
    ensures StripAll(a + b) == StripAll(a) + StripAll(b)
  {
    if a == [] {
      assert a + b == b;
    } else {
      var head := if Strip(a[0]) == "" then [] else [Strip(a[0])];
      StripAllAppend(a[1..], b);
      StripAllHead(a[0], a[1..]);
      StripAllHead(a[0], a[1..] + b);
      AppendAfterHead(a, b);
      Reassociate(head, StripAll(a[1..]), StripAll(b));
    }
  }

  lemma AppendAfterHead<T>(a: seq<T>, b: seq<T>)
    requires a != []
    ensures a == [a[0]] + a[1..] && a + b == [a[0]] + (a[1..] + b)
  {
  }

  lemma Reassociate<T>(a: seq<T>, b: seq<T>, c: seq<T>)
    ensures a + (b + c) == a + b + c
  {
  }

  /** What the symbols of a body are: those of the parts its commas separate, where a part is one symbol,
      its text without the white space around it and with blanks for line breaks, or none if it is blank. */
  lemma ParseAtComma(a: string, b: string)
    ensures ParseNames(a + "," + b) == ParseNames(a) + ParseNames(b)
  {
    var a', b' := Replace(a, '\n', ' '), Replace(b, '\n', ' ');
    assert Replace(a + "," + b, '\n', ' ') == a' + [','] + b';
    SplitAnywhere(a', ',', b');
    StripAllAppend(Split(a', ','), Split(b', ','));
  }

  lemma ParseOne(before: string, name: string, after: string)
    requires Blank(before) && Blank(after) && Stripped(name) && Lacks(name, ',')
    ensures ParseNames(before + name + after) == if name == "" then [] else [Replace(name, '\n', ' ')]
  {
    var b, n, a := Replace(before, '\n', ' '), Replace(name, '\n', ' '), Replace(after, '\n', ' ');
    ReplaceSum(before, name, after);
    LacksBoth(b, n, ',');
    LacksBoth(b + n, a, ',');
    SplitLacks(b + n + a, ',');
    StripBlanks(b, n, a);
    StripAllHead(b + n + a, []);
    assert [b + n + a] + [] == [b + n + a];
  }

  lemma ReplaceSum(a: string, b: string, c: string)
    ensures Replace(a + b + c, '\n', ' ') == Replace(a, '\n', ' ') + Replace(b, '\n', ' ') + Replace(c, '\n', ' ')
  {
  }

  // ----- the symbol map -----

  /** One schema file: its stem, and the class and assignment names at its top level, in order. */
  datatype SchemaFile = SchemaFile(stem: string, names: seq<string>)

  const PACKAGE := "app.schemas."

  function ModuleOf(f: SchemaFile): string {
    PACKAGE + f.stem
  }

  /** The last file in path order that defines a symbol decides its module. */
  function LastDefiner(files: seq<SchemaFile>, symbol: string): Option<string> {
    if files == [] then None
    else
      var f := files[|files| - 1];
      if f.stem != "__init__" && symbol in f.names then Some(ModuleOf(f))
      else LastDefiner(files[..|files| - 1], symbol)
  }

  lemma LastDefinerSnoc(files: seq<SchemaFile>, f: SchemaFile, symbol: string)
    ensures LastDefiner(files + [f], symbol)
         == if f.stem != "__init__" && symbol in f.names then Some(ModuleOf(f)) else LastDefiner(files, symbol)
  {
    assert (files + [f])[..|files|] == files;
  }

  /** The file defines the symbol, and is not `__init__.py`. */
  predicate Defines(f: SchemaFile, symbol: string) {
    f.stem != "__init__" && symbol in f.names
  }

  /** The definition that counts is the one in the last file, in path order, that defines the symbol ... */
  lemma {:induction false} LastDefinerIs(files: seq<SchemaFile>, symbol: string, i: nat)
    requires i < |files| && Defines(files[i], symbol)
    requires forall j :: i < j < |files| ==> !Defines(files[j], symbol)
    ensures LastDefiner(files, symbol) == Some("app.schemas." + files[i].stem)
    decreases |files|
  {
    if i < |files| - 1 {
      LastDefinerIs(files[..|files| - 1], symbol, i);
    }
  }

  /** ... and a symbol no file defines has no module. */
  lemma {:induction false} NoDefiner(files: seq<SchemaFile>, symbol: string)
    requires forall i :: 0 <= i < |files| ==> !Defines(files[i], symbol)
    ensures LastDefiner(files, symbol) == None
  {
    if files != [] {
      NoDefiner(files[..|files| - 1], symbol);
    }
  }

  ghost predicate IsSymbolMap(files: seq<SchemaFile>, mapping: map<string, string>) {
    forall s :: LastDefiner(files, s) == if s in mapping then Some(mapping[s]) else None
  }

  method CollectSymbolModules(files: seq<SchemaFile>) returns (mapping: map<string, string>)
    ensures IsSymbolMap(files, mapping)
  {
    mapping := map[];
    for i := 0 to |files|
      invariant IsSymbolMap(files[..i], mapping)
    {
      var f := files[i];
      ghost var before := mapping;
      if f.stem != "__init__" {
        mapping := CollectFile(f, mapping);
      }
      assert files[..i + 1] == files[..i] + [f];
      forall s
        ensures LastDefiner(files[..i + 1], s) == if s in mapping then Some(mapping[s]) else None
      {
        LastDefinerSnoc(files[..i], f, s);
        assert LastDefiner(files[..i], s) == if s in before then Some(before[s]) else None;
      }
    }
    assert files[..|files|] == files;
  }

  /** The inner loop: every name of the file now belongs to the file. */
  method CollectFile(f: SchemaFile, before: map<string, string>) returns (mapping: map<string, string>)
    ensures forall s :: s in mapping <==> s in before || s in f.names
    ensures forall s :: s in mapping ==> mapping[s] == if s in f.names then ModuleOf(f) else before[s]
  {
    mapping := before;
    for j := 0 to |f.names|
      invariant forall s :: s in mapping <==> s in before || s in f.names[..j]
      invariant forall s :: s in mapping ==> mapping[s] == if s in f.names[..j] then ModuleOf(f) else before[s]
    {
      assert f.names[..j + 1] == f.names[..j] + [f.names[j]];
      mapping := mapping[f.names[j] := ModuleOf(f)];
    }
    assert f.names[..|f.names|] == f.names;
  }

  /** Every module the collected map can name prints as a single `app.schemas.` import line. */
  predicate PrintableModule(m: string) {
    StartsWith(m, PACKAGE) && Lacks(m, '\n') && Lacks(m, ' ')
  }

  ghost predicate PrintableModules(symbolModules: map<string, string>) {
    forall s :: s in symbolModules ==> PrintableModule(symbolModules[s])
  }

  lemma {:induction false} CollectedModulesPrint(files: seq<SchemaFile>, symbol: string)
    requires forall i :: 0 <= i < |files| ==> Lacks(files[i].stem, '\n') && Lacks(files[i].stem, ' ')
    ensures LastDefiner(files, symbol).Some? ==> PrintableModule(LastDefiner(files, symbol).value)
  {
    if files != [] {
      CollectedModulesPrint(files[..|files| - 1], symbol);
    }
  }

  // ----- one replacement -----

  datatype ImportLine = ImportLine(mod: string, names: seq<string>)

  function Missing(symbols: seq<string>, symbolModules: map<string, string>): seq<string> {
    Filter(symbols, s => s !in symbolModules)
  }

  predicate AllKnown(symbols: seq<string>, symbolModules: map<string, string>) {
    forall i :: 0 <= i < |symbols| ==> symbols[i] in symbolModules
  }

  function ModuleKey(symbolModules: map<string, string>): string -> string {
    s => if s in symbolModules then symbolModules[s] else ""
  }

  /** `for module, names in sorted(grouped.items())` with `sorted(names)` */
  function SortedLines(grouped: map<string, seq<string>>): seq<ImportLine> {
    Map(SortNames(grouped.Keys), m => LineFor(grouped, m))
  }

  function LineFor(grouped: map<string, seq<string>>, m: string): ImportLine {
    ImportLine(m, SortNameList(if m in grouped then grouped[m] else []))
  }

  /** The import lines a block is replaced by. */
  function Lines(symbols: seq<string>, symbolModules: map<string, string>): seq<ImportLine> {
    SortedLines(GroupBy(symbols, ModuleKey(symbolModules)))
  }

  function PrintLine(l: ImportLine): string {
    "from " + l.mod + " import " + Join(", ", l.names)
  }

  function PrintLines(lines: seq<ImportLine>): string {
    Join(['\n'], Map(lines, PrintLine))
  }

  method GroupSymbols(symbols: seq<string>, symbolModules: map<string, string>)
    returns (grouped: map<string, seq<string>>)
    requires AllKnown(symbols, symbolModules)
    ensures grouped == GroupBy(symbols, ModuleKey(symbolModules))
  {
    grouped := map[];
    for i := 0 to |symbols|
      invariant grouped == GroupBy(symbols[..i], ModuleKey(symbolModules))
    {
      grouped := AddSymbol(symbols[..i], symbols[i], symbolModules, grouped);
      assert symbols[..i + 1] == symbols[..i] + [symbols[i]];
    }
    assert symbols[..|symbols|] == symbols;
  }

  /** `grouped[symbol_modules[symbol]].append(symbol)` */
  method AddSymbol(ghost before: seq<string>, symbol: string, symbolModules: map<string, string>,
                   groups: map<string, seq<string>>)
    returns (groups': map<string, seq<string>>)
    requires groups == GroupBy(before, ModuleKey(symbolModules)) && symbol in symbolModules
    ensures groups' == GroupBy(before + [symbol], ModuleKey(symbolModules))
  {
    GroupBySnoc(before, symbol, ModuleKey(symbolModules));
    groups' := Append(groups, symbolModules[symbol], symbol);
  }

  // ----- bindings -----

  /** The names the lines import from one module. */
  function NamesUnder(lines: seq<ImportLine>, m: string): seq<string> {
    if lines == [] then []
    else if lines[|lines| - 1].mod == m then NamesUnder(lines[..|lines| - 1], m) + lines[|lines| - 1].names
    else NamesUnder(lines[..|lines| - 1], m)
  }

  lemma {:induction false} NamesUnderSorted(ks: seq<string>, grouped: map<string, seq<string>>, m: string)
    requires Distinct(ks)
    ensures NamesUnder(Map(ks, k => LineFor(grouped, k)), m) == if m in ks then LineFor(grouped, m).names else []
  {
    if ks != [] {
      var init, k := ks[..|ks| - 1], ks[|ks| - 1];
      SnocCases(ks);
      NamesUnderSorted(init, grouped, m);
      var lines := Map(ks, k => LineFor(grouped, k));
      assert lines[..|lines| - 1] == Map(init, k => LineFor(grouped, k));
    }
  }

  /** Bindings are preserved: the lines import a name from a module exactly as often as the block
      listed it if the symbol map assigns it to that module, and never otherwise. */
  lemma BindingsPreserved(symbols: seq<string>, symbolModules: map<string, string>, m: string, s: string)
    requires AllKnown(symbols, symbolModules)
    ensures multiset(NamesUnder(Lines(symbols, symbolModules), m))[s]
         == if s in symbolModules && symbolModules[s] == m then multiset(symbols)[s] else 0
  {
    var key := ModuleKey(symbolModules);
    var grouped := GroupBy(symbols, key);
    NamesUnderSorted(SortNames(grouped.Keys), grouped, m);
    GroupCount(symbols, key, m, s);
    GroupNonEmpty(symbols, key, m);
    if multiset(symbols)[s] > 0 {
      assert s in symbols;
    }
  }

  /** Every line imports printable names from a printable module. */
  lemma LinesPrint(symbols: seq<string>, symbolModules: map<string, string>)
    requires AllKnown(symbols, symbolModules) && AreNames(symbols) && PrintableModules(symbolModules)
    ensures forall i :: 0 <= i < |Lines(symbols, symbolModules)| ==> Printable(Lines(symbols, symbolModules)[i])
  {
    var key := ModuleKey(symbolModules);
    var grouped := GroupBy(symbols, key);
    var lines := Lines(symbols, symbolModules);
    var ks := SortNames(grouped.Keys);
    forall i | 0 <= i < |lines|
      ensures Printable(lines[i])
    {
      assert ks[i] in ks;
      GroupNonEmpty(symbols, key, ks[i]);
      var names := lines[i].names;
      assert |multiset(names)| == |multiset(grouped[ks[i]])|;
      forall j | 0 <= j < |names|
        ensures IsName(names[j])
      {
        assert names[j] in multiset(names);
        GroupMember(symbols, key, ks[i], names[j]);
      }
    }
  }

  ghost predicate LinesInOrder(lines: seq<ImportLine>) {
    && (forall i, j :: 0 <= i < j < |lines| ==> LexLeq(lines[i].mod, lines[j].mod) && lines[i].mod != lines[j].mod)
    && (forall i :: 0 <= i < |lines| ==> IsSorted(lines[i].names, LexLeq))
  }

  lemma SortedLinesInOrder(grouped: map<string, seq<string>>)
    ensures LinesInOrder(SortedLines(grouped))
    ensures |SortedLines(grouped)| == |SortNames(grouped.Keys)|
  {
    var ks, lines := SortNames(grouped.Keys), SortedLines(grouped);
    assert forall i :: 0 <= i < |lines| ==> lines[i] == LineFor(grouped, ks[i]);
  }

  /** Modules appear once each, in order, and the names under each are in order. */
  lemma LinesAreSorted(symbols: seq<string>, symbolModules: map<string, string>)
    ensures LinesInOrder(Lines(symbols, symbolModules))
    ensures Lines(symbols, symbolModules) == [] <==> symbols == []
  {
    var key := ModuleKey(symbolModules);
    var keys := GroupBy(symbols, key).Keys;
    SortedLinesInOrder(GroupBy(symbols, key));
    assert symbols != [] ==> key(symbols[0]) in keys;
    assert SortNames(keys) != [] ==> SortNames(keys)[0] in keys;
  }

  lemma NoLinesIff(symbols: seq<string>, symbolModules: map<string, string>)
    ensures Lines(symbols, symbolModules) == [] <==> symbols == []
  {
    LinesAreSorted(symbols, symbolModules);
  }

  // ----- reading printed lines back -----

  predicate Printable(l: ImportLine) {
    PrintableModule(l.mod) && l.names != [] && AreNames(l.names)
  }

  function FirstWord(s: string): string {
    if s == "" || s[0] == ' ' then "" else [s[0]] + FirstWord(s[1..])
  }

  /** The import statement on one line, as Python reads it; anything else imports nothing. */
  function ReadLine(t: string): ImportLine {
    if !StartsWith(t, "from ") then ImportLine("", [])
    else
      var m := FirstWord(t[5..]);
      var rest := if |m| <= |t| - 5 then t[5 + |m|..] else "";
      if StartsWith(rest, " import ") then ImportLine(m, ParseNames(rest[8..])) else ImportLine("", [])
  }

  lemma {:induction false} FirstWordOf(m: string, rest: string)
    requires Lacks(m, ' ')
    ensures FirstWord(m + " " + rest) == m
  {
    if m == "" {
      assert m + " " + rest == " " + rest;
    } else {
      FirstWordOf(m[1..], rest);
      assert (m + " " + rest)[1..] == m[1..] + " " + rest;
    }
  }

  lemma ReadPrinted(l: ImportLine)
    requires Printable(l)
    ensures ReadLine(PrintLine(l)) == l
  {
    var names := Join(", ", l.names);
    var t := PrintLine(l);
    assert t[..5] == "from ";
    assert t[5..] == l.mod + " " + ("import " + names);
    FirstWordOf(l.mod, "import " + names);
    var rest := t[5 + |l.mod|..];
    assert rest == " import " + names;
    assert rest[..8] == " import " && rest[8..] == names;
    ParsePrinted(l.names);
  }

  /** Round trip: reading the printed lines one by one yields the same modules and names. */
  lemma ReadBack(lines: seq<ImportLine>)
    requires lines != [] && forall i :: 0 <= i < |lines| ==> Printable(lines[i])
    ensures Map(Split(PrintLines(lines), '\n'), ReadLine) == lines
  {
    forall i | 0 <= i < |lines|
      ensures Lacks(PrintLine(lines[i]), '\n') && ReadLine(PrintLine(lines[i])) == lines[i]
    {
      PrintedLine(lines[i]);
    }
    MapInverse(lines, PrintLine, ReadLine);
    SplitJoin(Map(lines, PrintLine), '\n');
  }

  lemma PrintedLine(l: ImportLine)
    requires Printable(l)
    ensures Lacks(PrintLine(l), '\n') && ReadLine(PrintLine(l)) == l
  {
    PrintLineIsOneLine(l);
    ReadPrinted(l);
  }

  lemma PrintLineIsOneLine(l: ImportLine)
    requires Printable(l)
    ensures Lacks(PrintLine(l), '\n')
  {
    JoinLacksNewline(l.names);
    LacksBoth("from ", l.mod, '\n');
    LacksBoth("from " + l.mod, " import ", '\n');
    LacksBoth("from " + l.mod + " import ", Join(", ", l.names), '\n');
  }

  /** The bindings a block's replacement text makes when it is read line by line: each listed name,
      as often as it was listed, from the module the symbol map assigns to it. */
  lemma PrintedBindings(symbols: seq<string>, symbolModules: map<string, string>, m: string, s: string)
    requires symbols != [] && AllKnown(symbols, symbolModules) && AreNames(symbols) && PrintableModules(symbolModules)
    ensures var read := Map(Split(PrintLines(Lines(symbols, symbolModules)), '\n'), ReadLine);
            multiset(NamesUnder(read, m))[s]
            == if s in symbolModules && symbolModules[s] == m then multiset(symbols)[s] else 0
  {
    LinesPrint(symbols, symbolModules);
    LinesAreSorted(symbols, symbolModules);
    ReadBack(Lines(symbols, symbolModules));
    BindingsPreserved(symbols, symbolModules, m, s);
  }

  // ----- rewriting a file -----

  /** One match: its span in the original text and the symbols it lists. */
  datatype Block = Block(start: nat, end: nat, symbols: seq<string>)

  /** The spans come in order, do not overlap, and lie at or after `pos`. */
  predicate Placed(text: string, blocks: seq<Block>, pos: nat) {
    && pos <= |text|
    && (blocks != [] ==>
          && pos <= blocks[0].start <= blocks[0].end <= |text|
          && Placed(text, blocks[1..], blocks[0].end))
  }

  /** The text around the spans: one gap before each and one after the last. */
  function Gaps(text: string, blocks: seq<Block>, pos: nat): (gaps: seq<string>)
    requires Placed(text, blocks, pos)
    ensures |gaps| == |blocks| + 1
  {
    if blocks == [] then [text[pos..]]
    else [text[pos..blocks[0].start]] + Gaps(text, blocks[1..], blocks[0].end)
  }

  function Interleave(gaps: seq<string>, pieces: seq<string>): string
    requires |gaps| == |pieces| + 1
  {
    if pieces == [] then gaps[0] else gaps[0] + pieces[0] + Interleave(gaps[1..], pieces[1..])
  }

  function Originals(text: string, blocks: seq<Block>): seq<string>
    requires forall i :: 0 <= i < |blocks| ==> blocks[i].start <= blocks[i].end <= |text|
  {
    seq(|blocks|, i requires 0 <= i < |blocks| => text[blocks[i].start..blocks[i].end])
  }

  lemma {:induction false} PlacedInText(text: string, blocks: seq<Block>, pos: nat)
    requires Placed(text, blocks, pos)
    ensures forall i :: 0 <= i < |blocks| ==> pos <= blocks[i].start <= blocks[i].end <= |text|
    ensures forall i, j :: 0 <= i < j < |blocks| ==> blocks[i].end <= blocks[j].start
  {
    if blocks != [] {
      PlacedInText(text, blocks[1..], blocks[0].end);
    }
  }

  /** The gaps are what is left of the text: filling them with the spans restores it. */
  lemma {:induction false} GapsAndOriginals(text: string, blocks: seq<Block>, pos: nat)
    requires Placed(text, blocks, pos)
    ensures forall i :: 0 <= i < |blocks| ==> blocks[i].start <= blocks[i].end <= |text|
    ensures Interleave(Gaps(text, blocks, pos), Originals(text, blocks)) == text[pos..]
  {
    PlacedInText(text, blocks, pos);
    if blocks != [] {
      GapsAndOriginals(text, blocks[1..], blocks[0].end);
      assert Originals(text, blocks)[1..] == Originals(text, blocks[1..]);
    }
  }

  datatype Rewrite = NoBarrel | UnknownSymbols(missing: seq<string>) | Written(text: string)

  function Replacement(symbolModules: map<string, string>): Block -> string {
    (b: Block) => PrintLines(Lines(b.symbols, symbolModules))
  }

  /** The text with every span replaced at once, from `pos` on. */
  function Substituted(text: string, blocks: seq<Block>, pos: nat, symbolModules: map<string, string>): string
    requires Placed(text, blocks, pos)
  {
    Interleave(Gaps(text, blocks, pos), Map(blocks, Replacement(symbolModules)))
  }

  function EndBefore(blocks: seq<Block>, i: nat): nat
    requires i <= |blocks|
  {
    if i == 0 then 0 else blocks[i - 1].end
  }

  lemma {:induction false} PlacedFrom(text: string, blocks: seq<Block>, pos: nat, i: nat)
    requires Placed(text, blocks, pos) && i <= |blocks|
    ensures Placed(text, blocks[i..], if i == 0 then pos else blocks[i - 1].end)
  {
    if i != 0 {
      PlacedFrom(text, blocks[1..], blocks[0].end, i - 1);
      assert blocks[1..][i - 1..] == blocks[i..];
    }
  }

  lemma SubstitutedUnfold(text: string, blocks: seq<Block>, pos: nat, symbolModules: map<string, string>)
    requires Placed(text, blocks, pos) && blocks != []
    ensures Substituted(text, blocks, pos, symbolModules)
         == text[pos..blocks[0].start] + Replacement(symbolModules)(blocks[0])
            + Substituted(text, blocks[1..], blocks[0].end, symbolModules)
  {
    var pieces := Map(blocks, Replacement(symbolModules));
    assert pieces[1..] == Map(blocks[1..], Replacement(symbolModules));
  }

  lemma SpliceText(text: string, p: nat, s: nat, e: nat, piece: string, tail: string)
    requires p <= s <= e <= |text|
    ensures var out := text[..e] + tail;
            out[..s] + piece + out[e..] == text[..p] + (text[p..s] + piece + tail)
  {
    var out := text[..e] + tail;
    assert out[..s] == text[..p] + text[p..s];
    assert out[e..] == tail;
  }

  /** Splicing one more block, further left, with offsets taken from the original text. */
  lemma SpliceStep(text: string, blocks: seq<Block>, i: nat, symbolModules: map<string, string>, out: string)
    requires i < |blocks|
    requires Placed(text, blocks[i + 1..], blocks[i].end) && Placed(text, blocks[i..], EndBefore(blocks, i))
    requires out == text[..blocks[i].end] + Substituted(text, blocks[i + 1..], blocks[i].end, symbolModules)
    ensures |out| >= blocks[i].end
    ensures out[..blocks[i].start] + Replacement(symbolModules)(blocks[i]) + out[blocks[i].end..]
         == text[..EndBefore(blocks, i)] + Substituted(text, blocks[i..], EndBefore(blocks, i), symbolModules)
  {
    var b, p := blocks[i], EndBefore(blocks, i);
    assert blocks[i..][0] == b && blocks[i..][1..] == blocks[i + 1..];
    SubstitutedUnfold(text, blocks[i..], p, symbolModules);
    SpliceText(text, p, b.start, b.end, Replacement(symbolModules)(b),
               Substituted(text, blocks[i + 1..], b.end, symbolModules));
  }

  ghost predicate AllBlocksKnown(blocks: seq<Block>, symbolModules: map<string, string>) {
    forall i :: 0 <= i < |blocks| ==> AllKnown(blocks[i].symbols, symbolModules)
  }

  lemma {:induction false} MissingIffUnknown(symbols: seq<string>, symbolModules: map<string, string>)
    ensures Missing(symbols, symbolModules) == [] <==> AllKnown(symbols, symbolModules)
  {
    if symbols != [] {
      MissingIffUnknown(symbols[..|symbols| - 1], symbolModules);
    }
  }

  method RenderBlock(b: Block, symbolModules: map<string, string>) returns (replacement: string)
    requires AllKnown(b.symbols, symbolModules)
    ensures replacement == Replacement(symbolModules)(b)
  {
    var grouped := GroupSymbols(b.symbols, symbolModules);
    replacement := PrintLines(SortedLines(grouped));
  }

  /** `out` is the text with the blocks from the i-th on replaced. */
  ghost predicate SplicedFrom(text: string, blocks: seq<Block>, i: nat, symbolModules: map<string, string>, out: string)
    requires i <= |blocks|
  {
    && Placed(text, blocks[i..], EndBefore(blocks, i))
    && out == text[..EndBefore(blocks, i)] + Substituted(text, blocks[i..], EndBefore(blocks, i), symbolModules)
  }

  lemma SplicedFromEnd(text: string, blocks: seq<Block>, symbolModules: map<string, string>)
    requires Placed(text, blocks, 0)
    ensures SplicedFrom(text, blocks, |blocks|, symbolModules, text)
  {
    PlacedFrom(text, blocks, 0, |blocks|);
  }

  lemma SplicedStep(text: string, blocks: seq<Block>, i: nat, symbolModules: map<string, string>, out: string)
    requires Placed(text, blocks, 0) && i < |blocks| && SplicedFrom(text, blocks, i + 1, symbolModules, out)
    ensures blocks[i].start <= blocks[i].end <= |out|
    ensures SplicedFrom(text, blocks, i, symbolModules,
                        out[..blocks[i].start] + Replacement(symbolModules)(blocks[i]) + out[blocks[i].end..])
  {
    PlacedFrom(text, blocks, 0, i);
    SpliceStep(text, blocks, i, symbolModules, out);
  }

  lemma SplicedAll(text: string, blocks: seq<Block>, symbolModules: map<string, string>, out: string)
    requires SplicedFrom(text, blocks, 0, symbolModules, out)
    ensures Placed(text, blocks, 0) && out == Substituted(text, blocks, 0, symbolModules)
  {
    assert blocks[0..] == blocks;
  }

  /** The unknown symbols of the right-most block that has any. */
  function LastMissing(blocks: seq<Block>, symbolModules: map<string, string>): seq<string> {
    if blocks == [] then []
    else
      var missing := Missing(blocks[|blocks| - 1].symbols, symbolModules);
      if missing != [] then missing else LastMissing(blocks[..|blocks| - 1], symbolModules)
  }

  lemma LastMissingStep(blocks: seq<Block>, i: nat, symbolModules: map<string, string>)
    requires i < |blocks|
    ensures var missing := Missing(blocks[i].symbols, symbolModules);
            && (missing == [] <==> AllKnown(blocks[i].symbols, symbolModules))
            && LastMissing(blocks[..i + 1], symbolModules)
               == if missing != [] then missing else LastMissing(blocks[..i], symbolModules)
  {
    MissingIffUnknown(blocks[i].symbols, symbolModules);
    assert blocks[..i + 1][..i] == blocks[..i];
  }

  lemma {:induction false} NothingMissingIff(blocks: seq<Block>, symbolModules: map<string, string>)
    ensures LastMissing(blocks, symbolModules) == [] <==> AllBlocksKnown(blocks, symbolModules)
  {
    if blocks != [] {
      NothingMissingIff(blocks[..|blocks| - 1], symbolModules);
      MissingIffUnknown(blocks[|blocks| - 1].symbols, symbolModules);
    }
  }

  /** The symbols a refusal names: those of the right-most block with unknown symbols that are unknown,
      each as often as the block lists it, in its order. */
  lemma MissingSymbols(blocks: seq<Block>, i: nat, symbolModules: map<string, string>) returns (at: seq<nat>)
    requires i < |blocks| && !AllKnown(blocks[i].symbols, symbolModules)
    requires forall j :: i < j < |blocks| ==> AllKnown(blocks[j].symbols, symbolModules)
    ensures Increasing(at)
    ensures forall n: nat :: n in at <==> n < |blocks[i].symbols| && blocks[i].symbols[n] !in symbolModules
    ensures var missing := LastMissing(blocks, symbolModules);
            |missing| == |at| && forall k :: 0 <= k < |at| ==> at[k] in at && missing[k] == blocks[i].symbols[at[k]]
  {
    LastMissingIs(blocks, i, symbolModules);
    at := FilterPositions(blocks[i].symbols, s => s !in symbolModules);
  }

  lemma {:induction false} LastMissingIs(blocks: seq<Block>, i: nat, symbolModules: map<string, string>)
    requires i < |blocks| && !AllKnown(blocks[i].symbols, symbolModules)
    requires forall j :: i < j < |blocks| ==> AllKnown(blocks[j].symbols, symbolModules)
    ensures LastMissing(blocks, symbolModules) == Missing(blocks[i].symbols, symbolModules)
  {
    var n := |blocks| - 1;
    MissingIffUnknown(blocks[n].symbols, symbolModules);
    if i < n {
      LastMissingIs(blocks[..n], i, symbolModules);
    }
  }

  /** `text = text[:start] + replacement + text[end:]` */
  method SpliceBlock(ghost text: string, blocks: seq<Block>, i: nat, symbolModules: map<string, string>, before: string)
    returns (out: string)
    requires Placed(text, blocks, 0) && i < |blocks| && AllKnown(blocks[i].symbols, symbolModules)
    requires SplicedFrom(text, blocks, i + 1, symbolModules, before)
    ensures SplicedFrom(text, blocks, i, symbolModules, out)
  {
    var b := blocks[i];
    var replacement := RenderBlock(b, symbolModules);
    SplicedStep(text, blocks, i, symbolModules, before);
    out := before[..b.start] + replacement + before[b.end..];
  }

  /** `_rewrite_file`: right-to-left splicing with original offsets is the simultaneous
      substitution; an unknown symbol anywhere means nothing is written. */
  method RewriteFile(text: string, blocks: seq<Block>, symbolModules: map<string, string>) returns (r: Rewrite)
    requires Placed(text, blocks, 0)
    ensures r == if blocks == [] then NoBarrel
                 else if LastMissing(blocks, symbolModules) == []
                 then Written(Substituted(text, blocks, 0, symbolModules))
                 else UnknownSymbols(LastMissing(blocks, symbolModules))
  {
    if blocks == [] {
      return NoBarrel;
    }
    var out := text;
    var i := |blocks|;
    SplicedFromEnd(text, blocks, symbolModules);
    assert blocks[..|blocks|] == blocks;
    while i > 0
      invariant 0 <= i <= |blocks|
      invariant LastMissing(blocks[..i], symbolModules) == LastMissing(blocks, symbolModules)
      invariant SplicedFrom(text, blocks, i, symbolModules, out)
    {
      i := i - 1;
      var b := blocks[i];
      var missing := Missing(b.symbols, symbolModules);
      LastMissingStep(blocks, i, symbolModules);
      if missing != [] {
        return UnknownSymbols(missing);
      }
      out := SpliceBlock(text, blocks, i, symbolModules, out);
    }
    SplicedAll(text, blocks, symbolModules, out);
    return Written(out);
  }

  // ----- a second run -----

  const BARREL := "from app.schemas import"

  predicate LineStart(text: string, p: nat) {
    p == 0 || (p <= |text| && text[p - 1] == '\n')
  }

  predicate PrefixAt(text: string, p: nat) {
    p + |BARREL| <= |text| && text[p..p + |BARREL|] == BARREL
  }

  /** Where the import pattern can match: the barrel prefix opens a line and something other
      than line breaks follows it. */
  ghost predicate BarrelAt(text: string, p: nat) {
    LineStart(text, p) && PrefixAt(text, p) && exists q :: p + |BARREL| <= q < |text| && text[q] != '\n'
  }

  ghost predicate Covered(blocks: seq<Block>, p: nat) {
    exists i :: 0 <= i < |blocks| && blocks[i].start <= p < blocks[i].end
  }

  /** What `finditer` promises: the matches are placed in order, each opens at a barrel import and
      closes at a line end, every barrel import lies in a match, and the symbols are those of the
      text the match captured. */
  ghost predicate IsFinditer(text: string, blocks: seq<Block>) {
    && Placed(text, blocks, 0)
    && (forall i :: 0 <= i < |blocks| ==> ClosedBlock(text, blocks[i]))
    && (forall p: nat :: BarrelAt(text, p) ==> Covered(blocks, p))
  }

  ghost predicate ClosedBlock(text: string, b: Block) {
    && BarrelAt(text, b.start)
    && b.start < b.end <= |text| && (b.end == |text| || text[b.end] == '\n')
    && exists body :: Captures(text[b.start..b.end], body) && b.symbols == ParseNames(body)
  }

  /** The pattern's first alternative: a parenthesised body, over any number of lines. */
  ghost predicate Parenthesised(span: string, body: string) {
    exists before, after :: Blank(before) && Blank(after) && span == BARREL + before + "(" + body + ")" + after
  }

  /** Its second alternative: the rest of one line. */
  ghost predicate OnOneLine(span: string, body: string) {
    && body != "" && Lacks(body, '\n')
    && exists before, after :: Blank(before) && Blank(after) && span == BARREL + before + body + after
  }

  /** What the match of a span captures: the second alternative only counts where the first fails. */
  ghost predicate Captures(span: string, body: string) {
    Parenthesised(span, body) || (OnOneLine(span, body) && forall other :: !Parenthesised(span, other))
  }

  lemma BarrelLineMatches(names: string)
    requires Lacks(names, '\n') && Lacks(names, '(') && names != ""
    ensures IsFinditer(BARREL + names, [Block(0, |BARREL + names|, ParseNames(names))])
  {
    var text := BARREL + names;
    var b := Block(0, |text|, ParseNames(names));
    assert text[0..|BARREL|] == BARREL;
    assert text[|BARREL|] == names[0];
    CapturesOneLine(names);
    assert text[b.start..b.end] == text;
    forall p: nat | BarrelAt(text, p)
      ensures Covered([b], p)
    {
      assert [b][0] == b && b.start <= p < b.end;
    }
  }

  /** One barrel import on one line is one match. */
  lemma OneImportOneMatch(names: string)
    requires Lacks(names, '\n') && Lacks(names, '(') && names != ""
    ensures IsFinditer("from app.schemas import" + names, [Block(0, 23 + |names|, ParseNames(names))])
  {
    BarrelLineMatches(names);
    assert BARREL == "from app.schemas import" && |BARREL| == 23;
  }

  lemma CapturesOneLine(names: string)
    requires Lacks(names, '\n') && Lacks(names, '(') && names != ""
    ensures Captures(BARREL + names, names)
  {
    var span := BARREL + names;
    assert Blank("") && span == BARREL + "" + names + "";
    assert Lacks(span, '(');
    forall other
      ensures !Parenthesised(span, other)
    {
      if Parenthesised(span, other) {
        ParenthesisInSpan(span, other);
      }
    }
  }

  lemma ParenthesisInSpan(span: string, body: string)
    requires Parenthesised(span, body)
    ensures !Lacks(span, '(')
  {
    var before, after :| Blank(before) && Blank(after) && span == BARREL + before + "(" + body + ")" + after;
    assert span[|BARREL| + |before|] == '(';
  }

  const MODULE_IMPORT := "from app.schemas."

  /** Every non-empty line tail of `s` that starts a line opens with a module import. */
  ghost predicate OpensWithModules(s: string) {
    forall q: nat :: q < |s| && LineStart(s, q) ==> StartsWith(s[q..], MODULE_IMPORT)
  }

  lemma {:induction false} JoinedLines(lines: seq<string>)
    requires forall i :: 0 <= i < |lines| ==> Lacks(lines[i], '\n') && StartsWith(lines[i], MODULE_IMPORT)
    ensures OpensWithModules(Join(['\n'], lines))
  {
    if |lines| == 1 {
      OneLine(lines[0]);
    } else if |lines| > 1 {
      JoinedLines(lines[1..]);
      OneMoreLine(lines[0], Join(['\n'], lines[1..]));
      assert Join(['\n'], lines) == lines[0] + ['\n'] + Join(['\n'], lines[1..]);
    }
  }

  lemma OneLine(line: string)
    requires Lacks(line, '\n') && StartsWith(line, MODULE_IMPORT)
    ensures OpensWithModules(line)
  {
    assert line[0..] == line;
  }

  lemma OneMoreLine(line: string, tail: string)
    requires Lacks(line, '\n') && StartsWith(line, MODULE_IMPORT) && OpensWithModules(tail)
    ensures OpensWithModules(line + ['\n'] + tail)
  {
    var s := line + ['\n'] + tail;
    forall q: nat | q < |s| && LineStart(s, q)
      ensures StartsWith(s[q..], MODULE_IMPORT)
    {
      if q == 0 {
        assert s[q..] == s && s[..|MODULE_IMPORT|] == line[..|MODULE_IMPORT|];
      } else {
        assert q > |line|;
        assert s[q..] == tail[q - |line| - 1..];
        assert LineStart(tail, q - |line| - 1);
      }
    }
  }

  lemma ModuleImportIsNotBarrel(s: string, q: nat)
    requires q <= |s| && StartsWith(s[q..], MODULE_IMPORT)
    ensures !PrefixAt(s, q)
  {
    assert s[q..][..|MODULE_IMPORT|][16] == s[q + 16] == '.';
    assert q + |BARREL| <= |s| ==> s[q..q + |BARREL|][16] == s[q + 16];
    assert BARREL[16] == ' ';
  }

  lemma PrintedOpensWithModules(lines: seq<ImportLine>)
    requires forall i :: 0 <= i < |lines| ==> Printable(lines[i])
    ensures OpensWithModules(PrintLines(lines))
  {
    var printed := Map(lines, PrintLine);
    forall i | 0 <= i < |printed|
      ensures Lacks(printed[i], '\n') && StartsWith(printed[i], MODULE_IMPORT)
    {
      PrintLineIsOneLine(lines[i]);
      ModuleLine(lines[i]);
    }
    JoinedLines(printed);
  }

  lemma ReplacementOpensWithModules(b: Block, symbolModules: map<string, string>)
    requires AllKnown(b.symbols, symbolModules) && AreNames(b.symbols) && PrintableModules(symbolModules)
    ensures OpensWithModules(Replacement(symbolModules)(b))
  {
    LinesPrint(b.symbols, symbolModules);
    PrintedOpensWithModules(Lines(b.symbols, symbolModules));
  }

  lemma ModuleLine(l: ImportLine)
    requires StartsWith(l.mod, PACKAGE)
    ensures StartsWith(PrintLine(l), MODULE_IMPORT)
  {
    assert PrintLine(l)[..|MODULE_IMPORT|] == "from " + l.mod[..|PACKAGE|];
  }

  /** Where the untouched rest of the file may resume: at its start, or at the end of a match. */
  predicate Resumes(text: string, p: nat) {
    p == 0 || p == |text| || (p < |text| && text[p] == '\n')
  }

  lemma LacksInSlice(s: string, from: nat, to: nat, c: char)
    requires from <= to <= |s| && Lacks(s[from..to], c)
    ensures forall j :: from <= j < to ==> s[j] != c
  {
    forall j | from <= j < to
      ensures s[j] != c
    {
      assert s[from..to][j - from] == s[j];
    }
  }

  lemma PrefixFacts(text: string, p: nat)
    requires PrefixAt(text, p)
    ensures text[p] == 'f' && forall j :: p <= j < p + |BARREL| ==> text[j] != '\n'
  {
    assert text[p..p + |BARREL|][0] == text[p];
    LacksInSlice(text, p, p + |BARREL|, '\n');
  }

  /** A barrel import in an untouched stretch of the output is one in the original text. */
  lemma BarrelInGap(text: string, p: nat, s: nat, out: string, q: nat)
    requires p <= s <= |text| && Resumes(text, p) && q < s - p <= |out|
    requires forall j :: 0 <= j < s - p ==> out[j] == text[p + j]
    requires BarrelAt(out, q)
    requires s == |text| ==> |out| == s - p
    requires s < |text| ==> LineStart(text, s) && text[s] != '\n'
    ensures BarrelAt(text, p + q)
  {
    PrefixFacts(out, q);
    if s < |text| {
      assert out[s - p - 1] == '\n';
      assert text[s] != '\n';
    } else {
      var w :| q + |BARREL| <= w < |out| && out[w] != '\n';
      assert text[p + w] != '\n';
    }
    assert q + |BARREL| <= s - p;
    assert text[p + q..p + q + |BARREL|] == out[q..q + |BARREL|];
  }

  lemma BarrelInTail(front: string, tail: string, q: nat)
    requires q >= |front| && BarrelAt(front + tail, q)
    ensures BarrelAt(tail, q - |front|)
  {
    var s := front + tail;
    assert s[q..q + |BARREL|] == tail[q - |front|..q - |front| + |BARREL|];
    var w :| q + |BARREL| <= w < |s| && s[w] != '\n';
    assert tail[w - |front|] != '\n';
  }

  /** No barrel import of the original text lies between two consecutive matches. */
  lemma BetweenMatches(text: string, blocks: seq<Block>, i: nat, q: nat)
    requires IsFinditer(text, blocks) && i <= |blocks|
    requires EndBefore(blocks, i) <= q && (i < |blocks| ==> q < blocks[i].start)
    ensures !BarrelAt(text, q)
  {
    NotCovered(text, blocks, i, q);
  }

  lemma NotCovered(text: string, blocks: seq<Block>, i: nat, q: nat)
    requires Placed(text, blocks, 0) && i <= |blocks|
    requires EndBefore(blocks, i) <= q && (i < |blocks| ==> q < blocks[i].start)
    ensures !Covered(blocks, q)
  {
    PlacedInText(text, blocks, 0);
    forall j | 0 <= j < |blocks|
      ensures !(blocks[j].start <= q < blocks[j].end)
    {
      if j < i - 1 {
        assert blocks[j].end <= blocks[i - 1].start;
      } else if j > i {
        assert blocks[i].end <= blocks[j].start;
      }
    }
  }

  lemma MatchFacts(text: string, blocks: seq<Block>, i: nat)
    requires IsFinditer(text, blocks) && i <= |blocks|
    ensures Resumes(text, EndBefore(blocks, i))
    ensures i < |blocks| ==> EndBefore(blocks, i) <= blocks[i].start < |text| && LineStart(text, blocks[i].start)
                             && text[blocks[i].start] != '\n' && AreNames(blocks[i].symbols)
  {
    PlacedInText(text, blocks, 0);
    if i > 0 {
      assert ClosedBlock(text, blocks[i - 1]);
    }
    if i < |blocks| {
      assert ClosedBlock(text, blocks[i]);
      PrefixFacts(text, blocks[i].start);
      var body :| Captures(text[blocks[i].start..blocks[i].end], body) && blocks[i].symbols == ParseNames(body);
      ParseYieldsNames(body);
    }
  }

  /** The stretch from `p` to `s` is untouched text between two matches. */
  ghost predicate Untouched(text: string, p: nat, s: nat) {
    && p <= s < |text| && Resumes(text, p) && LineStart(text, s) && text[s] != '\n'
    && forall q: nat :: p <= q < s ==> !BarrelAt(text, q)
  }

  lemma GapIsUntouched(text: string, blocks: seq<Block>, i: nat)
    requires IsFinditer(text, blocks) && i < |blocks|
    ensures Untouched(text, EndBefore(blocks, i), blocks[i].start)
  {
    MatchFacts(text, blocks, i);
    forall q: nat | EndBefore(blocks, i) <= q < blocks[i].start
      ensures !BarrelAt(text, q)
    {
      BetweenMatches(text, blocks, i, q);
    }
  }

  lemma NoBarrelInGap(text: string, p: nat, s: nat, rest: string, q: nat)
    requires Untouched(text, p, s) && q < s - p
    ensures !BarrelAt(text[p..s] + rest, q)
  {
    GapChars(text, p, s, rest);
    if BarrelAt(text[p..s] + rest, q) {
      BarrelInGap(text, p, s, text[p..s] + rest, q);
    }
  }

  lemma GapChars(text: string, p: nat, s: nat, rest: string)
    requires p <= s <= |text|
    ensures forall j :: 0 <= j < s - p ==> (text[p..s] + rest)[j] == text[p + j]
  {
  }

  /** No barrel import of the text lies at or after `p`, where it may resume. */
  ghost predicate FreeFrom(text: string, p: nat) {
    p <= |text| && Resumes(text, p) && forall q: nat :: p <= q ==> !BarrelAt(text, q)
  }

  lemma RestIsFree(text: string, blocks: seq<Block>)
    requires IsFinditer(text, blocks)
    ensures FreeFrom(text, EndBefore(blocks, |blocks|))
  {
    MatchFacts(text, blocks, |blocks|);
    LastEndInText(text, blocks);
    forall q: nat | EndBefore(blocks, |blocks|) <= q
      ensures !BarrelAt(text, q)
    {
      BetweenMatches(text, blocks, |blocks|, q);
    }
  }

  lemma LastEndInText(text: string, blocks: seq<Block>)
    requires Placed(text, blocks, 0)
    ensures EndBefore(blocks, |blocks|) <= |text|
  {
    PlacedInText(text, blocks, 0);
  }

  lemma SuffixIsFree(text: string, p: nat)
    requires FreeFrom(text, p)
    ensures BarrelFree(text[p..])
  {
    forall q: nat
      ensures !BarrelAt(text[p..], q)
    {
      if BarrelAt(text[p..], q) {
        BarrelInGap(text, p, |text|, text[p..], q);
      }
    }
  }

  lemma NoBarrelStep(text: string, p: nat, s: nat, piece: string, tail: string, q: nat)
    requires Untouched(text, p, s) && OpensWithModules(piece) && BarrelFree(tail)
    ensures !BarrelAt(text[p..s] + piece + tail, q)
  {
    var gap := text[p..s];
    assert gap + piece + tail == gap + (piece + tail);
    if q < |gap| {
      NoBarrelInGap(text, p, s, piece + tail, q);
    } else if q < |gap| + |piece| {
      BarrelInPiece(gap, piece, tail, q);
    } else if BarrelAt(gap + piece + tail, q) {
      BarrelInTail(gap + piece, tail, q);
    }
  }

  ghost predicate BarrelFree(out: string) {
    forall q: nat :: !BarrelAt(out, q)
  }

  lemma {:induction false} NoBarrelFrom(text: string, blocks: seq<Block>, i: nat, symbolModules: map<string, string>)
    requires IsFinditer(text, blocks) && AllBlocksKnown(blocks, symbolModules) && PrintableModules(symbolModules)
    requires i <= |blocks| && Placed(text, blocks[i..], EndBefore(blocks, i))
    ensures BarrelFree(Substituted(text, blocks[i..], EndBefore(blocks, i), symbolModules))
    decreases |blocks| - i
  {
    var p, rest := EndBefore(blocks, i), blocks[i..];
    if i == |blocks| {
      assert Substituted(text, rest, p, symbolModules) == text[p..];
      RestIsFree(text, blocks);
      SuffixIsFree(text, p);
    } else {
      var b := blocks[i];
      assert rest[0] == b && rest[1..] == blocks[i + 1..];
      SubstitutedUnfold(text, rest, p, symbolModules);
      NoBarrelFrom(text, blocks, i + 1, symbolModules);
      MatchFacts(text, blocks, i);
      ReplacementOpensWithModules(b, symbolModules);
      GapIsUntouched(text, blocks, i);
      NoBarrelCons(text, p, b.start, Replacement(symbolModules)(b), Substituted(text, rest[1..], b.end, symbolModules));
    }
  }

  lemma NoBarrelCons(text: string, p: nat, s: nat, piece: string, tail: string)
    requires Untouched(text, p, s) && OpensWithModules(piece) && BarrelFree(tail)
    ensures BarrelFree(text[p..s] + piece + tail)
  {
    forall q: nat
      ensures !BarrelAt(text[p..s] + piece + tail, q)
    {
      NoBarrelStep(text, p, s, piece, tail, q);
    }
  }

  lemma BarrelInPiece(gap: string, piece: string, tail: string, q: nat)
    requires OpensWithModules(piece) && |gap| <= q < |gap| + |piece|
    ensures !BarrelAt(gap + piece + tail, q)
  {
    var s, r := gap + piece + tail, q - |gap|;
    if LineStart(s, q) {
      assert LineStart(piece, r);
      assert s[q..][..|MODULE_IMPORT|] == piece[r..][..|MODULE_IMPORT|];
      ModuleImportIsNotBarrel(s, q);
    }
  }

  /** Idempotence: a rewritten file contains no barrel import, so whatever `finditer` returns on a
      second run is empty and the file is left alone. */
  lemma SecondRunFindsNothing(text: string, blocks: seq<Block>, symbolModules: map<string, string>, again: seq<Block>)
    requires IsFinditer(text, blocks) && AllBlocksKnown(blocks, symbolModules) && PrintableModules(symbolModules)
    requires IsFinditer(Substituted(text, blocks, 0, symbolModules), again)
    ensures again == []
  {
    assert blocks[0..] == blocks;
    NoBarrelFrom(text, blocks, 0, symbolModules);
    assert again != [] ==> ClosedBlock(Substituted(text, blocks, 0, symbolModules), again[0]);
  }

  // ----- the whole tree -----

  /** A Python file and what `finditer` finds in it. */
  datatype SourceFile = SourceFile(text: string, blocks: seq<Block>)

  ghost predicate TreeIsMatched(files: seq<SourceFile>) {
    forall j :: 0 <= j < |files| ==> IsFinditer(files[j].text, files[j].blocks)
  }

  /** The text of a file that has been rewritten; without a barrel import it stays. */
  function Rewritten(f: SourceFile, symbolModules: map<string, string>): string
    requires Placed(f.text, f.blocks, 0)
  {
    if f.blocks == [] then f.text else Substituted(f.text, f.blocks, 0, symbolModules)
  }

  /** How many files come before the first one with an unknown symbol. */
  function FirstBad(files: seq<SourceFile>, symbolModules: map<string, string>): (n: nat)
    ensures n <= |files|
  {
    if files == [] || LastMissing(files[0].blocks, symbolModules) != [] then 0
    else 1 + FirstBad(files[1..], symbolModules)
  }

  lemma {:induction false} FirstBadIs(files: seq<SourceFile>, symbolModules: map<string, string>, j: nat)
    requires j < |files| && j <= FirstBad(files, symbolModules)
    ensures LastMissing(files[j].blocks, symbolModules) == [] <==> j < FirstBad(files, symbolModules)
  {
    if j > 0 {
      FirstBadIs(files[1..], symbolModules, j - 1);
    }
  }

  ghost predicate ArePlaced(files: seq<SourceFile>) {
    forall j :: 0 <= j < |files| ==> Placed(files[j].text, files[j].blocks, 0)
  }

  /** The first `n` files have been rewritten, the others are as they were. */
  ghost predicate RewrittenUpTo(files: seq<SourceFile>, symbolModules: map<string, string>, n: nat, texts: seq<string>)
    requires ArePlaced(files)
  {
    && |texts| == |files|
    && forall j :: 0 <= j < |files| ==> texts[j] == if j < n then Rewritten(files[j], symbolModules) else files[j].text
  }

  function Texts(files: seq<SourceFile>): seq<string> {
    Map(files, (f: SourceFile) => f.text)
  }

  lemma NothingYet(files: seq<SourceFile>, symbolModules: map<string, string>)
    requires ArePlaced(files)
    ensures RewrittenUpTo(files, symbolModules, 0, Texts(files))
  {
  }

  lemma OneMoreText(files: seq<SourceFile>, symbolModules: map<string, string>, n: nat, texts: seq<string>)
    requires ArePlaced(files) && n < |files| && RewrittenUpTo(files, symbolModules, n, texts)
    ensures RewrittenUpTo(files, symbolModules, n + 1, texts[n := Rewritten(files[n], symbolModules)])
  {
  }

  /** The loops of `main`: one file after another is rewritten, and the first unknown symbols end the
      script; the files before the first bad one are then rewritten, it and the later ones untouched. */
  method RewriteTree(files: seq<SourceFile>, symbolModules: map<string, string>)
    returns (texts: seq<string>, unknown: Option<seq<string>>)
    requires ArePlaced(files)
    ensures RewrittenUpTo(files, symbolModules, FirstBad(files, symbolModules), texts)
    ensures var bad := FirstBad(files, symbolModules);
            unknown == if bad == |files| then None else Some(LastMissing(files[bad].blocks, symbolModules))
  {
    texts := Texts(files);
    NothingYet(files, symbolModules);
    ghost var bad := FirstBad(files, symbolModules);
    for i := 0 to |files|
      invariant i <= bad && RewrittenUpTo(files, symbolModules, i, texts)
    {
      FirstBadIs(files, symbolModules, i);
      var text, missing := RewriteOne(files[i], symbolModules);
      if missing != [] {
        return texts, Some(missing);
      }
      OneMoreText(files, symbolModules, i, texts);
      texts := texts[i := text];
    }
    return texts, None;
  }

  method RewriteOne(f: SourceFile, symbolModules: map<string, string>) returns (text: string, missing: seq<string>)
    requires Placed(f.text, f.blocks, 0)
    ensures missing == LastMissing(f.blocks, symbolModules)
    ensures missing == [] ==> text == Rewritten(f, symbolModules)
  {
    var outcome := RewriteFile(f.text, f.blocks, symbolModules);
    match outcome
    case NoBarrel => return f.text, [];
    case UnknownSymbols(unknown) => return f.text, unknown;
    case Written(written) => return written, [];
  }

  lemma RewrittenIsFree(f: SourceFile, symbolModules: map<string, string>)
    requires IsFinditer(f.text, f.blocks) && AllBlocksKnown(f.blocks, symbolModules) && PrintableModules(symbolModules)
    ensures BarrelFree(Rewritten(f, symbolModules))
  {
    assert f.blocks[0..] == f.blocks;
    NoBarrelFrom(f.text, f.blocks, 0, symbolModules);
    if f.blocks == [] {
      assert Substituted(f.text, [], 0, symbolModules) == f.text[0..] == f.text;
    }
  }

  lemma FreeHasNoMatch(text: string, blocks: seq<Block>)
    requires BarrelFree(text) && IsFinditer(text, blocks)
    ensures blocks == []
  {
    assert blocks != [] ==> ClosedBlock(text, blocks[0]);
  }

  lemma GoodFileIsKnown(files: seq<SourceFile>, symbolModules: map<string, string>, j: nat)
    requires j < FirstBad(files, symbolModules)
    ensures AllBlocksKnown(files[j].blocks, symbolModules)
  {
    FirstBadIs(files, symbolModules, j);
    NothingMissingIff(files[j].blocks, symbolModules);
  }

  /** After a run that failed, a later run with a map that knows every symbol finishes the rest: the
      files the first run rewrote stay as they are, the others are rewritten, and no file has a barrel
      import left. `again` is the tree as the second run reads it; the same text gives the same matches. */
  lemma LaterRunFinishes(files: seq<SourceFile>, first: map<string, string>, again: seq<SourceFile>,
                         second: map<string, string>, j: nat)
    requires TreeIsMatched(files) && TreeIsMatched(again) && PrintableModules(first) && PrintableModules(second)
    requires ArePlaced(files)
    requires RewrittenUpTo(files, first, FirstBad(files, first), Texts(again))
    requires forall k :: 0 <= k < |again| && again[k].text == files[k].text ==> again[k] == files[k]
    requires FirstBad(again, second) == |again| && j < |files|
    ensures |again| == |files|
    ensures Rewritten(again[j], second)
         == if j < FirstBad(files, first) then Rewritten(files[j], first) else Rewritten(files[j], second)
    ensures BarrelFree(Rewritten(again[j], second))
  {
    assert Texts(again)[j] == again[j].text;
    GoodFileIsKnown(again, second, j);
    RewrittenIsFree(again[j], second);
    if j < FirstBad(files, first) {
      GoodFileIsKnown(files, first, j);
      RewrittenIsFree(files[j], first);
      FreeHasNoMatch(again[j].text, again[j].blocks);
    }
  }

  // ----- the bindings of the whole file -----

  /** The names a text imports from a module, read line by line. */
  function BindingsIn(text: string, m: string): seq<string> {
    NamesUnder(Map(Split(text, '\n'), ReadLine), m)
  }

  function CountIn(text: string, m: string, s: string): nat {
    multiset(BindingsIn(text, m))[s]
  }

  lemma {:induction false} NamesUnderAppend(a: seq<ImportLine>, b: seq<ImportLine>, m: string)
    ensures NamesUnder(a + b, m) == NamesUnder(a, m) + NamesUnder(b, m)
  {
    if b == [] {
      assert a + b == a;
    } else {
      var init, l := b[..|b| - 1], b[|b| - 1];
      NamesUnderAppend(a, init, m);
      NamesUnderSnoc(a + init, l, m);
      NamesUnderSnoc(init, l, m);
      assert a + b == (a + init) + [l] && b == init + [l];
    }
  }

  lemma NamesUnderSnoc(lines: seq<ImportLine>, l: ImportLine, m: string)
    ensures NamesUnder(lines + [l], m) == NamesUnder(lines, m) + if l.mod == m then l.names else []
  {
    assert (lines + [l])[..|lines|] == lines;
  }

  /** At a line break, bindings add up. */
  lemma BindingsAtBreak(a: string, b: string, m: string, s: string)
    ensures CountIn(a + ['\n'] + b, m, s) == CountIn(a, m, s) + CountIn(b, m, s)
  {
    SplitAnywhere(a, '\n', b);
    MapAppend(Split(a, '\n'), Split(b, '\n'), ReadLine);
    NamesUnderAppend(Map(Split(a, '\n'), ReadLine), Map(Split(b, '\n'), ReadLine), m);
  }

  lemma NothingInNothing(m: string, s: string)
    ensures CountIn("", m, s) == 0
  {
    var lines := Map(Split("", '\n'), ReadLine);
    assert Split("", '\n') == [""] && ReadLine("") == ImportLine("", []);
    assert lines == [ImportLine("", [])] && lines[..0] == [];
    assert NamesUnder(lines[..0], m) == [];
  }

  /** A text that may stand before, or after, a line of its own. */
  predicate EndsLine(gap: string) {
    gap == "" || gap[|gap| - 1] == '\n'
  }

  predicate ResumesLine(tail: string) {
    tail == "" || tail[0] == '\n'
  }

  lemma BindingsOfParts(gap: string, piece: string, tail: string, m: string, s: string)
    requires EndsLine(gap) && ResumesLine(tail)
    ensures CountIn(gap + piece + tail, m, s) == CountIn(gap, m, s) + CountIn(piece, m, s) + CountIn(tail, m, s)
  {
    assert gap + piece + tail == gap + (piece + tail);
    BindingsAfterGap(gap, piece + tail, m, s);
    BindingsBeforeTail(piece, tail, m, s);
  }

  lemma BindingsAfterGap(gap: string, rest: string, m: string, s: string)
    requires EndsLine(gap)
    ensures CountIn(gap + rest, m, s) == CountIn(gap, m, s) + CountIn(rest, m, s)
  {
    NothingInNothing(m, s);
    if gap == "" {
      assert gap + rest == rest;
    } else {
      var g := gap[..|gap| - 1];
      assert gap == g + ['\n'] + "" && gap + rest == g + ['\n'] + rest;
      BindingsAtBreak(g, "", m, s);
      BindingsAtBreak(g, rest, m, s);
    }
  }

  lemma BindingsBeforeTail(piece: string, tail: string, m: string, s: string)
    requires ResumesLine(tail)
    ensures CountIn(piece + tail, m, s) == CountIn(piece, m, s) + CountIn(tail, m, s)
  {
    NothingInNothing(m, s);
    if tail == "" {
      assert piece + tail == piece;
    } else {
      assert tail == "" + ['\n'] + tail[1..] && piece + tail == piece + ['\n'] + tail[1..];
      BindingsAtBreak("", tail[1..], m, s);
      BindingsAtBreak(piece, tail[1..], m, s);
    }
  }

  /** The text without its barrel imports, from `pos` on. */
  function Kept(text: string, blocks: seq<Block>, pos: nat): string
    requires Placed(text, blocks, pos)
  {
    Interleave(Gaps(text, blocks, pos), Map(blocks, (b: Block) => ""))
  }

  lemma KeptUnfold(text: string, blocks: seq<Block>, pos: nat)
    requires Placed(text, blocks, pos) && blocks != []
    ensures Kept(text, blocks, pos) == text[pos..blocks[0].start] + "" + Kept(text, blocks[1..], blocks[0].end)
  {
    var pieces := Map(blocks, (b: Block) => "");
    assert pieces[1..] == Map(blocks[1..], (b: Block) => "");
  }

  /** How often the blocks list `s`, if the symbol map assigns it to `m`. */
  function Listed(blocks: seq<Block>, symbolModules: map<string, string>, m: string, s: string): nat {
    if blocks == [] then 0
    else ListedIn(blocks[0].symbols, symbolModules, m, s) + Listed(blocks[1..], symbolModules, m, s)
  }

  function ListedIn(symbols: seq<string>, symbolModules: map<string, string>, m: string, s: string): nat {
    if s in symbolModules && symbolModules[s] == m then multiset(symbols)[s] else 0
  }

  lemma PieceBindings(b: Block, symbolModules: map<string, string>, m: string, s: string)
    requires AllKnown(b.symbols, symbolModules) && AreNames(b.symbols) && PrintableModules(symbolModules)
    ensures CountIn(Replacement(symbolModules)(b), m, s) == ListedIn(b.symbols, symbolModules, m, s)
  {
    if b.symbols == [] {
      LinesAreSorted(b.symbols, symbolModules);
      NothingInNothing(m, s);
    } else {
      PrintedBindings(b.symbols, symbolModules, m, s);
    }
  }

  lemma GapText(text: string, p: nat, q: nat)
    requires p <= q < |text| && Resumes(text, p) && LineStart(text, q) && text[q] != '\n'
    ensures EndsLine(text[p..q])
    ensures p > 0 ==> p < q
  {
  }

  lemma RestText(text: string, p: nat)
    requires 0 < p <= |text| && Resumes(text, p)
    ensures ResumesLine(text[p..])
  {
  }

  lemma EndIsPositive(text: string, blocks: seq<Block>, i: nat)
    requires IsFinditer(text, blocks) && 0 < i <= |blocks|
    ensures 0 < EndBefore(blocks, i) <= |text|
  {
    assert ClosedBlock(text, blocks[i - 1]);
  }

  /** What lies between two matches goes on with a line break and ends with one. */
  lemma GapFacts(text: string, blocks: seq<Block>, i: nat)
    requires IsFinditer(text, blocks) && i < |blocks|
    ensures EndBefore(blocks, i) <= blocks[i].start <= |text|
    ensures EndsLine(text[EndBefore(blocks, i)..blocks[i].start])
    ensures i > 0 ==> EndBefore(blocks, i) < blocks[i].start
  {
    MatchFacts(text, blocks, i);
    GapText(text, EndBefore(blocks, i), blocks[i].start);
    if i > 0 {
      EndIsPositive(text, blocks, i);
    }
  }

  lemma JoinResumes(text: string, p: nat, q: nat, piece: string, tail: string)
    requires p < q <= |text| && ResumesLine(text[p..])
    ensures ResumesLine(text[p..q] + piece + tail)
  {
    assert (text[p..q] + piece + tail)[0] == text[p] == text[p..][0];
  }

  /** After a match, the output goes on with a line break or is at its end, replaced or not. */
  lemma TailsResume(text: string, blocks: seq<Block>, i: nat, symbolModules: map<string, string>)
    requires IsFinditer(text, blocks) && 0 < i <= |blocks| && Placed(text, blocks[i..], EndBefore(blocks, i))
    ensures ResumesLine(Substituted(text, blocks[i..], EndBefore(blocks, i), symbolModules))
    ensures ResumesLine(Kept(text, blocks[i..], EndBefore(blocks, i)))
  {
    MatchFacts(text, blocks, i);
    EndIsPositive(text, blocks, i);
    RestText(text, EndBefore(blocks, i));
    if i < |blocks| {
      GapFacts(text, blocks, i);
      RestResumes(text, blocks[i..], EndBefore(blocks, i), symbolModules);
    } else {
      NothingLeft(text, EndBefore(blocks, i), symbolModules);
      assert blocks[i..] == [];
    }
  }

  lemma NothingLeft(text: string, p: nat, symbolModules: map<string, string>)
    requires p <= |text|
    ensures Substituted(text, [], p, symbolModules) == Kept(text, [], p) == text[p..]
  {
  }

  lemma RestResumes(text: string, rest: seq<Block>, p: nat, symbolModules: map<string, string>)
    requires Placed(text, rest, p) && rest != [] && p < rest[0].start && ResumesLine(text[p..])
    ensures ResumesLine(Substituted(text, rest, p, symbolModules)) && ResumesLine(Kept(text, rest, p))
  {
    var b := rest[0];
    SubstitutedUnfold(text, rest, p, symbolModules);
    KeptUnfold(text, rest, p);
    JoinResumes(text, p, b.start, Replacement(symbolModules)(b), Substituted(text, rest[1..], b.end, symbolModules));
    JoinResumes(text, p, b.start, "", Kept(text, rest[1..], b.end));
  }

  lemma {:induction false} FileBindingsFrom(text: string, blocks: seq<Block>, i: nat,
                                            symbolModules: map<string, string>, m: string, s: string)
    requires IsFinditer(text, blocks) && AllBlocksKnown(blocks, symbolModules) && PrintableModules(symbolModules)
    requires i <= |blocks| && Placed(text, blocks[i..], EndBefore(blocks, i))
    ensures CountIn(Substituted(text, blocks[i..], EndBefore(blocks, i), symbolModules), m, s)
         == CountIn(Kept(text, blocks[i..], EndBefore(blocks, i)), m, s) + Listed(blocks[i..], symbolModules, m, s)
    decreases |blocks| - i
  {
    if i < |blocks| {
      assert blocks[i..][0] == blocks[i] && blocks[i..][1..] == blocks[i + 1..];
      FileBindingsFrom(text, blocks, i + 1, symbolModules, m, s);
      MatchFacts(text, blocks, i);
      GapFacts(text, blocks, i);
      TailsResume(text, blocks, i + 1, symbolModules);
      RestBindings(text, blocks[i..], EndBefore(blocks, i), symbolModules, m, s);
    } else {
      assert blocks[i..] == [];
    }
  }

  lemma RestBindings(text: string, rest: seq<Block>, p: nat, symbolModules: map<string, string>, m: string, s: string)
    requires Placed(text, rest, p) && rest != [] && EndsLine(text[p..rest[0].start])
    requires AllKnown(rest[0].symbols, symbolModules) && AreNames(rest[0].symbols) && PrintableModules(symbolModules)
    requires ResumesLine(Substituted(text, rest[1..], rest[0].end, symbolModules))
    requires ResumesLine(Kept(text, rest[1..], rest[0].end))
    requires CountIn(Substituted(text, rest[1..], rest[0].end, symbolModules), m, s)
          == CountIn(Kept(text, rest[1..], rest[0].end), m, s) + Listed(rest[1..], symbolModules, m, s)
    ensures CountIn(Substituted(text, rest, p, symbolModules), m, s)
         == CountIn(Kept(text, rest, p), m, s) + Listed(rest, symbolModules, m, s)
  {
    var b := rest[0];
    SubstitutedUnfold(text, rest, p, symbolModules);
    KeptUnfold(text, rest, p);
    BindingsOfBlock(text[p..b.start], b, Substituted(text, rest[1..], b.end, symbolModules),
                    Kept(text, rest[1..], b.end), symbolModules, m, s);
  }

  lemma BindingsOfBlock(gap: string, b: Block, tail: string, keptTail: string, symbolModules: map<string, string>,
                        m: string, s: string)
    requires AllKnown(b.symbols, symbolModules) && AreNames(b.symbols) && PrintableModules(symbolModules)
    requires EndsLine(gap) && ResumesLine(tail) && ResumesLine(keptTail)
    ensures CountIn(gap + Replacement(symbolModules)(b) + tail, m, s)
         == CountIn(gap, m, s) + ListedIn(b.symbols, symbolModules, m, s) + CountIn(tail, m, s)
    ensures CountIn(gap + "" + keptTail, m, s) == CountIn(gap, m, s) + CountIn(keptTail, m, s)
  {
    PieceBindings(b, symbolModules, m, s);
    BindingsOfParts(gap, Replacement(symbolModules)(b), tail, m, s);
    BindingsOfParts(gap, "", keptTail, m, s);
    NothingInNothing(m, s);
  }

  /** The bindings of the written file: what it imported without its barrel imports, plus each name
      the barrel imports listed, as often as listed, from the module the symbol map assigns to it. */
  lemma FileBindings(text: string, blocks: seq<Block>, symbolModules: map<string, string>, m: string, s: string)
    requires IsFinditer(text, blocks) && AllBlocksKnown(blocks, symbolModules) && PrintableModules(symbolModules)
    ensures CountIn(Substituted(text, blocks, 0, symbolModules), m, s)
         == CountIn(Kept(text, blocks, 0), m, s) + Listed(blocks, symbolModules, m, s)
  {
    assert blocks[0..] == blocks;
    FileBindingsFrom(text, blocks, 0, symbolModules, m, s);
  }
}
