/** `split_models.py` and `split_schemas.py`: cutting a module into class blocks and sorting the
    blocks into one file per domain. */
module ModuleSplitter {
  import opened Collections
  import opened Ordering
  import opened Grouping
  import opened Text

  // ----- cutting -----

  predicate IsClassLine(line: string) {
    StartsWith(line, "class ")
  }

  lemma ClassLineIff(line: string)
    ensures IsClassLine(line) <==> exists rest :: line == "class " + rest
  {
    if IsClassLine(line) {
      assert line == "class " + line[6..];
    }
  }

  /** A block opens with a class line and holds no other. */
  predicate IsBlock(b: seq<string>) {
    b != [] && IsClassLine(b[0]) && forall k :: 0 < k < |b| ==> !IsClassLine(b[k])
  }

  /** Lossless cutting: the blocks, one after another, are the lines. */
  ghost predicate IsCut(lines: seq<string>, blocks: seq<seq<string>>) {
    Flatten(blocks) == lines && forall i :: 0 <= i < |blocks| ==> IsBlock(blocks[i])
  }

  /** `"\n".join(current).rstrip()` */
  function BlockText(b: seq<string>): string {
    StripRight(Join("\n", b))
  }

  /** The index `next(...)` finds; without a class line the script stops. */
  method FirstClass(lines: seq<string>) returns (start: Option<nat>)
    ensures start.None? ==> forall i :: 0 <= i < |lines| ==> !IsClassLine(lines[i])
    ensures start.Some? ==> start.value < |lines| && IsClassLine(lines[start.value])
                            && forall i :: 0 <= i < start.value ==> !IsClassLine(lines[i])
  {
    for i := 0 to |lines|
      invariant forall j :: 0 <= j < i ==> !IsClassLine(lines[j])
    {
      if IsClassLine(lines[i]) {
        return Some(i);
      }
    }
    return None;
  }

  /** The finished blocks and the one being collected, after some lines have been read. */
  ghost predicate CutSoFar(lines: seq<string>, raw: seq<seq<string>>, current: seq<string>) {
    && Flatten(raw) + current == lines
    && (forall j :: 0 <= j < |raw| ==> IsBlock(raw[j]))
    && (if lines == [] then current == [] else IsBlock(current))
  }

  /** `blocks.append("\n".join(current).rstrip())` */
  method CloseBlock(blocks: seq<string>, ghost raw: seq<seq<string>>, current: seq<string>)
    returns (blocks': seq<string>)
    requires blocks == Map(raw, BlockText)
    ensures blocks' == Map(raw + [current], BlockText)
  {
    blocks' := blocks + [BlockText(current)];
  }

  lemma CloseCut(lines: seq<string>, raw: seq<seq<string>>, current: seq<string>)
    requires CutSoFar(lines, raw, current) && lines != []
    ensures IsCut(lines, raw + [current])
  {
    FlattenSnoc(raw, current);
  }

  lemma ReadLine(lines: seq<string>, raw: seq<seq<string>>, current: seq<string>, line: string)
    requires CutSoFar(lines, raw, current) && (lines == [] ==> IsClassLine(line))
    ensures IsClassLine(line) && current != [] ==> CutSoFar(lines + [line], raw + [current], [line])
    ensures !(IsClassLine(line) && current != []) ==> CutSoFar(lines + [line], raw, current + [line])
  {
    if IsClassLine(line) && current != [] {
      FlattenSnoc(raw, current);
    } else {
      BlockGrows(current, line);
      assert Flatten(raw) + (current + [line]) == (Flatten(raw) + current) + [line];
    }
  }

  /** The blocks are a lossless cut of the lines, each part joined and trimmed. */
  ghost predicate IsTrimmedCut(lines: seq<string>, blocks: seq<string>) {
    exists raw :: IsCut(lines, raw) && blocks == Map(raw, BlockText)
  }

  /** The block-cutting loop on the lines from the first class line on; `raw` are the blocks
      before they are joined and trimmed. */
  method CutBlocks(lines: seq<string>) returns (blocks: seq<string>)
    requires lines != [] && IsClassLine(lines[0])
    ensures IsTrimmedCut(lines, blocks)
  {
    blocks := [];
    ghost var raw: seq<seq<string>> := [];
    var current: seq<string> := [];
    for i := 0 to |lines|
      invariant CutSoFar(lines[..i], raw, current)
      invariant blocks == Map(raw, BlockText)
    {
      blocks, raw, current := TakeLine(lines, i, blocks, raw, current);
    }
    AllRead(lines, raw, current);
    if current != [] {
      blocks := CloseBlock(blocks, raw, current);
      TrimmedBy(lines, raw + [current], blocks);
    }
  }

  lemma AllRead(lines: seq<string>, raw: seq<seq<string>>, current: seq<string>)
    requires CutSoFar(lines[..|lines|], raw, current) && lines != []
    ensures current != [] && IsCut(lines, raw + [current])
  {
    assert lines[..|lines|] == lines;
    CloseCut(lines, raw, current);
  }

  lemma TrimmedBy(lines: seq<string>, raw: seq<seq<string>>, blocks: seq<string>)
    requires IsCut(lines, raw) && blocks == Map(raw, BlockText)
    ensures IsTrimmedCut(lines, blocks)
  {
  }

  /** The body of the loop: a class line closes the block before it, if there is one. */
  method TakeLine(lines: seq<string>, i: nat, blocks: seq<string>, ghost raw: seq<seq<string>>, current: seq<string>)
    returns (blocks': seq<string>, ghost raw': seq<seq<string>>, current': seq<string>)
    requires i < |lines| && CutSoFar(lines[..i], raw, current) && blocks == Map(raw, BlockText)
    requires i == 0 ==> IsClassLine(lines[i])
    ensures CutSoFar(lines[..i + 1], raw', current') && blocks' == Map(raw', BlockText)
  {
    var line := lines[i];
    ReadLine(lines[..i], raw, current, line);
    assert lines[..i + 1] == lines[..i] + [line];
    if IsClassLine(line) && current != [] {
      blocks' := CloseBlock(blocks, raw, current);
      raw' := raw + [current];
      current' := [line];
    } else {
      blocks', raw', current' := blocks, raw, current + [line];
    }
  }

  lemma BlockGrows(current: seq<string>, line: string)
    requires if current == [] then IsClassLine(line) else IsBlock(current) && !IsClassLine(line)
    ensures IsBlock(current + [line])
  {
    var grown := current + [line];
    forall k | 0 < k < |grown|
      ensures !IsClassLine(grown[k])
    {
      assert k < |current| ==> grown[k] == current[k];
    }
  }

  lemma LastBlockFits(lines: seq<string>, a: seq<seq<string>>, b: seq<seq<string>>)
    requires IsCut(lines, a) && IsCut(lines, b) && a != [] && b != []
    ensures |a[|a| - 1]| <= |b[|b| - 1]|
  {
    var x, y := a[|a| - 1], b[|b| - 1];
    assert IsBlock(x) && IsBlock(y);
    assert lines == Flatten(a[..|a| - 1]) + x == Flatten(b[..|b| - 1]) + y;
    assert IsClassLine(lines[|lines| - |y|]);
    forall j | |lines| - |x| < j < |lines|
      ensures !IsClassLine(lines[j])
    {
      assert lines[j] == x[j - (|lines| - |x|)];
    }
  }

  /** There is only one way to cut: any two cuts of the same lines agree. */
  lemma {:induction false} CutIsUnique(lines: seq<string>, a: seq<seq<string>>, b: seq<seq<string>>)
    requires IsCut(lines, a) && IsCut(lines, b)
    ensures a == b
    decreases |a|
  {
    if a == [] || b == [] {
      NonEmptyCut(a);
      NonEmptyCut(b);
    } else {
      LastBlockFits(lines, a, b);
      LastBlockFits(lines, b, a);
      var x, y := a[|a| - 1], b[|b| - 1];
      var ra, rb := Flatten(a[..|a| - 1]), Flatten(b[..|b| - 1]);
      assert ra + x == rb + y && |ra| == |rb|;
      assert ra == (ra + x)[..|ra|] == (rb + y)[..|rb|] == rb;
      assert x == (ra + x)[|ra|..] == (rb + y)[|rb|..] == y;
      CutIsUnique(ra, a[..|a| - 1], b[..|b| - 1]);
      SnocCases(a);
      SnocCases(b);
    }
  }

  lemma NonEmptyCut(a: seq<seq<string>>)
    requires forall i :: 0 <= i < |a| ==> IsBlock(a[i])
    ensures a != [] ==> Flatten(a) != []
  {
    if a != [] {
      assert IsBlock(a[|a| - 1]);
    }
  }

  /** The cutting loop's result is determined by its contract alone. */
  lemma TrimmedCutIsUnique(lines: seq<string>, blocks: seq<string>, blocks': seq<string>)
    requires IsTrimmedCut(lines, blocks) && IsTrimmedCut(lines, blocks')
    ensures blocks == blocks'
  {
    var a :| IsCut(lines, a) && blocks == Map(a, BlockText);
    var b :| IsCut(lines, b) && blocks' == Map(b, BlockText);
    CutIsUnique(lines, a, b);
  }

  /** Trimming removes the white space from the end of a block, and nothing else. */
  lemma TrimLosesOnlyBlanks(b: seq<string>)
    ensures var text, kept := Join("\n", b), BlockText(b);
            && |kept| <= |text| && kept == text[..|kept|] && (kept != "" ==> !IsSpace(kept[|kept| - 1]))
            && forall i :: |kept| <= i < |text| ==> IsSpace(text[i])
  {
    StripRightKeeps(Join("\n", b));
  }

  // ----- naming -----

  /** The last of the white-space separated words of `s`. */
  function LastWord(s: string): string {
    TailWord(StripRight(s))
  }

  function TailWord(s: string): string {
    if s == "" || IsSpace(s[|s| - 1]) then "" else TailWord(s[..|s| - 1]) + [s[|s| - 1]]
  }

  /** `block.split("(")[0].split()[-1]` */
  function ClassName(block: string): string {
    LastWord(Split(block, '(')[0])
  }

  predicate IsWord(s: string) {
    s != "" && forall i :: 0 <= i < |s| ==> s[i] != '(' && !IsSpace(s[i])
  }

  predicate IsIdentifierChar(c: char) {
    'A' <= c <= 'Z' || 'a' <= c <= 'z' || '0' <= c <= '9' || c == '_'
  }

  predicate IsIdentifier(s: string) {
    s != "" && !('0' <= s[0] <= '9') && forall i :: 0 <= i < |s| ==> IsIdentifierChar(s[i])
  }

  lemma IdentifierIsWord(s: string)
    requires IsIdentifier(s)
    ensures IsWord(s)
  {
    forall i | 0 <= i < |s|
      ensures s[i] != '(' && !IsSpace(s[i])
    {
      assert IsIdentifierChar(s[i]);
    }
  }

  lemma {:induction false} TailWordOf(prefix: string, name: string)
    requires forall i :: 0 <= i < |name| ==> !IsSpace(name[i])
    ensures TailWord(prefix + " " + name) == name
  {
    if name == "" {
      assert prefix + " " + name == prefix + " ";
    } else {
      var s := prefix + " " + name;
      assert s[..|s| - 1] == prefix + " " + name[..|name| - 1];
      TailWordOf(prefix, name[..|name| - 1]);
    }
  }

  /** What is read is the word before the first parenthesis ... */
  lemma WordBeforeParenthesis(word: string, rest: string)
    requires IsWord(word)
    ensures ClassName("class " + word + "(" + rest) == word
  {
    var head := "class" + " " + word;
    assert "class " + word + "(" + rest == head + ['('] + rest;
    SplitAtFirst(head, '(', rest);
    assert !IsSpace(head[|head| - 1]);
    TailWordOf("class", word);
  }

  /** ... which is the class name when the header has a base-class list ... */
  lemma NameOfDerivedClass(name: string, rest: string)
    requires IsIdentifier(name)
    ensures ClassName("class " + name + "(" + rest) == name
  {
    IdentifierIsWord(name);
    WordBeforeParenthesis(name, rest);
  }

  /** ... unless it also has type parameters, which are then taken for part of the name ... */
  lemma NameOfGenericClass(name: string, parameters: string, rest: string)
    requires IsIdentifier(name) && IsWord(parameters)
    ensures ClassName("class " + name + "[" + parameters + "](" + rest) == name + "[" + parameters + "]" != name
  {
    IdentifierIsWord(name);
    var word := name + "[" + parameters + "]";
    assert "class " + name + "[" + parameters + "](" + rest == "class " + word + "(" + rest;
    WordBeforeParenthesis(word, rest);
  }

  predicate HasSpace(s: string) {
    exists i :: 0 <= i < |s| && IsSpace(s[i])
  }

  lemma {:induction false} TailWordAppend(a: string, b: string)
    ensures TailWord(a + b) == if HasSpace(b) then TailWord(b) else TailWord(a) + b
  {
    if b == "" {
      assert a + b == a;
    } else {
      var init, last := b[..|b| - 1], b[|b| - 1];
      assert (a + b)[..|a + b| - 1] == a + init;
      assert b == init + [last];
      TailWordAppend(a, init);
      assert !IsSpace(last) ==> HasSpace(b) == HasSpace(init);
    }
  }

  lemma {:induction false} StripRightAppend(a: string, b: string)
    requires a != "" && !IsSpace(a[|a| - 1])
    ensures StripRight(a + b) == a + StripRight(b)
  {
    if b == "" {
      assert a + b == a;
    } else {
      assert (a + b)[..|a + b| - 1] == a + b[..|b| - 1];
      StripRightAppend(a, b[..|b| - 1]);
    }
  }

  lemma {:induction false} SplitHead(a: string, c: char, b: string)
    requires Lacks(a, c)
    ensures Split(a + b, c)[0] == a + Split(b, c)[0]
  {
    if a == "" {
      assert a + b == b;
    } else {
      SplitHead(a[1..], c, b);
      assert (a + b)[1..] == a[1..] + b;
    }
  }

  /** The text after a header without a base-class list, up to the first parenthesis, trimmed. */
  function ReadPast(body: string): string {
    StripRight(Split(body, '(')[0])
  }

  lemma {:induction false} TailWordEnd(s: string)
    requires s != "" && !IsSpace(s[|s| - 1])
    ensures TailWord(s) != "" && TailWord(s)[|TailWord(s)| - 1] == s[|s| - 1]
  {
  }

  /** Whatever the header is, with type parameters or blanks before its colon, as long as it has no
      parenthesis: the name that is read is a given identifier exactly when that is the last word
      before the first parenthesis of the body, after a white space of the body. */
  lemma NameOfPlainHeader(header: string, body: string, name: string)
    requires Lacks(header, '(') && IsIdentifier(name)
    ensures ClassName("class " + header + ":" + body) == name
       <==> HasSpace(ReadPast(body)) && TailWord(ReadPast(body)) == name
  {
    var head, before, past := "class " + header + ":", Split(body, '(')[0], ReadPast(body);
    SplitHead(head, '(', body);
    StripRightAppend(head, before);
    TailWordAppend(head, past);
    if !HasSpace(past) {
      TailWordEnd(head);
      assert (TailWord(head) + past)[|TailWord(head)| - 1] == ':';
      NoIdentifier(TailWord(head) + past, |TailWord(head)| - 1);
    }
  }

  lemma NoIdentifier(word: string, i: nat)
    requires i < |word| && word[i] == ':'
    ensures !IsIdentifier(word)
  {
    assert !IsIdentifierChar(word[i]);
  }

  /** ... but a header without one makes it the last word before the first parenthesis of the body,
      or glues the body to it; so the name is read correctly exactly when that word, after a white
      space of the body, happens to be the name again. */
  lemma NameOfPlainClass(name: string, body: string)
    requires IsIdentifier(name)
    ensures var block, past := "class " + name + ":" + body, ReadPast(body);
            && ClassName(block) == (if HasSpace(past) then TailWord(past) else name + ":" + past)
            && (ClassName(block) == name <==> HasSpace(past) && TailWord(past) == name)
  {
    IdentifierIsWord(name);
    var head, before, past := "class " + name + ":", Split(body, '(')[0], ReadPast(body);
    assert head == "class" + " " + (name + ":");
    SplitHead(head, '(', body);
    StripRightAppend(head, before);
    TailWordAppend(head, past);
    TailWordOf("class", name + ":");
  }

  // ----- partitioning -----

  /** The rules of one script: an exact-name rule, prefix rules tried in order, and the domain of
      classes no rule matches; without one the script raises. */
  datatype Rules = Rules(exact: map<string, string>, prefixes: seq<(string, seq<string>)>, fallback: Option<string>)

  predicate Matches(name: string, prefixes: seq<string>) {
    exists i :: 0 <= i < |prefixes| && StartsWith(name, prefixes[i])
  }

  function FirstMatch(rules: seq<(string, seq<string>)>, name: string): Option<string> {
    if rules == [] then None
    else if Matches(name, rules[0].1) then Some(rules[0].0)
    else FirstMatch(rules[1..], name)
  }

  function DomainFor(rules: Rules, name: string): Option<string> {
    if name in rules.exact then Some(rules.exact[name])
    else
      var m := FirstMatch(rules.prefixes, name);
      if m.Some? then m else rules.fallback
  }

  /** The domain of the first rule with a matching prefix; `None` exactly when no rule matches. */
  lemma {:induction false} FirstMatchIsFirst(rules: seq<(string, seq<string>)>, name: string)
    ensures match FirstMatch(rules, name)
            case None => forall i :: 0 <= i < |rules| ==> !Matches(name, rules[i].1)
            case Some(d) => exists i :: 0 <= i < |rules| && d == rules[i].0 && Matches(name, rules[i].1)
                                        && forall j :: 0 <= j < i ==> !Matches(name, rules[j].1)
  {
    if rules != [] && !Matches(name, rules[0].1) {
      FirstMatchIsFirst(rules[1..], name);
      if FirstMatch(rules, name).Some? {
        var i :| && 0 <= i < |rules| - 1 && FirstMatch(rules, name).value == rules[1..][i].0
                 && Matches(name, rules[1..][i].1)
                 && forall j :: 0 <= j < i ==> !Matches(name, rules[1..][j].1);
        assert rules[i + 1] == rules[1..][i];
        assert forall j :: 0 < j < i + 1 ==> rules[j] == rules[1..][j - 1];
      }
    }
  }

  /** What becomes of a word that no rule fits: the fallback, or the end of the script. */
  lemma UnmatchedWord(rules: Rules, word: string)
    ensures word !in rules.exact && (forall i :: 0 <= i < |rules.prefixes| ==> !Matches(word, rules.prefixes[i].1))
        ==> DomainFor(rules, word) == rules.fallback
    ensures DomainFor(rules, word) == None
       <==> && word !in rules.exact && rules.fallback == None
            && forall i :: 0 <= i < |rules.prefixes| ==> !Matches(word, rules.prefixes[i].1)
  {
    FirstMatchIsFirst(rules.prefixes, word);
  }

  /** The domain of a word: that of the exact rule, else that of the first rule with a prefix of the word,
      else the fallback; without one, the script ends. */
  lemma DomainOfWord(rules: Rules, word: string, i: nat)
    requires i <= |rules.prefixes| && forall h :: 0 <= h < i ==> !Matches(word, rules.prefixes[h].1)
    ensures word in rules.exact ==> DomainFor(rules, word) == Some(rules.exact[word])
    ensures word !in rules.exact && i < |rules.prefixes| && Matches(word, rules.prefixes[i].1) ==>
              DomainFor(rules, word) == Some(rules.prefixes[i].0)
    ensures word !in rules.exact && i == |rules.prefixes| ==> DomainFor(rules, word) == rules.fallback
  {
    FirstMatchIsFirst(rules.prefixes, word);
    if FirstMatch(rules.prefixes, word).Some? {
      var k :| && 0 <= k < |rules.prefixes| && FirstMatch(rules.prefixes, word).value == rules.prefixes[k].0
               && Matches(word, rules.prefixes[k].1) && forall h :: 0 <= h < k ==> !Matches(word, rules.prefixes[h].1);
    }
  }

  lemma PrefixMatches(word: string, prefixes: seq<string>)
    ensures Matches(word, prefixes) <==> exists i, rest :: 0 <= i < |prefixes| && word == prefixes[i] + rest
  {
    if i :| 0 <= i < |prefixes| && StartsWith(word, prefixes[i]) {
      assert word == prefixes[i] + word[|prefixes[i]|..];
    }
  }

  /** Under any rules without one-letter prefixes or names, a class without a base-class list whose
      first call is to `f` is read as `f`, whatever its own name and domain: without a fallback, as in
      `split_models.py`, the script stops; with the fallback `misc` of `split_schemas.py`, the class
      goes there. */
  lemma PlainClassGoesAstray(rules: Rules, name: string)
    requires IsIdentifier(name) && "f" !in rules.exact
    requires forall i, j :: 0 <= i < |rules.prefixes| && 0 <= j < |rules.prefixes[i].1| ==> |rules.prefixes[i].1[j]| > 1
    ensures var block := "class " + name + ":" + "\n x = f(1)";
            && ClassName(block) == "f"
            && DomainFor(rules, ClassName(block)) == rules.fallback
            && (HasDomain(rules, block) <==> rules.fallback != None)
  {
    NameOfPlainClass(name, "\n x = f(1)");
    PastTheHeader();
    UnmatchedWord(rules, "f");
  }

  lemma PastTheHeader()
    ensures var past := ReadPast("\n x = f(1)");
            HasSpace(past) && TailWord(past) == "f"
  {
    assert "\n x = f(1)" == "\n x = f" + ['('] + "1)";
    SplitAtFirst("\n x = f", '(', "1)");
    assert "\n x = f" == "\n x =" + " " + "f";
    TailWordOf("\n x =", "f");
    assert ReadPast("\n x = f(1)") == "\n x = f";
    assert IsSpace("\n x = f"[0]);
  }

  predicate HasDomain(rules: Rules, block: string) {
    DomainFor(rules, ClassName(block)).Some?
  }

  function DomainOf(rules: Rules, block: string): string {
    DomainFor(rules, ClassName(block)).GetOr("")
  }

  function BlockDomain(rules: Rules): string -> string {
    (block: string) => DomainOf(rules, block)
  }

  /** The `setdefault` loop; a class without a domain stops the script before any file is written. */
  method PartitionBlocks(rules: Rules, blocks: seq<string>) returns (byDomain: Option<map<string, seq<string>>>)
    ensures byDomain.None? <==> exists i :: 0 <= i < |blocks| && !HasDomain(rules, blocks[i])
    ensures byDomain.Some? ==> byDomain.value == GroupBy(blocks, BlockDomain(rules))
  {
    var groups: map<string, seq<string>> := map[];
    for i := 0 to |blocks|
      invariant forall j :: 0 <= j < i ==> HasDomain(rules, blocks[j])
      invariant groups == GroupBy(blocks[..i], BlockDomain(rules))
    {
      if !HasDomain(rules, blocks[i]) {
        return None;
      }
      groups := AddBlock(rules, blocks[..i], blocks[i], groups);
      assert blocks[..i + 1] == blocks[..i] + [blocks[i]];
    }
    assert blocks[..|blocks|] == blocks;
    return Some(groups);
  }

  /** `by_domain.setdefault(domain, []).append(block)` */
  method AddBlock(rules: Rules, ghost before: seq<string>, block: string, groups: map<string, seq<string>>)
    returns (groups': map<string, seq<string>>)
    requires groups == GroupBy(before, BlockDomain(rules))
    ensures groups' == GroupBy(before + [block], BlockDomain(rules))
  {
    GroupBySnoc(before, block, BlockDomain(rules));
    groups' := Append(groups, DomainOf(rules, block), block);
  }

  // ----- writing -----

  /** The chunks the two scripts write: one list per domain, except a domain that is skipped. */
  function FilesOf(byDomain: map<string, seq<string>>, skipped: Option<string>): map<string, seq<string>> {
    map d | d in byDomain && Some(d) != skipped :: byDomain[d]
  }

  /** The writing loop: `split_models.py` skips the domain `base`, `split_schemas.py` skips nothing. */
  method WriteFiles(byDomain: map<string, seq<string>>, skipped: Option<string>)
    returns (files: map<string, seq<string>>)
    ensures forall d :: d in files <==> d in byDomain && Some(d) != skipped
    ensures forall d :: d in files ==> files[d] == byDomain[d]
    ensures files == FilesOf(byDomain, skipped)
  {
    files := WriteListed(SortNames(byDomain.Keys), byDomain, skipped);
  }

  method WriteListed(domains: seq<string>, byDomain: map<string, seq<string>>, skipped: Option<string>)
    returns (files: map<string, seq<string>>)
    requires forall d :: d in domains <==> d in byDomain
    ensures files == FilesOf(byDomain, skipped)
  {
    files := map[];
    for i := 0 to |domains|
      invariant forall d :: d in files <==> d in domains[..i] && Some(d) != skipped
      invariant forall d :: d in files ==> d in byDomain && files[d] == byDomain[d]
    {
      var domain := domains[i];
      assert domains[..i + 1] == domains[..i] + [domain];
      assert domain in domains;
      if Some(domain) != skipped {
        files := files[domain := byDomain[domain]];
      }
    }
    assert domains[..|domains|] == domains;
  }

  /** All chunks of the files, domain by domain in the order they are written. */
  ghost function Contents(files: map<string, seq<string>>): seq<string> {
    Flatten(Map(SortNames(files.Keys), d => if d in files then files[d] else []))
  }

  lemma {:induction false} ContentsRegroup(ds: seq<string>, files: map<string, seq<string>>, blocks: seq<string>,
                                           domainOf: string -> string)
    requires forall d :: d in ds ==> d in files && files[d] == Group(blocks, domainOf, d)
    ensures Flatten(Map(ds, d => if d in files then files[d] else [])) == Regroup(ds, blocks, domainOf)
  {
    if ds != [] {
      var init, f := ds[..|ds| - 1], (d: string) => if d in files then files[d] else [];
      SnocCases(ds);
      ContentsRegroup(init, files, blocks, domainOf);
      MapSnoc(init, ds[|ds| - 1], f);
      FlattenSnoc(Map(init, f), f(ds[|ds| - 1]));
    }
  }

  /** The files hold exactly the blocks of the domains that are written, each as often as the module. */
  lemma FilesHoldTheWritten(blocks: seq<string>, domainOf: string -> string, skipped: Option<string>, block: string)
    ensures multiset(Contents(FilesOf(GroupBy(blocks, domainOf), skipped)))[block]
         == if Some(domainOf(block)) == skipped then 0 else multiset(blocks)[block]
  {
    var files := FilesOf(GroupBy(blocks, domainOf), skipped);
    var ds := SortNames(files.Keys);
    ContentsRegroup(ds, files, blocks, domainOf);
    RegroupCount(ds, blocks, domainOf, block);
    if block in blocks {
      assert domainOf(block) in KeysOf(blocks, domainOf);
    }
  }

  /** So the files hold every block of the module, as often as the module, exactly when no block is of
      the skipped domain. */
  lemma FilesHoldAllIff(blocks: seq<string>, domainOf: string -> string, skipped: Option<string>)
    ensures multiset(Contents(FilesOf(GroupBy(blocks, domainOf), skipped))) == multiset(blocks)
       <==> forall b :: b in blocks ==> Some(domainOf(b)) != skipped
  {
    var held := multiset(Contents(FilesOf(GroupBy(blocks, domainOf), skipped)));
    forall b: string
      ensures held[b] == if Some(domainOf(b)) == skipped then 0 else multiset(blocks)[b]
    {
      FilesHoldTheWritten(blocks, domainOf, skipped, b);
    }
    if b :| b in blocks && Some(domainOf(b)) == skipped {
      assert multiset(blocks)[b] > 0 && held[b] == 0;
    } else {
      forall b: string
        ensures held[b] == multiset(blocks)[b]
      {
        assert b !in blocks ==> multiset(blocks)[b] == 0;
      }
    }
  }

  /** Partitioning itself loses and repeats nothing: the lists together hold every block exactly as
      often as the module. */
  lemma PartitionIsComplete(blocks: seq<string>, domainOf: string -> string)
    ensures multiset(Contents(GroupBy(blocks, domainOf))) == multiset(blocks)
  {
    assert FilesOf(GroupBy(blocks, domainOf), None) == GroupBy(blocks, domainOf);
    FilesHoldAllIff(blocks, domainOf, None);
  }

  lemma {:induction false} GroupIsFilter(blocks: seq<string>, domainOf: string -> string, domain: string)
    ensures Group(blocks, domainOf, domain) == Filter(blocks, (b: string) => domainOf(b) == domain)
  {
    if blocks != [] {
      GroupIsFilter(blocks[..|blocks| - 1], domainOf, domain);
    }
  }

  /** It is stable: the domains are those of the blocks, and each domain's list is the module's blocks of
      that domain, in the module's order. */
  lemma PartitionIsStable(blocks: seq<string>, domainOf: string -> string, domain: string)
    ensures domain in GroupBy(blocks, domainOf) <==> exists b :: b in blocks && domainOf(b) == domain
    ensures domain in GroupBy(blocks, domainOf) ==>
              GroupBy(blocks, domainOf)[domain] == Filter(blocks, (b: string) => domainOf(b) == domain)
  {
    GroupIsFilter(blocks, domainOf, domain);
  }
}
