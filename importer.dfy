/** FSM_FileImporter: builds a state transition table from the lines of a
    state-chart description. Header lines (starting with '#') give the class
    name, namespace and version string; the body, with spaces outside double
    quotes removed, lists the states before its first ';', separated by ','.
    The transition text after that ';' is cut off and not used. */
module Importer {
  import opened Text
  import opened FiniteStateMachine

  // ---------------------------------------------------------------- header and body

  /** The pattern "(^#.*$?)" matches exactly the lines starting with '#'. */
  predicate IsHeaderLine(line: string) {
    |line| > 0 && line[0] == '#'
  }

  /** The header lines, in order, each with "\r\n" appended. */
  function HeaderLines(lines: seq<string>): seq<string>
  {
    if lines == [] then []
    else
      var last := lines[|lines| - 1];
      HeaderLines(lines[..|lines| - 1]) + (if IsHeaderLine(last) then [last + "\r\n"] else [])
  }

  /** The body lines, in order, each with "\r\n" appended. */
  function BodyLines(lines: seq<string>): seq<string>
  {
    if lines == [] then []
    else
      var last := lines[|lines| - 1];
      BodyLines(lines[..|lines| - 1]) + (if IsHeaderLine(last) then [] else [last + "\r\n"])
  }

  predicate EndsWithLineBreak(s: string) {
    |s| >= 2 && s[|s| - 2..] == "\r\n"
  }

  /** A line and a list of lines, each ending with a line break, that agree
      on being header lines. */
  predicate Marked(line: string, header: bool) {
    IsHeaderLine(line) == header && EndsWithLineBreak(line)
  }

  predicate AllMarked(lines: seq<string>, header: bool) {
    forall k :: 0 <= k < |lines| ==> Marked(lines[k], header)
  }

  /** Appending "\r\n" keeps the line's first character. */
  lemma LineBreakAppended(line: string)
    ensures Marked(line + "\r\n", IsHeaderLine(line))
  {
    var l := line + "\r\n";
    assert l[|l| - 2..] == "\r\n";
    if |line| > 0 { assert l[0] == line[0]; } else { assert l[0] == '\r'; }
  }

  lemma MarkedSnoc(lines: seq<string>, line: string, header: bool)
    requires AllMarked(lines, header) && Marked(line, header)
    ensures AllMarked(lines + [line], header)
  {
    assert forall k :: 0 <= k < |lines| ==> (lines + [line])[k] == lines[k];
  }

  /** Every line lands in exactly one of the two lists: header lines start
      with '#', body lines do not, and each carries the appended line break. */
  lemma {:induction false} HeaderBodyPartition(lines: seq<string>)
    ensures |HeaderLines(lines)| + |BodyLines(lines)| == |lines|
    ensures forall k :: 0 <= k < |HeaderLines(lines)| ==>
      IsHeaderLine(HeaderLines(lines)[k]) && EndsWithLineBreak(HeaderLines(lines)[k])
    ensures forall k :: 0 <= k < |BodyLines(lines)| ==>
      !IsHeaderLine(BodyLines(lines)[k]) && EndsWithLineBreak(BodyLines(lines)[k])
  {
    HeaderBodyMarked(lines);
  }

  /** A line as the partition stores it. */
  function WithLineBreak(line: string): string {
    line + "\r\n"
  }

  predicate IsBodyLine(line: string) {
    !IsHeaderLine(line)
  }

  /** The partition selects: the header is every header line, and the body
      every other line, in input order and each with "\r\n" appended. */
  lemma {:induction false} HeaderBodySelect(lines: seq<string>)
    ensures HeaderLines(lines) == MapSeq(WithLineBreak, Keep(IsHeaderLine, lines))
    ensures BodyLines(lines) == MapSeq(WithLineBreak, Keep(IsBodyLine, lines))
  {
    if lines != [] {
      var init, last := lines[..|lines| - 1], lines[|lines| - 1];
      HeaderBodySelect(init);
      if IsHeaderLine(last) {
        assert Keep(IsHeaderLine, lines) == Keep(IsHeaderLine, init) + [last];
        assert Keep(IsBodyLine, lines) == Keep(IsBodyLine, init);
        MapSeqSnoc(WithLineBreak, Keep(IsHeaderLine, init), last);
      } else {
        assert Keep(IsHeaderLine, lines) == Keep(IsHeaderLine, init);
        assert Keep(IsBodyLine, lines) == Keep(IsBodyLine, init) + [last];
        MapSeqSnoc(WithLineBreak, Keep(IsBodyLine, init), last);
      }
    }
  }

  lemma {:induction false} HeaderBodyMarked(lines: seq<string>)
    ensures |HeaderLines(lines)| + |BodyLines(lines)| == |lines|
    ensures AllMarked(HeaderLines(lines), true) && AllMarked(BodyLines(lines), false)
  {
    if lines != [] {
      var init := lines[..|lines| - 1];
      var last := lines[|lines| - 1];
      HeaderBodyMarked(init);
      LineBreakAppended(last);
      if IsHeaderLine(last) {
        MarkedSnoc(HeaderLines(init), last + "\r\n", true);
      } else {
        MarkedSnoc(BodyLines(init), last + "\r\n", false);
      }
    }
  }

  /** SplitHeaderAndBody: one pass over the lines, filling the two lists. */
  method SplitHeaderAndBody(lines: seq<string>) returns (head: seq<string>, body: seq<string>)
    ensures head == HeaderLines(lines)
    ensures body == BodyLines(lines)
  {
    head := [];
    body := [];
    var i := 0;
    while i < |lines|
      invariant 0 <= i <= |lines|
      invariant head == HeaderLines(lines[..i])
      invariant body == BodyLines(lines[..i])
    {
      assert lines[..i + 1][..i] == lines[..i];
      if IsHeaderLine(lines[i]) {
        head := head + [lines[i] + "\r\n"];
      } else {
        body := body + [lines[i] + "\r\n"];
      }
      i := i + 1;
    }
    assert lines[..i] == lines;
  }

  // ---------------------------------------------------------------- the table header

  const FsmKey := "#FSM:"
  const NameSpaceKey := "#nameSpace:"
  const VctKey := "#vctString:"

  /** The trimmed group of "^KEY(.*)$" on a header line; "" when it does not
      match. ".*" stops at a line feed and "$" matches at the end or before a
      final line feed. */
  function DirectiveValue(line: string, key: string): (v: string)
    ensures v != "" ==> StartsWith(line, key)
    ensures '\n' !in v
    ensures v == [] || (!IsWhite(v[0]) && !IsWhite(v[|v| - 1]))
  {
    if StartsWith(line, key) then
      var rest := line[|key|..];
      var text := if |rest| > 0 && rest[|rest| - 1] == '\n' then rest[..|rest| - 1] else rest;
      if '\n' in text then "" else TrimAddsNothing(text, '\n'); Trim(text)
    else ""
  }

  /** On a header line "KEY<text>\r\n" as the partition leaves it, and on the
      bare line with or without a final line feed, the value is the trimmed
      text. */
  lemma DirectiveValueOf(key: string, text: string)
    requires '\n' !in text
    ensures DirectiveValue(key + text, key) == Trim(text)
    ensures DirectiveValue(key + text + "\n", key) == Trim(text)
    ensures DirectiveValue(key + text + "\r\n", key) == Trim(text)
  {
    DirectiveValueRest(key, text, text);
    assert key + text + "\n" == key + (text + "\n");
    DirectiveValueRest(key, text + "\n", text);
    DirectiveValueCrLf(key, text);
  }

  /** The "\\r" before the line feed is white space, so Trim drops it. */
  lemma DirectiveValueCrLf(key: string, text: string)
    requires '\n' !in text
    ensures DirectiveValue(key + text + "\r\n", key) == Trim(text)
  {
    var cr := text + ['\r'];
    assert key + text + "\r\n" == key + (cr + "\n");
    DirectiveValueRest(key, cr + "\n", cr);
    TrimWhiteAppended(text, '\r');
  }

  /** The value of "KEY<rest>" where rest is text, with or without one final
      line feed. */
  lemma DirectiveValueRest(key: string, rest: string, text: string)
    requires '\n' !in text
    requires rest == text || rest == text + "\n"
    ensures DirectiveValue(key + rest, key) == Trim(text)
  {
    assert (key + rest)[..|key|] == key;
    assert (key + rest)[|key|..] == rest;
    if rest == text + "\n" {
      assert rest[..|rest| - 1] == text;
    }
  }

  /** The first non-empty value f gives for the lines, in order; "" when
      there is none. */
  function FirstBy(f: string -> string, head: seq<string>): string
  {
    if head == [] then ""
    else
      var v := FirstBy(f, head[..|head| - 1]);
      if v != "" then v else f(head[|head| - 1])
  }

  lemma {:induction false} FirstByEmpty(f: string -> string, head: seq<string>)
    requires forall k :: 0 <= k < |head| ==> f(head[k]) == ""
    ensures FirstBy(f, head) == ""
  {
    if head != [] {
      var init := head[..|head| - 1];
      assert forall j :: 0 <= j < |init| ==> init[j] == head[j];
      FirstByEmpty(f, init);
    }
  }

  lemma {:induction false} FirstByWins(f: string -> string, head: seq<string>, k: nat)
    requires k < |head| && f(head[k]) != ""
    requires forall j :: 0 <= j < k ==> f(head[j]) == ""
    ensures FirstBy(f, head) == f(head[k])
  {
    var init := head[..|head| - 1];
    assert forall j :: 0 <= j < |init| ==> init[j] == head[j];
    if k == |head| - 1 {
      FirstByEmpty(f, init);
    } else {
      FirstByWins(f, init, k);
    }
  }

  /** The value the loop of CreateSTT settles on: the first non-empty one. */
  function FirstValue(head: seq<string>, key: string): string
  {
    FirstBy(line => DirectiveValue(line, key), head)
  }

  /** With no header line giving a non-empty value, the value stays empty. */
  lemma FirstValueEmpty(head: seq<string>, key: string)
    requires forall k :: 0 <= k < |head| ==> DirectiveValue(head[k], key) == ""
    ensures FirstValue(head, key) == ""
  {
    FirstByEmpty(line => DirectiveValue(line, key), head);
  }

  /** The first header line with a non-empty value for the key wins. */
  lemma FirstValueWins(head: seq<string>, key: string, k: nat)
    requires k < |head| && DirectiveValue(head[k], key) != ""
    requires forall j :: 0 <= j < k ==> DirectiveValue(head[j], key) == ""
    ensures FirstValue(head, key) == DirectiveValue(head[k], key)
  {
    FirstByWins(line => DirectiveValue(line, key), head, k);
  }

  /** Whether the header names all three of class, namespace and version. */
  predicate HeaderComplete(head: seq<string>) {
    FirstValue(head, FsmKey) != "" && FirstValue(head, NameSpaceKey) != "" && FirstValue(head, VctKey) != ""
  }

  /** CreateSTT: scans the header once, keeping the first non-empty value of
      each key, and builds (and registers, when the name is free) a table only
      when none of the three is empty. */
  method CreateSTT(head: seq<string>, registry: TableRegistry, lookup: ClassLookup) returns (t: Option<Table>)
    requires registry.Valid()
    modifies registry
    ensures registry.Valid()
    ensures !HeaderComplete(head) ==> t == None && registry.tables == old(registry.tables)
    ensures HeaderComplete(head) ==>
      var className := FirstValue(head, FsmKey);
      var nameSpace := FirstValue(head, NameSpaceKey);
      && t.Some? && fresh(t.value)
      && t.value.refClassName == className && t.value.nameSpace == nameSpace
      && t.value.vctString == FirstValue(head, VctKey)
      && t.value.omClass == ResolveClass(lookup, className, nameSpace)
      && t.value.states == [] && t.value.events == {} && t.value.initialState == null
      && registry.tables == (if className in old(registry.tables) then old(registry.tables)
                             else old(registry.tables)[className := t.value])
  {
    var className, nameSpace, vctString := "", "", "";
    var i := 0;
    while i < |head|
      invariant 0 <= i <= |head|
      invariant className == FirstValue(head[..i], FsmKey)
      invariant nameSpace == FirstValue(head[..i], NameSpaceKey)
      invariant vctString == FirstValue(head[..i], VctKey)
    {
      assert head[..i + 1][..i] == head[..i];
      if className == "" {
        className := DirectiveValue(head[i], FsmKey);
      }
      if nameSpace == "" {
        nameSpace := DirectiveValue(head[i], NameSpaceKey);
      }
      if vctString == "" {
        vctString := DirectiveValue(head[i], VctKey);
      }
      i := i + 1;
    }
    assert head[..i] == head;
    if nameSpace == "" || className == "" || vctString == "" {
      t := None;
    } else {
      var table := registry.NewTable(className, nameSpace, vctString, lookup);
      t := Some(table);
    }
  }

  // ---------------------------------------------------------------- spaces and quotes

  /** What ReplaceSpacesOutsideStrings means, character by character: spaces
      outside double-quoted spans are dropped, everything else is kept, and a
      quoted span left open at the end of the line is closed there. */
  function StripSpacesOutsideQuotes(s: string, quoted: bool): string
  {
    if s == [] then (if quoted then "\"" else "")
    else if s[0] == '"' then "\"" + StripSpacesOutsideQuotes(s[1..], !quoted)
    else if s[0] == ' ' && !quoted then StripSpacesOutsideQuotes(s[1..], quoted)
    else [s[0]] + StripSpacesOutsideQuotes(s[1..], quoted)
  }

  /** One piece between quotes: outside ones lose their spaces, inside ones
      are put back between quotes verbatim. */
  function Piece(piece: string, quoted: bool): string
  {
    if quoted then "\"" + piece + "\"" else Remove(piece, ' ')
  }

  /** The loop's view: the pieces alternate between outside and inside. */
  function Requote(pieces: seq<string>, quoted: bool): string
  {
    if pieces == [] then "" else Piece(pieces[0], quoted) + Requote(pieces[1..], !quoted)
  }

  function OpenQuote(quoted: bool): string {
    if quoted then "\"" else ""
  }

  /** The piece-wise rebuild is the character-wise reading. */
  lemma {:induction false} RequoteSplit(s: string, quoted: bool)
    ensures Requote(Split(s, '"'), quoted) == OpenQuote(quoted) + StripSpacesOutsideQuotes(s, quoted)
    decreases |s|, 1
  {
    if s == [] {
    } else if s[0] == '"' {
      RequoteSplit(s[1..], !quoted);
      assert Split(s, '"')[1..] == Split(s[1..], '"');
    } else {
      RequoteSplitOther(s, quoted);
    }
  }

  lemma {:induction false} RequoteSplitOther(s: string, quoted: bool)
    requires s != [] && s[0] != '"'
    ensures Requote(Split(s, '"'), quoted) == OpenQuote(quoted) + StripSpacesOutsideQuotes(s, quoted)
    decreases |s|, 0
  {
    var rest := Split(s[1..], '"');
    var pieces := Split(s, '"');
    var tail := Requote(rest[1..], !quoted);
    var stripped := StripSpacesOutsideQuotes(s[1..], quoted);
    assert Piece(rest[0], quoted) + tail == OpenQuote(quoted) + stripped by {
      RequoteSplit(s[1..], quoted);
    }
    assert Requote(pieces, quoted) == Piece([s[0]] + rest[0], quoted) + tail by {
      assert pieces == [[s[0]] + rest[0]] + rest[1..];
      assert pieces[1..] == rest[1..];
    }
    if quoted {
      QuotedStep(s[0], rest[0], tail, stripped);
    } else {
      assert Remove([s[0]] + rest[0], ' ') == (if s[0] == ' ' then "" else [s[0]]) + Remove(rest[0], ' ') by {
        RemoveAppend([s[0]], rest[0], ' ');
        assert [s[0]][1..] == [];
      }
      if s[0] != ' ' {
        UnquotedStep(s[0], Remove(rest[0], ' '), tail, stripped);
      }
    }
  }

  lemma QuotedStep(c: char, piece: string, tail: string, stripped: string)
    requires "\"" + piece + "\"" + tail == "\"" + stripped
    ensures "\"" + ([c] + piece) + "\"" + tail == "\"" + ([c] + stripped)
  {
    assert piece + "\"" + tail == stripped by {
      assert ("\"" + piece + "\"" + tail)[1..] == piece + "\"" + tail;
      assert ("\"" + stripped)[1..] == stripped;
    }
    assert "\"" + ([c] + piece) + "\"" + tail == "\"" + ([c] + (piece + "\"" + tail));
  }

  lemma UnquotedStep(c: char, piece: string, tail: string, stripped: string)
    requires piece + tail == stripped
    ensures ([c] + piece) + tail == [c] + stripped
  {
  }

  /** A line with no quote just loses its spaces. */
  lemma {:induction false} UnquotedLine(s: string)
    requires '"' !in s
    ensures StripSpacesOutsideQuotes(s, false) == Remove(s, ' ')
  {
    if s != [] {
      UnquotedLine(s[1..]);
    }
  }

  /** Inside an open quoted span nothing is dropped; the span is closed at the end. */
  lemma {:induction false} QuotedTextVerbatim(s: string)
    requires '"' !in s
    ensures StripSpacesOutsideQuotes(s, true) == s + "\""
  {
    if s != [] {
      QuotedTextVerbatim(s[1..]);
      assert [s[0]] + (s[1..] + "\"") == s + "\"";
    }
  }

  /** Every character other than a space or a quote is kept, line breaks included. */
  lemma {:induction false} KeepsOtherCharacters(s: string, quoted: bool, c: char)
    requires c != ' ' && c != '"'
    ensures Count(StripSpacesOutsideQuotes(s, quoted), c) == Count(s, c)
  {
    if s != [] {
      KeepsOtherCharacters(s[1..], if s[0] == '"' then !quoted else quoted, c);
      var tail := StripSpacesOutsideQuotes(s[1..], if s[0] == '"' then !quoted else quoted);
      if s[0] == '"' || !(s[0] == ' ' && !quoted) {
        assert ([s[0]] + tail)[1..] == tail;
      }
    } else {
      assert Count("\"", c) == 0 by { assert "\""[1..] == ""; }
    }
  }

  /** Requote peels off the piece at index i. */
  lemma RequoteUnfold(pieces: seq<string>, i: nat)
    requires i < |pieces|
    ensures Requote(pieces[i..], i % 2 == 1)
         == Piece(pieces[i], i % 2 == 1) + Requote(pieces[i + 1..], (i + 1) % 2 == 1)
  {
    assert pieces[i..][1..] == pieces[i + 1..];
    assert !(i % 2 == 1) == ((i + 1) % 2 == 1);
  }

  /** ReplaceSpacesOutsideStrings: splits on '"' and rebuilds, even pieces
      without spaces, odd pieces back inside quotes. */
  method ReplaceSpacesOutsideStrings(s: string) returns (r: string)
    ensures r == StripSpacesOutsideQuotes(s, false)
  {
    var pieces := Split(s, '"');
    r := "";
    var i := 0;
    while i < |pieces|
      invariant 0 <= i <= |pieces|
      invariant r + Requote(pieces[i..], i % 2 == 1) == Requote(pieces, false)
    {
      var next := if i % 2 == 0 then Remove(pieces[i], ' ') else "\"" + pieces[i] + "\"";
      RequoteStep(pieces, i, r, next);
      r := r + next;
      i := i + 1;
    }
    RequoteDone(s, pieces, r);
  }

  /** One turn of the rebuild loop keeps its invariant. */
  lemma RequoteStep(pieces: seq<string>, i: nat, r: string, next: string)
    requires i < |pieces|
    requires r + Requote(pieces[i..], i % 2 == 1) == Requote(pieces, false)
    requires next == Piece(pieces[i], i % 2 == 1)
    ensures (r + next) + Requote(pieces[i + 1..], (i + 1) % 2 == 1) == Requote(pieces, false)
  {
    RequoteUnfold(pieces, i);
  }

  /** Once every piece is appended, the rebuild is the character-wise reading. */
  lemma RequoteDone(s: string, pieces: seq<string>, r: string)
    requires pieces == Split(s, '"')
    requires r + Requote(pieces[|pieces|..], |pieces| % 2 == 1) == Requote(pieces, false)
    ensures r == StripSpacesOutsideQuotes(s, false)
  {
    assert pieces[|pieces|..] == [];
    RequoteSplit(s, false);
    assert "" + StripSpacesOutsideQuotes(s, false) == StripSpacesOutsideQuotes(s, false);
  }

  // ---------------------------------------------------------------- state declarations

  /** What one state declaration asks for. */
  datatype StateSpec = StateSpec(name: string, entryHint: Option<string>, exitHint: Option<string>)

  /** The name: the text before the first ':', trimmed, quotes removed. */
  function DeclName(decl: string): (name: string)
    ensures '"' !in name
  {
    Remove(Trim(Split(decl, ':')[0]), '"')
  }

  /** The annotation: the text between the first and second ':', trimmed. */
  function DeclAnnotation(decl: string): string
  {
    var parts := Split(decl, ':');
    if |parts| > 1 then Trim(parts[1]) else ""
  }

  /** Only the text up to the first ':' names the state, and only the text
      between the first and second ':' annotates it. */
  lemma DeclarationParts(name: string, annotation: string, more: string)
    requires ':' !in name && ':' !in annotation
    ensures DeclName(name + ":" + annotation + ":" + more) == Remove(Trim(name), '"')
    ensures DeclAnnotation(name + ":" + annotation + ":" + more) == Trim(annotation)
    ensures DeclName(name) == Remove(Trim(name), '"') && DeclAnnotation(name) == ""
  {
    SplitAtFirst(name, annotation + ":" + more, ':');
    SplitAtFirst(annotation, more, ':');
    assert name + ":" + annotation + ":" + more == name + [':'] + (annotation + [':'] + more);
    SplitWithoutSeparator(name, ':');
  }

  predicate IsReserved(name: string) {
    name == "initial" || name == "final"
  }

  predicate IsHintSeparator(c: char) {
    c == '/' || c == '\\' || c == ':' || c == ' '
  }

  /** "[Ee]<stem>" occurs with its first letter at i. */
  predicate KeywordAt(s: string, stem: string, i: nat) {
    i < |s| && (s[i] == 'E' || s[i] == 'e') && i + 1 + |stem| <= |s| && s[i + 1..i + 1 + |stem|] == stem
  }

  /** Where "[Ee]<stem>(?:\(\))?[/\\: ]" ends when its first letter is at i:
      right after the separator, which follows the keyword directly or after
      "()"; a keyword followed directly by a separator always matches. */
  function KeywordEnd(s: string, stem: string, i: nat): (p: Option<nat>)
    ensures p.Some? ==> i < p.value <= |s|
    ensures p.Some? ==> KeywordAt(s, stem, i) && IsHintSeparator(s[p.value - 1])
    ensures p.Some? ==> var j := i + 1 + |stem|;
      p.value == j + 1 || (p.value == j + 3 && s[j..j + 2] == "()")
    ensures KeywordAt(s, stem, i) && i + 1 + |stem| < |s| && IsHintSeparator(s[i + 1 + |stem|]) ==> p.Some?
  {
    var j := i + 1 + |stem|;
    if KeywordAt(s, stem, i) then
      if j + 2 < |s| && s[j..j + 2] == "()" && IsHintSeparator(s[j + 2]) then Some(j + 3)
      else if j < |s| && IsHintSeparator(s[j]) then Some(j + 1)
      else None
    else None
  }

  /** Where the group of the leftmost match of "(?:on)?[Ee]<stem>(?:\(\))?[/\\: ](.*)"
      starts, searching from i: the end of the keyword at the first position
      from i where there is one, None when there is none. The optional "on"
      only moves the start of the match, never the group. */
  function HintStart(s: string, stem: string, i: nat): (p: Option<nat>)
    ensures p.Some? ==> p.value <= |s|
    ensures p.None? ==> forall j :: i <= j < |s| ==> KeywordEnd(s, stem, j).None?
    ensures p.Some? ==>
      exists j :: i <= j < |s| && KeywordEnd(s, stem, j) == p &&
        forall k :: i <= k < j ==> KeywordEnd(s, stem, k).None?
    decreases |s| - i
  {
    if i >= |s| then None
    else match KeywordEnd(s, stem, i)
      case Some(p) => Some(p)
      case None => HintStart(s, stem, i + 1)
  }

  /** "(.*)": everything up to the first line feed. */
  function UpToLineFeed(s: string): (r: string)
    ensures r <= s && '\n' !in r
    ensures |r| == |s| || s[|r|] == '\n'
  {
    if s == [] || s[0] == '\n' then "" else [s[0]] + UpToLineFeed(s[1..])
  }

  /** A text without a line feed is taken whole. */
  lemma {:induction false} WholeLine(s: string)
    requires '\n' !in s
    ensures UpToLineFeed(s) == s
  {
    if s != [] {
      WholeLine(s[1..]);
    }
  }

  /** The trimmed group, "" when the pattern does not match. */
  function HintText(annotation: string, stem: string): (h: string)
    ensures HintStart(annotation, stem, 0).None? ==> h == ""
    ensures HintStart(annotation, stem, 0).Some? ==>
      var p := HintStart(annotation, stem, 0).value;
      h == Trim(UpToLineFeed(annotation[p..]))
    ensures '\n' !in h
    ensures h == [] || (!IsWhite(h[0]) && !IsWhite(h[|h| - 1]))
  {
    match HintStart(annotation, stem, 0)
    case None => ""
    case Some(p) => TrimAddsNothing(UpToLineFeed(annotation[p..]), '\n'); Trim(UpToLineFeed(annotation[p..]))
  }

  const EntryHintPrefix := "// implement onEntry() action hint: "
  const ExitHintPrefix := "// implement onExit() action hint: "

  function Hint(annotation: string, stem: string, prefix: string): Option<string>
  {
    if annotation == "" || HintText(annotation, stem) == "" then None
    else Some(prefix + HintText(annotation, stem))
  }

  /** A declaration read as AddStatesFromArray reads it: the name, and a hint
      for entry and for exit only when the annotation is non-empty and the
      pattern yields non-empty text. */
  function SpecOf(decl: string): StateSpec
  {
    var annotation := DeclAnnotation(decl);
    StateSpec(DeclName(decl), Hint(annotation, "ntry", EntryHintPrefix), Hint(annotation, "xit", ExitHintPrefix))
  }

  /** The elements that satisfy p, in order. */
  function Keep<A>(p: A -> bool, xs: seq<A>): (ys: seq<A>)
    ensures |ys| <= |xs|
  {
    if xs == [] then []
    else Keep(p, xs[..|xs| - 1]) + (if p(xs[|xs| - 1]) then [xs[|xs| - 1]] else [])
  }

  lemma {:induction false} KeepAppend<A>(p: A -> bool, a: seq<A>, b: seq<A>)
    ensures Keep(p, a + b) == Keep(p, a) + Keep(p, b)
    decreases |b|
  {
    if b == [] {
      assert a + b == a;
    } else {
      var b' := b[..|b| - 1];
      assert (a + b)[..|a + b| - 1] == a + b';
      KeepAppend(p, a, b');
    }
  }

  lemma {:induction false} KeepAll<A>(p: A -> bool, xs: seq<A>)
    requires forall k :: 0 <= k < |xs| ==> p(xs[k])
    ensures Keep(p, xs) == xs
  {
    if xs != [] {
      var init := xs[..|xs| - 1];
      assert forall k :: 0 <= k < |init| ==> init[k] == xs[k];
      KeepAll(p, init);
      assert init + [xs[|xs| - 1]] == xs;
    }
  }

  lemma {:induction false} KeepNone<A>(p: A -> bool, xs: seq<A>)
    requires forall k :: 0 <= k < |xs| ==> !p(xs[k])
    ensures Keep(p, xs) == []
  {
    if xs != [] {
      var init := xs[..|xs| - 1];
      assert forall k :: 0 <= k < |init| ==> init[k] == xs[k];
      KeepNone(p, init);
    }
  }

  /** Whether a declaration creates a state: its name is not reserved. */
  predicate CreatesState(decl: string) {
    !IsReserved(DeclName(decl))
  }

  /** The declarations that create a state: those whose name is not
      reserved, in order, duplicates and empty names included. */
  function Declared(decls: seq<string>): (ds: seq<string>)
    ensures |ds| <= |decls|
  {
    Keep(CreatesState, decls)
  }

  /** f applied to each element, in order. */
  function MapSeq<A, B>(f: A -> B, xs: seq<A>): (ys: seq<B>)
    ensures |ys| == |xs|
  {
    if xs == [] then [] else MapSeq(f, xs[..|xs| - 1]) + [f(xs[|xs| - 1])]
  }

  lemma MapSeqSnoc<A, B>(f: A -> B, xs: seq<A>, x: A)
    ensures MapSeq(f, xs + [x]) == MapSeq(f, xs) + [f(x)]
  {
    assert (xs + [x])[..|xs|] == xs;
  }

  lemma {:induction false} MapSeqIndex<A, B>(f: A -> B, xs: seq<A>, k: nat)
    requires k < |xs|
    ensures MapSeq(f, xs)[k] == f(xs[k])
  {
    if k < |xs| - 1 {
      MapSeqIndex(f, xs[..|xs| - 1], k);
    }
  }


  /** The states a list of declarations asks for: one spec per declared state. */
  function StateSpecs(decls: seq<string>): seq<StateSpec>
  {
    MapSeq(SpecOf, Declared(decls))
  }

  /** Declarations are read independently of each other. */
  lemma DeclaredAppend(a: seq<string>, b: seq<string>)
    ensures Declared(a + b) == Declared(a) + Declared(b)
  {
    KeepAppend(CreatesState, a, b);
  }

  /** Without reserved names, every declaration creates exactly one state. */
  lemma PlainDeclarations(decls: seq<string>)
    requires forall k :: 0 <= k < |decls| ==> !IsReserved(DeclName(decls[k]))
    ensures Declared(decls) == decls
  {
    KeepAll(CreatesState, decls);
  }

  /** "initial" and "final" create no state. */
  lemma ReservedDeclarations(decls: seq<string>)
    requires forall k :: 0 <= k < |decls| ==> IsReserved(DeclName(decls[k]))
    ensures Declared(decls) == []
  {
    KeepNone(CreatesState, decls);
  }


  /** In "onEntry/..." the optional "on" is passed over and the group starts
      after the '/'. */
  lemma EntryKeywordExample()
    ensures HintStart("onEntry/startMotor", "ntry", 0) == Some(8)
  {
    var s := "onEntry/startMotor";
    assert KeywordEnd(s, "ntry", 0) == None;
    assert KeywordEnd(s, "ntry", 1) == None;
    assert s[3..7] == "ntry";
    assert KeywordEnd(s, "ntry", 2) == Some(8);
  }

  /** A matched keyword followed by one line of text without surrounding
      white space yields that text as the hint. */
  lemma HintFound(annotation: string, stem: string, prefix: string, p: nat)
    requires HintStart(annotation, stem, 0) == Some(p)
    requires p < |annotation| && '\n' !in annotation[p..]
    requires !IsWhite(annotation[p]) && !IsWhite(annotation[|annotation| - 1])
    ensures Hint(annotation, stem, prefix) == Some(prefix + annotation[p..])
  {
    WholeLine(annotation[p..]);
  }

  /** An entry hint written "onEntry/<text>" is recognised. */
  lemma EntryHintExample()
    ensures Hint("onEntry/startMotor", "ntry", EntryHintPrefix)
      == Some(EntryHintPrefix + "startMotor")
  {
    EntryKeywordExample();
    HintFound("onEntry/startMotor", "ntry", EntryHintPrefix, 8);
    assert "onEntry/startMotor"[8..] == "startMotor";
  }

  /** Without a separator after the keyword there is no hint. */
  lemma MissingSeparatorExample()
    ensures Hint("Exit", "xit", ExitHintPrefix) == None
  {
    var s := "Exit";
    assert KeywordEnd(s, "xit", 0) == None;
    assert HintStart(s, "xit", 1) == None;
  }

  /** A new state of table realising a declaration: named as declared, with
      the declared hints and no transitions. */
  ghost predicate Realises(s: State, table: Table, spec: StateSpec)
    reads s
  {
    && s.table == table && s.name == spec.name
    && s.onEntryAnnotation == spec.entryHint && s.onExitAnnotation == spec.exitHint
    && s.transitions == map[] && s.eventOrder == []
  }

  /** The table's states are the earlier ones followed by one new state per spec. */
  ghost predicate Appended(table: Table, before: seq<State>, specs: seq<StateSpec>)
    reads table, table.states
  {
    && |table.states| == |before| + |specs|
    && table.states[..|before|] == before
    && forall k :: 0 <= k < |specs| ==> Realises(table.states[|before| + k], table, specs[k])
  }


  /** AddStatesFromArray: one state per declaration whose name is not
      reserved, in order, named by the declaration and carrying the hints
      its annotation yields. Reading a declaration touches no state, so the
      declarations are read first and the states added after. */
  method AddStatesFromArray(table: Table, decls: seq<string>)
    modifies table`states
    ensures Appended(table, old(table.states), StateSpecs(decls))
    ensures forall k :: |old(table.states)| <= k < |table.states| ==> fresh(table.states[k])
  {
    AddStates(table, StateSpecs(decls));
  }

  /** The addState calls and hint setters of AddStatesFromArray, one spec at a time. */
  method AddStates(table: Table, specs: seq<StateSpec>)
    modifies table`states
    ensures Appended(table, old(table.states), specs)
    ensures forall k :: |old(table.states)| <= k < |table.states| ==> fresh(table.states[k])
  {
    var i := 0;
    while i < |specs|
      invariant 0 <= i <= |specs|
      invariant Appended(table, old(table.states), specs[..i])
      invariant forall k :: |old(table.states)| <= k < |table.states| ==> fresh(table.states[k])
    {
      var state := table.AddState(specs[i].name);
      if specs[i].entryHint.Some? {
        state.SetOnEntryAnnotation(specs[i].entryHint.value);
      }
      if specs[i].exitHint.Some? {
        state.SetOnExitAnnotation(specs[i].exitHint.value);
      }
      assert specs[..i + 1] == specs[..i] + [specs[i]];
      i := i + 1;
    }
    assert specs[..i] == specs;
  }

  // ---------------------------------------------------------------- the body

  /** The body as one string, each line with spaces outside quotes removed. */
  function BodyText(body: seq<string>): string
  {
    if body == [] then ""
    else BodyText(body[..|body| - 1]) + StripSpacesOutsideQuotes(body[|body| - 1], false)
  }

  /** The state declarations: the text before the first ';', split on ','. */
  function StateDecls(body: seq<string>): seq<string>
  {
    Split(Split(BodyText(body), ';')[0], ',')
  }

  /** ExtractAndAddStatesToSTTStates: strips every body line, joins them, and
      adds the states declared before the first ';'. The transition text after
      it is cut off and adds nothing. */
  method ExtractAndAddStatesToSTTStates(table: Table, body: seq<string>)
    modifies table`states
    ensures Appended(table, old(table.states), StateSpecs(StateDecls(body)))
    ensures forall k :: |old(table.states)| <= k < |table.states| ==> fresh(table.states[k])
  {
    var noUnwantedSpaces := StripBodyLines(body);
    var statesAndTransitions := Split(noUnwantedSpaces, ';');
    var states := Split(statesAndTransitions[0], ',');
    AddStatesFromArray(table, states);
    var transitions := statesAndTransitions[1..];
  }

  /** The line loop of ExtractAndAddStatesToSTTStates: every line with its
      spaces outside quotes removed, concatenated in order. */
  method StripBodyLines(body: seq<string>) returns (text: string)
    ensures text == BodyText(body)
  {
    var stripped := [];
    var i := 0;
    while i < |body|
      invariant 0 <= i <= |body|
      invariant Concat(stripped) == BodyText(body[..i])
    {
      assert body[..i + 1][..i] == body[..i];
      var line := ReplaceSpacesOutsideStrings(body[i]);
      assert (stripped + [line])[..|stripped|] == stripped;
      stripped := stripped + [line];
      i := i + 1;
    }
    assert body[..i] == body;
    text := Concat(stripped);
  }

  // ---------------------------------------------------------------- the import

  /** SMCatImport on the lines of a file: a table when the header is complete,
      holding one state per non-reserved declaration; nothing otherwise. */
  method SMCatImport(lines: seq<string>, registry: TableRegistry, lookup: ClassLookup) returns (t: Option<Table>)
    requires registry.Valid()
    modifies registry
    ensures registry.Valid()
    ensures !HeaderComplete(HeaderLines(lines)) ==> t == None && registry.tables == old(registry.tables)
    ensures HeaderComplete(HeaderLines(lines)) ==>
      var className := FirstValue(HeaderLines(lines), FsmKey);
      && t.Some? && fresh(t.value)
      && t.value.refClassName == className
      && t.value.nameSpace == FirstValue(HeaderLines(lines), NameSpaceKey)
      && t.value.vctString == FirstValue(HeaderLines(lines), VctKey)
      && t.value.events == {} && t.value.initialState == null
      && Appended(t.value, [], StateSpecs(StateDecls(BodyLines(lines))))
      && registry.tables == (if className in old(registry.tables) then old(registry.tables)
                             else old(registry.tables)[className := t.value])
  {
    var head, body := SplitHeaderAndBody(lines);
    t := CreateSTT(head, registry, lookup);
    if t.Some? {
      ExtractAndAddStatesToSTTStates(t.value, body);
    }
  }

  /** What the import as written does: it hands a null table on to
      AddStatesFromArray when the header is incomplete. */
  datatype ImportOutcome = Imported(table: Option<Table>) | NullTableDereference

  /** Whether the import as written dereferences the null table: the header is
      incomplete and some declaration is not reserved. */
  predicate ImportCrashes(lines: seq<string>)
  {
    !HeaderComplete(HeaderLines(lines)) && |StateSpecs(StateDecls(BodyLines(lines)))| > 0
  }

  method SMCatImportAsWritten(lines: seq<string>, registry: TableRegistry, lookup: ClassLookup)
    returns (outcome: ImportOutcome)
    requires registry.Valid()
    modifies registry
    ensures registry.Valid()
    ensures outcome.NullTableDereference? <==> ImportCrashes(lines)
    ensures outcome.Imported? && outcome.table.None? ==> !HeaderComplete(HeaderLines(lines))
  {
    var head, body := SplitHeaderAndBody(lines);
    var t := CreateSTT(head, registry, lookup);
    if t.Some? {
      ExtractAndAddStatesToSTTStates(t.value, body);
      outcome := Imported(t);
    } else if |StateSpecs(StateDecls(body))| > 0 {
      outcome := NullTableDereference;
    } else {
      outcome := Imported(None);
    }
  }

  /** A file of header lines only has an empty body. */
  lemma {:induction false} HeaderOnlyBody(lines: seq<string>)
    requires forall k :: 0 <= k < |lines| ==> IsHeaderLine(lines[k])
    ensures BodyLines(lines) == []
  {
    if lines != [] {
      HeaderOnlyBody(lines[..|lines| - 1]);
    }
  }

  /** An empty body still declares one state, named "". */
  lemma EmptyBodyDeclaresOneState()
    ensures StateDecls([]) == [""]
    ensures Declared([""]) == [""]
    ensures |StateSpecs(StateDecls([]))| == 1
  {
    SplitWithoutSeparator("", ';');
    SplitWithoutSeparator("", ',');
    SplitWithoutSeparator("", ':');
    assert DeclName("") == "";
    assert [""][..0] == [];
  }

  /** A file of header lines only whose header is incomplete makes the import
      as written dereference the null table. */
  lemma HeaderOnlyFileCrashes(lines: seq<string>)
    requires forall k :: 0 <= k < |lines| ==> IsHeaderLine(lines[k])
    requires !HeaderComplete(HeaderLines(lines))
    ensures ImportCrashes(lines)
  {
    HeaderOnlyBody(lines);
    EmptyBodyDeclaresOneState();
  }

  /** The empty file is one such file. */
  lemma EmptyFileCrashes()
    ensures ImportCrashes([])
  {
    HeaderOnlyFileCrashes([]);
  }
}
