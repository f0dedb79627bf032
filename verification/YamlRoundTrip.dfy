/** The documented grammar of the configuration file, rendered, and read back (internal/config/yaml.go:8-24). */
module YamlRoundTrip {
  import opened Wrappers
  import opened Yaml

  /** A scalar as it is written. */
  datatype Scalar = DoubleQuoted(text: string) | SingleQuoted(text: string) | Plain(text: string)

  datatype Line =
    | Blank(spaces: nat, comment: Option<string>)
    | Top(key: string, value: Scalar, comment: Option<string>)
    | Section(name: string, comment: Option<string>)
    | Item(indent: nat, key: string, value: Scalar, comment: Option<string>)

  predicate WordChar(c: char) { !IsSpace(c) && c != ':' && c != '#' && c != '"' && c != '\'' }

  predicate Word(s: string) { s != "" && forall i :: 0 <= i < |s| ==> WordChar(s[i]) }

  predicate NoNewline(s: string) { '\n' !in s }

  /** Quoted text may hold anything but its own quote and a newline; plain text has no quotes, no comment and no space
      at its ends. */
  predicate ScalarOk(v: Scalar) {
    match v
    case DoubleQuoted(text) => NoNewline(text) && '"' !in text
    case SingleQuoted(text) => NoNewline(text) && '\'' !in text
    case Plain(text) =>
      && text != "" && !IsSpace(text[0]) && !IsSpace(text[|text| - 1])
      && NoNewline(text) && '"' !in text && '\'' !in text && '#' !in text
  }

  predicate CommentOk(c: Option<string>) { c.Some? ==> NoNewline(c.value) }

  predicate LineOk(l: Line) {
    match l
    case Blank(_, c) => CommentOk(c)
    case Top(key, v, c) => Word(key) && ScalarOk(v) && CommentOk(c)
    case Section(name, c) => Word(name) && CommentOk(c)
    case Item(indent, key, v, c) => indent > 0 && Word(key) && ScalarOk(v) && CommentOk(c)
  }

  /******* Rendering *******/

  function Spaces(n: nat): (s: string)
    ensures |s| == n && forall i :: 0 <= i < n ==> s[i] == ' '
  {
    if n == 0 then "" else " " + Spaces(n - 1)
  }

  function Written(v: Scalar): string {
    match v
    case DoubleQuoted(text) => "\"" + text + "\""
    case SingleQuoted(text) => "'" + text + "'"
    case Plain(text) => text
  }

  function Tail(c: Option<string>): string { if c.None? then "" else " #" + c.value }

  /** The line up to its comment. */
  function Body(l: Line): string {
    match l
    case Blank(spaces, _) => Spaces(spaces)
    case Top(key, v, _) => key + ": " + Written(v)
    case Section(name, _) => name + ":"
    case Item(indent, key, v, _) => Spaces(indent) + (key + ": " + Written(v))
  }

  function RenderLine(l: Line): string { Body(l) + Tail(l.comment) }

  function Render(lines: seq<Line>): string {
    if lines == [] then ""
    else RenderLine(lines[0]) + (if |lines| == 1 then "" else "\n" + Render(lines[1..]))
  }

  /******* What a document means *******/

  /** The section a line is in is the last one opened, unless a top-level scalar came after it. */
  function MeaningOf(s: State, l: Line): Option<State> {
    match l
    case Blank(_, _) => Some(s)
    case Top(key, v, _) => Some(State(s.out[key := v.text], ""))
    case Section(name, _) => Some(s.(section := name))
    case Item(_, key, v, _) =>
      if s.section == "" then None else Some(s.(out := s.out[s.section + "." + key := v.text]))
  }

  function Meaning(s: State, lines: seq<Line>): Option<State>
    decreases |lines|
  {
    if lines == [] then Some(s)
    else
      var s1 := MeaningOf(s, lines[0]);
      if s1.None? then None else Meaning(s1.value, lines[1..])
  }

  /******* Scanning *******/

  /** Scanning on from an open state. */
  function QuoteFrom(q: Quote, s: string): Quote {
    if s == "" then q else Toggle(QuoteFrom(q, s[..|s| - 1]), s[|s| - 1])
  }

  lemma {:induction false} QuoteAppend(a: string, b: string)
    ensures QuoteAfter(a + b) == QuoteFrom(QuoteAfter(a), b)
  {
    if b == "" {
      assert a + b == a;
    } else {
      assert (a + b)[..|a + b| - 1] == a + b[..|b| - 1];
      QuoteAppend(a, b[..|b| - 1]);
    }
  }

  /** Text without the closing quote, or outside quotes without any, leaves the state as it is. */
  predicate Inert(q: Quote, c: char) {
    match q
    case Outside => c != '"' && c != '\''
    case InSingle => c != '\''
    case InDouble => c != '"'
  }

  lemma {:induction false} InertText(q: Quote, s: string)
    requires forall i :: 0 <= i < |s| ==> Inert(q, s[i])
    ensures QuoteFrom(q, s) == q
  {
    if s != "" {
      InertText(q, s[..|s| - 1]);
      assert Inert(q, s[|s| - 1]);
    }
  }

  /** A stretch of a line in which no comment can start. */
  ghost predicate Silent(s: string, from: nat, to: nat)
    requires from <= to <= |s|
  {
    forall i :: from <= i < to ==> !CommentAt(s, i)
  }

  lemma {:induction false} CommentSkips(s: string, i: nat, k: nat)
    requires i <= k <= |s| && Silent(s, i, k)
    ensures CommentFrom(s, i) == CommentFrom(s, k)
    decreases k - i
  {
    if i < k {
      CommentSkips(s, i + 1, k);
    }
  }

  /** A piece of a line that neither opens or closes quotes nor holds a comment. */
  ghost predicate Piece(q: Quote, p: string) {
    forall i :: 0 <= i < |p| ==> Inert(q, p[i]) && (q == Outside ==> p[i] != '#')
  }

  lemma PieceSilent(a: string, p: string, rest: string)
    requires Piece(QuoteAfter(a), p)
    ensures QuoteAfter(a + p) == QuoteAfter(a) && Silent(a + p + rest, |a|, |a + p|)
  {
    var q, s := QuoteAfter(a), a + p + rest;
    QuoteAppend(a, p);
    InertText(q, p);
    forall i | |a| <= i < |a + p| ensures !CommentAt(s, i) {
      assert s[..i] == a + p[..i - |a|];
      QuoteAppend(a, p[..i - |a|]);
      InertText(q, p[..i - |a|]);
      assert s[i] == p[i - |a|];
    }
  }

  /** A quoted scalar opens its quotes, is silent, and closes them. */
  lemma QuotedSilent(a: string, c: char, text: string, rest: string)
    requires QuoteAfter(a) == Outside
    requires (c == '"' && '"' !in text) || (c == '\'' && '\'' !in text)
    ensures var w := [c] + text + [c]; QuoteAfter(a + w) == Outside && Silent(a + w + rest, |a|, |a + w|)
  {
    var w := [c] + text + [c];
    var s, inside := a + w + rest, a + [c];
    assert inside[..|a|] == a;
    assert Piece(QuoteAfter(inside), text);
    PieceSilent(inside, text, [c] + rest);
    assert inside + text + ([c] + rest) == s;
    assert (a + w)[..|a + w| - 1] == inside + text;
    assert s[|a|] == c && s[|inside + text|] == c;
  }

  lemma WrittenSilent(a: string, v: Scalar, rest: string)
    requires QuoteAfter(a) == Outside && ScalarOk(v)
    ensures QuoteAfter(a + Written(v)) == Outside && Silent(a + Written(v) + rest, |a|, |a + Written(v)|)
  {
    match v
    case DoubleQuoted(text) => QuotedSilent(a, '"', text, rest);
    case SingleQuoted(text) => QuotedSilent(a, '\'', text, rest);
    case Plain(text) => PieceSilent(a, text, rest);
  }

  lemma KeySilent(n: nat, key: string)
    requires Word(key)
    ensures Piece(Outside, Spaces(n) + (key + ": ")) && Piece(Outside, key + ":")
  {
    forall i | 0 <= i < |key + ": "| ensures Inert(Outside, (key + ": ")[i]) && (key + ": ")[i] != '#' {
      if i < |key| {
        assert WordChar(key[i]);
      }
    }
    forall i | 0 <= i < |key + ":"| ensures Inert(Outside, (key + ":")[i]) && (key + ":")[i] != '#' {
      if i < |key| {
        assert WordChar(key[i]);
      }
    }
  }

  lemma HeadSilent(head: string, rest: string)
    requires Piece(Outside, head)
    ensures QuoteAfter(head) == Outside && Silent(head + rest, 0, |head|)
  {
    assert "" + head == head;
    PieceSilent("", head, rest);
  }

  lemma HeadAndScalar(head: string, v: Scalar, rest: string)
    requires Piece(Outside, head) && ScalarOk(v)
    ensures QuoteAfter(head + Written(v)) == Outside && Silent(head + Written(v) + rest, 0, |head + Written(v)|)
  {
    var w := Written(v);
    HeadSilent(head, w + rest);
    assert head + (w + rest) == head + w + rest;
    WrittenSilent(head, v, rest);
  }

  /** No comment starts before the tail, and no quotes are open there. */
  lemma BodySilent(l: Line, rest: string)
    requires LineOk(l)
    ensures QuoteAfter(Body(l)) == Outside && Silent(Body(l) + rest, 0, |Body(l)|)
  {
    match l
    case Blank(n, _) => HeadSilent(Spaces(n), rest);
    case Section(name, _) =>
      KeySilent(0, name);
      HeadSilent(name + ":", rest);
    case Top(key, v, _) =>
      KeySilent(0, key);
      assert Spaces(0) + (key + ": ") == key + ": ";
      HeadAndScalar(key + ": ", v, rest);
    case Item(n, key, v, _) =>
      KeySilent(n, key);
      assert Body(l) == Spaces(n) + (key + ": ") + Written(v);
      HeadAndScalar(Spaces(n) + (key + ": "), v, rest);
  }

  lemma CommentIsCut(body: string, text: string)
    requires QuoteAfter(body) == Outside && Silent(body + " #" + text, 0, |body|)
    ensures StripComment(body + " #" + text) == TrimBlanks(body)
  {
    var raw := body + " #" + text;
    CommentSkips(raw, 0, |body|);
    assert raw[|body|] == ' ' && raw[|body| + 1] == '#';
    assert raw[..|body| + 1] == body + [' '];
    assert (body + [' '])[..|body|] == body;
    assert CommentAt(raw, |body| + 1);
  }

  /** The comment is cut off and nothing else is. */
  lemma TailIsCut(l: Line)
    requires LineOk(l)
    ensures StripComment(RenderLine(l)) == if l.comment.None? then Body(l) else TrimBlanks(Body(l))
  {
    var body := Body(l);
    BodySilent(l, Tail(l.comment));
    if l.comment.None? {
      assert body + "" == body;
      CommentSkips(body, 0, |body|);
    } else {
      assert body + " #" + l.comment.value == RenderLine(l);
      CommentIsCut(body, l.comment.value);
    }
  }

  /******* Reading a body *******/

  lemma {:induction false} AfterSpaces(n: nat, x: string)
    requires x != "" && !IsSpace(x[0])
    ensures LeadingSpaces(Spaces(n) + x) == n && TrimLeft(Spaces(n) + x) == x
  {
    if n == 0 {
      assert Spaces(0) + x == x;
    } else {
      assert (Spaces(n) + x)[1..] == Spaces(n - 1) + x;
      AfterSpaces(n - 1, x);
    }
  }

  lemma {:induction false} OnlySpaces(n: nat)
    ensures TrimLeft(Spaces(n)) == ""
  {
    if n > 0 {
      assert Spaces(n)[1..] == Spaces(n - 1);
      OnlySpaces(n - 1);
    }
  }

  lemma {:induction false} BlanksOnly(n: nat)
    ensures TrimBlanks(Spaces(n)) == ""
  {
    if n > 0 {
      assert Spaces(n)[n - 1] == ' ';
      assert Spaces(n)[..n - 1] == Spaces(n - 1) by {
        forall i | 0 <= i < n - 1 ensures Spaces(n)[i] == Spaces(n - 1)[i] {
        }
      }
      BlanksOnly(n - 1);
    }
  }

  lemma {:induction false} FirstColon(key: string, rest: string)
    requires ':' !in key
    ensures ColonIn(key + ":" + rest) == |key|
  {
    if key == "" {
      assert key + ":" + rest == ":" + rest;
    } else {
      assert (key + ":" + rest)[1..] == key[1..] + ":" + rest;
      FirstColon(key[1..], rest);
    }
  }

  lemma WordTrims(key: string)
    requires Word(key)
    ensures TrimSpace(key) == key && ':' !in key && !IsSpace(key[0])
  {
    assert WordChar(key[0]) && WordChar(key[|key| - 1]);
  }

  /** Text with no white space at its ends. */
  predicate Snug(w: string) { w != "" && !IsSpace(w[0]) && !IsSpace(w[|w| - 1]) }

  lemma WrittenSnug(v: Scalar)
    requires ScalarOk(v)
    ensures Snug(Written(v))
  {
  }

  lemma WrittenReads(v: Scalar)
    requires ScalarOk(v)
    ensures Unquote(Written(v)) == v.text
  {
    var w := Written(v);
    if v.Plain? {
      assert v.text[0] in v.text;
    } else {
      assert w[1..|w| - 1] == v.text;
    }
  }

  lemma SnugTrims(w: string)
    requires Snug(w)
    ensures TrimSpace(" " + w) == w
  {
    assert (" " + w)[1..] == w;
    assert TrimLeft(" " + w) == TrimLeft(w);
  }

  /** What lies around the first colon. */
  lemma PairSplits(key: string, w: string)
    requires ':' !in key
    ensures var pair := key + ": " + w;
            ColonIn(pair) == |key| && pair[..|key|] == key && pair[|key| + 1..] == " " + w
  {
    assert key + ": " + w == key + ":" + (" " + w);
    FirstColon(key, " " + w);
  }

  lemma PairSnug(key: string, w: string)
    requires Word(key) && Snug(w)
    ensures Snug(key + ": " + w)
  {
    var pair := key + ": " + w;
    assert WordChar(key[0]);
    assert pair[0] == key[0] && pair[|pair| - 1] == w[|w| - 1];
  }

  /** A pair that splits at position k into a key and a value. */
  lemma SplitReads(pair: string, k: nat, key: string, w: string)
    requires k < |pair| && ColonIn(pair) == k && TrimSpace(pair[..k]) == key && TrimSpace(pair[k + 1..]) == w && w != ""
    ensures SplitKeyValue(pair) == KeyValue(key, Some(Unquote(w)))
  {
  }

  lemma SnugPairReads(key: string, w: string)
    requires ':' !in key && TrimSpace(key) == key && Snug(w)
    ensures SplitKeyValue(key + ": " + w) == KeyValue(key, Some(Unquote(w)))
  {
    var pair := key + ": " + w;
    SnugTrims(w);
    PairSplits(key, w);
    SplitReads(pair, |key|, key, w);
  }

  lemma PairReads(key: string, v: Scalar)
    requires Word(key) && ScalarOk(v)
    ensures SplitKeyValue(key + ": " + Written(v)) == KeyValue(key, Some(v.text))
  {
    WordTrims(key);
    WrittenSnug(v);
    SnugPairReads(key, Written(v));
    WrittenReads(v);
  }

  lemma SectionReads(name: string)
    requires Word(name)
    ensures var b := name + ":";
            && b != "" && !IsSpace(b[0]) && TrimEnd(b) == b && TrimBlanks(b) == b && TrimLeft(b) == b
            && LeadingSpaces(b) == 0
            && SplitKeyValue(b) == KeyValue(name, None)
  {
    var b := name + ":";
    WordTrims(name);
    assert b == name + ":" + "";
    FirstColon(name, "");
    assert b[..|name|] == name && b[|name| + 1..] == "";
  }

  lemma FirstOfBody(l: Line)
    requires LineOk(l)
    ensures Body(l) == "" || !IsSpace(Body(l)[0]) || Body(l)[0] == ' '
  {
    match l
    case Top(key, v, _) => assert WordChar(key[0]) && Body(l)[0] == key[0];
    case Section(name, _) => assert WordChar(name[0]) && Body(l)[0] == name[0];
    case Item(n, key, v, _) => assert Body(l)[0] == Spaces(n)[0];
    case Blank(n, _) =>
  }

  lemma NoTab(l: Line)
    requires LineOk(l)
    ensures !TabIndented(RenderLine(l))
  {
    var body, raw := Body(l), RenderLine(l);
    FirstOfBody(l);
    LeadingAreSpaces(raw);
    if body != "" {
      assert raw[0] == body[0];
    }
  }

  lemma {:induction false} LeadingAreSpaces(s: string)
    ensures forall i :: 0 <= i < LeadingSpaces(s) ==> s[i] == ' '
  {
    if s != "" && s[0] == ' ' {
      LeadingAreSpaces(s[1..]);
      forall i | 0 <= i < LeadingSpaces(s) ensures s[i] == ' ' {
        if i > 0 {
          assert s[i] == s[1..][i - 1];
        }
      }
    }
  }

  /******* One line *******/

  lemma SnugIsWhole(b: string)
    requires Snug(b)
    ensures TrimSpace(b) == b && TrimBlanks(b) == b && LeadingSpaces(b) == 0
  {
  }

  lemma IndentedIsWhole(n: nat, b: string)
    requires Snug(b)
    ensures TrimSpace(Spaces(n) + b) == b && LeadingSpaces(Spaces(n) + b) == n
  {
    AfterSpaces(n, b);
    SnugIsWhole(b);
  }

  lemma IndentedKeepsEnd(n: nat, b: string)
    requires Snug(b)
    ensures TrimBlanks(Spaces(n) + b) == Spaces(n) + b
  {
    assert (Spaces(n) + b)[n + |b| - 1] == b[|b| - 1];
  }

  lemma BlankReads(s: State, l: Line)
    requires LineOk(l) && l.Blank?
    ensures ParseLine(s, RenderLine(l)) == Ok(s)
  {
    NoTab(l);
    TailIsCut(l);
    OnlySpaces(l.spaces);
    BlanksOnly(l.spaces);
  }

  lemma SectionLineReads(s: State, l: Line)
    requires LineOk(l) && l.Section?
    ensures ParseLine(s, RenderLine(l)) == Ok(s.(section := l.name))
  {
    NoTab(l);
    TailIsCut(l);
    SectionReads(l.name);
    SnugIsWhole(l.name + ":");
  }

  lemma TopReads(s: State, l: Line)
    requires LineOk(l) && l.Top?
    ensures ParseLine(s, RenderLine(l)) == Ok(State(s.out[l.key := l.value.text], ""))
  {
    NoTab(l);
    TailIsCut(l);
    WrittenSnug(l.value);
    PairSnug(l.key, Written(l.value));
    SnugIsWhole(l.key + ": " + Written(l.value));
    PairReads(l.key, l.value);
  }

  lemma ItemReads(s: State, l: Line)
    requires LineOk(l) && l.Item?
    ensures ParseLine(s, RenderLine(l)) ==
            if s.section == "" then Err(NoSection) else Ok(s.(out := s.out[s.section + "." + l.key := l.value.text]))
  {
    var pair := l.key + ": " + Written(l.value);
    NoTab(l);
    TailIsCut(l);
    WrittenSnug(l.value);
    PairSnug(l.key, Written(l.value));
    IndentedIsWhole(l.indent, pair);
    IndentedKeepsEnd(l.indent, pair);
    PairReads(l.key, l.value);
  }

  lemma LineReads(s: State, l: Line)
    requires LineOk(l)
    ensures ParseLine(s, RenderLine(l)) == match MeaningOf(s, l) case Some(s1) => Ok(s1) case None => Err(NoSection)
  {
    match l
    case Blank(_, _) => BlankReads(s, l);
    case Section(_, _) => SectionLineReads(s, l);
    case Top(_, _, _) => TopReads(s, l);
    case Item(_, _, _, _) => ItemReads(s, l);
  }

  /******* A whole document *******/

  lemma {:induction false} OneLine(a: string)
    requires NoNewline(a)
    ensures Lines(a) == [a]
  {
    if a != "" {
      assert a[0] in a;
      assert [a[0]] + a[1..] == a;
      OneLine(a[1..]);
    }
  }

  lemma {:induction false} FirstLine(a: string, b: string)
    requires NoNewline(a)
    ensures Lines(a + "\n" + b) == [a] + Lines(b)
  {
    var text := a + "\n" + b;
    if a == "" {
      assert text == "\n" + b;
      assert text[1..] == b;
    } else {
      assert a[0] in a;
      assert text[1..] == a[1..] + "\n" + b;
      FirstLine(a[1..], b);
      assert [a[0]] + a[1..] == a;
    }
  }

  lemma SpacesNoNewline(n: nat)
    ensures NoNewline(Spaces(n))
  {
  }

  lemma WordNoNewline(w: string)
    requires Word(w)
    ensures NoNewline(w)
  {
    forall i | 0 <= i < |w| ensures w[i] != '\n' {
      assert WordChar(w[i]);
    }
  }

  lemma RenderedOnOneLine(l: Line)
    requires LineOk(l)
    ensures NoNewline(RenderLine(l))
  {
    match l
    case Blank(n, _) => SpacesNoNewline(n);
    case Section(name, _) => WordNoNewline(name);
    case Top(key, v, _) => WordNoNewline(key);
    case Item(n, key, v, _) =>
      SpacesNoNewline(n);
      WordNoNewline(key);
  }

  function Rendered(lines: seq<Line>): seq<string> {
    if lines == [] then [] else [RenderLine(lines[0])] + Rendered(lines[1..])
  }

  lemma {:induction false} RenderedLines(lines: seq<Line>)
    requires lines != [] && forall l :: l in lines ==> LineOk(l)
    ensures Lines(Render(lines)) == Rendered(lines)
  {
    var a := RenderLine(lines[0]);
    assert LineOk(lines[0]);
    RenderedOnOneLine(lines[0]);
    if |lines| == 1 {
      assert Render(lines) == a;
      OneLine(a);
      assert lines[1..] == [];
    } else {
      assert Render(lines) == a + "\n" + Render(lines[1..]);
      FirstLine(a, Render(lines[1..]));
      RenderedLines(lines[1..]);
    }
  }

  ghost predicate ReadsAs(r: Result<State, ParseError>, meaning: Option<State>) {
    if meaning.Some? then r == Ok(meaning.value) else r.Err? && r.error.fault == NoSection
  }

  lemma {:induction false} RenderedReads(s: State, lines: seq<Line>, lineNo: nat)
    requires forall l :: l in lines ==> LineOk(l)
    ensures ReadsAs(ParseLines(s, Rendered(lines), lineNo), Meaning(s, lines))
    decreases |lines|
  {
    if lines != [] {
      var raw, rest, s1 := RenderLine(lines[0]), Rendered(lines[1..]), MeaningOf(s, lines[0]);
      assert LineOk(lines[0]);
      LineReads(s, lines[0]);
      assert Rendered(lines)[0] == raw && Rendered(lines)[1..] == rest;
      if s1.Some? {
        RenderedReads(s1.value, lines[1..], lineNo + 1);
        ParsesOn(s, raw, s1.value, Rendered(lines), lineNo);
      }
    }
  }

  lemma ParsesOn(s: State, raw: string, s1: State, lines: seq<string>, lineNo: nat)
    requires lines != [] && lines[0] == raw && ParseLine(s, raw) == Ok(s1)
    ensures ParseLines(s, lines, lineNo) == ParseLines(s1, lines[1..], lineNo + 1)
  {
  }

  lemma DocumentReads(s: State, lines: seq<Line>, lineNo: nat)
    requires forall l :: l in lines ==> LineOk(l)
    ensures ReadsAs(ParseLines(s, Lines(Render(lines)), lineNo), Meaning(s, lines))
  {
    if lines == [] {
      var empty := Blank(0, None);
      assert RenderLine(empty) == "";
      LineReads(s, empty);
      ParsesOn(s, "", s, [""], lineNo);
    } else {
      RenderedLines(lines);
      RenderedReads(s, lines, lineNo);
    }
  }

  /** Round trip: parsing the rendering of any document of the grammar, with any mixture of quoting, comments, blank
      lines and indentation, gives back exactly what the document means, unless an indented key stands before any
      section, and then it is an error. */
  lemma DocumentRoundTrip(lines: seq<Line>)
    requires forall l :: l in lines ==> LineOk(l)
    ensures match Meaning(State(map[], ""), lines)
            case Some(s) => Parse(Render(lines)) == Ok(s.out)
            case None => Parse(Render(lines)).Err? && Parse(Render(lines)).error.fault == NoSection
  {
    DocumentReads(State(map[], ""), lines, 1);
  }

  /******* One level of sections *******/

  datatype Entry = Entry(section: string, key: string, value: string)

  /** A configuration as a list of settings; a section heading is written before every one of them. */
  function SettingLines(entries: seq<Entry>): seq<Line> {
    if entries == [] then []
    else [Section(entries[0].section, None), Item(2, entries[0].key, DoubleQuoted(entries[0].value), None)]
         + SettingLines(entries[1..])
  }

  function Dotted(e: Entry): string { e.section + "." + e.key }

  predicate EntryOk(e: Entry) { Word(e.section) && Word(e.key) && NoNewline(e.value) && '"' !in e.value }

  /** The map a list of settings stands for: the last setting of a name counts. */
  function Settings(out: map<string, string>, entries: seq<Entry>): map<string, string>
    decreases |entries|
  {
    if entries == [] then out else Settings(out[Dotted(entries[0]) := entries[0].value], entries[1..])
  }

  lemma {:induction false} SettingsMean(s: State, entries: seq<Entry>)
    requires forall e :: e in entries ==> EntryOk(e)
    ensures Meaning(s, SettingLines(entries)).Some?
    ensures Meaning(s, SettingLines(entries)).value.out == Settings(s.out, entries)
    ensures forall l :: l in SettingLines(entries) ==> LineOk(l)
    decreases |entries|
  {
    if entries != [] {
      var e, rest := entries[0], SettingLines(entries[1..]);
      assert EntryOk(e);
      var l1, l2 := Section(e.section, None), Item(2, e.key, DoubleQuoted(e.value), None);
      var s1 := s.(section := e.section);
      var s2 := s1.(out := s1.out[Dotted(e) := e.value]);
      assert SettingLines(entries) == [l1] + ([l2] + rest);
      assert MeaningOf(s, l1) == Some(s1) && MeaningOf(s1, l2) == Some(s2);
      SettingsMean(s2, entries[1..]);
      MeaningStep(s, l1, [l2] + rest);
      MeaningStep(s1, l2, rest);
    }
  }

  lemma MeaningStep(s: State, l: Line, rest: seq<Line>)
    requires MeaningOf(s, l).Some?
    ensures Meaning(s, [l] + rest) == Meaning(MeaningOf(s, l).value, rest)
  {
    assert ([l] + rest)[1..] == rest;
  }

  ghost predicate Names(entries: seq<Entry>, name: string, value: string) {
    exists i :: 0 <= i < |entries| && Dotted(entries[i]) == name && entries[i].value == value
  }

  /** No name is given two values. */
  ghost predicate Consistent(entries: seq<Entry>) {
    forall i, j :: 0 <= i < |entries| && 0 <= j < |entries| && Dotted(entries[i]) == Dotted(entries[j]) ==>
      entries[i].value == entries[j].value
  }

  lemma {:induction false} SettingsExact(out: map<string, string>, entries: seq<Entry>, name: string, value: string)
    requires Consistent(entries)
    ensures var r := Settings(out, entries);
            name in r && r[name] == value <==>
              Names(entries, name, value)
              || (name in out && out[name] == value && forall i :: 0 <= i < |entries| ==> Dotted(entries[i]) != name)
    decreases |entries|
  {
    if entries != [] {
      var e, rest := entries[0], entries[1..];
      assert forall i :: 0 <= i < |rest| ==> rest[i] == entries[i + 1];
      SettingsExact(out[Dotted(e) := e.value], rest, name, value);
      if Names(rest, name, value) {
        var i :| 0 <= i < |rest| && Dotted(rest[i]) == name && rest[i].value == value;
        assert entries[i + 1] == rest[i];
      }
      if exists i :: 0 <= i < |rest| && Dotted(rest[i]) == name {
        var i :| 0 <= i < |rest| && Dotted(rest[i]) == name;
        assert Dotted(entries[i + 1]) == name;
      }
    }
  }

  /** Rendering a one-level configuration and parsing it gives back that configuration: the settings that were written
      and no others, whatever hash signs, colons, single quotes or outer spaces their values hold. */
  lemma ConfigRoundTrip(entries: seq<Entry>, name: string, value: string)
    requires forall e :: e in entries ==> EntryOk(e)
    requires Consistent(entries)
    ensures var r := Parse(Render(SettingLines(entries)));
            r.Ok? && (name in r.value && r.value[name] == value <==> Names(entries, name, value))
  {
    SettingsMean(State(map[], ""), entries);
    DocumentRoundTrip(SettingLines(entries));
    SettingsExact(map[], entries, name, value);
  }

  /******* Comments and tabs *******/

  lemma {:induction false} TrimmedAreBlanks(s: string)
    ensures forall i :: |TrimBlanks(s)| <= i < |s| ==> IsBlank(s[i])
  {
    if s != "" && IsBlank(s[|s| - 1]) {
      TrimmedAreBlanks(s[..|s| - 1]);
    }
  }

  /** stripComment takes away blanks and everything from the first comment sign that stands outside quotes, or
      nothing. */
  lemma StripCutsOutsideQuotes(s: string)
    ensures var r := StripComment(s);
            && r <= s
            && (r == s <== forall j :: 0 <= j < |s| ==> !CommentAt(s, j))
            && (forall j :: 0 <= j < |r| ==> !CommentAt(s, j))
            && (r != s ==>
                  exists k :: |r| <= k < |s| && CommentAt(s, k) && (forall i :: |r| <= i < k ==> IsBlank(s[i])))
  {
    var k := CommentFrom(s, 0);
    if k < |s| {
      TrimmedAreBlanks(s[..k]);
      assert |StripComment(s)| <= k;
      assert forall i :: |StripComment(s)| <= i < k ==> IsBlank(s[i]);
    }
  }

  lemma StripIdempotent(s: string)
    ensures StripComment(StripComment(s)) == StripComment(s)
  {
    var r := StripComment(s);
    StripCutsOutsideQuotes(s);
    forall j | 0 <= j < |r| ensures !CommentAt(r, j) {
      assert r[..j] == s[..j];
      assert !CommentAt(s, j);
    }
  }

  lemma TabIndentedExactly(raw: string)
    ensures TabIndented(raw) <==> raw != "" && raw[0] == '\t'
  {
    LeadingAreSpaces(raw);
  }

  lemma ContentIsNotIndentation(s: State, indent: nat, kv: KeyValue)
    ensures ParseContent(s, indent, kv) != Err(TabIndent)
  {
  }

  /** The documentation rejects tabs for indentation; the code does so exactly when the tab comes first. */
  lemma OnlyLeadingTabIsRejected(s: State, raw: string)
    ensures ParseLine(s, raw) == Err(TabIndent) <==> raw != "" && raw[0] == '\t'
  {
    TabIndentedExactly(raw);
    var line := StripComment(raw);
    ContentIsNotIndentation(s, LeadingSpaces(line), SplitKeyValue(TrimSpace(line)));
  }

  lemma SpaceThenTab(pair: string)
    requires Snug(pair)
    ensures var raw := [' ', '\t'] + pair;
            TrimSpace(raw) == pair && LeadingSpaces(raw) == 1 && !TabIndented(raw)
  {
    var raw, inner := [' ', '\t'] + pair, ['\t'] + pair;
    assert raw[1..] == inner && inner[1..] == pair;
    SnugIsWhole(pair);
    TrimLeftStep(raw);
    TrimLeftStep(inner);
    TabIndentedExactly(raw);
    assert LeadingSpaces(inner) == 0;
  }

  lemma TrimLeftStep(s: string)
    requires s != "" && IsSpace(s[0])
    ensures TrimLeft(s) == TrimLeft(s[1..])
  {
  }

  lemma PieceJoin(q: Quote, a: string, b: string)
    requires Piece(q, a) && Piece(q, b)
    ensures Piece(q, a + b)
  {
  }

  lemma Uncut(head: string, v: Scalar)
    requires Piece(Outside, head) && ScalarOk(v)
    ensures StripComment(head + Written(v)) == head + Written(v)
  {
    var raw := head + Written(v);
    HeadAndScalar(head, v, "");
    assert raw + "" == raw;
    CommentSkips(raw, 0, |raw|);
  }

  lemma TabbedIsUncut(key: string, v: Scalar)
    requires Word(key) && ScalarOk(v)
    ensures var raw := [' ', '\t'] + (key + ": " + Written(v)); StripComment(raw) == raw
  {
    KeySilent(0, key);
    assert Spaces(0) + (key + ": ") == key + ": ";
    PieceJoin(Outside, [' ', '\t'], key + ": ");
    Uncut([' ', '\t'] + (key + ": "), v);
    assert [' ', '\t'] + (key + ": ") + Written(v) == [' ', '\t'] + (key + ": " + Written(v));
  }

  /** A tab after a space is taken as indentation, for every key and value. */
  lemma TabAfterSpaceIsAccepted(s: State, key: string, v: Scalar)
    requires Word(key) && ScalarOk(v) && s.section != ""
    ensures ParseLine(s, [' ', '\t'] + (key + ": " + Written(v)))
            == Ok(s.(out := s.out[s.section + "." + key := v.text]))
  {
    var pair := key + ": " + Written(v);
    WrittenSnug(v);
    PairSnug(key, Written(v));
    SpaceThenTab(pair);
    TabbedIsUncut(key, v);
    PairReads(key, v);
  }
}
