/** The configuration parser (internal/config/yaml.go): one level of sections with scalar values. */
module Yaml {
  import opened Wrappers

  /** White space as strings.TrimSpace sees it. */
  predicate IsSpace(c: char) {
    || '\t' <= c <= '\r' || c == ' ' || c == '\U{85}' || c == '\U{A0}' || c == '\U{1680}'
    || '\U{2000}' <= c <= '\U{200A}' || c == '\U{2028}' || c == '\U{2029}' || c == '\U{202F}' || c == '\U{205F}'
       || c == '\U{3000}'
  }

  predicate IsBlank(c: char) { c == ' ' || c == '\t' }

  function TrimLeft(s: string): (r: string)
    ensures |r| <= |s| && r == s[|s| - |r|..]
    ensures r != "" ==> !IsSpace(r[0])
  {
    if s != "" && IsSpace(s[0]) then TrimLeft(s[1..]) else s
  }

  function TrimEnd(s: string): (r: string)
    ensures |r| <= |s| && r == s[..|r|]
    ensures r != "" ==> !IsSpace(r[|r| - 1])
  {
    if s != "" && IsSpace(s[|s| - 1]) then TrimEnd(s[..|s| - 1]) else s
  }

  function TrimSpace(s: string): string { TrimEnd(TrimLeft(s)) }

  /** strings.TrimRight with the cutset of space and tab. */
  function TrimBlanks(s: string): (r: string)
    ensures |r| <= |s| && r == s[..|r|]
  {
    if s != "" && IsBlank(s[|s| - 1]) then TrimBlanks(s[..|s| - 1]) else s
  }

  function LeadingSpaces(s: string): (n: nat)
    ensures n <= |s|
  {
    if s != "" && s[0] == ' ' then 1 + LeadingSpaces(s[1..]) else 0
  }

  /******* Comments *******/

  datatype Quote = Outside | InSingle | InDouble

  function Toggle(q: Quote, c: char): Quote {
    if c == '\'' && q != InDouble then (if q == InSingle then Outside else InSingle)
    else if c == '"' && q != InSingle then (if q == InDouble then Outside else InDouble)
    else q
  }

  /** The quotes that are open after a prefix of a line. */
  function QuoteAfter(s: string): Quote {
    if s == "" then Outside else Toggle(QuoteAfter(s[..|s| - 1]), s[|s| - 1])
  }

  /** A '#' outside quotes, at the start or after a blank. */
  predicate CommentAt(s: string, i: nat)
    requires i < |s|
  {
    s[i] == '#' && QuoteAfter(s[..i]) == Outside && (i == 0 || IsBlank(s[i - 1]))
  }

  /** The first comment position from i on, or the length. */
  function CommentFrom(s: string, i: nat): (k: nat)
    requires i <= |s|
    ensures i <= k <= |s|
    ensures forall j :: i <= j < k ==> !CommentAt(s, j)
    ensures k < |s| ==> CommentAt(s, k)
    decreases |s| - i
  {
    if i == |s| || CommentAt(s, i) then i else CommentFrom(s, i + 1)
  }

  function StripComment(s: string): string {
    var k := CommentFrom(s, 0);
    if k == |s| then s else TrimBlanks(s[..k])
  }

  /******* Lines *******/

  datatype KeyValue = KeyValue(key: string, value: Option<string>)

  /** strings.Index of the first colon, or the length. */
  function ColonIn(s: string): (k: nat)
    ensures k <= |s| && ':' !in s[..k]
    ensures k < |s| ==> s[k] == ':'
  {
    if s == "" || s[0] == ':' then 0 else 1 + ColonIn(s[1..])
  }

  function Unquote(s: string): string {
    if |s| >= 2 && ((s[0] == '"' && s[|s| - 1] == '"') || (s[0] == '\'' && s[|s| - 1] == '\'')) then s[1..|s| - 1]
      else s
  }

  function SplitKeyValue(s: string): KeyValue {
    var k := ColonIn(s);
    if k == |s| then KeyValue("", None)
    else
      var rest := TrimSpace(s[k + 1..]);
      KeyValue(TrimSpace(s[..k]), if rest == "" then None else Some(Unquote(rest)))
  }

  datatype Fault = TabIndent | NotKeyValue | NoSection | NestedMap

  datatype ParseError = ParseError(line: nat, fault: Fault)

  datatype State = State(out: map<string, string>, section: string)

  predicate TabIndented(raw: string) {
    (raw != "" && raw[0] == '\t') || '\t' in raw[..LeadingSpaces(raw)]
  }

  function ParseContent(s: State, indent: nat, kv: KeyValue): Result<State, Fault> {
    if kv.key == "" then Err(NotKeyValue)
    else if indent == 0 then
      if kv.value.None? then Ok(s.(section := kv.key)) else Ok(State(s.out[kv.key := kv.value.value], ""))
    else if s.section == "" then Err(NoSection)
    else if kv.value.None? then Err(NestedMap)
    else Ok(s.(out := s.out[s.section + "." + kv.key := kv.value.value]))
  }

  function ParseLine(s: State, raw: string): Result<State, Fault> {
    if TabIndented(raw) then Err(TabIndent)
    else
      var line := StripComment(raw);
      if TrimSpace(line) == "" then Ok(s)
      else ParseContent(s, LeadingSpaces(line), SplitKeyValue(TrimSpace(line)))
  }

  function ParseLines(s: State, lines: seq<string>, lineNo: nat): Result<State, ParseError>
    decreases |lines|
  {
    if lines == [] then Ok(s)
    else
      match ParseLine(s, lines[0])
      case Err(fault) => Err(ParseError(lineNo, fault))
      case Ok(s1) => ParseLines(s1, lines[1..], lineNo + 1)
  }

  /** strings.Split at newlines. */
  function Lines(text: string): (r: seq<string>)
    ensures r != []
  {
    if text == "" then [""]
    else
      var rest := Lines(text[1..]);
      if text[0] == '\n' then [""] + rest else [[text[0]] + rest[0]] + rest[1..]
  }

  function Parse(text: string): Result<map<string, string>, ParseError> {
    match ParseLines(State(map[], ""), Lines(text), 1)
    case Ok(s) => Ok(s.out)
    case Err(e) => Err(e)
  }

  /******* The scanners as loops *******/

  method CountLeadingSpaces(s: string) returns (n: nat)
    ensures n == LeadingSpaces(s)
  {
    n := 0;
    assert s[0..] == s;
    while n < |s| && s[n] == ' '
      invariant n <= |s|
      invariant LeadingSpaces(s) == n + LeadingSpaces(s[n..])
    {
      assert s[n..][1..] == s[n + 1..];
      n := n + 1;
    }
  }

  method CutComment(s: string) returns (r: string)
    ensures r == StripComment(s)
  {
    var inSingle, inDouble := false, false;
    for i := 0 to |s|
      invariant CommentFrom(s, 0) == CommentFrom(s, i)
      invariant !(inSingle && inDouble)
      invariant QuoteAfter(s[..i]) == if inSingle then InSingle else if inDouble then InDouble else Outside
    {
      var c := s[i];
      assert s[..i + 1][..i] == s[..i];
      if c == '\'' && !inDouble {
        inSingle := !inSingle;
      } else if c == '"' && !inSingle {
        inDouble := !inDouble;
      } else if c == '#' && !inSingle && !inDouble {
        if i == 0 || s[i - 1] == ' ' || s[i - 1] == '\t' {
          return TrimBlanks(s[..i]);
        }
      }
    }
    return s;
  }

  method ParseSimpleYaml(text: string) returns (r: Result<map<string, string>, ParseError>)
    ensures r == Parse(text)
  {
    var out: map<string, string> := map[];
    var section := "";
    var lines := Lines(text);
    for i := 0 to |lines|
      invariant ParseLines(State(out, section), lines[i..], i + 1) == ParseLines(State(map[], ""), lines, 1)
    {
      var rawLine := lines[i];
      assert lines[i..][1..] == lines[i + 1..];
      var spaces := CountLeadingSpaces(rawLine);
      if (rawLine != "" && rawLine[0] == '\t') || '\t' in rawLine[..spaces] {
        return Err(ParseError(i + 1, TabIndent));
      }
      var line := CutComment(rawLine);
      if TrimSpace(line) == "" {
        continue;
      }
      var indent := CountLeadingSpaces(line);
      var kv := SplitKeyValue(TrimSpace(line));
      if kv.key == "" {
        return Err(ParseError(i + 1, NotKeyValue));
      }
      if indent == 0 {
        if kv.value.None? {
          section := kv.key;
          continue;
        }
        section := "";
        out := out[kv.key := kv.value.value];
        continue;
      }
      if section == "" {
        return Err(ParseError(i + 1, NoSection));
      }
      if kv.value.None? {
        return Err(ParseError(i + 1, NestedMap));
      }
      out := out[section + "." + kv.key := kv.value.value];
    }
    return Ok(out);
  }
}
