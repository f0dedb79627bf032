/** What one line of the configuration file says, in terms of its text alone (internal/config/yaml.go:33-128). */
module YamlLines {
  import opened Wrappers
  import opened Yaml
  import opened YamlRoundTrip

  /******* White space *******/

  /** The white space of Unicode, character by character. */
  lemma SpaceIsListed(c: char)
    ensures IsSpace(c) <==>
            c in {'\t', '\n', '\U{B}', '\U{C}', '\r', ' ', '\U{85}', '\U{A0}', '\U{1680}', '\U{2000}', '\U{2001}',
                  '\U{2002}', '\U{2003}', '\U{2004}', '\U{2005}', '\U{2006}', '\U{2007}', '\U{2008}', '\U{2009}',
                  '\U{200A}', '\U{2028}', '\U{2029}', '\U{202F}', '\U{205F}', '\U{3000}'}
  {
  }

  /** White space from one position up to another. */
  predicate SpaceIn(s: string, from: nat, to: nat)
    requires from <= to <= |s|
  {
    forall x {:trigger IsSpace(s[x])} :: from <= x < to ==> IsSpace(s[x])
  }

  /** From i to j is what lies between lo and hi without the white space around it. */
  predicate TrimIn(s: string, lo: nat, hi: nat, i: nat, j: nat) {
    && lo <= i <= j <= hi <= |s| && SpaceIn(s, lo, i) && SpaceIn(s, j, hi)
    && (i < j ==> !IsSpace(s[i]) && !IsSpace(s[j - 1]))
  }

  /** The first character from lo on that is not white space, or hi. */
  lemma FirstText(s: string, lo: nat, hi: nat) returns (i: nat)
    requires lo <= hi <= |s|
    ensures lo <= i <= hi && SpaceIn(s, lo, i) && (i < hi ==> !IsSpace(s[i]))
    decreases hi - lo
  {
    i := lo;
    if lo < hi && IsSpace(s[lo]) {
      i := FirstText(s, lo + 1, hi);
    }
  }

  lemma LastText(s: string, lo: nat, hi: nat) returns (j: nat)
    requires lo <= hi <= |s|
    ensures lo <= j <= hi && SpaceIn(s, j, hi) && (lo < j ==> !IsSpace(s[j - 1]))
    decreases hi - lo
  {
    j := hi;
    if lo < hi && IsSpace(s[hi - 1]) {
      j := LastText(s, lo, hi - 1);
    }
  }

  lemma Bounds(s: string, lo: nat, hi: nat) returns (i: nat, j: nat)
    requires lo <= hi <= |s|
    ensures TrimIn(s, lo, hi, i, j)
  {
    i := FirstText(s, lo, hi);
    j := LastText(s, i, hi);
  }

  lemma {:induction false} LeftTo(s: string, i: nat)
    requires i <= |s| && SpaceIn(s, 0, i) && (i < |s| ==> !IsSpace(s[i]))
    ensures TrimLeft(s) == s[i..]
  {
    if i > 0 {
      assert IsSpace(s[0]);
      assert forall x :: 0 <= x < |s| - 1 ==> s[1..][x] == s[x + 1];
      LeftTo(s[1..], i - 1);
      assert s[1..][i - 1..] == s[i..];
    }
  }

  lemma {:induction false} EndTo(s: string, j: nat)
    requires j <= |s| && SpaceIn(s, j, |s|) && (j > 0 ==> !IsSpace(s[j - 1]))
    ensures TrimEnd(s) == s[..j]
  {
    if j < |s| {
      assert IsSpace(s[|s| - 1]);
      EndTo(s[..|s| - 1], j);
      assert s[..|s| - 1][..j] == s[..j];
    }
  }

  /** TrimSpace, named rather than unfolded. */
  ghost predicate Trimmed(s: string, t: string) { forall x :: x == s ==> t == TrimSpace(x) }

  lemma TrimmedTo(m: string, l: string, t: string, i: nat)
    requires i <= |m| && SpaceIn(m, 0, i) && (i < |m| ==> !IsSpace(m[i])) && l == m[i..]
    requires |t| <= |l| && SpaceIn(l, |t|, |l|) && (t != "" ==> !IsSpace(t[|t| - 1])) && t == l[..|t|]
    ensures Trimmed(m, t)
  {
    LeftTo(m, i);
    assert t != "" ==> l[|t| - 1] == t[|t| - 1];
    EndTo(l, |t|);
  }

  lemma TrimPart(s: string, lo: nat, hi: nat, m: string, i: nat, j: nat)
    requires TrimIn(s, lo, hi, i, j) && m == s[lo..hi]
    ensures Trimmed(m, s[i..j])
  {
    if i == j {
      forall x | 0 <= x < |m| ensures IsSpace(m[x]) {
        assert m[x] == s[lo + x] && IsSpace(s[lo + x]);
      }
      assert m[|m|..] == "";
      TrimmedTo(m, "", "", |m|);
    } else {
      var l := s[i..hi];
      forall x | 0 <= x < i - lo ensures IsSpace(m[x]) {
        assert m[x] == s[lo + x] && IsSpace(s[lo + x]);
      }
      forall x | j - i <= x < |l| ensures IsSpace(l[x]) {
        assert l[x] == s[i + x] && IsSpace(s[i + x]);
      }
      assert m[i - lo] == s[i] && s[i..j][j - i - 1] == s[j - 1];
      TrimmedTo(m, l, s[i..j], i - lo);
    }
  }

  lemma PartTrim(s: string, lo: nat, hi: nat, m: string, t: string) returns (i: nat, j: nat)
    requires lo <= hi <= |s| && m == s[lo..hi] && Trimmed(m, t)
    ensures TrimIn(s, lo, hi, i, j) && t == s[i..j]
  {
    i, j := Bounds(s, lo, hi);
    TrimPart(s, lo, hi, m, i, j);
    assert t == TrimSpace(m);
  }

  lemma WholeTrim(s: string, t: string) returns (i: nat, j: nat)
    requires Trimmed(s, t)
    ensures TrimIn(s, 0, |s|, i, j) && t == s[i..j]
  {
    i, j := PartTrim(s, 0, |s|, s, t);
  }

  lemma TrimOnce(s: string, lo: nat, hi: nat, i: nat, j: nat, k: nat, l: nat)
    requires TrimIn(s, lo, hi, i, j) && TrimIn(s, lo, hi, k, l)
    ensures (i == j && k == l) || (i == k && j == l)
  {
  }

  /******* Comments *******/

  /** The character at position j comes again before position i. */
  predicate Again(s: string, j: nat, i: nat)
    requires j < i <= |s|
  {
    exists x :: j < x < i && s[x] == s[j]
  }

  /** Every quote that opens before position i, being outside all others, is closed before it. */
  ghost predicate Unquoted(s: string, i: nat)
    requires i <= |s|
    decreases i
  {
    forall j :: 0 <= j < i && s[j] in {'"', '\''} && Unquoted(s, j) ==> Again(s, j, i)
  }

  /** A quote c is open at position i. */
  ghost predicate OpenAt(s: string, i: nat, c: char)
    requires i <= |s|
  {
    exists j :: 0 <= j < i && s[j] == c && Unquoted(s, j) && !Again(s, j, i)
  }

  ghost predicate Agrees(s: string, i: nat, q: Quote)
    requires i <= |s|
  {
    match q
    case Outside => Unquoted(s, i)
    case InDouble => OpenAt(s, i, '"')
    case InSingle => OpenAt(s, i, '\'')
  }

  lemma OpenIsQuoted(s: string, i: nat, c: char)
    requires i <= |s| && c in {'"', '\''} && OpenAt(s, i, c)
    ensures !Unquoted(s, i)
  {
    var j :| 0 <= j < i && s[j] == c && Unquoted(s, j) && !Again(s, j, i);
  }

  lemma AgainLater(s: string, j: nat, i: nat)
    requires j < i < |s|
    ensures Again(s, j, i + 1) <==> Again(s, j, i) || s[i] == s[j]
  {
  }

  lemma StaysUnquoted(s: string, i: nat)
    requires i < |s| && Unquoted(s, i) && s[i] !in {'"', '\''}
    ensures Unquoted(s, i + 1)
  {
    forall j | 0 <= j < i + 1 && s[j] in {'"', '\''} && Unquoted(s, j) ensures Again(s, j, i + 1) {
      AgainLater(s, j, i);
    }
  }

  lemma Opens(s: string, i: nat)
    requires i < |s| && Unquoted(s, i)
    ensures OpenAt(s, i + 1, s[i])
  {
    assert !Again(s, i, i + 1);
  }

  lemma StaysOpen(s: string, i: nat, c: char)
    requires i < |s| && OpenAt(s, i, c) && s[i] != c
    ensures OpenAt(s, i + 1, c)
  {
    var j :| 0 <= j < i && s[j] == c && Unquoted(s, j) && !Again(s, j, i);
    AgainLater(s, j, i);
  }

  /** While a quote is open no other opens. */
  lemma OpenBetween(s: string, j: nat, k: nat, i: nat)
    requires j < k < i <= |s| && s[j] in {'"', '\''} && Unquoted(s, j) && !Again(s, j, i)
    ensures !Unquoted(s, k)
  {
    assert !Again(s, j, k);
  }

  lemma Closes(s: string, i: nat, c: char)
    requires i < |s| && c in {'"', '\''} && OpenAt(s, i, c) && s[i] == c
    ensures Unquoted(s, i + 1)
  {
    var j :| 0 <= j < i && s[j] == c && Unquoted(s, j) && !Again(s, j, i);
    OpenIsQuoted(s, i, c);
    forall k | j < k < i ensures !Unquoted(s, k) {
      OpenBetween(s, j, k, i);
    }
    forall k | 0 <= k < i + 1 && s[k] in {'"', '\''} && Unquoted(s, k) ensures Again(s, k, i + 1) {
      if k < j {
        assert Again(s, k, j);
      } else {
        assert k > j ==> k >= i;
      }
    }
  }

  lemma StepAgrees(s: string, i: nat, q: Quote)
    requires i < |s| && Agrees(s, i, q)
    ensures Agrees(s, i + 1, Toggle(q, s[i]))
  {
    match q
    case Outside =>
      if s[i] in {'"', '\''} {
        Opens(s, i);
      } else {
        StaysUnquoted(s, i);
      }
    case InDouble =>
      if s[i] == '"' {
        Closes(s, i, '"');
      } else {
        StaysOpen(s, i, '"');
      }
    case InSingle =>
      if s[i] == '\'' {
        Closes(s, i, '\'');
      } else {
        StaysOpen(s, i, '\'');
      }
  }

  /** The quote-tracking scan and the nesting of quotes agree. */
  lemma {:induction false} ScanAgrees(s: string, i: nat)
    requires i <= |s|
    ensures Agrees(s, i, QuoteAfter(s[..i]))
  {
    if i > 0 {
      ScanAgrees(s, i - 1);
      assert s[..i][..i - 1] == s[..i - 1];
      StepAgrees(s, i - 1, QuoteAfter(s[..i - 1]));
    }
  }

  /** A hash sign that begins a comment: outside quotes, first in its line or after a space or a tab. */
  ghost predicate Begins(s: string, k: nat)
    requires k < |s|
  {
    s[k] == '#' && Unquoted(s, k) && (k == 0 || s[k - 1] in {' ', '\t'})
  }

  lemma BeginsExactly(s: string, k: nat)
    requires k < |s|
    ensures Begins(s, k) <==> CommentAt(s, k)
  {
    ScanAgrees(s, k);
    match QuoteAfter(s[..k])
    case Outside =>
    case InDouble => OpenIsQuoted(s, k, '"');
    case InSingle => OpenIsQuoted(s, k, '\'');
  }

  ghost predicate FirstComment(raw: string, k: nat) {
    k < |raw| && Begins(raw, k) && forall i :: 0 <= i < k ==> !Begins(raw, i)
  }

  /** The line without its comment, and without the spaces and tabs before that. */
  ghost predicate Bared(raw: string, line: string) {
    if exists k :: 0 <= k < |raw| && Begins(raw, k) then
      exists k: nat :: FirstComment(raw, k) && line <= raw[..k]
        && (forall i :: |line| <= i < k ==> raw[i] in {' ', '\t'})
        && (line == "" || line[|line| - 1] !in {' ', '\t'})
    else line == raw
  }

  lemma {:induction false} BlanksEnd(s: string)
    ensures TrimBlanks(s) == "" || TrimBlanks(s)[|TrimBlanks(s)| - 1] !in {' ', '\t'}
  {
    if s != "" && IsBlank(s[|s| - 1]) {
      BlanksEnd(s[..|s| - 1]);
    }
  }

  lemma StripBares(raw: string)
    ensures Bared(raw, StripComment(raw))
  {
    var k := CommentFrom(raw, 0);
    forall i | 0 <= i < |raw| ensures Begins(raw, i) <==> CommentAt(raw, i) {
      BeginsExactly(raw, i);
    }
    if k < |raw| {
      TrimmedAreBlanks(raw[..k]);
      BlanksEnd(raw[..k]);
      assert Begins(raw, k) && FirstComment(raw, k);
      var line := StripComment(raw);
      forall i | |line| <= i < k ensures raw[i] in {' ', '\t'} {
        assert IsBlank(raw[..k][i]);
      }
    }
  }

  lemma BaredOnce(raw: string, a: string, b: string)
    requires Bared(raw, a) && Bared(raw, b)
    ensures a == b
  {
    if exists k :: 0 <= k < |raw| && Begins(raw, k) {
      var j: nat :| FirstComment(raw, j) && a <= raw[..j] && (forall i :: |a| <= i < j ==> raw[i] in {' ', '\t'})
                    && (a == "" || a[|a| - 1] !in {' ', '\t'});
      var k: nat :| FirstComment(raw, k) && b <= raw[..k] && (forall i :: |b| <= i < k ==> raw[i] in {' ', '\t'})
                    && (b == "" || b[|b| - 1] !in {' ', '\t'});
      assert !(j < k) && !(k < j);
      assert a == raw[..|a|] && b == raw[..|b|];
      assert b != "" ==> b[|b| - 1] == raw[|b| - 1];
      assert a != "" ==> a[|a| - 1] == raw[|a| - 1];
    }
  }

  /******* Keys and values *******/

  datatype Reading = Tabbed | Nothing | NoPair | Pair(indented: bool, key: string, value: Option<string>)

  /** What a scalar stands for: what is between its quotes, if it begins and ends with the same kind. */
  ghost predicate StandsFor(t: string, v: string) {
    || t == ['"'] + v + ['"'] || t == ['\''] + v + ['\'']
    || (v == t && !(|t| >= 2 && t[0] == t[|t| - 1] && t[0] in {'"', '\''}))
  }

  /** The first colon of a line, the key that ends before it and the text that follows it. */
  ghost predicate PairIn(line: string, k: nat, a: nat, b: nat, c: nat, d: nat, key: string, value: Option<string>) {
    && k < |line| && line[k] == ':' && (forall x :: 0 <= x < k ==> line[x] != ':')
    && TrimIn(line, 0, k, a, b) && a < b && key == line[a..b]
    && TrimIn(line, k + 1, |line|, c, d)
    && if c == d then value == None else value.Some? && StandsFor(line[c..d], value.value)
  }

  /** A line whose comment has been taken away: nothing, no pair because it has no colon or only white space before it,
      or a key and what follows its first colon. */
  ghost predicate Says(line: string, m: Reading) {
    match m
    case Tabbed => false
    case Nothing => SpaceIn(line, 0, |line|)
    case NoPair =>
      && !SpaceIn(line, 0, |line|)
      && (':' !in line || exists k :: 0 <= k < |line| && line[k] == ':' && SpaceIn(line, 0, k))
    case Pair(indented, key, value) =>
      && (indented <==> line != "" && line[0] == ' ')
      && exists k: nat, a: nat, b: nat, c: nat, d: nat :: PairIn(line, k, a, b, c, d, key, value)
  }

  /** How a line reads. */
  ghost predicate Reads(raw: string, m: Reading) {
    if raw != "" && raw[0] == '\t' then m == Tabbed else exists line :: Bared(raw, line) && Says(line, m)
  }

  /******* The parser reads lines so *******/

  function Content(line: string): Reading {
    if TrimSpace(line) == "" then Nothing
    else
      var kv := SplitKeyValue(TrimSpace(line));
      if kv.key == "" then NoPair else Pair(LeadingSpaces(line) > 0, kv.key, kv.value)
  }

  function ReadingOf(raw: string): Reading {
    if TabIndented(raw) then Tabbed else Content(StripComment(raw))
  }

  lemma UnquoteStands(t: string, v: string)
    ensures StandsFor(t, v) <==> v == Unquote(t)
  {
    if |t| >= 2 && t[0] == t[|t| - 1] && t[0] in {'"', '\''} {
      assert t == [t[0]] + t[1..|t| - 1] + [t[0]];
    }
    if t == ['"'] + v + ['"'] || t == ['\''] + v + ['\''] {
      assert t[1..|t| - 1] == v;
    }
  }

  lemma ColonOnlyInside(line: string, i: nat, j: nat)
    requires TrimIn(line, 0, |line|, i, j) && ':' !in line[i..j]
    ensures ':' !in line
  {
    forall x | 0 <= x < |line| ensures line[x] != ':' {
      if i <= x < j {
        assert line[x] == line[i..j][x - i];
      } else {
        assert IsSpace(line[x]);
      }
    }
  }

  lemma LeadingExactly(line: string)
    ensures LeadingSpaces(line) > 0 <==> line != "" && line[0] == ' '
  {
  }

  lemma TrimWider(s: string, lo: nat, hi: nat, i: nat, j: nat)
    requires TrimIn(s, lo, hi, i, j) && SpaceIn(s, 0, lo)
    ensures TrimIn(s, 0, hi, i, j)
  {
  }

  lemma TrimLater(s: string, lo: nat, hi: nat, i: nat, j: nat)
    requires TrimIn(s, lo, hi, i, j) && SpaceIn(s, hi, |s|)
    ensures TrimIn(s, lo, |s|, i, j)
  {
  }

  lemma NoColonBefore(line: string, i: nat, j: nat, k: nat)
    requires TrimIn(line, 0, |line|, i, j) && i <= k < j && ':' !in line[i..k]
    ensures forall x :: 0 <= x < k ==> line[x] != ':'
  {
    forall x | 0 <= x < k ensures line[x] != ':' {
      if x < i {
        assert IsSpace(line[x]);
      } else {
        assert line[x] == line[i..k][x - i];
      }
    }
  }

  lemma LeftPart(line: string, i: nat, k: nat, part: string, left: string) returns (a: nat, b: nat)
    requires i <= k <= |line| && SpaceIn(line, 0, i) && part == line[i..k] && Trimmed(part, left)
    ensures TrimIn(line, 0, k, a, b) && left == line[a..b]
  {
    a, b := PartTrim(line, i, k, part, left);
    TrimWider(line, i, k, a, b);
  }

  lemma RightPart(line: string, k: nat, j: nat, part: string, right: string) returns (c: nat, d: nat)
    requires k <= j <= |line| && SpaceIn(line, j, |line|) && part == line[k..j] && Trimmed(part, right)
    ensures TrimIn(line, k, |line|, c, d) && right == line[c..d]
  {
    c, d := PartTrim(line, k, j, part, right);
    TrimLater(line, k, j, c, d);
  }

  /** What the text on both sides of the first colon, trimmed, makes of the line. */
  function Sides(line: string, left: string, right: string): Reading {
    if left == "" then NoPair
    else Pair(line != "" && line[0] == ' ', left, if right == "" then None else Some(Unquote(right)))
  }

  lemma NoKeySays(line: string, k: nat, a: nat)
    requires k < |line| && line[k] == ':' && !SpaceIn(line, 0, |line|) && TrimIn(line, 0, k, a, a)
    ensures Says(line, NoPair)
  {
    assert SpaceIn(line, 0, k);
  }

  lemma KeySays(line: string, k: nat, a: nat, b: nat, c: nat, d: nat, left: string, right: string)
    requires k < |line| && line[k] == ':' && (forall x :: 0 <= x < k ==> line[x] != ':')
    requires TrimIn(line, 0, k, a, b) && TrimIn(line, k + 1, |line|, c, d) && a < b
    requires left == line[a..b] && right == line[c..d]
    ensures Says(line, Sides(line, left, right))
  {
    UnquoteStands(right, Unquote(right));
    assert PairIn(line, k, a, b, c, d, left, if right == "" then None else Some(Unquote(right)));
  }

  lemma SidesSay(line: string, i: nat, j: nat, k: nat, before: string, after: string, left: string, right: string)
    requires TrimIn(line, 0, |line|, i, j) && i <= k < j && line[k] == ':' && !SpaceIn(line, 0, |line|)
    requires forall x :: 0 <= x < k ==> line[x] != ':'
    requires before == line[i..k] && after == line[k + 1..j] && Trimmed(before, left) && Trimmed(after, right)
    ensures Says(line, Sides(line, left, right))
  {
    var a, b := LeftPart(line, i, k, before, left);
    var c, d := RightPart(line, k + 1, j, after, right);
    if a == b {
      NoKeySays(line, k, a);
    } else {
      KeySays(line, k, a, b, c, d, left, right);
    }
  }

  lemma SplitSides(t: string, c: nat, left: string, right: string)
    requires c < |t| && ColonIn(t) == c && left == TrimSpace(t[..c]) && right == TrimSpace(t[c + 1..])
    ensures SplitKeyValue(t) == KeyValue(left, if right == "" then None else Some(Unquote(right)))
  {
  }

  lemma SidesOf(line: string, t: string, left: string, right: string)
    requires t == TrimSpace(line) && t != ""
    requires SplitKeyValue(t) == KeyValue(left, if right == "" then None else Some(Unquote(right)))
    ensures Content(line) == Sides(line, left, right)
  {
    LeadingExactly(line);
  }

  lemma Slices(line: string, i: nat, j: nat, t: string, c: nat)
    requires i <= j <= |line| && t == line[i..j] && c < |t|
    ensures t[c] == line[i + c] && t[..c] == line[i..i + c] && t[c + 1..] == line[i + c + 1..j]
  {
  }

  lemma ColonSays(line: string, i: nat, j: nat, t: string, c: nat, before: string, after: string, left: string,
                  right: string)
    requires TrimIn(line, 0, |line|, i, j) && t == line[i..j] && !SpaceIn(line, 0, |line|)
    requires c < |t| && t[c] == ':' && ':' !in before && before == t[..c] && after == t[c + 1..]
    requires Trimmed(before, left) && Trimmed(after, right)
    ensures Says(line, Sides(line, left, right))
  {
    Slices(line, i, j, t, c);
    NoColonBefore(line, i, j, i + c);
    SidesSay(line, i, j, i + c, before, after, left, right);
  }

  lemma PairSays(line: string, i: nat, j: nat, t: string, c: nat, left: string, right: string)
    requires TrimIn(line, 0, |line|, i, j) && t == line[i..j] && !SpaceIn(line, 0, |line|)
    requires c < |t| && t[c] == ':' && ':' !in t[..c] && Trimmed(t[..c], left) && Trimmed(t[c + 1..], right)
    requires Content(line) == Sides(line, left, right)
    ensures Says(line, Content(line))
  {
    ColonSays(line, i, j, t, c, t[..c], t[c + 1..], left, right);
  }

  /** The parts of a trimmed line around its first colon. */
  lemma PartsOf(line: string, t: string) returns (c: nat, left: string, right: string)
    requires Trimmed(line, t) && ':' in t
    ensures c < |t| && t[c] == ':' && ':' !in t[..c] && Trimmed(t[..c], left) && Trimmed(t[c + 1..], right)
    ensures Content(line) == Sides(line, left, right)
  {
    assert t == TrimSpace(line);
    c := ColonIn(t);
    left, right := TrimSpace(t[..c]), TrimSpace(t[c + 1..]);
    SplitSides(t, c, left, right);
    SidesOf(line, t, left, right);
  }

  lemma TrimOf(s: string) returns (t: string)
    ensures Trimmed(s, t)
  {
    t := TrimSpace(s);
  }

  lemma ContentOf(line: string, t: string)
    requires Trimmed(line, t)
    ensures t == "" ==> Content(line) == Nothing
    ensures t != "" && ':' !in t ==> Content(line) == NoPair
  {
    assert t == TrimSpace(line);
    NoColonIn(t);
  }

  lemma {:induction false} NoColonIn(t: string)
    ensures ':' !in t ==> ColonIn(t) == |t|
  {
    if t != "" {
      NoColonIn(t[1..]);
    }
  }

  lemma ContentSays(line: string)
    ensures Says(line, Content(line))
  {
    var t := TrimOf(line);
    var i, j := WholeTrim(line, t);
    ContentOf(line, t);
    if t == "" {
      assert SpaceIn(line, 0, |line|);
    } else {
      assert !SpaceIn(line, 0, |line|);
      if ':' in t {
        var c, left, right := PartsOf(line, t);
        PairSays(line, i, j, t, c, left, right);
      } else {
        ColonOnlyInside(line, i, j);
      }
    }
  }

  /** A pair has a colon, and something before it. */
  lemma PairIsNotElse(line: string, k: nat, a: nat, b: nat, c: nat, d: nat, key: string, value: Option<string>)
    requires PairIn(line, k, a, b, c, d, key, value)
    ensures !Says(line, Nothing) && !Says(line, NoPair)
  {
    assert !IsSpace(line[a]) && line[k] in line;
    forall l | 0 <= l < |line| && line[l] == ':' ensures !SpaceIn(line, 0, l) {
      assert k <= l;
    }
  }

  lemma PairOnce(line: string, k: nat, a: nat, b: nat, c: nat, d: nat, key: string, value: Option<string>,
                 k1: nat, a1: nat, b1: nat, c1: nat, d1: nat, key1: string, value1: Option<string>)
    requires PairIn(line, k, a, b, c, d, key, value) && PairIn(line, k1, a1, b1, c1, d1, key1, value1)
    ensures key == key1 && value == value1
  {
    assert !(k < k1) && !(k1 < k);
    TrimOnce(line, 0, k, a, b, a1, b1);
    TrimOnce(line, k + 1, |line|, c, d, c1, d1);
    if c < d {
      UnquoteStands(line[c..d], value.value);
      UnquoteStands(line[c..d], value1.value);
    }
  }

  lemma SaysOnce(line: string, m: Reading, n: Reading)
    requires Says(line, m) && Says(line, n)
    ensures m == n
  {
    if m.Pair? {
      var k: nat, a: nat, b: nat, c: nat, d: nat :| PairIn(line, k, a, b, c, d, m.key, m.value);
      PairIsNotElse(line, k, a, b, c, d, m.key, m.value);
      if n.Pair? {
        var k1: nat, a1: nat, b1: nat, c1: nat, d1: nat :| PairIn(line, k1, a1, b1, c1, d1, n.key, n.value);
        PairOnce(line, k, a, b, c, d, m.key, m.value, k1, a1, b1, c1, d1, n.key, n.value);
      }
    } else if n.Pair? {
      var k: nat, a: nat, b: nat, c: nat, d: nat :| PairIn(line, k, a, b, c, d, n.key, n.value);
      PairIsNotElse(line, k, a, b, c, d, n.key, n.value);
    }
  }

  /** Every line reads in one way, and it is the parser's. */
  lemma ReadsExactly(raw: string, m: Reading)
    ensures Reads(raw, m) <==> m == ReadingOf(raw)
  {
    TabIndentedExactly(raw);
    if raw == "" || raw[0] != '\t' {
      var line := StripComment(raw);
      StripBares(raw);
      ContentSays(line);
      if Reads(raw, m) {
        var other :| Bared(raw, other) && Says(other, m);
        BaredOnce(raw, line, other);
        SaysOnce(line, m, Content(line));
      }
    }
  }

  /** No line is left without a reading, and none has two. */
  lemma OneReading(raw: string) returns (m: Reading)
    ensures forall n :: Reads(raw, n) <==> n == m
  {
    m := ReadingOf(raw);
    forall n ensures Reads(raw, n) <==> n == m {
      ReadsExactly(raw, n);
    }
  }
}
