/** What a whole configuration file means, from how its lines read: every value it sets and every way it is rejected
    (internal/config/yaml.go:25-74). */
module YamlMeaning {
  import opened Wrappers
  import opened Yaml
  import opened YamlRoundTrip
  import opened YamlLines

  /******* The reference *******/

  /** The lines put together with a newline between any two. */
  function Joined(lines: seq<string>): string {
    if lines == [] then "" else if |lines| == 1 then lines[0] else lines[0] + "\n" + Joined(lines[1..])
  }

  /** Line i is in the section of that name: its heading is the last unindented pair before the line. */
  ghost predicate InSection(ms: seq<Reading>, i: nat, name: string)
    requires i <= |ms|
  {
    exists j :: 0 <= j < i && ms[j] == Pair(false, name, None) && forall k :: j < k < i ==> !Unindented(ms[k])
  }

  predicate Unindented(m: Reading) { m.Pair? && !m.indented }

  /** What is wrong with line i. */
  ghost predicate Faulty(ms: seq<Reading>, i: nat, f: Fault)
    requires i < |ms|
  {
    match ms[i]
    case Tabbed => f == TabIndent
    case Nothing => false
    case NoPair => f == NotKeyValue
    case Pair(indented, _, value) =>
      && indented
      && if exists name :: InSection(ms, i, name) then value.None? && f == NestedMap else f == NoSection
  }

  /** Line i sets a name to a value. */
  ghost predicate Sets(ms: seq<Reading>, i: nat, name: string, value: string)
    requires i < |ms|
  {
    match ms[i]
    case Pair(indented, key, Some(v)) =>
      v == value && if indented then exists s :: InSection(ms, i, s) && name == s + "." + key else name == key
    case _ => false
  }

  /** Of the lines before i the last one that sets the name sets it to the value. */
  ghost predicate LastSet(ms: seq<Reading>, i: nat, name: string, value: string)
    requires i <= |ms|
  {
    exists j :: 0 <= j < i && Sets(ms, j, name, value) && forall k, v :: j < k < i ==> !Sets(ms, k, name, v)
  }

  ghost predicate Sound(ms: seq<Reading>, i: nat)
    requires i <= |ms|
  {
    forall j, f :: 0 <= j < i ==> !Faulty(ms, j, f)
  }

  /******* One line more *******/

  lemma SectionNext(ms: seq<Reading>, i: nat, name: string)
    requires i < |ms|
    ensures InSection(ms, i + 1, name) <==>
            if Unindented(ms[i]) then ms[i] == Pair(false, name, None) else InSection(ms, i, name)
  {
    if InSection(ms, i, name) && !Unindented(ms[i]) {
      var j :| 0 <= j < i && ms[j] == Pair(false, name, None) && forall k :: j < k < i ==> !Unindented(ms[k]);
      assert forall k :: j < k < i + 1 ==> !Unindented(ms[k]);
    }
  }

  lemma LastSetNext(ms: seq<Reading>, i: nat, name: string, value: string)
    requires i < |ms|
    ensures LastSet(ms, i + 1, name, value) <==>
            Sets(ms, i, name, value) || (LastSet(ms, i, name, value) && forall v :: !Sets(ms, i, name, v))
  {
    if LastSet(ms, i, name, value) && forall v :: !Sets(ms, i, name, v) {
      var j :| 0 <= j < i && Sets(ms, j, name, value) && forall k, v :: j < k < i ==> !Sets(ms, k, name, v);
      assert forall k, v :: j < k < i + 1 ==> !Sets(ms, k, name, v);
    }
    if LastSet(ms, i + 1, name, value) && !Sets(ms, i, name, value) {
      var j :| 0 <= j < i + 1 && Sets(ms, j, name, value) && forall k, v :: j < k < i + 1 ==> !Sets(ms, k, name, v);
      assert j < i;
    }
  }

  /** The parser's state after the lines before i. */
  ghost predicate StateAt(s: State, ms: seq<Reading>, i: nat)
    requires i <= |ms|
  {
    && (forall name :: InSection(ms, i, name) <==> name == s.section && name != "")
    && (forall name, value :: LastSet(ms, i, name, value) <==> name in s.out && s.out[name] == value)
  }

  /** What a reading does to the parser's state. */
  function Effect(s: State, m: Reading): Result<State, Fault> {
    match m
    case Tabbed => Err(TabIndent)
    case Nothing => Ok(s)
    case NoPair => Err(NotKeyValue)
    case Pair(false, key, None) => Ok(s.(section := key))
    case Pair(false, key, Some(v)) => Ok(State(s.out[key := v], ""))
    case Pair(true, key, value) =>
      if s.section == "" then Err(NoSection)
      else if value.None? then Err(NestedMap)
      else Ok(s.(out := s.out[s.section + "." + key := value.value]))
  }

  lemma PairHasEffect(s: State, indent: nat, kv: KeyValue)
    ensures ParseContent(s, indent, kv)
            == Effect(s, if kv.key == "" then NoPair else Pair(indent > 0, kv.key, kv.value))
  {
  }

  lemma LineHasEffect(s: State, raw: string)
    ensures ParseLine(s, raw) == Effect(s, ReadingOf(raw))
  {
    var line := StripComment(raw);
    PairHasEffect(s, LeadingSpaces(line), SplitKeyValue(TrimSpace(line)));
  }

  lemma FaultShown(s: State, ms: seq<Reading>, i: nat, f: Fault)
    requires i < |ms| && StateAt(s, ms, i)
    ensures Faulty(ms, i, f) <==> Effect(s, ms[i]) == Err(f)
  {
    assert InSection(ms, i, s.section) <==> s.section != "";
  }

  lemma SetShown(s: State, ms: seq<Reading>, i: nat, name: string, value: string)
    requires i < |ms| && StateAt(s, ms, i) && Effect(s, ms[i]).Ok?
    ensures var out := Effect(s, ms[i]).value.out;
            name in out && out[name] == value <==>
              Sets(ms, i, name, value)
              || (name in s.out && s.out[name] == value && forall v :: !Sets(ms, i, name, v))
  {
    assert InSection(ms, i, s.section) <==> s.section != "";
    match ms[i]
    case Pair(false, key, Some(v)) => assert Sets(ms, i, key, v);
    case Pair(true, key, Some(v)) => assert Sets(ms, i, s.section + "." + key, v);
    case _ =>
  }

  lemma StateNext(s: State, ms: seq<Reading>, i: nat)
    requires i < |ms| && StateAt(s, ms, i) && Effect(s, ms[i]).Ok?
    requires ms[i].Pair? ==> ms[i].key != ""
    ensures StateAt(Effect(s, ms[i]).value, ms, i + 1)
  {
    var t, n := Effect(s, ms[i]).value, i + 1;
    forall name ensures InSection(ms, n, name) <==> name == t.section && name != "" {
      SectionNext(ms, i, name);
    }
    forall name, value ensures LastSet(ms, n, name, value) <==> name in t.out && t.out[name] == value {
      LastSetNext(ms, i, name, value);
      SetShown(s, ms, i, name, value);
    }
  }

  /******* The whole file *******/

  ghost predicate AllRead(lines: seq<string>, ms: seq<Reading>) {
    |ms| == |lines| && forall i {:trigger Reads(lines[i], ms[i])} :: 0 <= i < |lines| ==> Reads(lines[i], ms[i])
  }

  /** The result is the first fault, at its line, or the state after the last line. */
  ghost predicate Outcome(r: Result<State, ParseError>, ms: seq<Reading>) {
    match r
    case Ok(s) => Sound(ms, |ms|) && StateAt(s, ms, |ms|)
    case Err(e) => 1 <= e.line <= |ms| && Sound(ms, e.line - 1) && Faulty(ms, e.line - 1, e.fault)
  }

  lemma SoundNext(s: State, ms: seq<Reading>, i: nat)
    requires i < |ms| && StateAt(s, ms, i) && Sound(ms, i) && Effect(s, ms[i]).Ok?
    ensures Sound(ms, i + 1)
  {
    forall f ensures !Faulty(ms, i, f) {
      FaultShown(s, ms, i, f);
    }
  }

  /** The same in the parser's terms. */
  predicate AllReadSo(lines: seq<string>, ms: seq<Reading>) {
    |ms| == |lines| && forall i :: 0 <= i < |lines| ==> ms[i] == ReadingOf(lines[i])
  }

  lemma ReadSo(lines: seq<string>, ms: seq<Reading>)
    requires AllRead(lines, ms)
    ensures AllReadSo(lines, ms)
  {
    forall i | 0 <= i < |lines| ensures ms[i] == ReadingOf(lines[i]) {
      assert Reads(lines[i], ms[i]);
      ReadsExactly(lines[i], ms[i]);
    }
  }

  /** The effects of the readings, one after the other. */
  function Effects(s: State, ms: seq<Reading>, i: nat): Result<State, ParseError>
    requires i <= |ms|
    decreases |ms| - i
  {
    if i == |ms| then Ok(s)
    else
      match Effect(s, ms[i])
      case Err(f) => Err(ParseError(i + 1, f))
      case Ok(t) => Effects(t, ms, i + 1)
  }

  lemma {:induction false} RestHasEffects(s: State, lines: seq<string>, ms: seq<Reading>, i: nat, rest: seq<string>)
    requires AllReadSo(lines, ms) && i <= |lines| && rest == lines[i..]
    ensures ParseLines(s, rest, i + 1) == Effects(s, ms, i)
    decreases |rest|
  {
    if rest != [] {
      assert rest[0] == lines[i] && rest[1..] == lines[i + 1..];
      LineHasEffect(s, lines[i]);
      if Effect(s, ms[i]).Ok? {
        RestHasEffects(Effect(s, ms[i]).value, lines, ms, i + 1, rest[1..]);
      }
    }
  }

  predicate AllNamed(ms: seq<Reading>) { forall i :: 0 <= i < |ms| && ms[i].Pair? ==> ms[i].key != "" }

  lemma {:induction false} EffectsMean(s: State, ms: seq<Reading>, i: nat)
    requires AllNamed(ms) && i <= |ms| && StateAt(s, ms, i) && Sound(ms, i)
    ensures Outcome(Effects(s, ms, i), ms)
    decreases |ms| - i
  {
    if i < |ms| {
      match Effect(s, ms[i])
      case Err(f) => FaultShown(s, ms, i, f);
      case Ok(t) =>
        StateNext(s, ms, i);
        SoundNext(s, ms, i);
        EffectsMean(t, ms, i + 1);
    }
  }

  lemma KeysAreNamed(raw: string, m: Reading)
    requires m == ReadingOf(raw)
    ensures m.Pair? ==> m.key != ""
  {
  }

  lemma {:induction false} LinesOfJoined(lines: seq<string>)
    requires lines != [] && forall i :: 0 <= i < |lines| ==> NoNewline(lines[i])
    ensures Lines(Joined(lines)) == lines
  {
    if |lines| == 1 {
      OneLine(lines[0]);
    } else {
      FirstLine(lines[0], Joined(lines[1..]));
      LinesOfJoined(lines[1..]);
    }
  }

  const START := State(map[], "")

  lemma StartAt(ms: seq<Reading>)
    ensures StateAt(START, ms, 0) && Sound(ms, 0)
  {
  }

  lemma FileMeans(lines: seq<string>, ms: seq<Reading>)
    requires AllReadSo(lines, ms)
    ensures Outcome(ParseLines(START, lines, 1), ms)
  {
    StartAt(ms);
    RestHasEffects(START, lines, ms, 0, lines);
    forall i | 0 <= i < |ms| && ms[i].Pair? ensures ms[i].key != "" {
      KeysAreNamed(lines[i], ms[i]);
    }
    EffectsMean(START, ms, 0);
  }

  function Final(r: Result<State, ParseError>): Result<map<string, string>, ParseError> {
    match r
    case Ok(s) => Ok(s.out)
    case Err(e) => Err(e)
  }

  lemma ParseOfLines(lines: seq<string>)
    requires lines != [] && forall i :: 0 <= i < |lines| ==> NoNewline(lines[i])
    ensures Parse(Joined(lines)) == Final(ParseLines(START, lines, 1))
  {
    LinesOfJoined(lines);
  }

  lemma FirstFault(r: Result<State, ParseError>, ms: seq<Reading>, n: nat, f: Fault)
    requires Outcome(r, ms)
    ensures r == Err(ParseError(n, f)) <==> 1 <= n <= |ms| && Sound(ms, n - 1) && Faulty(ms, n - 1, f)
  {
    if r.Err? && 1 <= n <= |ms| && Sound(ms, n - 1) && Faulty(ms, n - 1, f) {
      assert !(r.error.line < n) && !(n < r.error.line);
      FaultOnce(ms, n - 1, f, r.error.fault);
    }
  }

  /** The parser rejects a file with fault f at line n exactly when that line is the first that has a fault, and f is
      its fault. */
  lemma RejectedExactly(lines: seq<string>, ms: seq<Reading>, n: nat, f: Fault)
    requires lines != [] && (forall i :: 0 <= i < |lines| ==> NoNewline(lines[i])) && AllRead(lines, ms)
    ensures Parse(Joined(lines)) == Err(ParseError(n, f)) <==>
            1 <= n <= |ms| && Sound(ms, n - 1) && Faulty(ms, n - 1, f)
  {
    ParseOfLines(lines);
    ReadSo(lines, ms);
    FileMeans(lines, ms);
    FirstFault(ParseLines(START, lines, 1), ms, n, f);
  }

  lemma FaultOnce(ms: seq<Reading>, i: nat, f: Fault, g: Fault)
    requires i < |ms| && Faulty(ms, i, f) && Faulty(ms, i, g)
    ensures f == g
  {
  }

  /** Otherwise it gives every name the value that the last line to set it gives it, and no other names. */
  lemma MeansExactly(lines: seq<string>, ms: seq<Reading>, name: string, value: string)
    requires lines != [] && (forall i :: 0 <= i < |lines| ==> NoNewline(lines[i])) && AllRead(lines, ms)
    ensures Parse(Joined(lines)).Ok? <==> Sound(ms, |ms|)
    ensures Parse(Joined(lines)).Ok? ==>
              var out := Parse(Joined(lines)).value; name in out && out[name] == value <==>
                  LastSet(ms, |ms|, name, value)
  {
    ParseOfLines(lines);
    ReadSo(lines, ms);
    FileMeans(lines, ms);
  }

  lemma NoPairReads(raw: string, m: Reading, line: string)
    requires Reads(raw, m) && raw != "" && raw[0] != '\t' && Bared(raw, line)
    requires exists k :: 0 <= k < |line| && !IsSpace(line[k])
    requires ':' !in line || exists k :: 0 <= k < |line| && line[k] == ':' && SpaceIn(line, 0, k)
    ensures m == NoPair
  {
    assert Says(line, NoPair);
    ReadsExactly(raw, NoPair);
    ReadsExactly(raw, m);
  }

  /** So a line that is no "key: value", whatever it holds, is rejected at its number when nothing before it is: it does
      not begin with a tab, it is not blank once its comment is cut, and it has no colon or only white space before
      it. */
  lemma NoPairIsRejected(lines: seq<string>, ms: seq<Reading>, n: nat, line: string)
    requires lines != [] && (forall i :: 0 <= i < |lines| ==> NoNewline(lines[i])) && AllRead(lines, ms)
    requires 1 <= n <= |lines| && Sound(ms, n - 1)
    requires lines[n - 1] != "" && lines[n - 1][0] != '\t' && Bared(lines[n - 1], line)
    requires exists k :: 0 <= k < |line| && !IsSpace(line[k])
    requires ':' !in line || exists k :: 0 <= k < |line| && line[k] == ':' && SpaceIn(line, 0, k)
    ensures Parse(Joined(lines)) == Err(ParseError(n, NotKeyValue))
  {
    assert Reads(lines[n - 1], ms[n - 1]);
    NoPairReads(lines[n - 1], ms[n - 1], line);
    RejectedExactly(lines, ms, n, NotKeyValue);
  }

  /** And an indented key without a value is rejected so in any section. */
  lemma NestedMapIsRejected(lines: seq<string>, ms: seq<Reading>, n: nat, name: string, key: string)
    requires lines != [] && (forall i :: 0 <= i < |lines| ==> NoNewline(lines[i])) && AllRead(lines, ms)
    requires 1 <= n <= |lines| && Sound(ms, n - 1) && InSection(ms, n - 1, name)
    requires ms[n - 1] == Pair(true, key, None)
    ensures Parse(Joined(lines)) == Err(ParseError(n, NestedMap))
  {
    assert Faulty(ms, n - 1, NestedMap);
    RejectedExactly(lines, ms, n, NestedMap);
  }
}
