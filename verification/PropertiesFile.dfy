/** The `.properties` text one Catalog is kept as in the durable Secret, and the reader that
    Adoption applies to it. The reader follows Python's `splitlines`, `strip` and `partition`
    character by character, because what survives a round trip depends on exactly those. */
module PropertiesFile {
  import opened Outcomes
  import opened Ordering
  import opened Slices

  const CONNECTOR_KEY := "connector.name"

  /** Where `str.splitlines` ends a line. */
  predicate IsBreak(c: char) {
    (c as int) in {0x0A, 0x0B, 0x0C, 0x0D, 0x1C, 0x1D, 0x1E, 0x85, 0x2028, 0x2029}
  }

  /** What `str.strip` removes. */
  predicate IsSpace(c: char) {
    var n := c as int;
    0x09 <= n <= 0x0D || 0x1C <= n <= 0x20 || n == 0x85 || n == 0xA0 || n == 0x1680 ||
    0x2000 <= n <= 0x200A || n == 0x2028 || n == 0x2029 || n == 0x202F || n == 0x205F || n == 0x3000
  }

  predicate OneLine(s: string) {
    forall i | 0 <= i < |s| :: !IsBreak(s[i])
  }

  /** The first index holding a break, or the length. */
  function LineEnd(s: string): (k: nat)
    ensures k <= |s|
    ensures k < |s| ==> IsBreak(s[k])
  {
    if s == [] || IsBreak(s[0]) then 0 else 1 + LineEnd(s[1..])
  }

  lemma {:induction false} LineEndFirst(s: string, i: nat)
    requires i < LineEnd(s)
    ensures !IsBreak(s[i])
  {
    if i > 0 {
      LineEndFirst(s[1..], i - 1);
    }
  }

  lemma {:induction false} LineEndUnique(line: string, rest: string)
    requires OneLine(line)
    ensures LineEnd(line + ['\n'] + rest) == |line|
  {
    var s := line + ['\n'] + rest;
    Parts(line, '\n', rest);
    assert forall i | 0 <= i < |line| :: s[i] == line[i];
    if |line| < LineEnd(s) {
      LineEndFirst(s, |line|);
    }
  }

  function SplitLines(s: string): seq<string>
    decreases |s|
  {
    if s == [] then []
    else
      var k := LineEnd(s);
      if k == |s| then [s]
      else
        var next := if s[k] == '\r' && k + 1 < |s| && s[k + 1] == '\n' then k + 2 else k + 1;
        [s[..k]] + SplitLines(s[next..])
  }

  lemma {:induction false} SplitOneLine(s: string)
    ensures forall line | line in SplitLines(s) :: OneLine(line)
    decreases |s|
  {
    if s != [] {
      var k := LineEnd(s);
      forall i | 0 <= i < k ensures !IsBreak(s[..k][i]) { LineEndFirst(s, i); }
      if k == |s| {
        assert s[..k] == s;
      } else {
        var next := if s[k] == '\r' && k + 1 < |s| && s[k + 1] == '\n' then k + 2 else k + 1;
        SplitOneLine(s[next..]);
      }
    }
  }

  /** Every line followed by a newline: `"\n".join(lines) + "\n"` for a non-empty list. */
  function Unlines(lines: seq<string>): string {
    if lines == [] then "" else lines[0] + ['\n'] + Unlines(lines[1..])
  }

  lemma SplitFirst(line: string, rest: string)
    requires OneLine(line)
    ensures SplitLines(line + ['\n'] + rest) == [line] + SplitLines(rest)
  {
    LineEndUnique(line, rest);
    Parts(line, '\n', rest);
  }

  lemma {:induction false} SplitUnlines(lines: seq<string>)
    requires forall i | 0 <= i < |lines| :: OneLine(lines[i])
    ensures SplitLines(Unlines(lines)) == lines
  {
    if lines != [] {
      SplitFirst(lines[0], Unlines(lines[1..]));
      SplitUnlines(lines[1..]);
    }
  }

  function StripLeft(s: string): string {
    if s != [] && IsSpace(s[0]) then StripLeft(s[1..]) else s
  }

  function StripRight(s: string): string {
    if s != [] && IsSpace(s[|s| - 1]) then StripRight(s[..|s| - 1]) else s
  }

  function Strip(s: string): string {
    StripRight(StripLeft(s))
  }

  /** Nothing for `strip` to remove. */
  predicate Trimmed(s: string) {
    s == [] || (!IsSpace(s[0]) && !IsSpace(s[|s| - 1]))
  }

  lemma {:induction false} StripLeftSuffix(s: string) returns (i: nat)
    ensures i <= |s| && StripLeft(s) == s[i..]
    ensures i < |s| ==> !IsSpace(s[i])
    ensures s != [] && !IsSpace(s[0]) ==> i == 0
  {
    hide IsSpace;
    if s != [] && IsSpace(s[0]) {
      var k := StripLeftSuffix(s[1..]);
      DropDrop(s, 1, k);
      i := k + 1;
    } else {
      i := 0;
    }
  }

  lemma {:induction false} StripRightPrefix(s: string) returns (j: nat)
    ensures j <= |s| && StripRight(s) == s[..j]
    ensures 0 < j ==> !IsSpace(s[j - 1])
    ensures s != [] && !IsSpace(s[|s| - 1]) ==> j == |s|
    ensures s != [] && !IsSpace(s[0]) ==> 0 < j
  {
    hide IsSpace;
    if s != [] && IsSpace(s[|s| - 1]) {
      j := StripRightPrefix(s[..|s| - 1]);
      assert s[..|s| - 1][..j] == s[..j];
    } else {
      j := |s|;
      assert s[..j] == s;
    }
  }

  /** `strip` returns a trimmed stretch of its argument. */
  lemma StripStretch(s: string) returns (i: nat, j: nat)
    ensures i <= j <= |s| && Strip(s) == s[i..j] && Trimmed(Strip(s))
    ensures s != [] && !IsSpace(s[0]) ==> i == 0 < j
  {
    i := StripLeftSuffix(s);
    var k := StripRightPrefix(s[i..]);
    j := i + k;
    assert s[i..][..k] == s[i..j];
  }

  lemma StripTrimmed(s: string)
    requires Trimmed(s)
    ensures Strip(s) == s
  {
    var i := StripLeftSuffix(s);
    var j := StripRightPrefix(s[i..]);
  }

  /** `str.partition`: the index of the first separator, or the length. */
  function IndexOf(s: string, c: char): (k: nat)
    ensures k <= |s|
    ensures c !in s[..k]
    ensures k < |s| ==> s[k] == c
  {
    if s == [] || s[0] == c then 0
    else
      var k := 1 + IndexOf(s[1..], c);
      assert s[..k] == [s[0]] + s[1..][..k - 1];
      k
  }

  // ------------------------------------------------------------------ writing

  function PropertyLine(key: string, value: string): string {
    key + "=" + value
  }

  function PropertyLines(keys: seq<string>, properties: map<string, string>): (lines: seq<string>)
    requires forall i | 0 <= i < |keys| :: keys[i] in properties
    ensures |lines| == |keys|
    ensures forall i | 0 <= i < |keys| :: lines[i] == PropertyLine(keys[i], properties[keys[i]])
  {
    seq(|keys|, i requires 0 <= i < |keys| => PropertyLine(keys[i], properties[keys[i]]))
  }

  function RenderedLines(connector: string, properties: map<string, string>): seq<string> {
    [PropertyLine(CONNECTOR_KEY, connector)] + PropertyLines(Sorted(properties.Keys), properties)
  }

  function RenderProperties(connector: string, properties: map<string, string>): string {
    Unlines(RenderedLines(connector, properties))
  }

  // ------------------------------------------------------------------ reading

  datatype Problem = NotKeyValue(line: nat) | NoConnector

  /** What a file says: the connector, the other properties, and the numbers of the comment
      lines, which are what a round trip would lose. */
  datatype Parsed = Parsed(connector: string, properties: map<string, string>, lost: seq<nat>)

  datatype Reading = Reading(connector: Option<string>, properties: map<string, string>, lost: seq<nat>)

  function ReadLine(sofar: Reading, number: nat, raw: string): Result<Reading, Problem> {
    var line := Strip(raw);
    if line == "" then Ok(sofar)
    else if line[0] == '#' then Ok(sofar.(lost := sofar.lost + [number]))
    else
      var k := IndexOf(line, '=');
      if k == |line| then Err(NotKeyValue(number))
      else
        var key, value := Strip(line[..k]), Strip(line[k + 1..]);
        if key == CONNECTOR_KEY then Ok(sofar.(connector := Some(value)))
        else Ok(sofar.(properties := sofar.properties[key := value]))
  }

  function ReadLines(sofar: Reading, number: nat, lines: seq<string>): Result<Reading, Problem>
    decreases |lines|
  {
    if lines == [] then Ok(sofar)
    else match ReadLine(sofar, number, lines[0])
      case Err(problem) => Err(problem)
      case Ok(next) => ReadLines(next, number + 1, lines[1..])
  }

  const NOTHING_READ := Reading(None, map[], [])

  function Concluded(reading: Reading): Result<Parsed, Problem> {
    match reading.connector
    case None => Err(NoConnector)
    case Some(connector) => Ok(Parsed(connector, reading.properties, reading.lost))
  }

  function ParseProperties(content: string): Result<Parsed, Problem> {
    match ReadLines(NOTHING_READ, 1, SplitLines(content))
    case Err(problem) => Err(problem)
    case Ok(reading) => Concluded(reading)
  }

  /** The loop over numbered lines, stopping at the first line that is not key=value. */
  method ReadProperties(content: string) returns (result: Result<Parsed, Problem>)
    ensures result == ParseProperties(content)
  {
    var lines := SplitLines(content);
    var reading, i := NOTHING_READ, 0;
    while i < |lines|
      invariant 0 <= i <= |lines|
      invariant ReadLines(reading, i + 1, lines[i..]) == ReadLines(NOTHING_READ, 1, lines)
    {
      assert lines[i..][1..] == lines[i + 1..];
      match ReadLine(reading, i + 1, lines[i])
      case Err(problem) => return Err(problem);
      case Ok(next) => reading := next;
      i := i + 1;
    }
    result := Concluded(reading);
  }

  // ------------------------------------------------------------------ the round trip

  predicate CleanValue(value: string) {
    OneLine(value) && Trimmed(value)
  }

  predicate CleanKey(key: string) {
    OneLine(key) && Trimmed(key) && '=' !in key && key != CONNECTOR_KEY && !("#" <= key)
  }

  /** What a `.properties` file can carry without changing it. */
  predicate Clean(connector: string, properties: map<string, string>) {
    CleanValue(connector) &&
    forall key | key in properties :: CleanKey(key) && CleanValue(properties[key])
  }

  lemma ReadPropertyLine(sofar: Reading, number: nat, key: string, value: string)
    requires OneLine(key) && Trimmed(key) && '=' !in key && !("#" <= key) && CleanValue(value)
    ensures OneLine(PropertyLine(key, value))
    ensures ReadLine(sofar, number, PropertyLine(key, value)) ==
            Ok(if key == CONNECTOR_KEY then sofar.(connector := Some(value))
               else sofar.(properties := sofar.properties[key := value]))
  {
    var line := PropertyLine(key, value);
    assert line[|key|] == '=';
    assert line[0] == if key == "" then '=' else key[0];
    assert line[|line| - 1] == if value == "" then '=' else value[|value| - 1];
    StripTrimmed(line);
    var k := IndexOf(line, '=');
    assert k == |key| by {
      assert forall i | 0 <= i < |key| :: line[i] == key[i];
      assert forall i | 0 <= i < k :: line[..k][i] == line[i];
    }
    assert line[..k] == key && line[k + 1..] == value;
    StripTrimmed(key);
    StripTrimmed(value);
  }

  lemma ReadLinesStep(sofar: Reading, number: nat, lines: seq<string>, next: Reading)
    requires lines != [] && ReadLine(sofar, number, lines[0]) == Ok(next)
    ensures ReadLines(sofar, number, lines) == ReadLines(next, number + 1, lines[1..])
  {
  }

  lemma AddOne(base: map<string, string>, keys: seq<string>, properties: map<string, string>)
    requires keys != [] && forall i | 0 <= i < |keys| :: keys[i] in properties
    ensures base[keys[0] := properties[keys[0]]] + (map k | k in keys[1..] :: properties[k]) ==
            base + (map k | k in keys :: properties[k])
  {
    assert forall k :: k in keys <==> k == keys[0] || k in keys[1..];
  }

  lemma {:induction false} ReadPropertyLines(sofar: Reading, number: nat, keys: seq<string>,
                                             properties: map<string, string>)
    requires forall i | 0 <= i < |keys| :: keys[i] in properties
    requires forall i | 0 <= i < |keys| :: CleanKey(keys[i]) && CleanValue(properties[keys[i]])
    ensures ReadLines(sofar, number, PropertyLines(keys, properties)) ==
            Ok(sofar.(properties := sofar.properties + map key | key in keys :: properties[key]))
    decreases |keys|
  {
    if keys == [] {
      assert sofar.properties + map[] == sofar.properties;
    } else {
      var key := keys[0];
      ReadPropertyLine(sofar, number, key, properties[key]);
      var next := sofar.(properties := sofar.properties[key := properties[key]]);
      ReadLinesStep(sofar, number, PropertyLines(keys, properties), next);
      assert PropertyLines(keys, properties)[1..] == PropertyLines(keys[1..], properties);
      ReadPropertyLines(next, number + 1, keys[1..], properties);
      AddOne(sofar.properties, keys, properties);
    }
  }

  lemma RenderedOneLine(connector: string, properties: map<string, string>)
    requires Clean(connector, properties)
    ensures forall i | 0 <= i < |RenderedLines(connector, properties)| ::
            OneLine(RenderedLines(connector, properties)[i])
  {
    var keys := Sorted(properties.Keys);
    forall i | 0 <= i < |RenderedLines(connector, properties)|
      ensures OneLine(RenderedLines(connector, properties)[i])
    {
      if i == 0 {
        ReadConnectorLine(connector);
      } else {
        assert keys[i - 1] in properties;
        ReadPropertyLine(NOTHING_READ, 1, keys[i - 1], properties[keys[i - 1]]);
      }
    }
  }

  lemma ReadConnectorLine(connector: string)
    requires CleanValue(connector)
    ensures OneLine(PropertyLine(CONNECTOR_KEY, connector))
    ensures ReadLine(NOTHING_READ, 1, PropertyLine(CONNECTOR_KEY, connector)) == Ok(Reading(Some(connector), map[], []))
  {
    ReadPropertyLine(NOTHING_READ, 1, CONNECTOR_KEY, connector);
  }

  lemma ReadAllProperties(first: Reading, keys: seq<string>, properties: map<string, string>)
    requires forall key | key in properties :: CleanKey(key) && CleanValue(properties[key])
    requires first.properties == map[]
    requires forall key :: key in keys <==> key in properties
    ensures ReadLines(first, 2, PropertyLines(keys, properties)) == Ok(first.(properties := properties))
  {
    ReadPropertyLines(first, 2, keys, properties);
    AllOf(keys, properties);
  }

  lemma AllOf(keys: seq<string>, properties: map<string, string>)
    requires forall key :: key in keys <==> key in properties
    ensures map[] + (map key | key in keys :: properties[key]) == properties
  {
  }

  lemma ReadRendered(connector: string, properties: map<string, string>)
    requires Clean(connector, properties)
    ensures ReadLines(NOTHING_READ, 1, RenderedLines(connector, properties)) ==
            Ok(Reading(Some(connector), properties, []))
  {
    var first := Reading(Some(connector), map[], []);
    ReadConnectorLine(connector);
    ReadAllProperties(first, Sorted(properties.Keys), properties);
    var lines := RenderedLines(connector, properties);
    assert lines[0] == PropertyLine(CONNECTOR_KEY, connector);
    assert lines[1..] == PropertyLines(Sorted(properties.Keys), properties);
    ReadLinesStep(NOTHING_READ, 1, lines, first);
  }

  lemma CleanSurvives(connector: string, properties: map<string, string>)
    requires Clean(connector, properties)
    ensures ParseProperties(RenderProperties(connector, properties)) == Ok(Parsed(connector, properties, []))
  {
    RenderedOneLine(connector, properties);
    SplitUnlines(RenderedLines(connector, properties));
    ReadRendered(connector, properties);
  }

  /** Whatever the reader returns is clean, so nothing unclean can survive it. */
  ghost predicate CleanSoFar(reading: Reading) {
    (reading.connector.Some? ==> CleanValue(reading.connector.value)) &&
    forall key | key in reading.properties :: CleanKey(key) && CleanValue(reading.properties[key])
  }

  lemma StripOneLine(s: string)
    requires OneLine(s)
    ensures CleanValue(Strip(s))
  {
    var i, j := StripStretch(s);
    assert forall k | 0 <= k < j - i :: s[i..j][k] == s[k + i];
  }

  lemma ReadLineClean(sofar: Reading, number: nat, raw: string)
    requires OneLine(raw) && CleanSoFar(sofar)
    ensures ReadLine(sofar, number, raw).Ok? ==> CleanSoFar(ReadLine(sofar, number, raw).value)
  {
    var line := Strip(raw);
    StripOneLine(raw);
    if line != "" && line[0] != '#' {
      var k := IndexOf(line, '=');
      if k < |line| {
        var front := line[..k];
        assert OneLine(front) && OneLine(line[k + 1..]);
        StripOneLine(front);
        StripOneLine(line[k + 1..]);
        var i, j := StripStretch(front);
        assert '=' !in front[i..j];
        if front != [] { assert front[0] == line[0]; }
      }
    }
  }

  lemma {:induction false} ReadLinesClean(sofar: Reading, number: nat, lines: seq<string>)
    requires forall line | line in lines :: OneLine(line)
    requires CleanSoFar(sofar)
    ensures ReadLines(sofar, number, lines).Ok? ==> CleanSoFar(ReadLines(sofar, number, lines).value)
    decreases |lines|
  {
    if lines != [] {
      ReadLineClean(sofar, number, lines[0]);
      match ReadLine(sofar, number, lines[0])
      case Err(_) =>
      case Ok(next) => ReadLinesClean(next, number + 1, lines[1..]);
    }
  }

  lemma ParsedIsClean(content: string)
    ensures ParseProperties(content).Ok? ==>
              var parsed := ParseProperties(content).value; Clean(parsed.connector, parsed.properties)
  {
    SplitOneLine(content);
    ReadLinesClean(NOTHING_READ, 1, SplitLines(content));
  }

  /** Reading back what was written gives it back exactly when it is clean. */
  lemma RoundTripExactlyWhenClean(connector: string, properties: map<string, string>)
    ensures ParseProperties(RenderProperties(connector, properties)) == Ok(Parsed(connector, properties, []))
       <==> Clean(connector, properties)
  {
    if Clean(connector, properties) {
      CleanSurvives(connector, properties);
    }
    ParsedIsClean(RenderProperties(connector, properties));
  }

  /** Two clean catalogs with one rendering are one catalog. */
  lemma CleanRenderingIdentifies(c: string, p: map<string, string>, d: string, q: map<string, string>)
    requires Clean(c, p) && Clean(d, q)
    requires RenderProperties(c, p) == RenderProperties(d, q)
    ensures c == d && p == q
  {
    CleanSurvives(c, p);
    CleanSurvives(d, q);
  }

  // ------------------------------------------------------------------ what is written, and what is read

  lemma {:induction false} UnlinesOneMore(lines: seq<string>, line: string)
    ensures Unlines(lines + [line]) == Unlines(lines) + line + "\n"
  {
    if lines == [] {
      assert [line][1..] == [];
      assert lines + [line] == [line];
    } else {
      UnlinesOneMore(lines[1..], line);
      assert (lines + [line])[1..] == lines[1..] + [line];
    }
  }

  lemma LinesGrow(connector: string, properties: map<string, string>, key: string, value: string)
    requires key !in properties && forall other | other in properties :: Less(other, key)
    ensures RenderedLines(connector, properties[key := value]) ==
            RenderedLines(connector, properties) + [PropertyLine(key, value)]
  {
    hide Less, Sorted, PropertyLines, PropertyLine;
    var more := properties[key := value];
    assert more.Keys == properties.Keys + {key};
    SortedGrows(properties.Keys, key);
    PropertyLinesGrow(Sorted(properties.Keys), properties, key, value);
    Associates([PropertyLine(CONNECTOR_KEY, connector)], PropertyLines(Sorted(properties.Keys), properties),
               [PropertyLine(key, value)]);
  }

  lemma PropertyLinesGrow(keys: seq<string>, properties: map<string, string>, key: string, value: string)
    requires key !in keys && forall i | 0 <= i < |keys| :: keys[i] in properties
    ensures PropertyLines(keys + [key], properties[key := value]) ==
            PropertyLines(keys, properties) + [PropertyLine(key, value)]
  {
  }

  /** The connector on the first line, and then one line for each property, in the order of their names. */
  lemma RenderedExactly(connector: string, properties: map<string, string>, key: string, value: string)
    ensures RenderProperties(connector, map[]) == "connector.name=" + connector + "\n"
    ensures (forall other | other in properties :: Less(other, key)) ==>
              RenderProperties(connector, properties[key := value]) ==
              RenderProperties(connector, properties) + key + "=" + value + "\n"
  {
    hide Sorted, RenderedLines;
    NoProperties(connector);
    if forall other | other in properties :: Less(other, key) {
      LessTotal(key, key);
      LinesGrow(connector, properties, key, value);
      UnlinesOneMore(RenderedLines(connector, properties), PropertyLine(key, value));
      Associates(RenderProperties(connector, properties), key + "=" + value, "\n");
      Associates(RenderProperties(connector, properties) + key, "=", value);
    }
  }

  lemma NoProperties(connector: string)
    ensures RenderProperties(connector, map[]) == "connector.name=" + connector + "\n"
  {
    var line := PropertyLine(CONNECTOR_KEY, connector);
    assert RenderedLines(connector, map[]) == [] + [line];
    UnlinesOneMore([], line);
    assert "connector.name" + "=" == "connector.name=";
  }

  /** A line that a reader passes over as a comment. */
  predicate IsComment(raw: string) {
    Strip(raw) != "" && Strip(raw)[0] == '#'
  }

  predicate Blank(raw: string) {
    Strip(raw) == ""
  }

  /** A line that says something, and what it says. */
  predicate Says(raw: string, key: string, value: string) {
    !Blank(raw) && !IsComment(raw) &&
    var line := Strip(raw);
    '=' in line && key == Strip(line[..IndexOf(line, '=')]) && value == Strip(line[IndexOf(line, '=') + 1..])
  }

  predicate Readable(raw: string) {
    Blank(raw) || IsComment(raw) || '=' in Strip(raw)
  }

  /** The last of some lines that says something of a key. */
  ghost predicate LastSays(lines: seq<string>, key: string, value: string) {
    exists i :: 0 <= i < |lines| && Says(lines[i], key, value) &&
      forall j, other | i < j < |lines| :: !Says(lines[j], key, other)
  }

  function SaysOf(raw: string, key: string): (said: Option<string>)
    ensures forall value :: said == Some(value) <==> Says(raw, key, value)
  {
    var line := Strip(raw);
    if Blank(raw) || IsComment(raw) || '=' !in line || Strip(line[..IndexOf(line, '=')]) != key then None
    else Some(Strip(line[IndexOf(line, '=') + 1..]))
  }

  function LastOf(lines: seq<string>, key: string): Option<string> {
    if lines == [] then None
    else if LastOf(lines[1..], key).Some? then LastOf(lines[1..], key)
    else SaysOf(lines[0], key)
  }

  lemma {:induction false} LastOfExactly(lines: seq<string>, key: string)
    ensures LastOf(lines, key).None? ==> forall i, value | 0 <= i < |lines| :: !Says(lines[i], key, value)
    ensures forall value :: LastOf(lines, key) == Some(value) <==> LastSays(lines, key, value)
  {
    hide Says, SaysOf;
    if lines != [] {
      var rest := lines[1..];
      LastOfExactly(rest, key);
      assert forall j | 0 < j < |lines| :: lines[j] == rest[j - 1];
      if LastOf(rest, key).Some? {
        var value := LastOf(rest, key).value;
        var i :| 0 <= i < |rest| && Says(rest[i], key, value) &&
                 forall j, other | i < j < |rest| :: !Says(rest[j], key, other);
        assert Says(lines[i + 1], key, value);
        assert LastSays(lines, key, value);
        forall other | LastSays(lines, key, other) ensures other == value { OneLast(lines, key, value, other); }
      } else {
        forall value ensures SaysOf(lines[0], key) == Some(value) <==> LastSays(lines, key, value) {
          FirstIsLast(lines, key, value);
        }
      }
    }
  }

  lemma FirstIsLast(lines: seq<string>, key: string, value: string)
    requires lines != [] && forall i, other | 0 < i < |lines| :: !Says(lines[i], key, other)
    ensures SaysOf(lines[0], key) == Some(value) <==> LastSays(lines, key, value)
  {
    hide Says;
  }

  lemma OneLast(lines: seq<string>, key: string, a: string, b: string)
    requires LastSays(lines, key, a) && LastSays(lines, key, b)
    ensures a == b
  {
    var i :| 0 <= i < |lines| && Says(lines[i], key, a) &&
             forall k, other | i < k < |lines| :: !Says(lines[k], key, other);
    var j :| 0 <= j < |lines| && Says(lines[j], key, b) &&
             forall k, other | j < k < |lines| :: !Says(lines[k], key, other);
    assert i == j;
    assert SaysOf(lines[i], key) == Some(a) && SaysOf(lines[i], key) == Some(b);
  }

  /** What reading one line does, in terms of what the line says. */
  lemma LineRead(sofar: Reading, number: nat, raw: string)
    ensures ReadLine(sofar, number, raw).Ok? <==> Readable(raw)
    ensures Readable(raw) ==>
              var next := ReadLine(sofar, number, raw).value;
              next.lost == sofar.lost + (if IsComment(raw) then [number] else []) &&
              next.connector == (if SaysOf(raw, "connector.name").Some? then SaysOf(raw, "connector.name")
                                 else sofar.connector) &&
              forall key: string ::
                (key in next.properties <==>
                   key in sofar.properties || (key != "connector.name" && SaysOf(raw, key).Some?)) &&
                (key in next.properties ==>
                   next.properties[key] ==
                   if key != "connector.name" && SaysOf(raw, key).Some? then SaysOf(raw, key).value
                   else sofar.properties[key])
  {
    hide Strip;
    var line := Strip(raw);
    var k := IndexOf(line, '=');
    assert '=' in line <==> k < |line| by { assert line[..|line|] == line; }
  }

  ghost predicate LostAs(sofar: Reading, number: nat, lines: seq<string>, read: Reading) {
    forall n :: n in read.lost <==> n in sofar.lost || (number <= n < number + |lines| && IsComment(lines[n - number]))
  }

  ghost predicate ReadAs(sofar: Reading, number: nat, lines: seq<string>, read: Reading) {
    read.connector == (if LastOf(lines, "connector.name").Some? then LastOf(lines, "connector.name")
                       else sofar.connector) &&
    forall key: string ::
      (key in read.properties <==>
         key in sofar.properties || (key != "connector.name" && LastOf(lines, key).Some?)) &&
      (key in read.properties ==>
         read.properties[key] ==
         if key != "connector.name" && LastOf(lines, key).Some? then LastOf(lines, key).value
         else sofar.properties[key])
  }

  lemma {:induction false} LinesRead(sofar: Reading, number: nat, lines: seq<string>)
    ensures ReadLines(sofar, number, lines).Ok? <==> forall i | 0 <= i < |lines| :: Readable(lines[i])
    ensures ReadLines(sofar, number, lines).Ok? ==>
              ReadAs(sofar, number, lines, ReadLines(sofar, number, lines).value) &&
              LostAs(sofar, number, lines, ReadLines(sofar, number, lines).value)
    decreases |lines|
  {
    hide ReadLine, Readable, IsComment, SaysOf, ReadAs, LostAs, LastOf;
    if lines == [] {
      NoLinesRead(sofar, number);
    } else {
      LineRead(sofar, number, lines[0]);
      assert forall j | 0 < j < |lines| :: lines[j] == lines[1..][j - 1];
      if ReadLine(sofar, number, lines[0]).Ok? {
        var next := ReadLine(sofar, number, lines[0]).value;
        LinesRead(next, number + 1, lines[1..]);
        if ReadLines(sofar, number, lines).Ok? {
          var read := ReadLines(sofar, number, lines).value;
          SaidOnce(sofar, number, lines, next, read);
          LostOnce(sofar, number, lines, next, read);
        }
      }
    }
  }

  lemma NoLinesRead(sofar: Reading, number: nat)
    ensures ReadAs(sofar, number, [], sofar) && LostAs(sofar, number, [], sofar)
  {
  }

  lemma SaidOnce(sofar: Reading, number: nat, lines: seq<string>, next: Reading, read: Reading)
    requires lines != [] && ReadLine(sofar, number, lines[0]) == Ok(next) && ReadAs(next, number + 1, lines[1..], read)
    ensures ReadAs(sofar, number, lines, read)
  {
    hide ReadLine, Readable, IsComment, SaysOf;
    LineRead(sofar, number, lines[0]);
  }

  lemma LostOnce(sofar: Reading, number: nat, lines: seq<string>, next: Reading, read: Reading)
    requires lines != [] && ReadLine(sofar, number, lines[0]) == Ok(next) && LostAs(next, number + 1, lines[1..], read)
    ensures LostAs(sofar, number, lines, read)
  {
    hide ReadLine, Readable, IsComment, SaysOf;
    LineRead(sofar, number, lines[0]);
    forall n
      ensures n in read.lost <==> n in sofar.lost || (number <= n < number + |lines| && IsComment(lines[n - number]))
    {
      if number + 1 <= n < number + |lines| { assert lines[1..][n - number - 1] == lines[n - number]; }
    }
  }

  /** What a file says, whatever it holds: it is refused unless every line but blanks and comments has an
      equals sign and some line names the connector; each name has what the last line that gives it says; and
      the comments are reported by their line numbers. */
  lemma ParsesExactly(content: string)
    ensures var lines, result := SplitLines(content), ParseProperties(content);
            (result.Ok? <==> (forall i | 0 <= i < |lines| :: Readable(lines[i])) &&
                             exists value :: LastSays(lines, "connector.name", value)) &&
            (result.Ok? ==>
               LastSays(lines, "connector.name", result.value.connector) &&
               (forall key: string, value ::
                  key in result.value.properties && result.value.properties[key] == value <==>
                  key != "connector.name" && LastSays(lines, key, value)) &&
               forall n :: n in result.value.lost <==> 1 <= n <= |lines| && IsComment(lines[n - 1]))
  {
    hide ReadLines, LastSays, Readable, IsComment, SplitLines, LastOf;
    var lines := SplitLines(content);
    LinesRead(NOTHING_READ, 1, lines);
    LastOfExactly(lines, "connector.name");
    forall key: string ensures forall value :: LastOf(lines, key) == Some(value) <==> LastSays(lines, key, value) {
      LastOfExactly(lines, key);
    }
  }

  /** Where lines end: at a line feed, the other controls that `splitlines` knows, the two Unicode separators,
      and once for a carriage return with its line feed. */
  lemma LineBreaks(a: string, c: char, b: string)
    requires OneLine(a) && OneLine(b) && b != ""
    ensures SplitLines(a + [c] + b) ==
            if c == '\n' || c == '\r' || c as int in {11, 12, 28, 29, 30, 133, 8232, 8233} then [a, b]
            else [a + [c] + b]
    ensures SplitLines(a + "\r\n" + b) == [a, b]
    ensures SplitLines(a + "\n") == [a] && SplitLines(a + "\r\n") == [a] && SplitLines("") == []
  {
    LastBreak(a);
    WholeLine(b);
    if IsBreak(c) {
      BreakAt(a, c, b);
      Parts(a, c, b);
    } else {
      assert OneLine(a + [c] + b);
      WholeLine(a + [c] + b);
    }
    assert a + "\r\n" + b == a + ['\r'] + (['\n'] + b);
    BreakAt(a, '\r', ['\n'] + b);
    Parts(a, '\r', ['\n'] + b);
    assert (a + "\r\n" + b)[|a| + 2..] == b;
  }

  /** What ends the last line begins no other. */
  lemma LastBreak(a: string)
    requires OneLine(a)
    ensures SplitLines(a + "\n") == [a] && SplitLines(a + "\r\n") == [a]
  {
    assert a + "\n" == a + ['\n'] + "" && a + "\r\n" == a + ['\r'] + "\n";
    BreakAt(a, '\n', "");
    BreakAt(a, '\r', "\n");
    Parts(a, '\n', "");
    Parts(a, '\r', "\n");
    assert (a + "\r\n")[|a| + 2..] == "" && (a + "\n")[|a| + 1..] == "";
  }

  lemma {:induction false} WholeLine(s: string)
    requires OneLine(s)
    ensures LineEnd(s) == |s| && (s != "" ==> SplitLines(s) == [s])
  {
    if s != "" { WholeLine(s[1..]); }
  }

  lemma BreakAt(line: string, c: char, rest: string)
    requires OneLine(line) && IsBreak(c)
    ensures LineEnd(line + [c] + rest) == |line|
  {
    var s := line + [c] + rest;
    Parts(line, c, rest);
    assert forall i | 0 <= i < |line| :: s[i] == line[i];
    if |line| < LineEnd(s) {
      LineEndFirst(s, |line|);
    }
  }

  /** What `strip` removes. */
  lemma BlankCharacters(c: char)
    ensures Strip([c]) == if c == ' ' || c == '\t' || c == '\n' || c == '\r' || 8192 <= c as int <= 8202 ||
                              c as int in {11, 12, 28, 29, 30, 31, 133, 160, 5760, 8232, 8233, 8239, 8287, 12288}
                          then "" else [c]
  {
    if IsSpace(c) {
      assert [c][1..] == [];
      assert StripLeft([c]) == StripLeft([]);
    } else {
      StripTrimmed([c]);
    }
  }
}
