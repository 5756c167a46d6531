/**
The line-based reading of SecLang rule text that the configuration-time scan is
meant to agree with: physical lines are trimmed, blank and comment lines are
skipped, a line ending in a backslash is glued to the next one, and a line
ending in a backtick opens a list that runs to a line starting with a backtick.
 */
module SecLang {

  const VT: char := '\U{000B}'
  const FF: char := '\U{000C}'

  // Directives the engine rejects as "not implemented".
  const REFUSED: seq<string> := ["SecRemoteRules"]

  predicate Blank(c: char) {
    c == ' ' || c == '\t' || c == '\r' || c == VT || c == FF
  }

  /** Space, and the bytes from tab to carriage return but for the newline. */
  lemma BlankBytes(c: char)
    ensures Blank(c) <==> c as int == 0x20 || (9 <= c as int <= 13 && c != '\n')
  {
  }

  function Lower(c: char): char {
    if 'A' <= c <= 'Z' then (c as int + 32) as char else c
  }

  predicate SameLetters(a: string, b: string) {
    |a| == |b| && forall i :: 0 <= i < |a| ==> Lower(a[i]) == Lower(b[i])
  }

  predicate RefusedWord(w: string) {
    exists i :: 0 <= i < |REFUSED| && SameLetters(w, REFUSED[i])
  }

  predicate HasBlank(s: string) {
    exists i :: 0 <= i < |s| && Blank(s[i])
  }

  /** The longest blank-free prefix. */
  function FirstWord(s: string): (w: string)
    ensures |w| <= |s| && w == s[..|w|]
    ensures |w| < |s| ==> Blank(s[|w|])
  {
    if s == [] || Blank(s[0]) then []
    else
      var w := FirstWord(s[1..]);
      assert s[..1 + |w|] == [s[0]] + s[1..][..|w|];
      [s[0]] + w
  }

  function TrimLeft(s: string): (r: string)
    ensures |r| <= |s| && r == s[|s| - |r|..]
    ensures r != [] ==> !Blank(r[0])
  {
    if s != [] && Blank(s[0]) then TrimLeft(s[1..]) else s
  }

  function TrimRight(s: string): (r: string)
    ensures |r| <= |s| && r == s[..|r|]
    ensures r != [] ==> !Blank(r[|r| - 1])
    ensures |r| < |s| ==> Blank(s[|r|])
  {
    if s != [] && Blank(s[|s| - 1]) then TrimRight(s[..|s| - 1]) else s
  }

  function LineEnd(text: string): (k: nat)
    ensures k <= |text|
    ensures forall i :: 0 <= i < k ==> text[i] != '\n'
    ensures k < |text| ==> text[k] == '\n'
  {
    if text == [] || text[0] == '\n' then 0 else 1 + LineEnd(text[1..])
  }

  /** The physical lines; text after the last newline is a line of its own. */
  function Lines(text: string): (ls: seq<string>)
    ensures |ls| > 0
  {
    var k := LineEnd(text);
    if k == |text| then [text] else [text[..k]] + Lines(text[k + 1..])
  }

  /** `line` is where the record starts. `cut` marks the one shape on which the
      scanner parts from this reading: a line whose final backslash is followed by
      blanks while the record's first word is still open. */
  datatype Record = Record(text: string, line: nat, cut: bool)

  predicate Refused(r: Record) {
    RefusedWord(FirstWord(r.text))
  }

  const NOTHING := Record([], 0, false)

  /** What is being assembled: a record when `open`, inside a backtick list when `list`. */
  datatype Partial = Partial(open: bool, list: bool, rec: Record)

  const IDLE := Partial(false, false, NOTHING)

  predicate Ignored(line: string) {
    line == [] || line[0] == '#'
  }

  function Toggled(list: bool, line: string): bool
    requires line != []
  {
    if !list && line[|line| - 1] == '`' then true
    else if list && line[0] == '`' then false
    else list
  }

  /** One trimmed line: the new assembly state and the record it completes, if any.
      `trail` says that blanks followed it; `sep` is whatever the engine's parser puts
      between the lines of a list. */
  function AddTrimmed(a: Partial, line: string, trail: bool, n: nat, sep: string): (r: (Partial, seq<Record>))
    requires !Ignored(line)
    ensures |r.1| <= 1 && (r.1 != [] ==> r.0 == IDLE)
  {
    var text := a.rec.text + line;
    var start := if a.open then a.rec.line else n;
    if Toggled(a.list, line) then
      (Partial(true, true, Record(text + sep, start, a.rec.cut)), [])
    else if line[|line| - 1] == '\\' then
      var cut := a.rec.cut || (trail && !HasBlank(text));
      (Partial(true, false, Record(text[..|text| - 1], start, cut)), [])
    else
      (IDLE, [Record(text, start, a.rec.cut)])
  }

  function AddLine(a: Partial, raw: string, n: nat, sep: string): (r: (Partial, seq<Record>))
    ensures |r.1| <= 1 && (r.1 != [] ==> r.0 == IDLE)
  {
    var left := TrimLeft(raw);
    var line := TrimRight(left);
    if Ignored(line) then (a, []) else AddTrimmed(a, line, |line| < |left|, n, sep)
  }

  /** The records to be judged: the completed ones, then one left in an open list. */
  function Records(a: Partial, lines: seq<string>, n: nat, sep: string): seq<Record>
    decreases |lines|
  {
    if lines == [] then (if a.list then [a.rec] else [])
    else
      var (a', out) := AddLine(a, lines[0], n, sep);
      out + Records(a', lines[1..], n + 1, sep)
  }

  function RecordsOf(text: string, sep: string): seq<Record> {
    Records(IDLE, Lines(text), 1, sep)
  }

  predicate NulFree(text: string) {
    forall i :: 0 <= i < |text| ==> text[i] != '\0'
  }

  /** The line does not end in a backslash followed by blanks. */
  predicate BackslashEndsLine(l: string) {
    var left := TrimLeft(l);
    var line := TrimRight(left);
    line != [] && line[|line| - 1] == '\\' ==> line == left
  }

  predicate NoBlankAfterBackslash(text: string) {
    forall l :: l in Lines(text) ==> BackslashEndsLine(l)
  }
}
