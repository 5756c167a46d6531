/**
The streaming scan of rule text: a byte-at-a-time automaton with a 32-byte word
buffer. `Scan`, `Step`, `Eol`, `Feed` and `Finish` give its meaning on values;
`RulesScan` is the mutable scanner, each method proved to compute them.
 */
module Scanner {
  import opened SecLang

  const WORD_MAX := 32

  datatype Scan = Scan(
    line: nat, recLine: nat, inRecord: bool, inBackticks: bool, wordDone: bool,
    first: char, last: char, word: string)

  datatype Run = Run(s: Scan, bad: bool)

  const START := Scan(1, 0, false, false, false, '\0', '\0', [])

  function LineReset(s: Scan): Scan {
    s.(first := '\0', last := '\0')
  }

  function Eol(s: Scan): Run {
    if s.first == '\0' || s.first == '#' then Run(LineReset(s), false)
    else
      var bt := if !s.inBackticks && s.last == '`' then true
                else if s.inBackticks && s.first == '`' then false
                else s.inBackticks;
      if bt then Run(LineReset(s).(inBackticks := true), false)
      else if s.last == '\\' then
        var word := if !s.wordDone && |s.word| > 0 && s.word[|s.word| - 1] == '\\'
                    then s.word[..|s.word| - 1] else s.word;
        Run(LineReset(s).(inBackticks := false, word := word), false)
      else
        Run(LineReset(s).(inBackticks := false, inRecord := false, wordDone := false, word := []),
            RefusedWord(s.word))
  }

  function Step(s: Scan, c: char): Run {
    if c == '\n' then
      var r := Eol(s);
      if r.bad then r else Run(r.s.(line := s.line + 1), false)
    else if Blank(c) then
      Run(if s.first != '\0' && s.first != '#' && |s.word| > 0 then s.(wordDone := true) else s, false)
    else
      var s1 := if s.first == '\0' then
                  var s0 := s.(first := c);
                  if c != '#' && !s.inRecord then s0.(inRecord := true, recLine := s.line) else s0
                else s;
      var s2 := s1.(last := c);
      Run(if s2.first == '#' || s2.wordDone then s2
          else if |s2.word| < WORD_MAX then s2.(word := s2.word + [c])
          else s2.(word := [], wordDone := true), false)
  }

  function Feed(s: Scan, text: string): Run
    decreases |text|
  {
    if text == [] then Run(s, false)
    else
      var r := Step(s, text[0]);
      if r.bad then r else Feed(r.s, text[1..])
  }

  function Finish(s: Scan): Run {
    var r := Eol(s);
    if !r.bad && r.s.inBackticks then Run(r.s, RefusedWord(r.s.word)) else r
  }

  function Resume(s: Scan, text: string): Run {
    var r := Feed(s, text);
    if r.bad then r else Finish(r.s)
  }

  /** One pass over a whole text. */
  function Verdict(text: string): Run {
    Resume(START, text)
  }

  /** Feeding in two pieces is feeding the concatenation. */
  lemma {:induction false} FeedConcat(s: Scan, a: string, b: string)
    ensures Feed(s, a + b) == (if Feed(s, a).bad then Feed(s, a) else Feed(Feed(s, a).s, b))
    decreases |a|
  {
    if a == [] {
      assert a + b == b;
    } else {
      assert (a + b)[1..] == a[1..] + b;
      var r := Step(s, a[0]);
      if !r.bad { FeedConcat(r.s, a[1..], b); }
    }
  }

  function Feeds(s: Scan, chunks: seq<string>): Run
    decreases |chunks|
  {
    if chunks == [] then Run(s, false)
    else
      var r := Feed(s, chunks[0]);
      if r.bad then r else Feeds(r.s, chunks[1..])
  }

  function Glue(chunks: seq<string>): string {
    if chunks == [] then [] else chunks[0] + Glue(chunks[1..])
  }

  /** The verdict and the reported line do not depend on how the text is cut into reads. */
  lemma {:induction false} ChunkIndependence(s: Scan, chunks: seq<string>)
    ensures Feeds(s, chunks) == Feed(s, Glue(chunks))
    decreases |chunks|
  {
    if chunks != [] {
      FeedConcat(s, chunks[0], Glue(chunks[1..]));
      var r := Feed(s, chunks[0]);
      if !r.bad { ChunkIndependence(r.s, chunks[1..]); }
    }
  }

  // ---------- the case of letters ----------

  /** The same character, or the same letter in the other case. */
  predicate SameButCase(c: char, d: char) {
    || c == d
    || ('a' <= c <= 'z' && d as int == c as int - 32)
    || ('A' <= c <= 'Z' && d as int == c as int + 32)
  }

  predicate AllSameButCase(a: string, b: string) {
    var same := |a| == |b| && forall i :: 0 <= i < |a| ==> SameButCase(a[i], b[i]);
    same
  }

  predicate Alike(s: Scan, t: Scan) {
    var alike :=
      && t == s.(first := t.first, last := t.last, word := t.word)
      && SameButCase(s.first, t.first) && SameButCase(s.last, t.last) && AllSameButCase(s.word, t.word);
    alike
  }

  lemma WordsAlike(a: string, b: string)
    requires AllSameButCase(a, b)
    ensures RefusedWord(a) <==> RefusedWord(b)
  {
    forall i | 0 <= i < |REFUSED| ensures SameLetters(a, REFUSED[i]) <==> SameLetters(b, REFUSED[i]) {
      assert forall k :: 0 <= k < |a| ==> Lower(a[k]) == Lower(b[k]);
    }
  }

  /** Whatever the scan looks for is no letter. */
  lemma MarksAlike(c: char, d: char)
    requires SameButCase(c, d)
    ensures Blank(c) <==> Blank(d)
    ensures (c == '\n' <==> d == '\n') && (c == '\0' <==> d == '\0') && (c == '#' <==> d == '#')
    ensures (c == '`' <==> d == '`') && (c == '\\' <==> d == '\\')
  {
  }

  lemma EolAlike(s: Scan, t: Scan)
    requires Alike(s, t)
    ensures Alike(Eol(s).s, Eol(t).s) && Eol(s).bad == Eol(t).bad
  {
    MarksAlike(s.first, t.first);
    MarksAlike(s.last, t.last);
    WordsAlike(s.word, t.word);
    if |s.word| > 0 { MarksAlike(s.word[|s.word| - 1], t.word[|t.word| - 1]); }
  }

  lemma WordGrowsAlike(a: string, b: string, c: char, d: char)
    requires AllSameButCase(a, b) && SameButCase(c, d)
    ensures AllSameButCase(a + [c], b + [d])
  {
  }

  lemma ByteAlike(s: Scan, t: Scan, c: char, d: char)
    requires Alike(s, t) && SameButCase(c, d) && c != '\n' && !Blank(c)
    ensures Alike(Step(s, c).s, Step(t, d).s) && Step(s, c).bad == Step(t, d).bad
  {
    MarksAlike(c, d);
    MarksAlike(s.first, t.first);
    WordGrowsAlike(s.word, t.word, c, d);
  }

  lemma StepAlike(s: Scan, t: Scan, c: char, d: char)
    requires Alike(s, t) && SameButCase(c, d)
    ensures Alike(Step(s, c).s, Step(t, d).s) && Step(s, c).bad == Step(t, d).bad
  {
    MarksAlike(c, d);
    if c == '\n' {
      EolAlike(s, t);
    } else if Blank(c) {
      MarksAlike(s.first, t.first);
    } else {
      ByteAlike(s, t, c, d);
    }
  }

  lemma {:induction false} FeedAlike(s: Scan, t: Scan, a: string, b: string)
    requires Alike(s, t) && AllSameButCase(a, b)
    ensures Alike(Feed(s, a).s, Feed(t, b).s) && Feed(s, a).bad == Feed(t, b).bad
    decreases |a|
  {
    if a != [] {
      StepAlike(s, t, a[0], b[0]);
      if !Step(s, a[0]).bad { FeedAlike(Step(s, a[0]).s, Step(t, b[0]).s, a[1..], b[1..]); }
    }
  }

  /** Changing the case of letters anywhere in a text changes neither verdict nor line. */
  lemma CaseBlind(a: string, b: string)
    requires AllSameButCase(a, b)
    ensures Verdict(a).bad == Verdict(b).bad && Verdict(a).s.recLine == Verdict(b).s.recLine
  {
    FeedAlike(START, START, a, b);
    if !Feed(START, a).bad {
      var s, t := Feed(START, a).s, Feed(START, b).s;
      EolAlike(s, t);
      WordsAlike(Eol(s).s.word, Eol(t).s.word);
    }
  }

  /** Refused is the one directive the engine does not implement, in any spelling. */
  lemma RefusedExactly(w: string)
    ensures RefusedWord(w) <==> AllSameButCase(w, "SecRemoteRules")
  {
    var d := "SecRemoteRules";
    assert REFUSED[0] == d;
    if RefusedWord(w) {
      var i :| 0 <= i < |REFUSED| && SameLetters(w, REFUSED[i]);
      forall k | 0 <= k < |w| ensures SameButCase(w[k], d[k]) {
        assert Lower(w[k]) == Lower(d[k]);
      }
    }
    if AllSameButCase(w, d) {
      WordsAlike(w, d);
      assert SameLetters(d, REFUSED[0]);
    }
  }

  class RulesScan {
    var line: nat
    var recLine: nat
    var inRecord: bool
    var inBackticks: bool
    var wordDone: bool
    var first: char
    var last: char
    var wlen: nat
    const word: array<char>

    ghost predicate Valid()
      reads this, word
    {
      word.Length == WORD_MAX && wlen <= WORD_MAX
    }

    ghost function Abs(): Scan
      requires Valid()
      reads this, word
    {
      Scan(line, recLine, inRecord, inBackticks, wordDone, first, last, word[..wlen])
    }

    constructor ()
      ensures Valid() && Abs() == START && fresh(word)
    {
      line, recLine, inRecord, inBackticks, wordDone := 1, 0, false, false, false;
      first, last, wlen := '\0', '\0', 0;
      word := new char[WORD_MAX](_ => '\0');
    }

    /** Is the collected word a refused directive, ignoring case? */
    method ScanWord() returns (bad: bool)
      requires Valid()
      ensures bad == RefusedWord(Abs().word)
    {
      var i := 0;
      while i < |REFUSED|
        invariant 0 <= i <= |REFUSED|
        invariant forall j :: 0 <= j < i ==> !SameLetters(word[..wlen], REFUSED[j])
      {
        var d := REFUSED[i];
        if wlen == |d| {
          var k := 0;
          while k < wlen && Lower(word[k]) == Lower(d[k])
            invariant 0 <= k <= wlen
            invariant forall j :: 0 <= j < k ==> Lower(word[j]) == Lower(d[j])
          {
            k := k + 1;
          }
          if k == wlen {
            assert SameLetters(word[..wlen], REFUSED[i]);
            return true;
          }
          assert Lower(word[..wlen][k]) != Lower(d[k]);
        }
        i := i + 1;
      }
      return false;
    }

    method EndOfLine() returns (bad: bool)
      requires Valid()
      modifies this
      ensures Valid() && Run(Abs(), bad) == Eol(old(Abs()))
    {
      if first == '\0' || first == '#' {
        first, last := '\0', '\0';
        return false;
      }
      if !inBackticks && last == '`' {
        inBackticks := true;
      } else if inBackticks && first == '`' {
        inBackticks := false;
      }
      var cont := false;
      if inBackticks {
        cont := true;
      } else if last == '\\' {
        cont := true;
        if !wordDone && wlen > 0 && word[wlen - 1] == '\\' {
          wlen := wlen - 1;
          assert word[..wlen] == old(word[..wlen])[..wlen];
        }
      }
      first, last := '\0', '\0';
      if cont { return false; }
      bad := ScanWord();
      inRecord, wordDone, wlen := false, false, 0;
    }

    method ScanByte(c: char) returns (bad: bool)
      requires Valid()
      modifies this, word
      ensures Valid() && Run(Abs(), bad) == Step(old(Abs()), c)
    {
      if c == '\n' {
        bad := EndOfLine();
        if !bad { line := line + 1; }
        return;
      }
      if Blank(c) {
        if first != '\0' && first != '#' && wlen > 0 { wordDone := true; }
        return false;
      }
      if first == '\0' {
        first := c;
        if c != '#' && !inRecord {
          inRecord := true;
          recLine := line;
        }
      }
      last := c;
      bad := false;
      if first == '#' || wordDone { return; }
      if wlen < WORD_MAX {
        word[wlen] := c;
        wlen := wlen + 1;
      } else {
        wlen := 0;
        wordDone := true;
      }
    }

    /** Feed one chunk, stopping at the first refused record. */
    method Chunk(p: string) returns (bad: bool)
      requires Valid()
      modifies this, word
      ensures Valid() && Run(Abs(), bad) == Feed(old(Abs()), p)
    {
      var i := 0;
      while i < |p|
        invariant 0 <= i <= |p| && Valid()
        invariant Feed(Abs(), p[i..]) == Feed(old(Abs()), p)
      {
        bad := ScanByte(p[i]);
        if bad { return; }
        assert p[i..][1..] == p[i + 1..];
        i := i + 1;
      }
      bad := false;
    }

    method Done() returns (bad: bool)
      requires Valid()
      modifies this
      ensures Valid() && Run(Abs(), bad) == Finish(old(Abs()))
    {
      bad := EndOfLine();
      if !bad && inBackticks {
        bad := ScanWord();
      }
    }
  }

  const READ_SIZE := 4096

  /** Whoever reads the rules file, and how often that has failed. */
  class Reader {
    ghost var failures: nat
    constructor ()
      ensures failures == 0
    {
      failures := 0;
    }

    /** One read: an error, or any positive amount up to `size` while bytes remain. */
    method Read(content: string, size: nat, offset: nat) returns (n: int, data: string)
      requires offset <= |content| && size > 0
      modifies this
      ensures n <= size && offset + n <= |content|
      ensures n >= 0 ==> data == content[offset..offset + n]
      ensures n == 0 ==> offset == |content|
      ensures failures == old(failures) + if n < 0 then 1 else 0
    {
      n := *;
      data := [];
      if n > size || offset + n > |content| || (n == 0 && offset < |content|) { n := -1; }
      if n >= 0 {
        data := content[offset..offset + n];
      } else {
        failures := failures + 1;
      }
    }
  }

  /** The file check: however the reads fall, a pass in which none fails reports exactly the
      one-pass verdict and its line. A failed read leaves the file to the workers. */
  method CheckRulesFile(reader: Reader, content: string) returns (bad: bool, line: nat)
    modifies reader
    ensures reader.failures == old(reader.failures) ==> bad == Verdict(content).bad
    ensures reader.failures != old(reader.failures) ==> !bad && reader.failures == old(reader.failures) + 1
    ensures bad ==> line == Verdict(content).s.recLine
  {
    var scan := new RulesScan();
    var offset := 0;
    bad := false;
    assert content[0..] == content;
    while true
      invariant scan.Valid() && fresh(scan) && fresh(scan.word) && offset <= |content| && !bad
      invariant Resume(scan.Abs(), content[offset..]) == Verdict(content)
      invariant reader.failures == old(reader.failures)
      decreases |content| - offset
    {
      var n, data := reader.Read(content, READ_SIZE, offset);
      if n <= 0 {
        if n == 0 {
          bad := scan.Done();
        }
        break;
      }
      FeedConcat(scan.Abs(), data, content[offset + n..]);
      assert content[offset..] == data + content[offset + n..];
      bad := scan.Chunk(data);
      if bad { break; }
      offset := offset + n;
    }
    line := scan.recLine;
  }
}
