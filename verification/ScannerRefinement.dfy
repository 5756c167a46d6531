/**
The automaton of `Scanner` refines the line-based reading of `SecLang`.
 */
module ScannerRefinement {
  import opened SecLang
  import opened Scanner

  // ---------- one physical line, in closed form ----------

  /** The word buffer after the left-trimmed line `left` has gone through it. */
  function Collect(word: string, done: bool, left: string): (string, bool) {
    var w := FirstWord(left);
    if done then (word, true)
    else if |word| + |w| > WORD_MAX then ([], true)
    else (word + w, |w| < |left|)
  }

  /** The line's first and last non-blank bytes are `f` and `l`. */
  function Marked(s: Scan, f: char, l: char, word: string, done: bool): Scan {
    if f == '#' then s.(first := f, last := l)
    else s.(first := f, last := l, word := word, wordDone := done, inRecord := true,
            recLine := if s.inRecord then s.recLine else s.line)
  }

  function AfterLine(s: Scan, left: string): Scan
  {
    var line := TrimRight(left);
    if line == [] then s
    else
      var (word, done) := Collect(s.word, s.wordDone, left);
      Marked(s, left[0], line[|line| - 1], word, done)
  }

  predicate AtLineStart(s: Scan) {
    s.first == '\0' && s.last == '\0' && |s.word| <= WORD_MAX
  }

  predicate Plain(raw: string) {
    forall i :: 0 <= i < |raw| ==> raw[i] != '\n' && raw[i] != '\0'
  }

  lemma {:induction false} TrimLeftSnoc(x: string, c: char)
    ensures TrimLeft(x + [c]) == (if TrimLeft(x) != [] then TrimLeft(x) + [c] else if Blank(c) then [] else [c])
  {
    if x == [] {
      assert x + [c] == [c];
      if Blank(c) { assert [c][1..] == []; }
    } else if Blank(x[0]) {
      assert (x + [c])[1..] == x[1..] + [c];
      TrimLeftSnoc(x[1..], c);
    }
  }

  lemma {:induction false} FirstWordConcat(a: string, b: string)
    ensures FirstWord(a + b) == (if FirstWord(a) == a then a + FirstWord(b) else FirstWord(a))
    ensures HasBlank(a) <==> FirstWord(a) != a
  {
    if a == [] {
      assert a + b == b;
    } else if !Blank(a[0]) {
      assert (a + b)[1..] == a[1..] + b;
      FirstWordConcat(a[1..], b);
      assert a == [a[0]] + a[1..];
    }
  }

  lemma {:induction false} TrimRightSnoc(x: string, c: char)
    ensures TrimRight(x + [c]) == (if Blank(c) then TrimRight(x) else x + [c])
  {
    assert (x + [c])[..|x|] == x;
  }

  /** Feeding a line byte by byte has the closed-form effect. */
  lemma {:induction false} FeedLine(s: Scan, raw: string)
    requires AtLineStart(s) && Plain(raw)
    ensures Feed(s, raw) == Run(AfterLine(s, TrimLeft(raw)), false)
    decreases |raw|
  {
    if raw != [] {
      var x, c := raw[..|raw| - 1], raw[|raw| - 1];
      assert raw == x + [c];
      FeedLine(s, x);
      FeedConcat(s, x, [c]);
      TrimLeftSnoc(x, c);
      LineStep(s, TrimLeft(x), c);
    }
  }

  lemma {:induction false} CollectSnoc(word: string, done: bool, left: string, c: char)
    requires left != [] && !Blank(left[0]) && |word| <= WORD_MAX
    ensures var (w, d) := Collect(word, done, left);
            Collect(word, done, left + [c]) ==
            (if d then (w, d)
             else if Blank(c) then (w, true)
             else if |w| < WORD_MAX then (w + [c], false)
             else ([], true))
    ensures var (w, d) := Collect(word, done, left);
            d || |w| > 0
  {
    FirstWordConcat(left, [c]);
    assert FirstWord([c]) == if Blank(c) then [] else [c];
    assert FirstWord(left) != [];
    if !done && FirstWord(left) == left && !Blank(c) {
      assert FirstWord(left + [c]) == left + [c];
      assert word + (left + [c]) == word + left + [c];
    }
  }

  lemma {:induction false} FeedOne(t: Scan, c: char)
    requires c != '\n'
    ensures Feed(t, [c]) == Run(Step(t, c).s, false)
  {
    assert [c][1..] == [];
  }

  lemma {:induction false} TrimRightNonEmpty(left: string)
    requires left != [] && !Blank(left[0])
    ensures TrimRight(left) != []
  {
  }

  lemma {:induction false} LineStep(s: Scan, left: string, c: char)
    requires AtLineStart(s) && c != '\n' && c != '\0'
    requires left != [] ==> !Blank(left[0]) && left[0] != '\0'
    ensures var left' := if left != [] then left + [c] else if Blank(c) then [] else [c];
            Feed(AfterLine(s, left), [c]) == Run(AfterLine(s, left'), false)
  {
    FeedOne(AfterLine(s, left), c);
    if left == [] {
      if !Blank(c) { FirstByte(s, c); }
    } else {
      TrimRightSnoc(left, c);
      TrimRightNonEmpty(left);
      CollectSnoc(s.word, s.wordDone, left, c);
    }
  }

  lemma {:induction false} FirstByte(s: Scan, c: char)
    requires AtLineStart(s) && c != '\n' && c != '\0' && !Blank(c)
    ensures Step(s, c).s == AfterLine(s, [c])
  {
    assert TrimRight([c]) == [c];
    assert FirstWord([c]) == [c];
  }

  // ---------- the word buffer against the record being assembled ----------

  /** The automaton will not refuse this record, whatever follows. */
  predicate Dead(word: string, done: bool) {
    '`' in word || (done && !RefusedWord(word))
  }

  /** No record starting with `text` has a refused first word. */
  predicate Hopeless(text: string) {
    |FirstWord(text)| >= WORD_MAX || '`' in FirstWord(text)
  }

  predicate Live(word: string, done: bool, rec: Record) {
    !rec.cut && !done && word == rec.text && !HasBlank(rec.text)
  }

  predicate Settled(word: string, done: bool, rec: Record) {
    !rec.cut && done && HasBlank(rec.text) && word == FirstWord(rec.text)
  }

  predicate Lost(word: string, done: bool, rec: Record) {
    Dead(word, done) && (rec.cut || Hopeless(rec.text))
  }

  /** The scanner, between two lines, has followed the assembly so far. */
  predicate Tracks(s: Scan, a: Partial) {
    && AtLineStart(s)
    && s.inRecord == a.open && s.inBackticks == a.list && (a.list ==> a.open)
    && (a.open ==> s.recLine == a.rec.line)
    && (!a.open ==> a == IDLE && s.word == [] && !s.wordDone)
    && ((!a.list && Live(s.word, s.wordDone, a.rec))
        || Settled(s.word, s.wordDone, a.rec)
        || Lost(s.word, s.wordDone, a.rec))
  }

  lemma {:induction false} NeverRefused(w: string)
    requires |w| >= WORD_MAX || '`' in w || '\\' in w || w == []
    ensures !RefusedWord(w)
  {
  }

  lemma {:induction false} HopelessGrows(text: string, more: string)
    requires Hopeless(text)
    ensures Hopeless(text + more) && !RefusedWord(FirstWord(text))
  {
    FirstWordConcat(text, more);
    NeverRefused(FirstWord(text));
  }

  /** After a line's bytes, before its end is acted on: `text` is the record with the
      trimmed line added, `trail` says blanks followed it. */
  predicate Exact(word: string, done: bool, rec: Record, text: string, trail: bool) {
    !rec.cut && word == FirstWord(text) && (done <==> HasBlank(text) || trail)
  }

  predicate Dropped(word: string, done: bool, rec: Record, text: string) {
    Dead(word, done) && (rec.cut || Hopeless(rec.text) || |FirstWord(text)| > WORD_MAX)
  }

  predicate Mid(word: string, done: bool, rec: Record, text: string, trail: bool) {
    Exact(word, done, rec, text, trail) || Dropped(word, done, rec, text)
  }

  lemma {:induction false} FirstWordGrows(a: string, b: string)
    ensures HasBlank(a) ==> FirstWord(a + b) == FirstWord(a) && HasBlank(a + b)
    ensures !HasBlank(a) ==> FirstWord(a) == a
    ensures FirstWord(a) <= FirstWord(a + b)
  {
    FirstWordConcat(a, b);
    if HasBlank(a) {
      var i :| 0 <= i < |a| && Blank(a[i]);
      assert Blank((a + b)[i]);
    }
  }

  lemma {:induction false} FirstWordOfTrimmed(left: string)
    ensures FirstWord(left) == FirstWord(TrimRight(left))
  {
    var line := TrimRight(left);
    var rest := left[|line|..];
    assert left == line + rest;
    FirstWordConcat(line, rest);
    assert FirstWord(rest) == [] by { if rest != [] { assert Blank(left[|line|]); } }
  }

  lemma {:induction false} MidOfLine(word: string, done: bool, rec: Record, left: string)
    requires |word| <= WORD_MAX && left != [] && !Blank(left[0])
    requires Live(word, done, rec) || Settled(word, done, rec) || Lost(word, done, rec)
    ensures var (w, d) := Collect(word, done, left);
            var line := TrimRight(left);
            && Mid(w, d, rec, rec.text + line, |line| < |left|)
            && (Settled(word, done, rec) ==> HasBlank(rec.text + line))
            && (Lost(word, done, rec) ==> Lost(w, d, rec))
  {
    var line := TrimRight(left);
    if Settled(word, done, rec) {
      FirstWordGrows(rec.text, line);
    } else if Lost(word, done, rec) {
      LostStays(word, done, rec, left);
    } else {
      MidOfLive(word, rec, left);
    }
  }

  lemma {:induction false} LostStays(word: string, done: bool, rec: Record, left: string)
    requires Lost(word, done, rec)
    ensures var (w, d) := Collect(word, done, left); Lost(w, d, rec)
  {
    var (w, d) := Collect(word, done, left);
    if w == [] {
      NeverRefused(w);
    } else if !done {
      var i :| 0 <= i < |word| && word[i] == '`';
      assert w[i] == '`';
    }
  }

  lemma {:induction false} MidOfLive(word: string, rec: Record, left: string)
    requires |word| <= WORD_MAX && left != [] && !Blank(left[0])
    requires Live(word, false, rec)
    ensures var (w, d) := Collect(word, false, left);
            var line := TrimRight(left);
            Mid(w, d, rec, rec.text + line, |line| < |left|)
  {
    var line := TrimRight(left);
    FirstWordOfTrimmed(left);
    FirstWordConcat(rec.text, line);
    FirstWordConcat(rec.text + line, []);
    assert rec.text + line + [] == rec.text + line;
    var (w, d) := Collect(word, false, left);
    if |word| + |FirstWord(left)| > WORD_MAX {
      NeverRefused([]);
      assert Dropped(w, d, rec, rec.text + line);
    } else {
      assert w == FirstWord(rec.text + line);
      assert d <==> |FirstWord(line)| < |left|;
      assert HasBlank(rec.text + line) <==> |FirstWord(line)| < |line|;
      assert Exact(w, d, rec, rec.text + line, |line| < |left|);
    }
  }

  /** A line that leaves a list open. */
  lemma {:induction false} ListLine(word: string, done: bool, rec: Record, line: string, trail: bool, sep: string)
    requires line != [] && Mid(word, done, rec, rec.text + line, trail)
    requires || HasBlank(rec.text + line)
             || Lost(word, done, rec)
             || line[|line| - 1] == '`'
    ensures var rec' := Record(rec.text + line + sep, rec.line, rec.cut);
            Settled(word, done, rec') || Lost(word, done, rec')
  {
    var text := rec.text + line;
    FirstWordGrows(text, sep);
    if Dropped(word, done, rec, text) || Hopeless(rec.text) {
      if Hopeless(rec.text) { HopelessList(rec.text, line, sep); }
    } else if !HasBlank(text) {
      assert text[|text| - 1] == '`' && FirstWord(text + sep)[|text| - 1] == '`';
    }
  }

  lemma {:induction false} HopelessList(text: string, line: string, sep: string)
    requires Hopeless(text)
    ensures Hopeless(text + line + sep)
  {
    assert text + line + sep == text + (line + sep);
    HopelessGrows(text, line + sep);
  }

  /** A line glued to the next one by its final backslash. */
  lemma {:induction false} GluedLine(word: string, done: bool, rec: Record, line: string, trail: bool)
    requires line != [] && line[|line| - 1] == '\\'
    requires Mid(word, done, rec, rec.text + line, trail)
    ensures var text := rec.text + line;
            var rec' := Record(text[..|text| - 1], rec.line, rec.cut || (trail && !HasBlank(text)));
            var word' := if !done && |word| > 0 && word[|word| - 1] == '\\' then word[..|word| - 1] else word;
            Live(word', done, rec') || Settled(word', done, rec') || Lost(word', done, rec')
  {
    var text := rec.text + line;
    if Exact(word, done, rec, text, trail) {
      GluedExact(word, done, rec, text, trail);
    } else {
      GluedDropped(rec, line);
      DeadWithoutBackslash(word, done);
    }
  }

  /** What has been dropped stays so without the final backslash. */
  lemma {:induction false} GluedDropped(rec: Record, line: string)
    requires line != [] && line[|line| - 1] == '\\'
    ensures var text := rec.text + line;
            rec.cut || Hopeless(rec.text) || |FirstWord(text)| > WORD_MAX ==> rec.cut || Hopeless(text[..|text| - 1])
  {
    var text := rec.text + line;
    var kept := text[..|text| - 1];
    assert text == kept + "\\" && kept == rec.text + line[..|line| - 1];
    FirstWordConcat(kept, "\\");
    if Hopeless(rec.text) { HopelessGrows(rec.text, line[..|line| - 1]); }
  }

  lemma {:induction false} DeadWithoutBackslash(word: string, done: bool)
    requires Dead(word, done)
    ensures Dead(if !done && |word| > 0 && word[|word| - 1] == '\\' then word[..|word| - 1] else word, done)
  {
    if !done && |word| > 0 && word[|word| - 1] == '\\' {
      var i :| 0 <= i < |word| && word[i] == '`';
      assert word[..|word| - 1][i] == '`';
    }
  }

  lemma {:induction false} GluedExact(word: string, done: bool, rec: Record, text: string, trail: bool)
    requires text != [] && text[|text| - 1] == '\\' && Exact(word, done, rec, text, trail)
    ensures var rec' := Record(text[..|text| - 1], rec.line, rec.cut || (trail && !HasBlank(text)));
            var word' := if !done && |word| > 0 && word[|word| - 1] == '\\' then word[..|word| - 1] else word;
            Live(word', done, rec') || Settled(word', done, rec') || Lost(word', done, rec')
  {
    var kept := text[..|text| - 1];
    assert text == kept + "\\";
    FirstWordGrows(text, []);
    FirstWordGrows(kept, "\\");
    if HasBlank(text) {
      var i :| 0 <= i < |text| && Blank(text[i]);
      assert Blank(kept[i]);
    } else if done {
      assert word[|word| - 1] == '\\';
      NeverRefused(word);
    } else {
      forall i | 0 <= i < |kept| ensures !Blank(kept[i]) { assert kept[i] == text[i]; }
    }
  }

  /** A line that completes the record: the automaton's judgement is the record's. */
  lemma {:induction false} LastLine(word: string, done: bool, rec: Record, line: string, trail: bool)
    requires line != [] && Mid(word, done, rec, rec.text + line, trail)
    ensures RefusedWord(word) <==> RefusedWord(FirstWord(rec.text + line)) && !rec.cut
  {
    if '`' in word { NeverRefused(word); }
    if Hopeless(rec.text) {
      HopelessGrows(rec.text, line);
      HopelessGrows(rec.text + line, []);
    }
    if |FirstWord(rec.text + line)| > WORD_MAX { NeverRefused(FirstWord(rec.text + line)); }
  }

  /** The end of a line that is neither blank nor a comment, in the terms of AddLine. */
  function EndOf(s: Scan, line: string, word: string, done: bool): Run
    requires line != []
  {
    var base := s.(inRecord := true, recLine := if s.inRecord then s.recLine else s.line,
                   inBackticks := Toggled(s.inBackticks, line), word := word, wordDone := done);
    if Toggled(s.inBackticks, line) then Run(base, false)
    else if line[|line| - 1] == '\\' then
      Run(base.(word := if !done && |word| > 0 && word[|word| - 1] == '\\' then word[..|word| - 1] else word), false)
    else Run(base.(inRecord := false, word := [], wordDone := false), RefusedWord(word))
  }

  lemma {:induction false} EolOfMarked(s: Scan, line: string, word: string, done: bool)
    requires s.first == '\0' && s.last == '\0' && !Ignored(line) && line[0] != '\0'
    ensures Eol(Marked(s, line[0], line[|line| - 1], word, done)) == EndOf(s, line, word, done)
  {
  }

  datatype Report = Clean | At(line: nat)

  /** The line-based reading refuses the record and nothing hides it from the scan. */
  predicate Caught(r: Record) {
    Refused(r) && !r.cut
  }

  /** The earliest judged record that is caught. */
  function FirstCaught(recs: seq<Record>): Report {
    if recs == [] then Clean
    else if Caught(recs[0]) then At(recs[0].line)
    else FirstCaught(recs[1..])
  }

  /** The end of a line judged the records the line completed as the reading does. */
  predicate Judges(e: Run, out: seq<Record>) {
    if out == [] then !e.bad else e.bad == Caught(out[0]) && e.s.recLine == out[0].line
  }

  predicate InStep(e: Run, a: Partial, out: seq<Record>) {
    Judges(e, out) && (!e.bad ==> Tracks(e.s, a))
  }

  /** The two sides are ready for the end of the line. */
  predicate Ready(s: Scan, a: Partial, line: string, trail: bool, word: string, done: bool) {
    && Tracks(s, a) && |word| <= WORD_MAX && !Ignored(line)
    && Mid(word, done, a.rec, a.rec.text + line, trail)
    && (a.list ==> HasBlank(a.rec.text + line) || Lost(word, done, a.rec))
  }

  lemma {:induction false} ListEnd(s: Scan, a: Partial, line: string, trail: bool, word: string, done: bool, sep: string)
    requires Ready(s, a, line, trail, word, done) && Toggled(a.list, line)
    ensures InStep(EndOf(s, line, word, done), AddTrimmed(a, line, trail, s.line, sep).0, [])
  {
    ListLine(word, done, a.rec, line, trail, sep);
  }

  lemma {:induction false} GluedEnd(s: Scan, a: Partial, line: string, trail: bool, word: string, done: bool, sep: string)
    requires Ready(s, a, line, trail, word, done) && !Toggled(a.list, line) && line[|line| - 1] == '\\'
    ensures InStep(EndOf(s, line, word, done), AddTrimmed(a, line, trail, s.line, sep).0, [])
  {
    var e := EndOf(s, line, word, done);
    var rec := AddTrimmed(a, line, trail, s.line, sep).0.rec;
    assert Live(e.s.word, done, rec) || Settled(e.s.word, done, rec) || Lost(e.s.word, done, rec) by {
      GluedLine(word, done, a.rec, line, trail);
    }
  }

  lemma {:induction false} LastEnd(s: Scan, a: Partial, line: string, trail: bool, word: string, done: bool, sep: string)
    requires Ready(s, a, line, trail, word, done) && !Toggled(a.list, line) && line[|line| - 1] != '\\'
    ensures InStep(EndOf(s, line, word, done), IDLE, AddTrimmed(a, line, trail, s.line, sep).1)
  {
    LastLine(word, done, a.rec, line, trail);
  }

  lemma {:induction false} EndInStep(s: Scan, a: Partial, line: string, trail: bool, word: string, done: bool, sep: string)
    requires Ready(s, a, line, trail, word, done)
    ensures var (a', out) := AddTrimmed(a, line, trail, s.line, sep);
            InStep(EndOf(s, line, word, done), a', out)
  {
    if Toggled(a.list, line) {
      ListEnd(s, a, line, trail, word, done, sep);
    } else if line[|line| - 1] == '\\' {
      GluedEnd(s, a, line, trail, word, done, sep);
    } else {
      LastEnd(s, a, line, trail, word, done, sep);
    }
  }

  lemma {:induction false} ReadyAfter(s: Scan, a: Partial, left: string)
    requires Tracks(s, a) && left != [] && !Blank(left[0]) && left[0] != '#'
    ensures var (w, d) := Collect(s.word, s.wordDone, left);
            Ready(s, a, TrimRight(left), |TrimRight(left)| < |left|, w, d)
  {
    MidOfLine(s.word, s.wordDone, a.rec, left);
  }

  lemma {:induction false} IgnoredLine(s: Scan, left: string)
    requires AtLineStart(s) && Ignored(TrimRight(left))
    ensures Eol(AfterLine(s, left)) == Run(s, false)
  {
  }

  lemma {:induction false} CountedLine(s: Scan, left: string)
    requires AtLineStart(s) && !Ignored(TrimRight(left)) && left[0] != '\0'
    ensures var (w, d) := Collect(s.word, s.wordDone, left);
            Eol(AfterLine(s, left)) == EndOf(s, TrimRight(left), w, d)
  {
    var line := TrimRight(left);
    var (w, d) := Collect(s.word, s.wordDone, left);
    assert line[0] == left[0];
    EolOfMarked(s, line, w, d);
  }

  /** One physical line: the automaton and the line-based reading stay in step, and
      they judge the record it completes alike. */
  lemma {:induction false} LineInStep(s: Scan, a: Partial, raw: string, sep: string)
    requires Tracks(s, a) && Plain(raw)
    ensures var (a', out) := AddLine(a, raw, s.line, sep);
            InStep(Eol(AfterLine(s, TrimLeft(raw))), a', out)
  {
    var left := TrimLeft(raw);
    if Ignored(TrimRight(left)) {
      IgnoredLine(s, left);
    } else {
      assert left[0] == raw[|raw| - |left|];
      CountedLine(s, left);
      ReadyAfter(s, a, left);
      var (w, d) := Collect(s.word, s.wordDone, left);
      EndInStep(s, a, TrimRight(left), |TrimRight(left)| < |left|, w, d, sep);
    }
  }

  lemma {:induction false} LineCounter(s: Scan, left: string)
    ensures Eol(AfterLine(s, left)).s.line == AfterLine(s, left).line == s.line
  {
  }

  // ---------- the whole text ----------

  function ReportOf(r: Run): Report {
    if r.bad then At(r.s.recLine) else Clean
  }

  lemma {:induction false} ResumeAfter(s: Scan, text: string, k: nat, t: Scan)
    requires k <= |text| && Feed(s, text[..k]) == Run(t, false)
    ensures Resume(s, text) == Resume(t, text[k..])
  {
    FeedConcat(s, text[..k], text[k..]);
    assert text == text[..k] + text[k..];
  }

  lemma {:induction false} ResumeNewline(t: Scan, more: string)
    requires more != [] && more[0] == '\n'
    ensures var e := Eol(t);
            Resume(t, more) == if e.bad then e else Resume(e.s.(line := t.line + 1), more[1..])
  {
  }

  /** An open list is judged at the end of input on the word it has. */
  lemma {:induction false} OpenList(s: Scan, a: Partial)
    requires Tracks(s, a) && a.list
    ensures RefusedWord(s.word) <==> Caught(a.rec)
  {
    if '`' in s.word { NeverRefused(s.word); }
    if Hopeless(a.rec.text) { HopelessGrows(a.rec.text, []); }
  }

  lemma {:induction false} EndOfInput(t: Scan, a: Partial, out: seq<Record>)
    requires |out| <= 1 && (out != [] ==> !a.list)
    ensures InStep(Eol(t), a, out) ==>
              ReportOf(Resume(t, [])) == FirstCaught(out + if a.list then [a.rec] else [])
  {
    if InStep(Eol(t), a, out) && a.list { OpenList(Eol(t).s, a); }
  }

  lemma {:induction false} FirstCaughtStep(e: Run, out: seq<Record>, later: seq<Record>)
    requires Judges(e, out) && |out| <= 1
    ensures FirstCaught(out + later) == if e.bad then At(e.s.recLine) else FirstCaught(later)
  {
    if out == [] {
      assert out + later == later;
    } else {
      assert (out + later)[1..] == later;
    }
  }

  lemma {:induction false} RecordsCons(a: Partial, raw: string, ls: seq<string>, n: nat, sep: string)
    ensures var r := AddLine(a, raw, n, sep);
            && Records(a, [raw] + ls, n, sep) == r.1 + Records(r.0, ls, n + 1, sep)
            && |r.1| <= 1 && (r.1 != [] ==> !r.0.list)
  {
    assert ([raw] + ls)[1..] == ls;
  }

  lemma {:induction false} Reach(s: Scan, a: Partial, raw: string, sep: string) returns (t: Scan)
    ensures Tracks(s, a) && Plain(raw) ==>
              && Feed(s, raw) == Run(t, false) && t.line == s.line
              && var r := AddLine(a, raw, s.line, sep); InStep(Eol(t), r.0, r.1)
  {
    t := AfterLine(s, TrimLeft(raw));
    if Tracks(s, a) && Plain(raw) {
      FeedLine(s, raw);
      LineInStep(s, a, raw, sep);
      LineCounter(s, TrimLeft(raw));
    }
  }

  lemma {:induction false} LinesOf(text: string)
    ensures var k := LineEnd(text);
            Lines(text) == [text[..k]] + if k < |text| then Lines(text[k + 1..]) else []
  {
    assert text[..|text|] == text;
  }

  function LaterLines(text: string): seq<string> {
    var k := LineEnd(text);
    if k < |text| then Lines(text[k + 1..]) else []
  }

  lemma {:induction false} FirstLineRecords(a: Partial, text: string, n: nat, sep: string)
    ensures var r := AddLine(a, text[..LineEnd(text)], n, sep);
            Records(a, Lines(text), n, sep) == r.1 + Records(r.0, LaterLines(text), n + 1, sep)
  {
    LinesOf(text);
    RecordsCons(a, text[..LineEnd(text)], LaterLines(text), n, sep);
  }

  /** From any point between two lines, the automaton reports on the rest of the text
      what the line-based reading does. */
  lemma {:induction false} RestInStep(s: Scan, a: Partial, text: string, sep: string)
    requires NulFree(text)
    ensures Tracks(s, a) ==> ReportOf(Resume(s, text)) == FirstCaught(Records(a, Lines(text), s.line, sep))
    decreases |text|, 2
  {
    var raw := text[..LineEnd(text)];
    var t := Reach(s, a, raw, sep);
    RestFrom(s, t, a, text, sep);
  }

  lemma {:induction false} RestFrom(s: Scan, t: Scan, a: Partial, text: string, sep: string)
    requires NulFree(text)
    ensures var raw := text[..LineEnd(text)];
            var r := AddLine(a, raw, s.line, sep);
            Feed(s, raw) == Run(t, false) && t.line == s.line && InStep(Eol(t), r.0, r.1) ==>
              ReportOf(Resume(s, text)) == FirstCaught(Records(a, Lines(text), s.line, sep))
    decreases |text|, 1
  {
    FirstLineRecords(a, text, s.line, sep);
    var r := AddLine(a, text[..LineEnd(text)], s.line, sep);
    if Feed(s, text[..LineEnd(text)]) == Run(t, false) && t.line == s.line {
      AfterFirstLine(s, t, r.0, r.1, text, sep);
    }
  }

  lemma {:induction false} AfterFirstLine(s: Scan, t: Scan, a: Partial, out: seq<Record>, text: string, sep: string)
    requires NulFree(text) && |out| <= 1 && (out != [] ==> a == IDLE)
    requires Feed(s, text[..LineEnd(text)]) == Run(t, false) && t.line == s.line
    ensures InStep(Eol(t), a, out) ==>
              ReportOf(Resume(s, text)) == FirstCaught(out + Records(a, LaterLines(text), s.line + 1, sep))
    decreases |text|, 0
  {
    var k := LineEnd(text);
    ResumeAfter(s, text, k, t);
    if k == |text| {
      assert text[k..] == [];
      EndOfInput(t, a, out);
    } else if InStep(Eol(t), a, out) {
      assert text[k..][1..] == text[k + 1..];
      ResumeNewline(t, text[k..]);
      FirstCaughtStep(Eol(t), out, Records(a, LaterLines(text), s.line + 1, sep));
      TracksNextLine(Eol(t).s, a, s.line + 1);
      RestInStep(Eol(t).s.(line := s.line + 1), a, text[k + 1..], sep);
    }
  }

  lemma {:induction false} TracksNextLine(s: Scan, a: Partial, n: nat)
    ensures Tracks(s, a) ==> Tracks(s.(line := n), a)
  {
  }

  /** Every NUL-free text, every separator the engine may use inside lists: the scan
      refuses it exactly when some judged record is refused by the line-based reading
      and is not cut, and then reports the line where the earliest such record starts. */
  lemma {:induction false} ScanRefinesLines(text: string, sep: string)
    requires NulFree(text)
    ensures ReportOf(Verdict(text)) == FirstCaught(RecordsOf(text, sep))
  {
    RestInStep(START, IDLE, text, sep);
  }

  /** What a report says about the judged records. */
  lemma {:induction false} ReportMeaning(recs: seq<Record>) returns (i: nat)
    ensures i <= |recs|
    ensures forall j :: 0 <= j < i ==> !Caught(recs[j])
    ensures FirstCaught(recs) == if i < |recs| then At(recs[i].line) else Clean
    ensures i < |recs| ==> Caught(recs[i])
  {
    if recs == [] || Caught(recs[0]) {
      i := 0;
    } else {
      var k := ReportMeaning(recs[1..]);
      assert forall j :: 1 <= j < |recs| ==> recs[j] == recs[1..][j - 1];
      i := k + 1;
    }
  }

  lemma {:induction false} UncutLines(a: Partial, lines: seq<string>, n: nat, sep: string)
    requires !a.rec.cut
    requires forall l :: l in lines ==> BackslashEndsLine(l)
    ensures forall r :: r in Records(a, lines, n, sep) ==> !r.cut
    decreases |lines|
  {
    if lines != [] {
      var r := AddLine(a, lines[0], n, sep);
      assert BackslashEndsLine(lines[0]) && !r.0.rec.cut;
      UncutLines(r.0, lines[1..], n + 1, sep);
    }
  }

  /** Without any condition on backslashes the scan never refuses a text the reading
      accepts, and it misses exactly the texts whose refused records are all cut. */
  lemma ScanMissesOnlyCut(text: string, sep: string)
    requires NulFree(text)
    ensures Verdict(text).bad <==> exists r :: r in RecordsOf(text, sep) && Caught(r)
  {
    ScanRefinesLines(text, sep);
    var i := ReportMeaning(RecordsOf(text, sep));
  }

  /** The property as meant: with no blank after a line-final backslash, the scan
      refuses the text iff the line-based reading has a refused record. */
  lemma ScanAgrees(text: string, sep: string)
    requires NulFree(text) && NoBlankAfterBackslash(text)
    ensures Verdict(text).bad <==> exists r :: r in RecordsOf(text, sep) && Refused(r)
  {
    ScanMissesOnlyCut(text, sep);
    UncutLines(IDLE, Lines(text), 1, sep);
  }

  /** The refused record starts on the reported line, and no earlier record is refused. */
  lemma ReportedLine(text: string, sep: string) returns (i: nat)
    requires NulFree(text) && NoBlankAfterBackslash(text) && Verdict(text).bad
    ensures var recs := RecordsOf(text, sep);
            && i < |recs| && Refused(recs[i]) && recs[i].line == Verdict(text).s.recLine
            && forall j :: 0 <= j < i ==> !Refused(recs[j])
  {
    var recs := RecordsOf(text, sep);
    ScanRefinesLines(text, sep);
    i := ReportMeaning(recs);
    UncutLines(IDLE, Lines(text), 1, sep);
    assert forall j :: 0 <= j < i ==> recs[j] in recs;
  }

  lemma {:induction false} TwoLines(one: string, two: string)
    requires Plain(one) && Plain(two)
    ensures NulFree(one + (['\n'] + two)) && Lines(one + (['\n'] + two)) == [one] + [two]
  {
    var text := one + (['\n'] + two);
    assert text[|one|] == '\n' && forall i :: 0 <= i < |one| ==> text[i] == one[i];
    assert LineEnd(text) == |one|;
    assert text[..|one|] == one && text[|one| + 1..] == two;
    assert LineEnd(two) == |two|;
  }

  lemma {:induction false} TwoRecords(one: string, two: string, sep: string)
    requires |one| > 1 && one[0] == '\\' && TrimRight(one) == one[..1]
    requires !Ignored(two) && TrimLeft(two) == two && TrimRight(two) == two
    requires two[|two| - 1] != '`' && two[|two| - 1] != '\\'
    ensures Records(IDLE, [one] + [two], 1, sep) == [Record(two, 1, true)]
  {
    var glued := Partial(true, false, Record([], 1, true));
    assert TrimLeft(one) == one;
    assert [] + one[..1] == one[..1] && one[..1][..0] == [];
    assert !HasBlank(one[..1]);
    assert AddLine(IDLE, one, 1, sep) == (glued, []);
    assert [] + two == two;
    assert AddLine(glued, two, 2, sep) == (IDLE, [Record(two, 1, true)]);
    RecordsCons(IDLE, one, [two], 1, sep);
    RecordsCons(glued, two, [], 2, sep);
    assert [two] + [] == [two];
  }

  lemma {:induction false} RefusedLetters(name: string)
    requires RefusedWord(name)
    ensures name != [] && !HasBlank(name) && Plain(name) && '#' !in name && '`' !in name && '\\' !in name
  {
    assert SameLetters(name, REFUSED[0]);
  }

  lemma {:induction false} RefusedSpelling(name: string)
    requires RefusedWord(name)
    ensures !Ignored(name) && Plain(name)
    ensures name[|name| - 1] != '`' && name[|name| - 1] != '\\'
    ensures FirstWord(name) == name && TrimLeft(name) == name && TrimRight(name) == name
  {
    RefusedLetters(name);
    FirstWordGrows(name, []);
    assert name[0] in name && name[|name| - 1] in name;
  }

  lemma {:induction false} OneCutRecord(text: string, r: Record, sep: string)
    requires NulFree(text) && RecordsOf(text, sep) == [r] && r.cut
    ensures !Verdict(text).bad
  {
    ScanMissesOnlyCut(text, sep);
  }

  lemma {:induction false} CutPair(one: string, name: string, sep: string)
    requires |one| > 1 && one[0] == '\\' && forall i :: 1 <= i < |one| ==> Blank(one[i])
    requires RefusedWord(name)
    ensures NulFree(one + (['\n'] + name))
    ensures RecordsOf(one + (['\n'] + name), sep) == [Record(name, 1, true)]
    ensures Refused(Record(name, 1, true))
  {
    RefusedSpelling(name);
    TwoLines(one, name);
    TwoRecords(one, name, sep);
  }

  /** The shape that is missed, in every spelling: blanks between a line-final
      backslash and the end of its line. */
  lemma {:induction false} BlankAfterBackslashIsMissed(one: string, name: string, sep: string)
    requires |one| > 1 && one[0] == '\\' && forall i :: 1 <= i < |one| ==> Blank(one[i])
    requires RefusedWord(name)
    ensures RecordsOf(one + (['\n'] + name), sep) == [Record(name, 1, true)]
    ensures Refused(Record(name, 1, true)) && !Verdict(one + (['\n'] + name)).bad
  {
    CutPair(one, name, sep);
    OneCutRecord(one + (['\n'] + name), Record(name, 1, true), sep);
  }
}
