/** The dashboard's incremental reader of growing files (src/arbbot/dash/data.py: _TailFile). */
module TailFile {
  import opened Core
  import opened Text

  const NEWLINE: set<char> := {'\n'}

  /** What a read at an offset returns. */
  function ReadAt(content: Bytes, from: nat, to: nat): Bytes {
    if from <= to <= |content| then content[from..to]
    else if from < |content| < to then content[from..]
    else ""
  }

  /** The records on some raw lines. */
  function Records<R>(c: Codec<R>, lines: seq<Bytes>): seq<R> {
    if lines == [] then []
    else
      var before, raw := Records(c, lines[..|lines| - 1]), lines[|lines| - 1];
      if Strip(raw) != "" && c.loads(raw).Some? then before + [c.loads(raw).value] else before
  }

  datatype Tail = Tail(offset: nat, partial: Bytes)

  const FRESH := Tail(0, "")

  /** A file shorter than what was read of it was rotated: start over. */
  function Restarted(t: Tail, size: nat): Tail {
    if size < t.offset then FRESH else t
  }

  function TailAfter(t: Tail, size: nat, content: Bytes): Tail {
    var s := Restarted(t, size);
    if size == s.offset then s else Tail(size, Last(Pieces(s.partial + ReadAt(content, s.offset, size), NEWLINE)))
  }

  function NewRecords<R>(c: Codec<R>, t: Tail, size: nat, content: Bytes): seq<R> {
    var s := Restarted(t, size);
    if size == s.offset then [] else Records(c, Init(Pieces(s.partial + ReadAt(content, s.offset, size), NEWLINE)))
  }

  lemma OneMore(text: Bytes, c: char)
    ensures var ps := Pieces(text, NEWLINE);
      Pieces(text + [c], NEWLINE) == if c == '\n' then ps + [""] else Init(ps) + [Last(ps) + [c]]
  {
    var ps := Pieces(text, NEWLINE);
    PiecesConcat(text, [c], NEWLINE);
    PieceIsWhole(text, NEWLINE);
    if c == '\n' {
      StartsWithPiece(Last(ps), c, "", NEWLINE);
      assert Last(ps) + ([c] + "") == Last(ps) + [c] && Pieces("", NEWLINE) == [""];
      assert Init(ps) + ([Last(ps)] + [""]) == ps + [""];
    } else {
      NoBreaks(Last(ps) + [c], NEWLINE);
    }
  }

  /** bytes.split: one pass that closes a piece at every newline. */
  method SplitLines(chunk: Bytes) returns (ps: seq<Bytes>)
    ensures ps == Pieces(chunk, NEWLINE)
  {
    ps := [""];
    for i := 0 to |chunk|
      invariant |ps| > 0 && ps == Pieces(chunk[..i], NEWLINE)
    {
      assert chunk[..i + 1] == chunk[..i] + [chunk[i]];
      OneMore(chunk[..i], chunk[i]);
      var line := ps[|ps| - 1];
      if chunk[i] == '\n' {
        ps := ps + [""];
      } else {
        ps := ps[..|ps| - 1] + [line + [chunk[i]]];
      }
    }
    assert chunk[..|chunk|] == chunk;
  }

  class Reader<R> {
    const c: Codec<R>
    var offset: nat
    var partial: Bytes

    function Now(): Tail
      reads this
    {
      Tail(offset, partial)
    }

    constructor (c: Codec<R>)
      ensures this.c == c && Now() == FRESH
    {
      this.c, offset, partial := c, 0, "";
    }

    /** size is what stat said, absent when there is no file; content is the file when it is read. */
    method NewLines(size: Option<nat>, content: Bytes) returns (out: seq<R>)
      modifies this
      ensures size.None? ==> Now() == old(Now()) && out == []
      ensures size.Some? ==> Now() == TailAfter(old(Now()), size.value, content)
                             && out == NewRecords(c, old(Now()), size.value, content)
    {
      if size.None? { return []; }
      if size.value < offset { offset, partial := 0, ""; }
      if size.value == offset { return []; }
      var chunk := partial + ReadAt(content, offset, size.value);
      offset := size.value;
      var ps := SplitLines(chunk);
      partial := ps[|ps| - 1];
      var lines := ps[..|ps| - 1];
      out := [];
      for i := 0 to |lines|
        invariant out == Records(c, lines[..i])
        invariant Now() == TailAfter(old(Now()), size.value, content)
      {
        assert lines[..i + 1][..i] == lines[..i];
        if Strip(lines[i]) != "" {
          var parsed := c.loads(lines[i]);
          if parsed.Some? { out := out + [parsed.value]; }
        }
      }
      assert lines[..|lines|] == lines;
    }

    /** Counts to the end of the file as it is when read, but advances to the size of the stat. */
    method NewLineCount(size: Option<nat>, content: Bytes) returns (n: nat)
      modifies this`offset
      ensures size.None? ==> offset == old(offset) && n == 0
      ensures size.Some? ==> offset == size.value && n == Counted(old(offset), size.value, content)
    {
      if size.None? { return 0; }
      if size.value < offset { offset := 0; }
      var pos := offset;
      n := 0;
      while pos < |content|
        invariant offset == CountFrom(old(offset), size.value) <= pos
        invariant offset <= |content| ==> pos <= |content| && n == Newlines(content[offset..pos])
        invariant offset > |content| ==> pos == offset && n == 0
        decreases |content| - pos
      {
        var next := if pos + CHUNK < |content| then pos + CHUNK else |content|;
        if offset <= |content| { CountChunk(content, offset, pos, next); }
        n := n + Newlines(content[pos..next]);
        pos := next;
      }
      assert offset <= |content| ==> content[offset..pos] == content[offset..];
      offset := size.value;
    }
  }

  const CHUNK := 0x10_0000

  lemma CountChunk(content: Bytes, a: nat, b: nat, c: nat)
    requires a <= b <= c <= |content|
    ensures Newlines(content[a..c]) == Newlines(content[a..b]) + Newlines(content[b..c])
  {
    NewlinesConcat(content[a..b], content[b..c]);
    assert content[a..c] == content[a..b] + content[b..c];
  }

  lemma {:induction false} RecordsAdd<R>(c: Codec<R>, a: seq<Bytes>, b: seq<Bytes>)
    ensures Records(c, a + b) == Records(c, a) + Records(c, b)
  {
    if b == [] {
      assert a + b == a;
    } else {
      var init := b[..|b| - 1];
      assert (a + b)[..|a + b| - 1] == a + init;
      RecordsAdd(c, a, init);
    }
  }

  // ---------- tailing a growing file ----------

  /** One poll: the size stat gave, and the file when it was read. */
  datatype Poll = Poll(size: nat, content: Bytes)

  predicate Prefix(a: Bytes, b: Bytes) {
    |a| <= |b| && b[..|a|] == a
  }

  /** The file only grows, also between the stat and the read of a poll. */
  predicate Growing(ps: seq<Poll>) {
    && (forall k :: 0 <= k < |ps| ==> ps[k].size <= |ps[k].content|)
    && forall k :: 0 < k < |ps| ==> ps[k - 1].size <= ps[k].size && Prefix(ps[k - 1].content, ps[k].content)
  }

  function TailRun(t: Tail, ps: seq<Poll>): Tail {
    if ps == [] then t else TailAfter(TailRun(t, ps[..|ps| - 1]), ps[|ps| - 1].size, ps[|ps| - 1].content)
  }

  /** Everything the polls returned, in order. */
  function Output<R>(c: Codec<R>, t: Tail, ps: seq<Poll>): seq<R> {
    if ps == [] then []
    else
      Output(c, t, ps[..|ps| - 1])
      + NewRecords(c, TailRun(t, ps[..|ps| - 1]), ps[|ps| - 1].size, ps[|ps| - 1].content)
  }

  /** The part of the file the polls have consumed. */
  function Consumed(ps: seq<Poll>): Bytes
    requires Growing(ps)
  {
    if ps == [] then "" else ps[|ps| - 1].content[..ps[|ps| - 1].size]
  }

  lemma ConsumedGrows(ps: seq<Poll>)
    requires Growing(ps) && ps != []
    ensures var (init, p) := (ps[..|ps| - 1], ps[|ps| - 1]);
      && Growing(init) && |Consumed(init)| <= p.size <= |p.content|
      && p.content[..|Consumed(init)|] == Consumed(init) && |Consumed(ps)| == p.size
      && Consumed(ps) == Consumed(init) + p.content[|Consumed(init)|..p.size]
      && |Consumed(init)| == if |ps| == 1 then 0 else ps[|ps| - 2].size
  {
    var (init, p) := (ps[..|ps| - 1], ps[|ps| - 1]);
    assert Growing(init) by {
      forall k | 0 < k < |init|
        ensures init[k - 1].size <= init[k].size && Prefix(init[k - 1].content, init[k].content)
      {
        assert init[k] == ps[k] && init[k - 1] == ps[k - 1];
      }
    }
    if init != [] {
      var q := ps[|ps| - 2];
      assert Prefix(q.content, p.content);
      assert p.content[..q.size] == p.content[..|q.content|][..q.size];
    }
  }

  /** A read that continues what was consumed. */
  lemma TailStep<R>(c: Codec<R>, a: Bytes, size: nat, content: Bytes)
    requires |a| <= size <= |content| && content[..|a|] == a
    ensures var (t, all) := (Tail(|a|, Last(Pieces(a, NEWLINE))), Pieces(a + content[|a|..size], NEWLINE));
      && TailAfter(t, size, content) == Tail(size, Last(all))
      && Records(c, Init(Pieces(a, NEWLINE))) + NewRecords(c, t, size, content) == Records(c, Init(all))
  {
    var more := content[|a|..size];
    var (done, next) := (Init(Pieces(a, NEWLINE)), Pieces(Last(Pieces(a, NEWLINE)) + more, NEWLINE));
    if size == |a| {
      assert a + more == a;
    } else {
      PiecesConcat(a, more, NEWLINE);
      InitOfConcat(done, next);
      RecordsAdd(c, done, Init(next));
    }
  }

  /** Tailing equals batch: wherever the reads were split, also inside a line, together they returned the
      records of the complete lines of what was consumed, each once and in order, and the partial line kept
      is what follows the last newline. */
  lemma {:induction false} TailingIsBatch<R>(c: Codec<R>, ps: seq<Poll>)
    requires Growing(ps)
    ensures var pieces := Pieces(Consumed(ps), NEWLINE);
      && TailRun(FRESH, ps) == Tail(|Consumed(ps)|, Last(pieces))
      && Output(c, FRESH, ps) == Records(c, Init(pieces))
  {
    if ps == [] {
      assert Init([""]) == [];
    } else {
      ConsumedGrows(ps);
      TailingIsBatch(c, ps[..|ps| - 1]);
      TailStep(c, Consumed(ps[..|ps| - 1]), ps[|ps| - 1].size, ps[|ps| - 1].content);
    }
  }

  lemma InitOfConcat(a: seq<Bytes>, b: seq<Bytes>)
    requires b != []
    ensures Init(a + b) == a + Init(b) && Last(a + b) == Last(b)
  {}

  lemma {:induction false} RestartedRun<R>(c: Codec<R>, t: Tail, ps: seq<Poll>)
    requires ps != [] && ps[0].size < t.offset
    ensures TailRun(t, ps) == TailRun(FRESH, ps) && Output(c, t, ps) == Output(c, FRESH, ps)
  {
    if |ps| > 1 { RestartedRun(c, t, ps[..|ps| - 1]); }
  }

  /** After a rotation that left the file shorter than what had been read of the old one, the reader, whatever
      it held, tails the new file like a batch from its beginning: no old partial line gets into it. */
  lemma {:induction false} RotationStartsOver<R>(c: Codec<R>, t: Tail, ps: seq<Poll>)
    requires Growing(ps) && ps != [] && ps[0].size < t.offset
    ensures var pieces := Pieces(Consumed(ps), NEWLINE);
      && TailRun(t, ps) == Tail(|Consumed(ps)|, Last(pieces))
      && Output(c, t, ps) == Records(c, Init(pieces))
  {
    RestartedRun(c, t, ps);
    TailingIsBatch(c, ps);
  }

  // ---------- counting ----------

  function Newlines(s: Bytes): nat {
    if s == "" then 0 else Newlines(s[1..]) + if s[0] == '\n' then 1 else 0
  }

  lemma {:induction false} NewlinesConcat(a: Bytes, b: Bytes)
    ensures Newlines(a + b) == Newlines(a) + Newlines(b)
  {
    if a == "" {
      assert a + b == b;
    } else {
      assert (a + b)[1..] == a[1..] + b;
      NewlinesConcat(a[1..], b);
    }
  }

  function CountFrom(offset: nat, size: nat): nat {
    if size < offset then 0 else offset
  }

  function Counted(offset: nat, size: nat, content: Bytes): nat {
    var from := CountFrom(offset, size);
    if from <= |content| then Newlines(content[from..]) else 0
  }

  /** The total of the counts over the polls. */
  function CountTotal(ps: seq<Poll>): nat {
    if ps == [] then 0
    else
      var p := ps[|ps| - 1];
      CountTotal(ps[..|ps| - 1]) + Counted(if |ps| == 1 then 0 else ps[|ps| - 2].size, p.size, p.content)
  }

  /** Newlines that arrived between the stat and the read of a poll: they are counted again by the next. */
  function CountedTwice(ps: seq<Poll>): nat
    requires Growing(ps)
  {
    if ps == [] then 0
    else
      assert forall k :: 0 <= k < |ps| - 1 ==> ps[..|ps| - 1][k] == ps[k];
      CountedTwice(ps[..|ps| - 1]) + Newlines(ps[|ps| - 1].content[ps[|ps| - 1].size..])
  }

  /** The counts add up to the newlines consumed plus those that arrived between a stat and its read. */
  lemma {:induction false} CountsAddUp(ps: seq<Poll>)
    requires Growing(ps)
    ensures CountTotal(ps) == Newlines(Consumed(ps)) + CountedTwice(ps)
  {
    if ps != [] {
      ConsumedGrows(ps);
      CountsAddUp(ps[..|ps| - 1]);
      CountStep(Consumed(ps[..|ps| - 1]), ps[|ps| - 1].size, ps[|ps| - 1].content);
    }
  }

  lemma {:induction false} CountStep(a: Bytes, size: nat, content: Bytes)
    requires |a| <= size <= |content|
    ensures Newlines(a) + Counted(|a|, size, content) == Newlines(a + content[|a|..size]) + Newlines(content[size..])
  {
    var more, rest := content[|a|..size], content[size..];
    NewlinesConcat(a, more);
    assert content[|a|..] == more + rest;
    NewlinesConcat(more, rest);
  }

  /** So they are exact if and only if no line was completed between the stat and the read of a poll. */
  lemma {:induction false} CountIsExactIff(ps: seq<Poll>)
    requires Growing(ps)
    ensures CountTotal(ps) == Newlines(Consumed(ps)) <==>
      forall k, i :: 0 <= k < |ps| && ps[k].size <= i < |ps[k].content| ==> ps[k].content[i] != '\n'
  {
    CountsAddUp(ps);
    TwiceIffCompleted(ps);
  }

  lemma {:induction false} NoNewlines(s: Bytes)
    ensures Newlines(s) == 0 <==> forall i :: 0 <= i < |s| ==> s[i] != '\n'
  {
    if s != "" {
      NoNewlines(s[1..]);
      assert forall i :: 0 < i < |s| ==> s[i] == s[1..][i - 1];
    }
  }

  lemma {:induction false} TwiceIffCompleted(ps: seq<Poll>)
    requires Growing(ps)
    ensures CountedTwice(ps) == 0 <==>
      forall k, i :: 0 <= k < |ps| && ps[k].size <= i < |ps[k].content| ==> ps[k].content[i] != '\n'
  {
    if ps != [] {
      var init, p := ps[..|ps| - 1], ps[|ps| - 1];
      assert forall k :: 0 <= k < |init| ==> init[k] == ps[k];
      TwiceIffCompleted(init);
      var rest := p.content[p.size..];
      NoNewlines(rest);
      assert forall i :: p.size <= i < |p.content| ==> p.content[i] == rest[i - p.size];
      assert forall i :: 0 <= i < |rest| ==> rest[i] == p.content[i + p.size];
    }
  }

  /** One newline counted twice: it arrives between the stat and the read of the first of two polls. */
  lemma LateLineCountsTwice() returns (ps: seq<Poll>)
    ensures Growing(ps) && Newlines(Consumed(ps)) == 1 && CountTotal(ps) == 2
  {
    ps := [Poll(0, "\n"), Poll(1, "\n")];
    CountsAddUp(ps);
    assert ps[..1] == [Poll(0, "\n")] && [Poll(0, "\n")][..0] == [];
    assert CountedTwice(ps[..1]) == 1;
  }

  /** A reader that finds the file shorter than what it counted starts over, and counts the new file from its
      beginning to where it ends when read; otherwise it counts what is beyond its offset. */
  lemma CountRestarts(offset: nat, size: nat, content: Bytes)
    ensures size < offset ==> Counted(offset, size, content) == Newlines(content)
    ensures offset <= size && offset <= |content| ==> Counted(offset, size, content) == Newlines(content[offset..])
  {
    assert content[0..] == content;
  }

  // ---------- records ----------

  /** A blank line and one that does not parse give nothing, any other its record. */
  lemma LineIsRead<R>(c: Codec<R>, line: Bytes)
    ensures Records(c, [line]) == if Strip(line) == "" || c.loads(line).None? then [] else [c.loads(line).value]
  {
    assert [line][..0] == [];
    assert Records(c, [line][..0]) == [];
  }

  /** Lines on which records were printed, blank lines in between or not, are read back as those records. */
  lemma {:induction false} PrintedIsRead<R(!new)>(c: Codec<R>, lines: seq<Bytes>, printed: seq<Option<R>>)
    requires Lawful(c) && |lines| == |printed|
    requires forall i :: 0 <= i < |lines| ==>
      if printed[i].Some? then lines[i] == c.dumps(printed[i].value) else Strip(lines[i]) == ""
    ensures Records(c, lines) == Somes(printed)
  {
    if lines != [] {
      var n := |lines| - 1;
      PrintedIsRead(c, lines[..n], printed[..n]);
      if printed[n].Some? { assert Strip(lines[n]) == lines[n] != ""; }
    }
  }

  function Somes<R>(xs: seq<Option<R>>): seq<R> {
    if xs == [] then []
    else Somes(xs[..|xs| - 1]) + if xs[|xs| - 1].Some? then [xs[|xs| - 1].value] else []
  }
}
