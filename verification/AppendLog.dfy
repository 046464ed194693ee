/** Appending to the ledger file (src/arbbot/exec/ledgerdb.py: dual_append) and reading it back
    (src/arbbot/exec/ledger.py: parse_lines). */
module AppendLog {
  import opened Core
  import opened Text

  /** What the ledger file says. */
  function Parse<R>(c: Codec<R>, file: Bytes): seq<R> {
    ParsePieces(c, Pieces(file, BREAKS))
  }

  method ParseLines<R>(c: Codec<R>, lines: seq<Bytes>) returns (out: seq<R>)
    ensures out == ParsePieces(c, lines)
  {
    out := [];
    for i := 0 to |lines|
      invariant out == ParsePieces(c, lines[..i])
    {
      assert lines[..i + 1][..i] == lines[..i];
      var line := Strip(lines[i]);
      if line != "" {
        var parsed := c.loads(line);
        if parsed.Some? { out := out + [parsed.value]; }
      }
    }
    assert lines[..|lines|] == lines;
  }

  /** What is written before a record so that it starts on a line of its own. */
  function Heal(file: Bytes): Bytes {
    if file != "" && file[|file| - 1] != '\n' then "\n" else ""
  }

  class LedgerFile<R(!new)> {
    const c: Codec<R>
    var bytes: Bytes

    constructor (c: Codec<R>, bytes: Bytes)
      ensures this.c == c && this.bytes == bytes
    {
      this.c, this.bytes := c, bytes;
    }

    /** The append is exact for any bytes already in the file, a torn last line included. */
    method Append(r: R)
      requires Lawful(c)
      modifies this
      ensures bytes == old(bytes) + Heal(old(bytes)) + c.dumps(r) + "\n"
      ensures Parse(c, bytes) == Parse(c, old(bytes)) + [r]
    {
      ghost var before := bytes;
      if |bytes| > 0 && bytes[|bytes| - 1] != '\n' { bytes := bytes + "\n"; }
      bytes := bytes + (c.dumps(r) + "\n");
      assert bytes == before + Heal(before) + c.dumps(r) + "\n";
      AppendAdds(c, before, r);
    }
  }

  lemma ParseAcrossBreak<R>(c: Codec<R>, a: Bytes, b: Bytes)
    ensures Parse(c, a + "\n" + b) == Parse(c, a) + Parse(c, b)
  {
    PiecesAcrossBreak(a, '\n', b, BREAKS);
    ParseAdds(c, Pieces(a, BREAKS), Pieces(b, BREAKS));
  }

  /** Once healed, the file is closed: what follows is read on its own. */
  lemma HealSeparates<R>(c: Codec<R>, file: Bytes, b: Bytes)
    ensures Parse(c, file + Heal(file) + b) == Parse(c, file) + Parse(c, b)
  {
    ParseEmpty(c);
    if file == "" {
      assert file + Heal(file) + b == b;
    } else if file[|file| - 1] != '\n' {
      ParseAcrossBreak(c, file, b);
    } else {
      var f := file[..|file| - 1];
      assert file == f + "\n" + "" && file + Heal(file) + b == f + "\n" + b;
      ParseAcrossBreak(c, f, "");
      ParseAcrossBreak(c, f, b);
    }
  }

  lemma ParseEmpty<R>(c: Codec<R>)
    ensures Parse(c, "") == []
  {
    assert [""][..0] == [];
    assert ParsePieces(c, [""]) == ParsePieces(c, [""][..0]);
  }

  lemma ParseOne<R>(c: Codec<R>, line: Bytes)
    requires forall ch :: ch in line ==> ch !in BREAKS
    ensures Parse(c, line) == if Strip(line) != "" && c.loads(Strip(line)).Some? then [c.loads(Strip(line)).value]
      else []
  {
    NoBreaks(line, BREAKS);
    assert [line][..0] == [];
    assert ParsePieces(c, [line][..0]) == [];
  }

  lemma AppendAdds<R(!new)>(c: Codec<R>, file: Bytes, r: R)
    requires Lawful(c)
    ensures Parse(c, file + Heal(file) + c.dumps(r) + "\n") == Parse(c, file) + [r]
  {
    var d := c.dumps(r);
    assert file + Heal(file) + d + "\n" == file + Heal(file) + (d + "\n" + "");
    HealSeparates(c, file, d + "\n" + "");
    ParseAcrossBreak(c, d, "");
    ParseOne(c, d);
    ParseEmpty(c);
  }

  // ---------- crashes ----------

  /** An append that ran to its end, or one of which only the first n characters reached the file. */
  datatype Write<R> = Whole(r: R) | Torn(r: R, n: nat)

  function Written<R>(c: Codec<R>, file: Bytes, w: Write<R>): Bytes {
    var full := Heal(file) + c.dumps(w.r) + "\n";
    file + if w.Torn? && w.n < |full| then full[..w.n] else full
  }

  /** The whole record reached the file, if perhaps not its newline. */
  predicate Reached<R>(c: Codec<R>, file: Bytes, w: Write<R>) {
    w.Whole? || w.n >= |Heal(file)| + |c.dumps(w.r)|
  }

  function Run<R>(c: Codec<R>, file: Bytes, ws: seq<Write<R>>): Bytes {
    if ws == [] then file else Written(c, Run(c, file, ws[..|ws| - 1]), ws[|ws| - 1])
  }

  /** The records that reached the file, in order. */
  function Survivors<R>(c: Codec<R>, file: Bytes, ws: seq<Write<R>>): seq<R> {
    if ws == [] then []
    else
      var before, w := Survivors(c, file, ws[..|ws| - 1]), ws[|ws| - 1];
      if Reached(c, Run(c, file, ws[..|ws| - 1]), w) then before + [w.r] else before
  }

  lemma WriteAdds<R(!new)>(c: Codec<R>, file: Bytes, w: Write<R>)
    requires Lawful(c)
    ensures Parse(c, Written(c, file, w)) == if Reached(c, file, w) then Parse(c, file) + [w.r] else Parse(c, file)
  {
    var (h, d) := (Heal(file), c.dumps(w.r));
    var full := h + d + "\n";
    if w.Whole? || w.n >= |full| {
      assert Written(c, file, w) == file + h + d + "\n";
      AppendAdds(c, file, w.r);
    } else if w.n <= |h| {
      HealSeparates(c, file, "");
      ParseEmpty(c);
      assert full[..w.n] == h[..w.n];
      assert w.n < |h| ==> file + h[..w.n] == file;
      assert w.n == |h| ==> file + h[..w.n] == file + h + "";
    } else {
      var m := w.n - |h|;
      var p := d[..m];
      assert file + full[..w.n] == file + h + p;
      HealSeparates(c, file, p);
      assert forall ch :: ch in p ==> ch in d;
      ParseOne(c, p);
      if m == |d| { assert p == d; }
    }
  }

  /** Over any run of appends, however many of them a crash cut short at any byte, and whatever the file held
      before, it reads as what it held followed by exactly the records that reached it: none is welded to a
      stump, lost, or read from one. */
  lemma {:induction false} NothingWeldedOrLost<R(!new)>(c: Codec<R>, file: Bytes, ws: seq<Write<R>>)
    requires Lawful(c)
    ensures Parse(c, Run(c, file, ws)) == Parse(c, file) + Survivors(c, file, ws)
  {
    if ws != [] {
      NothingWeldedOrLost(c, file, ws[..|ws| - 1]);
      WriteAdds(c, Run(c, file, ws[..|ws| - 1]), ws[|ws| - 1]);
    }
  }
}
