/** Text cut at line breaks, shared by the readers of JSON-lines files. */
module Text {
  import opened Core

  /** A file's content; one character stands for one byte. */
  type Bytes = string

  /** One more character before the pieces. */
  function Onto(c: char, ps: seq<Bytes>, breaks: set<char>): (qs: seq<Bytes>)
    requires |ps| > 0
    ensures |qs| > 0
  {
    if c in breaks then [""] + ps else [[c] + ps[0]] + ps[1..]
  }

  /** The text cut at every break; the last piece is what follows the last one. */
  function Pieces(text: Bytes, breaks: set<char>): (ps: seq<Bytes>)
    ensures |ps| > 0
  {
    if text == "" then [""] else Onto(text[0], Pieces(text[1..], breaks), breaks)
  }

  function Last(ps: seq<Bytes>): Bytes
    requires ps != []
  {
    ps[|ps| - 1]
  }

  function Init(ps: seq<Bytes>): seq<Bytes>
    requires ps != []
  {
    ps[..|ps| - 1]
  }

  lemma OntoMany(c: char, ps: seq<Bytes>, qs: seq<Bytes>, breaks: set<char>)
    requires |ps| > 0 && |qs| > 0 && (c in breaks || |ps| > 1)
    ensures Onto(c, Init(ps) + qs, breaks) == Init(Onto(c, ps, breaks)) + qs
    ensures Last(Onto(c, ps, breaks)) == Last(ps)
  {
    var t := Onto(c, ps, breaks);
    if c in breaks {
      assert Init(t) == [""] + Init(ps);
      assert [""] + (Init(ps) + qs) == [""] + Init(ps) + qs;
    } else {
      assert Init(t) == [[c] + ps[0]] + Init(ps)[1..];
      assert (Init(ps) + qs)[0] == ps[0] && (Init(ps) + qs)[1..] == Init(ps)[1..] + qs;
      assert [[c] + ps[0]] + (Init(ps)[1..] + qs) == [[c] + ps[0]] + Init(ps)[1..] + qs;
    }
  }

  lemma PiecesOnto(c: char, text: Bytes, breaks: set<char>)
    ensures Pieces([c] + text, breaks) == Onto(c, Pieces(text, breaks), breaks)
  {
    assert ([c] + text)[0] == c && ([c] + text)[1..] == text;
  }

  /** Cutting more text continues the last piece. */
  lemma {:induction false} PiecesConcat(a: Bytes, b: Bytes, breaks: set<char>)
    ensures Pieces(a + b, breaks) == Init(Pieces(a, breaks)) + Pieces(Last(Pieces(a, breaks)) + b, breaks)
  {
    if a == "" {
      assert a + b == b;
      assert Init([""]) == [] && "" + b == b;
    } else {
      var (c, rest) := (a[0], Pieces(a[1..], breaks));
      var q := Pieces(Last(rest) + b, breaks);
      PiecesConcat(a[1..], b, breaks);
      assert a + b == [c] + (a[1..] + b);
      PiecesOnto(c, a[1..] + b, breaks);
      assert Pieces(a + b, breaks) == Onto(c, Init(rest) + q, breaks);
      if c in breaks || |rest| > 1 {
        OntoMany(c, rest, q, breaks);
      } else {
        assert Init(rest) + q == q && Onto(c, rest, breaks) == [[c] + rest[0]];
        PiecesOnto(c, rest[0] + b, breaks);
        assert [c] + rest[0] + b == [c] + (rest[0] + b);
        assert Init([[c] + rest[0]]) == [];
      }
    }
  }

  /** The last piece holds no break, so it is its own only piece. */
  lemma {:induction false} PieceIsWhole(text: Bytes, breaks: set<char>)
    ensures forall c :: c in Last(Pieces(text, breaks)) ==> c !in breaks
    ensures forall p, c :: p in Pieces(text, breaks) && c in p ==> c !in breaks
  {
    if text != "" { PieceIsWhole(text[1..], breaks); }
  }

  lemma {:induction false} NoBreaks(text: Bytes, breaks: set<char>)
    requires forall c :: c in text ==> c !in breaks
    ensures Pieces(text, breaks) == [text]
  {
    if text != "" {
      NoBreaks(text[1..], breaks);
      assert text == [text[0]] + text[1..];
    }
  }

  /** A break separates completely. */
  lemma PiecesAcrossBreak(a: Bytes, br: char, b: Bytes, breaks: set<char>)
    requires br in breaks
    ensures Pieces(a + [br] + b, breaks) == Pieces(a, breaks) + Pieces(b, breaks)
  {
    var p := Pieces(a, breaks);
    PiecesConcat(a, [br] + b, breaks);
    assert a + [br] + b == a + ([br] + b);
    PieceIsWhole(a, breaks);
    StartsWithPiece(Last(p), br, b, breaks);
    assert Init(p) + ([Last(p)] + Pieces(b, breaks)) == p + Pieces(b, breaks);
  }

  lemma {:induction false} StartsWithPiece(a: Bytes, br: char, b: Bytes, breaks: set<char>)
    requires br in breaks && forall c :: c in a ==> c !in breaks
    ensures Pieces(a + ([br] + b), breaks) == [a] + Pieces(b, breaks)
  {
    var t := a + ([br] + b);
    if a == "" {
      assert t[0] == br && t[1..] == b;
    } else {
      assert t[0] == a[0] && t[1..] == a[1..] + ([br] + b);
      StartsWithPiece(a[1..], br, b, breaks);
      assert a == [a[0]] + a[1..];
    }
  }

  // ---------- whitespace ----------

  /** What str.strip removes and \S does not match, of the characters that fit a byte. */
  const SPACES: set<char> := {' ', '\t', '\n', '\r', '\U{0B}', '\U{0C}', '\U{1C}', '\U{1D}', '\U{1E}', '\U{1F}',
                             '\U{85}', '\U{A0}'}

  function Strip(s: Bytes): Bytes {
    if s == "" then ""
    else if s[0] in SPACES then Strip(s[1..])
    else if s[|s| - 1] in SPACES then Strip(s[..|s| - 1])
    else s
  }

  /** Stripping removes exactly the blanks around what is neither led nor ended by one. */
  lemma {:induction false} StripIs(s: Bytes) returns (a: Bytes, b: Bytes)
    ensures s == a + Strip(s) + b && forall c :: c in a + b ==> c in SPACES
    ensures Strip(s) != "" ==> Strip(s)[0] !in SPACES && Strip(s)[|Strip(s)| - 1] !in SPACES
    decreases |s|
  {
    if s == "" {
      a, b := "", "";
    } else if s[0] in SPACES {
      a, b := StripIs(s[1..]);
      a := [s[0]] + a;
    } else if s[|s| - 1] in SPACES {
      a, b := StripIs(s[..|s| - 1]);
      b := b + [s[|s| - 1]];
    } else {
      a, b := "", "";
    }
  }

  // ---------- records ----------

  /** How records are printed and parsed: json.dumps and json.loads. */
  datatype Codec<!R> = Codec(dumps: R -> Bytes, loads: Bytes -> Option<R>)

  /** Where str.splitlines cuts. */
  const BREAKS: set<char> :=
    {'\n', '\r', '\U{000B}', '\U{000C}', '\U{001C}', '\U{001D}', '\U{001E}', '\U{0085}', '\U{2028}', '\U{2029}'}

  /** What JSON promises of an object: it prints on one line without surrounding blanks, parses back, and no
      proper prefix of it parses. */
  ghost predicate Lawful<R(!new)>(c: Codec<R>) {
    forall r: R ::
      && c.dumps(r) != "" && Strip(c.dumps(r)) == c.dumps(r)
      && (forall ch :: ch in c.dumps(r) ==> ch !in BREAKS)
      && c.loads(c.dumps(r)) == Some(r)
      && forall n: nat :: n < |c.dumps(r)| ==> Strip(c.dumps(r)[..n]) == "" || c.loads(Strip(c.dumps(r)[..n])).None?
  }

  /** The records on some lines: blank lines and lines that do not parse are skipped. */
  function ParsePieces<R>(c: Codec<R>, ps: seq<Bytes>): seq<R> {
    if ps == [] then []
    else
      var before, line := ParsePieces(c, ps[..|ps| - 1]), Strip(ps[|ps| - 1]);
      if line != "" && c.loads(line).Some? then before + [c.loads(line).value] else before
  }

  lemma {:induction false} ParseAdds<R>(c: Codec<R>, a: seq<Bytes>, b: seq<Bytes>)
    ensures ParsePieces(c, a + b) == ParsePieces(c, a) + ParsePieces(c, b)
  {
    if b == [] {
      assert a + b == a;
    } else {
      var init := b[..|b| - 1];
      assert (a + b)[..|a + b| - 1] == a + init;
      ParseAdds(c, a, init);
    }
  }
}
