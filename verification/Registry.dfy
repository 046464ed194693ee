/** Moving settled entries out of the registry as text (scripts/prune_settled_registry.py: split and the
    rebuild in main). An entry starts at a line "- id: x"; the text is handled line by line, each line with
    its newline. */
module Registry {
  import opened Core
  import opened Text

  type Lines = seq<Bytes>

  function Concat(ls: Lines): Bytes {
    if ls == [] then "" else ls[0] + Concat(ls[1..])
  }

  /** The end of the first line: after its newline, or of the text. */
  function LineEnd(text: Bytes): (n: nat)
    ensures n <= |text| && (text != "" ==> n > 0)
  {
    if text == "" then 0 else if text[0] == '\n' then 1 else 1 + LineEnd(text[1..])
  }

  function KeepLines(text: Bytes): Lines
    decreases |text|
  {
    if text == "" then [] else [text[..LineEnd(text)]] + KeepLines(text[LineEnd(text)..])
  }

  predicate Closed(line: Bytes) {
    line != "" && line[|line| - 1] == '\n'
  }

  /** One line: no newline except at the end. */
  predicate OneLine(line: Bytes) {
    line != "" && forall i :: 0 <= i < |line| - 1 ==> line[i] != '\n'
  }

  /** Lines of a text: only the last may lack its newline. */
  predicate Proper(ls: Lines) {
    && (forall k :: 0 <= k < |ls| ==> OneLine(ls[k]))
    && (forall k :: 0 <= k < |ls| - 1 ==> Closed(ls[k]))
  }

  const MARK := "- id:"

  function SkipSpaces(s: Bytes): Bytes {
    if s != "" && s[0] == ' ' then SkipSpaces(s[1..]) else s
  }

  function Word(s: Bytes): Bytes {
    if s == "" || s[0] in SPACES then "" else [s[0]] + Word(s[1..])
  }

  /** The id of an entry's first line. */
  function IdOf(line: Bytes): Option<Bytes> {
    if |line| < |MARK| || line[..|MARK|] != MARK then None
    else
      var id := Word(SkipSpaces(line[|MARK|..]));
      if id == "" then None else Some(id)
  }

  lemma {:induction false} SkipSplits(s: Bytes) returns (spaces: Bytes)
    ensures s == spaces + SkipSpaces(s) && (forall ch :: ch in spaces ==> ch == ' ')
    ensures SkipSpaces(s) != "" ==> SkipSpaces(s)[0] != ' '
  {
    if s != "" && s[0] == ' ' {
      spaces := SkipSplits(s[1..]);
      spaces := " " + spaces;
    } else {
      spaces := "";
    }
  }

  lemma {:induction false} WordSplits(s: Bytes) returns (rest: Bytes)
    ensures s == Word(s) + rest && (forall ch :: ch in Word(s) ==> ch !in SPACES)
    ensures rest != "" ==> rest[0] in SPACES
  {
    if s == "" || s[0] in SPACES {
      rest := s;
    } else {
      rest := WordSplits(s[1..]);
    }
  }

  /** A line starts an entry exactly when it begins with the mark and something other than blanks follows before
      anything else; the id is the first word, after any spaces and up to the next blank. */
  lemma {:induction false} IdOfIs(line: Bytes) returns (spaces: Bytes, word: Bytes, rest: Bytes)
    ensures MARK <= line ==>
      && line == "- id:" + spaces + word + rest
      && (forall ch :: ch in spaces ==> ch == ' ') && (forall ch :: ch in word ==> ch !in SPACES)
      && (rest != "" ==> rest[0] in SPACES) && (word == "" && rest != "" ==> rest[0] != ' ')
    ensures IdOf(line) == if MARK <= line && word != "" then Some(word) else None
  {
    spaces, word, rest := "", "", "";
    if MARK <= line {
      var s := line[|MARK|..];
      spaces := SkipSplits(s);
      word := Word(SkipSpaces(s));
      rest := WordSplits(SkipSpaces(s));
      assert line == MARK + s;
    }
  }

  /** How many lines precede the first entry. */
  function Lead(ls: Lines): (n: nat)
    ensures n <= |ls|
  {
    if ls == [] || IdOf(ls[0]).Some? then 0 else 1 + Lead(ls[1..])
  }

  /** Lines from the first entry on, one group an entry. */
  function Groups(ls: Lines): seq<Lines>
    decreases |ls|
  {
    if ls == [] then []
    else
      var n := 1 + Lead(ls[1..]);
      [ls[..n]] + Groups(ls[n..])
  }

  datatype Entry = Entry(id: Bytes, text: Bytes)

  datatype Document = Document(header: Bytes, entries: seq<Entry>)

  function EntryOf(g: Lines): Entry {
    Entry(if g != [] && IdOf(g[0]).Some? then IdOf(g[0]).value else "", Concat(g))
  }

  function Entries(gs: seq<Lines>): seq<Entry> {
    if gs == [] then [] else [EntryOf(gs[0])] + Entries(gs[1..])
  }

  function Split(text: Bytes): Document {
    var ls := KeepLines(text);
    Document(Concat(ls[..Lead(ls)]), Entries(Groups(ls[Lead(ls)..])))
  }

  function Texts(es: seq<Entry>): Bytes {
    if es == [] then "" else es[0].text + Texts(es[1..])
  }

  /** The entries whose membership in the move set is as asked. */
  function Select(es: seq<Entry>, move: set<Bytes>, moved: bool): seq<Entry> {
    if es == [] then []
    else if (es[0].id in move) == moved then [es[0]] + Select(es[1..], move, moved)
    else Select(es[1..], move, moved)
  }

  // ---------- lines ----------

  lemma {:induction false} LineEndIsLine(text: Bytes)
    requires text != ""
    ensures OneLine(text[..LineEnd(text)]) && (LineEnd(text) < |text| ==> Closed(text[..LineEnd(text)]))
  {
    if text[0] != '\n' && |text| > 1 {
      LineEndIsLine(text[1..]);
      assert text[..LineEnd(text)] == [text[0]] + text[1..][..LineEnd(text[1..])];
    }
  }

  lemma ProperPrepend(line: Bytes, rest: Lines)
    requires OneLine(line) && Proper(rest) && (rest != [] ==> Closed(line))
    ensures Proper([line] + rest)
  {
    var ls := [line] + rest;
    forall k | 0 <= k < |ls| ensures OneLine(ls[k]) { if k > 0 { assert ls[k] == rest[k - 1]; } }
    forall k | 0 <= k < |ls| - 1 ensures Closed(ls[k]) { if k > 0 { assert ls[k] == rest[k - 1]; } }
  }

  lemma ConcatPrepend(line: Bytes, rest: Lines)
    ensures Concat([line] + rest) == line + Concat(rest)
  {
    assert ([line] + rest)[1..] == rest;
  }

  lemma {:induction false} LinesAreProper(text: Bytes)
    ensures Proper(KeepLines(text))
    decreases |text|
  {
    if text != "" {
      LineEndIsLine(text);
      LinesAreProper(text[LineEnd(text)..]);
      ProperPrepend(text[..LineEnd(text)], KeepLines(text[LineEnd(text)..]));
    }
  }

  lemma {:induction false} LinesAreAll(text: Bytes)
    ensures Concat(KeepLines(text)) == text
    decreases |text|
  {
    if text != "" {
      LinesAreAll(text[LineEnd(text)..]);
      ConcatPrepend(text[..LineEnd(text)], KeepLines(text[LineEnd(text)..]));
    }
  }

  lemma {:induction false} LineEndFound(line: Bytes, rest: Bytes)
    requires OneLine(line) && (Closed(line) || rest == "")
    ensures LineEnd(line + rest) == |line|
  {
    var t := line + rest;
    if |line| == 1 {
      assert t[0] == line[0];
      assert rest == "" ==> t[1..] == "";
    } else {
      assert t[0] == line[0] && t[1..] == line[1..] + rest;
      LineEndFound(line[1..], rest);
    }
  }

  /** Reading back the lines of a concatenation. */
  lemma {:induction false} LinesOfConcat(ls: Lines)
    requires Proper(ls)
    ensures KeepLines(Concat(ls)) == ls
  {
    if ls != [] {
      var rest := Concat(ls[1..]);
      assert Closed(ls[0]) || rest == "";
      LineEndFound(ls[0], rest);
      assert forall k :: 0 <= k < |ls[1..]| ==> ls[1..][k] == ls[k + 1];
      LinesOfConcat(ls[1..]);
      assert Concat(ls)[..|ls[0]|] == ls[0] && Concat(ls)[|ls[0]|..] == rest;
    }
  }

  lemma {:induction false} ConcatAdds(a: Lines, b: Lines)
    ensures Concat(a + b) == Concat(a) + Concat(b)
  {
    if a == [] {
      assert a + b == b;
    } else {
      assert (a + b)[1..] == a[1..] + b;
      ConcatAdds(a[1..], b);
    }
  }

  // ---------- groups ----------

  function Flatten(gs: seq<Lines>): Lines {
    if gs == [] then [] else gs[0] + Flatten(gs[1..])
  }

  /** An entry's first line, then lines that start no entry. */
  predicate IsGroup(g: Lines) {
    g != [] && IdOf(g[0]).Some? && forall k :: 0 < k < |g| ==> IdOf(g[k]).None?
  }

  predicate AreGroups(gs: seq<Lines>) {
    forall k :: 0 <= k < |gs| ==> IsGroup(gs[k])
  }

  lemma {:induction false} LeadIsLead(ls: Lines)
    ensures forall k :: 0 <= k < Lead(ls) ==> IdOf(ls[k]).None?
    ensures Lead(ls) < |ls| ==> IdOf(ls[Lead(ls)]).Some?
  {
    if ls != [] && IdOf(ls[0]).None? {
      LeadIsLead(ls[1..]);
      assert forall k :: 0 < k < |ls| ==> ls[k] == ls[1..][k - 1];
    }
  }

  lemma {:induction false} LeadFound(a: Lines, b: Lines)
    requires (forall k :: 0 <= k < |a| ==> IdOf(a[k]).None?) && (b == [] || IdOf(b[0]).Some?)
    ensures Lead(a + b) == |a|
  {
    if a == [] {
      assert a + b == b;
    } else {
      assert (a + b)[0] == a[0] && (a + b)[1..] == a[1..] + b;
      LeadFound(a[1..], b);
    }
  }

  lemma FirstGroup(ls: Lines)
    requires ls != [] && IdOf(ls[0]).Some?
    ensures var n := 1 + Lead(ls[1..]);
      n <= |ls| && IsGroup(ls[..n]) && ls == ls[..n] + ls[n..] && (ls[n..] != [] ==> IdOf(ls[n..][0]).Some?)
  {
    var n := 1 + Lead(ls[1..]);
    LeadIsLead(ls[1..]);
    forall k | 0 < k < n ensures IdOf(ls[..n][k]).None? { assert ls[..n][k] == ls[1..][k - 1]; }
    assert ls[..n][0] == ls[0];
    if n < |ls| { assert ls[n..][0] == ls[n] == ls[1..][n - 1]; }
  }

  lemma GroupsPrepend(g: Lines, gs: seq<Lines>)
    requires IsGroup(g) && AreGroups(gs)
    ensures AreGroups([g] + gs) && Flatten([g] + gs) == g + Flatten(gs)
  {
    var all := [g] + gs;
    assert all[1..] == gs;
    forall k | 0 <= k < |all| ensures IsGroup(all[k]) { if k > 0 { assert all[k] == gs[k - 1]; } }
  }

  lemma {:induction false} GroupsAreGroups(ls: Lines)
    requires ls != [] ==> IdOf(ls[0]).Some?
    ensures AreGroups(Groups(ls)) && Flatten(Groups(ls)) == ls
    decreases |ls|
  {
    if ls != [] {
      var n := 1 + Lead(ls[1..]);
      FirstGroup(ls);
      GroupsAreGroups(ls[n..]);
      GroupsPrepend(ls[..n], Groups(ls[n..]));
    }
  }

  lemma FlattenStarts(gs: seq<Lines>)
    requires AreGroups(gs)
    ensures Flatten(gs) != [] ==> IdOf(Flatten(gs)[0]).Some?
  {
    if gs != [] { assert IsGroup(gs[0]); }
  }

  lemma AreGroupsTail(gs: seq<Lines>)
    requires AreGroups(gs) && gs != []
    ensures AreGroups(gs[1..]) && IsGroup(gs[0]) && Flatten(gs) == gs[0] + Flatten(gs[1..])
  {
    forall k | 0 <= k < |gs[1..]| ensures IsGroup(gs[1..][k]) { assert gs[1..][k] == gs[k + 1]; }
  }

  lemma GroupFound(g: Lines, rest: Lines)
    requires IsGroup(g) && (rest != [] ==> IdOf(rest[0]).Some?)
    ensures Groups(g + rest) == [g] + Groups(rest)
  {
    var ls := g + rest;
    assert ls[1..] == g[1..] + rest;
    forall k | 0 <= k < |g[1..]| ensures IdOf(g[1..][k]).None? { assert g[1..][k] == g[k + 1]; }
    LeadFound(g[1..], rest);
    assert ls[..|g|] == g && ls[|g|..] == rest;
  }

  /** Regrouping what was flattened. */
  lemma {:induction false} GroupsOfFlatten(gs: seq<Lines>)
    requires AreGroups(gs)
    ensures Groups(Flatten(gs)) == gs
  {
    if gs != [] {
      var rest := gs[1..];
      AreGroupsTail(gs);
      GroupsOfFlatten(rest);
      FlattenStarts(rest);
      GroupFound(gs[0], Flatten(rest));
      assert gs == [gs[0]] + rest;
    }
  }

  predicate NoIds(ls: Lines) {
    forall k :: 0 <= k < |ls| ==> IdOf(ls[k]).None?
  }

  /** The pieces of a registry text: its header lines and its entries' lines. */
  ghost predicate Parts(text: Bytes, head: Lines, gs: seq<Lines>) {
    && AreGroups(gs) && NoIds(head)
    && Proper(head + Flatten(gs)) && Concat(head + Flatten(gs)) == text
  }

  lemma PartsSplit(text: Bytes, head: Lines, gs: seq<Lines>)
    requires Parts(text, head, gs)
    ensures Split(text) == Document(Concat(head), Entries(gs))
  {
    var ls := head + Flatten(gs);
    LinesOfConcat(ls);
    FlattenStarts(gs);
    LeadFound(head, Flatten(gs));
    assert ls[..|head|] == head && ls[|head|..] == Flatten(gs);
    GroupsOfFlatten(gs);
  }

  lemma LeadCuts(ls: Lines)
    ensures var (head, rest) := (ls[..Lead(ls)], ls[Lead(ls)..]);
      NoIds(head) && head + rest == ls && (rest != [] ==> IdOf(rest[0]).Some?)
  {
    LeadIsLead(ls);
  }

  /** Cutting lines at the first entry, and the rest into groups. */
  lemma CutLines(ls: Lines) returns (head: Lines, rest: Lines)
    ensures head == ls[..Lead(ls)] && rest == ls[Lead(ls)..]
    ensures AreGroups(Groups(rest)) && head + Flatten(Groups(rest)) == ls && NoIds(head)
  {
    LeadCuts(ls);
    head, rest := ls[..Lead(ls)], ls[Lead(ls)..];
    GroupsAreGroups(rest);
  }

  lemma PartsOf(text: Bytes) returns (head: Lines, gs: seq<Lines>)
    ensures Parts(text, head, gs)
  {
    var ls := KeepLines(text);
    LinesAreProper(text);
    LinesAreAll(text);
    var rest;
    head, rest := CutLines(ls);
    gs := Groups(rest);
  }

  lemma {:induction false} TextsOfEntries(gs: seq<Lines>)
    ensures Texts(Entries(gs)) == Concat(Flatten(gs)) && |Entries(gs)| == |gs|
  {
    if gs != [] {
      TextsOfEntries(gs[1..]);
      ConcatAdds(gs[0], Flatten(gs[1..]));
      assert Entries(gs)[1..] == Entries(gs[1..]);
    }
  }

  /** The split loses nothing. */
  lemma SplitIsLossless(text: Bytes)
    ensures Split(text).header + Texts(Split(text).entries) == text
  {
    var head, gs := PartsOf(text);
    PartsSplit(text, head, gs);
    TextsOfEntries(gs);
    ConcatAdds(head, Flatten(gs));
  }

  // ---------- moving entries ----------

  function Chosen(gs: seq<Lines>, move: set<Bytes>, moved: bool): seq<Lines> {
    if gs == [] then []
    else if (EntryOf(gs[0]).id in move) == moved then [gs[0]] + Chosen(gs[1..], move, moved)
    else Chosen(gs[1..], move, moved)
  }

  lemma {:induction false} ChosenEntries(gs: seq<Lines>, move: set<Bytes>, moved: bool)
    ensures Entries(Chosen(gs, move, moved)) == Select(Entries(gs), move, moved)
  {
    if gs != [] {
      ChosenEntries(gs[1..], move, moved);
      assert Entries(gs)[1..] == Entries(gs[1..]);
      var c := Chosen(gs, move, moved);
      if (EntryOf(gs[0]).id in move) == moved { assert c[1..] == Chosen(gs[1..], move, moved); }
    }
  }

  lemma ProperAdds(a: Lines, b: Lines)
    ensures Proper(a + b) <==> Proper(a) && Proper(b) && (b != [] && a != [] ==> Closed(a[|a| - 1]))
  {
    if Proper(a + b) {
      assert forall k :: 0 <= k < |a| ==> a[k] == (a + b)[k];
      assert forall k :: 0 <= k < |b| ==> b[k] == (a + b)[|a| + k];
    }
    if Proper(a) && Proper(b) && (b != [] && a != [] ==> Closed(a[|a| - 1])) {
      assert forall k :: |a| <= k < |a + b| ==> (a + b)[k] == b[k - |a|];
    }
  }

  lemma ChosenFirst(gs: seq<Lines>, move: set<Bytes>, moved: bool)
    requires gs != []
    ensures var rest := Chosen(gs[1..], move, moved);
      Chosen(gs, move, moved) == if (EntryOf(gs[0]).id in move) == moved then [gs[0]] + rest else rest
  {}

  lemma ProperSkips(a: Lines, g: Lines, b: Lines)
    requires Proper(a + g + b) && g != []
    ensures Proper(a + b)
  {
    ProperAdds(a + g, b);
    ProperAdds(a, g);
    ProperAdds(a, b);
  }

  /** Dropping entries leaves proper lines: only the very last line may lack its newline, and it stays last
      or goes. */
  lemma {:induction false} ChosenIsProper(head: Lines, gs: seq<Lines>, move: set<Bytes>, moved: bool)
    requires AreGroups(gs) && Proper(head + Flatten(gs))
    ensures AreGroups(Chosen(gs, move, moved)) && Proper(head + Flatten(Chosen(gs, move, moved)))
    decreases |gs|
  {
    if gs == [] {
      assert Chosen(gs, move, moved) == gs;
    } else {
      var (g, rest) := (gs[0], gs[1..]);
      AreGroupsTail(gs);
      ChosenFirst(gs, move, moved);
      Associates(head, g, Flatten(rest));
      if (EntryOf(g).id in move) == moved {
        ChosenIsProper(head + g, rest, move, moved);
        GroupsPrepend(g, Chosen(rest, move, moved));
        Associates(head, g, Flatten(Chosen(rest, move, moved)));
      } else {
        ProperSkips(head, g, Flatten(rest));
        ChosenIsProper(head, rest, move, moved);
      }
    }
  }

  /** What main writes back. */
  function KeptText(text: Bytes, move: set<Bytes>): Bytes {
    Split(text).header + Texts(Select(Split(text).entries, move, false))
  }

  function MovedText(text: Bytes, move: set<Bytes>): Bytes {
    Texts(Select(Split(text).entries, move, true))
  }

  /** Removing entries is stable: for any move set, the text written back splits into the same header and
      exactly the kept entries, in order and unchanged. */
  lemma KeptIsStable(text: Bytes, move: set<Bytes>)
    ensures Split(KeptText(text, move)) == Document(Split(text).header, Select(Split(text).entries, move, false))
  {
    var head, gs := PartsOf(text);
    PartsSplit(text, head, gs);
    var c := Chosen(gs, move, false);
    ChosenIsProper(head, gs, move, false);
    ChosenEntries(gs, move, false);
    TextsOfEntries(c);
    ConcatAdds(head, Flatten(c));
    PartsSplit(KeptText(text, move), head, c);
  }

  /** Kept and moved entries partition the registry's, each entry in one of them byte for byte. */
  lemma {:induction false} SelectPartitions(es: seq<Entry>, move: set<Bytes>)
    ensures multiset(es) == multiset(Select(es, move, false)) + multiset(Select(es, move, true))
    ensures forall e :: e in Select(es, move, false) ==> e.id !in move
    ensures forall e :: e in Select(es, move, true) ==> e.id in move
  {
    if es != [] {
      assert es == [es[0]] + es[1..];
      SelectPartitions(es[1..], move);
    }
  }

  /** What has been moved is gone: moving the same set again changes nothing. */
  lemma MovingAgainIsIdle(text: Bytes, move: set<Bytes>)
    ensures KeptText(KeptText(text, move), move) == KeptText(text, move) && MovedText(KeptText(text, move), move) == ""
  {
    KeptIsStable(text, move);
    SelectTwice(Split(text).entries, move);
  }

  lemma {:induction false} SelectTwice(es: seq<Entry>, move: set<Bytes>)
    ensures Select(Select(es, move, false), move, false) == Select(es, move, false)
    ensures Select(Select(es, move, false), move, true) == []
  {
    if es != [] {
      SelectTwice(es[1..], move);
      var kept := Select(es, move, false);
      if es[0].id !in move { assert kept[0] == es[0] && kept[1..] == Select(es[1..], move, false); }
    }
  }

  // ---------- the archive ----------

  predicate EndsALine(text: Bytes) {
    text == "" || text[|text| - 1] == '\n'
  }

  lemma {:induction false} LastOfConcat(ls: Lines)
    requires Proper(ls) && ls != []
    ensures Concat(ls) != "" && Concat(ls)[|Concat(ls)| - 1] == ls[|ls| - 1][|ls[|ls| - 1]| - 1]
  {
    var init, last := ls[..|ls| - 1], ls[|ls| - 1];
    assert ls == init + [last];
    ConcatAdds(init, [last]);
    assert Concat([last]) == last + Concat([last][1..]);
  }

  lemma {:induction false} EntriesAdd(a: seq<Lines>, b: seq<Lines>)
    ensures Entries(a + b) == Entries(a) + Entries(b)
  {
    if a == [] {
      assert a + b == b;
    } else {
      assert (a + b)[1..] == a[1..] + b;
      EntriesAdd(a[1..], b);
    }
  }

  lemma {:induction false} FlattenAdds(a: seq<Lines>, b: seq<Lines>)
    ensures Flatten(a + b) == Flatten(a) + Flatten(b)
  {
    if a == [] {
      assert a + b == b;
    } else {
      assert (a + b)[1..] == a[1..] + b;
      FlattenAdds(a[1..], b);
    }
  }

  lemma LinesJoin(a: Lines, b: Lines)
    requires Proper(a) && Proper(b) && EndsALine(Concat(a))
    ensures Proper(a + b)
  {
    if a != [] { LastOfConcat(a); }
    ProperAdds(a, b);
  }

  lemma {:induction false} PartsJoin(archive: Bytes, head: Lines, gs: seq<Lines>, c: seq<Lines>)
    requires Parts(archive, head, gs) && EndsALine(archive) && AreGroups(c) && Proper(Flatten(c))
    ensures Parts(archive + Concat(Flatten(c)), head, gs + c)
  {
    var ls := head + Flatten(gs);
    LinesJoin(ls, Flatten(c));
    FlattenAdds(gs, c);
    Associates(head, Flatten(gs), Flatten(c));
    ConcatAdds(ls, Flatten(c));
  }

  lemma {:induction false} MovedParts(text: Bytes, move: set<Bytes>) returns (c: seq<Lines>)
    ensures AreGroups(c) && Proper(Flatten(c))
    ensures Entries(c) == Select(Split(text).entries, move, true) && MovedText(text, move) == Concat(Flatten(c))
  {
    var head, gs := PartsOf(text);
    PartsSplit(text, head, gs);
    ProperAdds(head, Flatten(gs));
    c := Chosen(gs, move, true);
    assert [] + Flatten(gs) == Flatten(gs) && [] + Flatten(c) == Flatten(c);
    ChosenIsProper([], gs, move, true);
    ChosenEntries(gs, move, true);
    TextsOfEntries(c);
  }

  lemma ArchiveAppends(archive: Bytes, text: Bytes, move: set<Bytes>)
    requires EndsALine(archive)
    ensures Split(archive + MovedText(text, move)) ==
      Split(archive).(entries := Split(archive).entries + Select(Split(text).entries, move, true))
  {
    var c := MovedParts(text, move);
    var head, gs := PartsOf(archive);
    PartsSplit(archive, head, gs);
    PartsJoin(archive, head, gs, c);
    PartsSplit(archive + Concat(Flatten(c)), head, gs + c);
    EntriesAdd(gs, c);
  }

  lemma PrefixOfLines(a: Lines, b: Lines)
    requires Proper(a + b) && b != []
    ensures EndsALine(Concat(a))
  {
    ProperAdds(a, b);
    if a != [] { LastOfConcat(a); }
  }

  lemma Associates(a: Lines, b: Lines, c: Lines)
    ensures a + (b + c) == a + b + c
  {}

  lemma PrefixOfParts(head: Lines, a: seq<Lines>, b: seq<Lines>)
    requires AreGroups(b) && b != [] && Proper(head + Flatten(a + b))
    ensures EndsALine(Concat(head + Flatten(a)))
  {
    FlattenAdds(a, b);
    Associates(head, Flatten(a), Flatten(b));
    assert IsGroup(b[0]);
    PrefixOfLines(head + Flatten(a), Flatten(b));
  }

  lemma PartsPrefix(text: Bytes, head: Lines, gs: seq<Lines>, n: nat)
    requires Parts(text, head, gs) && n < |gs|
    ensures |Entries(gs)| == |gs| && EndsALine(Concat(head) + Texts(Entries(gs)[..n]))
  {
    var (a, b) := (gs[..n], gs[n..]);
    assert gs == a + b;
    EntriesPrefix(a, b);
    TextsOfEntries(a);
    PrefixOfParts(head, a, b);
    ConcatAdds(head, Flatten(a));
  }

  /** The lines up to an entry boundary end a line. */
  lemma PrefixEndsALine(text: Bytes, n: nat)
    requires n < |Split(text).entries|
    ensures EndsALine(Split(text).header + Texts(Split(text).entries[..n]))
  {
    var head, gs := PartsOf(text);
    PartsSplit(text, head, gs);
    TextsOfEntries(gs);
    PartsPrefix(text, head, gs, n);
  }

  lemma EntriesPrefix(a: seq<Lines>, b: seq<Lines>)
    ensures |Entries(a)| == |a| && |Entries(a + b)| == |a| + |b| && Entries(a + b)[..|a|] == Entries(a)
  {
    EntriesAdd(a, b);
    TextsOfEntries(a);
    TextsOfEntries(b);
  }

  /** The archive gains exactly the moved entries if and only if its text ended a line, or nothing moves:
      onto an unfinished last line the first moved entry is welded. */
  lemma ArchivedIff(archive: Bytes, text: Bytes, move: set<Bytes>)
    ensures Split(archive + MovedText(text, move)) ==
      Split(archive).(entries := Split(archive).entries + Select(Split(text).entries, move, true))
      <==> EndsALine(archive) || Select(Split(text).entries, move, true) == []
  {
    var (moved, whole) := (Select(Split(text).entries, move, true), archive + MovedText(text, move));
    if EndsALine(archive) {
      ArchiveAppends(archive, text, move);
    } else if moved == [] {
      assert whole == archive && Split(archive).entries + moved == Split(archive).entries;
    } else if Split(whole) == Split(archive).(entries := Split(archive).entries + moved) {
      var n := |Split(archive).entries|;
      SplitIsLossless(archive);
      assert Split(whole).entries[..n] == Split(archive).entries;
      PrefixEndsALine(whole, n);
    }
  }

  const HEADER := "relationships:\n"

  lemma ConcatOne(line: Bytes)
    ensures Concat([line]) == line
  {
    assert [line][1..] == [];
  }

  lemma NoGroups(gs: seq<Lines>)
    requires gs == []
    ensures Flatten(gs) == [] && Entries(gs) == []
  {}

  lemma OneGroup(g: Lines)
    ensures Flatten([g]) == g && Entries([g]) == [EntryOf(g)]
  {
    var gs := [g];
    NoGroups(gs[1..]);
    assert Flatten(gs) == g + Flatten(gs[1..]) && Entries(gs) == [EntryOf(g)] + Entries(gs[1..]);
  }

  /** A file of the header and one entry. */
  lemma OneEntry(line: Bytes)
    requires OneLine(line) && IdOf(line).Some?
    ensures Split(HEADER + line) == Document(HEADER, [Entry(IdOf(line).value, line)])
  {
    var gs := [[line]];
    assert HEADER[..|MARK|] != MARK by { assert HEADER[0] == 'r'; }
    OneGroup([line]);
    assert NoIds([HEADER]);
    ConcatOne(line);
    ConcatOne(HEADER);
    ConcatAdds([HEADER], [line]);
    assert [HEADER] + Flatten(gs) == [HEADER, line] == [HEADER] + [line];
    assert Proper([HEADER, line]);
    assert IsGroup(gs[0]);
    PartsSplit(HEADER + line, [HEADER], gs);
  }

  lemma Ids()
    ensures OneLine("- id: a\n") && IdOf("- id: a\n") == Some("a")
    ensures OneLine("- id: b") && IdOf("- id: b") == Some("b")
  {
    var (x, y) := (" a\n", " b");
    assert x[1..] == "a\n" && y[1..] == "b";
    assert "a\n"[0] == 'a' && SkipSpaces("a\n") == "a\n" && SkipSpaces(x) == "a\n";
    assert "b"[0] == 'b' && SkipSpaces("b") == "b" && SkipSpaces(y) == "b";
    assert "a\n"[1..] == "\n" && '\n' in SPACES && Word("\n") == "" && Word("a\n") == ['a'] + "";
    assert "b"[1..] == "" && Word("") == "" && Word("b") == ['b'] + "";
    assert Word("a\n") == "a" && Word("b") == "b";
    assert "- id: a\n"[..|MARK|] == MARK && "- id: a\n"[|MARK|..] == x;
    assert "- id: b"[..|MARK|] == MARK && "- id: b"[|MARK|..] == y;
  }

  /** An archive whose last entry lacks its newline welds: the moved entry becomes part of that entry. */
  lemma UnfinishedArchiveWelds() returns (archive: Bytes, text: Bytes, move: set<Bytes>)
    ensures Split(text).header == HEADER && Split(archive).header == HEADER
    ensures Split(archive).entries == [Entry("b", "- id: b")]
    ensures Select(Split(text).entries, move, true) == [Entry("a", "- id: a\n")]
    ensures Split(archive + MovedText(text, move)) !=
      Split(archive).(entries := Split(archive).entries + Select(Split(text).entries, move, true))
  {
    archive, text, move := HEADER + "- id: b", HEADER + "- id: a\n", {"a"};
    Ids();
    OneEntry("- id: a\n");
    OneEntry("- id: b");
    var es := [Entry("a", "- id: a\n")];
    assert es[1..] == [] && Select(es, move, true) == [es[0]] + Select(es[1..], move, true);
    assert archive[|archive| - 1] == 'b';
    ArchivedIff(archive, text, move);
  }
}
