/**
 The migration scanner (internal/store/migrate.go): a script is cut at every
 semicolon outside comments and string literals. The source jumps from the start
 of a comment or literal to its end; the reference here is an automaton that
 takes one character at a time.
 */
module SqlScanner {

  // ---------------------------------------------------------------------
  // One character at a time
  // ---------------------------------------------------------------------

  /** Opening is at the '*' of a block comment's opener, Closing at the '/' of its end. */
  datatype Mode = Code | Line | Opening | Block | Closing | Literal

  predicate Is(script: string, i: int, c: char) {
    0 <= i < |script| && script[i] == c
  }

  predicate Pair(script: string, i: int, c: char, d: char) {
    Is(script, i, c) && Is(script, i + 1, d)
  }

  function After(mode: Mode, script: string, i: nat): Mode
    requires i < |script|
  {
    match mode
    case Code =>
      if Pair(script, i, '-', '-') then Line
      else if Pair(script, i, '/', '*') then Opening
      else if script[i] == '\'' then Literal
      else Code
    case Line => if script[i] == '\n' then Code else Line
    case Opening => Block
    case Block => if Pair(script, i, '*', '/') then Closing else Block
    case Closing => Code
    case Literal => if script[i] == '\'' then Code else Literal
  }

  /** The mode the character at i is read in. */
  function ModeAt(script: string, i: nat): Mode
    requires i <= |script|
  {
    if i == 0 then Code else After(ModeAt(script, i - 1), script, i - 1)
  }

  /** A semicolon that ends a statement. */
  predicate Cut(script: string, i: nat)
    requires i < |script|
  {
    script[i] == ';' && ModeAt(script, i) == Code
  }

  /** The cuts before i, in order. */
  function Cuts(script: string, i: nat): seq<nat>
    requires i <= |script|
  {
    if i == 0 then []
    else Cuts(script, i - 1) + if Cut(script, i - 1) then [i - 1] else []
  }

  /** The untrimmed pieces finished before i, and where the piece in progress starts. */
  datatype Progress = Progress(pieces: seq<string>, start: nat)

  function Scan(script: string, i: nat): (p: Progress)
    requires i <= |script|
    ensures p.start <= i
  {
    if i == 0 then Progress([], 0)
    else
      var p := Scan(script, i - 1);
      if Cut(script, i - 1) then Progress(p.pieces + [script[p.start..i - 1]], i) else p
  }

  function Pieces(script: string): seq<string> {
    var p := Scan(script, |script|);
    p.pieces + [script[p.start..]]
  }

  // ---------------------------------------------------------------------
  // Trimming
  // ---------------------------------------------------------------------

  /** Unicode white space, as strings.TrimSpace has it. */
  predicate Space(c: char) {
    var n := c as int;
    || 9 <= n <= 13 || n == 0x20 || n == 0x85 || n == 0xA0 || n == 0x1680 || 0x2000 <= n <= 0x200A
    || n == 0x2028 || n == 0x2029 || n == 0x202F || n == 0x205F || n == 0x3000
  }

  function Trim(s: string): string {
    if s == "" then ""
    else if Space(s[0]) then Trim(s[1..])
    else if Space(s[|s| - 1]) then Trim(s[..|s| - 1])
    else s
  }

  /** The trimmed pieces that are not empty. */
  function Clean(pieces: seq<string>): seq<string> {
    if pieces == [] then []
    else Clean(pieces[..|pieces| - 1]) + Statement(pieces[|pieces| - 1])
  }

  function Statement(piece: string): seq<string> {
    if Trim(piece) == "" then [] else [Trim(piece)]
  }

  lemma CleanNext(pieces: seq<string>, piece: string)
    ensures Clean(pieces + [piece]) == Clean(pieces) + Statement(piece)
  {
    assert (pieces + [piece])[..|pieces|] == pieces;
  }

  /** A statement is dropped exactly when it is nothing but white space. */
  lemma {:induction false} TrimEmptyExactly(s: string)
    ensures Trim(s) == "" <==> forall c :: c in s ==> Space(c)
  {
    if s != "" {
      var n := |s| - 1;
      if Space(s[0]) {
        assert s == [s[0]] + s[1..];
        TrimEmptyExactly(s[1..]);
      } else if Space(s[n]) {
        assert s == s[..n] + [s[n]];
        TrimEmptyExactly(s[..n]);
      }
    }
  }

  // ---------------------------------------------------------------------
  // What the jumps skip
  // ---------------------------------------------------------------------

  lemma {:induction false} NothingCut(script: string, i: nat, j: nat)
    requires i <= j <= |script| && forall k :: i <= k < j ==> !Cut(script, k)
    ensures Scan(script, j) == Scan(script, i)
  {
    if i < j {
      NothingCut(script, i, j - 1);
    }
  }

  /** From i on, the mode stays as it is while nothing ends it. */
  lemma {:induction false} Stays(script: string, mode: Mode, i: nat, j: nat)
    requires i <= j <= |script| && ModeAt(script, i) == mode && mode != Code
    requires forall k :: i <= k < j ==> After(mode, script, k) == mode
    ensures forall k :: i <= k <= j ==> ModeAt(script, k) == mode
    ensures Scan(script, j) == Scan(script, i)
  {
    if i < j {
      Stays(script, mode, i, j - 1);
    }
    NothingCut(script, i, j);
  }

  /** One character that is not a cut. */
  lemma Passed(script: string, i: nat)
    requires i < |script| && !Cut(script, i)
    ensures Scan(script, i + 1) == Scan(script, i) && ModeAt(script, i + 1) == After(ModeAt(script, i), script, i)
  {
  }

  /** One semicolon that is. */
  lemma Taken(script: string, i: nat)
    requires i < |script| && Cut(script, i)
    ensures Found(script, i + 1) == Found(script, i) + Statement(script[Start(script, i)..i])
    ensures Start(script, i + 1) == i + 1 && ModeAt(script, i + 1) == Code
  {
    var p := Scan(script, i);
    CleanNext(p.pieces, script[p.start..i]);
  }

  /** The statements finished before i, and the start of the one in progress. */
  function Found(script: string, i: nat): seq<string>
    requires i <= |script|
  {
    Clean(Scan(script, i).pieces)
  }

  function Start(script: string, i: nat): (s: nat)
    requires i <= |script|
    ensures s <= i
  {
    Scan(script, i).start
  }

  lemma Finished(script: string)
    ensures Clean(Pieces(script)) == Found(script, |script|) + Statement(script[Start(script, |script|)..])
  {
    CleanNext(Scan(script, |script|).pieces, script[Start(script, |script|)..]);
  }

  /** end is the first c from `from` on, or the end of the script. */
  predicate FirstOf(script: string, from: nat, c: char, end: nat) {
    && from <= end <= |script|
    && (end < |script| ==> script[end] == c)
    && forall k :: from <= k < end ==> script[k] != c
  }

  predicate FirstPair(script: string, from: nat, c: char, d: char, end: nat) {
    && from <= end <= |script|
    && (end < |script| ==> Pair(script, end, c, d))
    && forall k :: from <= k < end ==> !Pair(script, k, c, d)
  }

  lemma LineJump(script: string, i: nat, end: nat)
    requires i < |script| && ModeAt(script, i) == Code && Pair(script, i, '-', '-') && FirstOf(script, i, '\n', end)
    ensures var next := if end < |script| then end + 1 else end;
            Scan(script, next) == Scan(script, i) && (end < |script| ==> ModeAt(script, next) == Code)
  {
    Passed(script, i);
    Stays(script, Line, i + 1, end);
    if end < |script| {
      Passed(script, end);
    }
  }

  lemma LiteralJump(script: string, i: nat, end: nat)
    requires i < |script| && ModeAt(script, i) == Code && script[i] == '\'' && FirstOf(script, i + 1, '\'', end)
    ensures var next := if end < |script| then end + 1 else end;
            Scan(script, next) == Scan(script, i) && (end < |script| ==> ModeAt(script, next) == Code)
  {
    Passed(script, i);
    Stays(script, Literal, i + 1, end);
    if end < |script| {
      Passed(script, end);
    }
  }

  lemma BlockJump(script: string, i: nat, end: nat)
    requires i < |script| && ModeAt(script, i) == Code && Pair(script, i, '/', '*')
             && FirstPair(script, i + 2, '*', '/', end)
    ensures var next := if end < |script| then end + 2 else end;
            Scan(script, next) == Scan(script, i) && (end < |script| ==> ModeAt(script, next) == Code)
  {
    Passed(script, i);
    Passed(script, i + 1);
    Stays(script, Block, i + 2, end);
    if end < |script| {
      Passed(script, end);
      Passed(script, end + 1);
    }
  }

  // ---------------------------------------------------------------------
  // As the source does it
  // ---------------------------------------------------------------------

  method IndexByte(script: string, from: nat, c: char) returns (end: nat)
    requires from <= |script|
    ensures FirstOf(script, from, c, end)
  {
    end := from;
    while end < |script| && script[end] != c
      invariant from <= end <= |script|
      invariant forall k :: from <= k < end ==> script[k] != c
    {
      end := end + 1;
    }
  }

  method IndexPair(script: string, from: nat, c: char, d: char) returns (end: nat)
    requires from <= |script|
    ensures FirstPair(script, from, c, d, end)
  {
    end := from;
    while end < |script| && !(script[end] == c && end + 1 < |script| && script[end + 1] == d)
      invariant from <= end <= |script|
      invariant forall k :: from <= k < end ==> !Pair(script, k, c, d)
    {
      end := end + 1;
    }
  }

  /** Past the comment or literal that starts at i, or i itself where none does. */
  method Jump(script: string, i: nat) returns (next: nat)
    requires i < |script| && ModeAt(script, i) == Code
    ensures i <= next <= |script| && Scan(script, next) == Scan(script, i)
    ensures next < |script| ==> ModeAt(script, next) == Code
    ensures next == i ==> After(Code, script, i) == Code
  {
    if i + 1 < |script| && script[i] == '-' && script[i + 1] == '-' {
      var end := IndexByte(script, i, '\n');
      LineJump(script, i, end);
      return if end < |script| then end + 1 else end;
    }
    if i + 1 < |script| && script[i] == '/' && script[i + 1] == '*' {
      var end := IndexPair(script, i + 2, '*', '/');
      BlockJump(script, i, end);
      return if end < |script| then end + 2 else end;
    }
    if script[i] == '\'' {
      var end := IndexByte(script, i + 1, '\'');
      LiteralJump(script, i, end);
      return if end < |script| then end + 1 else end;
    }
    return i;
  }

  /** The state of the loop: at code, with the statements finished so far. */
  ghost predicate Scanned(script: string, i: nat, start: nat, statements: seq<string>) {
    && i <= |script| && start == Start(script, i) && statements == Found(script, i)
    && (i < |script| ==> ModeAt(script, i) == Code)
  }

  /** One turn of the loop. */
  method ScanOn(script: string, i: nat, start: nat, statements: seq<string>)
    returns (i': nat, start': nat, statements': seq<string>)
    requires i < |script| && Scanned(script, i, start, statements)
    ensures i < i' && Scanned(script, i', start', statements')
  {
    start', statements' := start, statements;
    i' := Jump(script, i);
    if i' == i {
      if script[i] == ';' {
        Taken(script, i);
        statements' := Append(statements, script[start..i]);
        start' := i + 1;
      } else {
        Passed(script, i);
      }
      i' := i + 1;
    }
  }

  /** The jumping scanner gives exactly the non-blank pieces of the automaton, trimmed. */
  method SplitStatements(script: string) returns (statements: seq<string>)
    ensures statements == Clean(Pieces(script))
  {
    statements := [];
    var start: nat, i: nat := 0, 0;
    while i < |script|
      invariant Scanned(script, i, start, statements)
      decreases |script| - i
    {
      i, start, statements := ScanOn(script, i, start, statements);
    }
    Finished(script);
    statements := Append(statements, script[start..]);
  }

  method Append(statements: seq<string>, piece: string) returns (r: seq<string>)
    ensures r == statements + Statement(piece)
  {
    r := statements;
    var trimmed := Trim(piece);
    if trimmed != "" {
      r := r + [trimmed];
    }
  }

  // ---------------------------------------------------------------------
  // What the pieces are
  // ---------------------------------------------------------------------

  /** The cuts are exactly the code-mode semicolons, each once, in order. */
  lemma {:induction false} CutsExactly(script: string, i: nat)
    requires i <= |script|
    ensures forall p: nat :: p in Cuts(script, i) <==> p < i && Cut(script, p)
    ensures forall a, b :: 0 <= a < b < |Cuts(script, i)| ==> Cuts(script, i)[a] < Cuts(script, i)[b]
  {
    if i > 0 {
      CutsExactly(script, i - 1);
      var before := Cuts(script, i - 1);
      assert forall a :: 0 <= a < |before| ==> before[a] in before;
    }
  }

  /** Where piece k starts: just after the cut before it. */
  function From(cuts: seq<nat>, k: nat): nat
    requires k <= |cuts|
  {
    if k == 0 then 0 else cuts[k - 1] + 1
  }

  predicate PieceOk(script: string, pieces: seq<string>, cuts: seq<nat>, k: nat)
    requires k < |cuts| && k < |pieces|
  {
    From(cuts, k) <= cuts[k] < |script| && pieces[k] == script[From(cuts, k)..cuts[k]]
  }

  /** Piece k runs from just after the cut before it to the next cut. */
  lemma {:induction false} PiecesLieBetweenCuts(script: string, i: nat)
    requires i <= |script|
    ensures var p, cuts := Scan(script, i), Cuts(script, i);
            && |p.pieces| == |cuts| && p.start == From(cuts, |cuts|)
            && forall k :: 0 <= k < |cuts| ==> PieceOk(script, p.pieces, cuts, k)
  {
    if i > 0 {
      PiecesLieBetweenCuts(script, i - 1);
      if Cut(script, i - 1) {
        NextPiece(script, Scan(script, i - 1).pieces, Cuts(script, i - 1), i - 1);
      } else {
        assert Cuts(script, i) == Cuts(script, i - 1);
      }
    }
  }

  lemma NextPiece(script: string, pieces: seq<string>, cuts: seq<nat>, i: nat)
    requires |pieces| == |cuts| && From(cuts, |cuts|) <= i < |script|
    requires forall k :: 0 <= k < |cuts| ==> PieceOk(script, pieces, cuts, k)
    ensures var pieces', cuts' := pieces + [script[From(cuts, |cuts|)..i]], cuts + [i];
            forall k :: 0 <= k < |cuts'| ==> PieceOk(script, pieces', cuts', k)
  {
    var pieces', cuts' := pieces + [script[From(cuts, |cuts|)..i]], cuts + [i];
    forall k | 0 <= k < |cuts'| ensures PieceOk(script, pieces', cuts', k) {
      assert From(cuts', k) == From(cuts, k);
      if k < |cuts| {
        assert PieceOk(script, pieces, cuts, k) && pieces'[k] == pieces[k] && cuts'[k] == cuts[k];
      }
    }
  }

  function Join(pieces: seq<string>): string {
    if pieces == [] then ""
    else if |pieces| == 1 then pieces[0]
    else Join(pieces[..|pieces| - 1]) + ";" + pieces[|pieces| - 1]
  }

  lemma {:induction false} JoinSoFar(script: string, i: nat)
    requires i <= |script|
    ensures var p := Scan(script, i); Join(p.pieces + [script[p.start..i]]) == script[..i]
  {
    var p := Scan(script, i);
    if i == 0 {
      assert script[0..0] == "" && script[..0] == "";
    } else {
      JoinSoFar(script, i - 1);
      var q := Scan(script, i - 1);
      assert script[..i] == script[..i - 1] + [script[i - 1]];
      if Cut(script, i - 1) {
        JoinNext(p.pieces, script[i..i]);
        assert script[i..i] == "";
      } else {
        assert script[p.start..i] == script[p.start..i - 1] + [script[i - 1]];
        JoinLonger(p.pieces, script[p.start..i - 1], [script[i - 1]]);
      }
    }
  }

  lemma JoinNext(pieces: seq<string>, piece: string)
    requires pieces != []
    ensures Join(pieces + [piece]) == Join(pieces) + ";" + piece
  {
    assert (pieces + [piece])[..|pieces|] == pieces;
  }

  lemma JoinLonger(pieces: seq<string>, piece: string, more: string)
    ensures Join(pieces + [piece + more]) == Join(pieces + [piece]) + more
  {
    if pieces != [] {
      JoinNext(pieces, piece);
      JoinNext(pieces, piece + more);
    }
  }

  /** Nothing is lost or added: the untrimmed pieces joined by semicolons are the script, one more of them than cuts. */
  lemma PiecesJoinToScript(script: string)
    ensures Join(Pieces(script)) == script
    ensures |Pieces(script)| == |Cuts(script, |script|)| + 1
  {
    JoinSoFar(script, |script|);
    PiecesLieBetweenCuts(script, |script|);
    var p := Scan(script, |script|);
    assert script[p.start..] == script[p.start..|script|] && script[..|script|] == script;
  }

  // ---------------------------------------------------------------------
  // The statements are the pieces that say something
  // ---------------------------------------------------------------------

  predicate Blank(piece: string) {
    forall c :: c in piece ==> Space(c)
  }

  /** s[i..j] is s without the white space around it. */
  ghost predicate Core(s: string, i: nat, j: nat) {
    && i <= j <= |s|
    && (forall k :: 0 <= k < i || j <= k < |s| ==> Space(s[k]))
    && (i < j ==> !Space(s[i]) && !Space(s[j - 1]))
  }

  /** Trimming takes the white space at both ends, all of it and nothing else. */
  lemma {:induction false} TrimExactly(s: string)
    ensures exists i: nat, j: nat :: Core(s, i, j) && Trim(s) == s[i..j]
  {
    if s == "" || (!Space(s[0]) && !Space(s[|s| - 1])) {
      assert Core(s, 0, |s|) && s[0..|s|] == s;
    } else if Space(s[0]) {
      TrimExactly(s[1..]);
      var i: nat, j: nat :| Core(s[1..], i, j) && Trim(s[1..]) == s[1..][i..j];
      assert forall k :: 1 <= k < |s| ==> s[k] == s[1..][k - 1];
      assert Core(s, i + 1, j + 1) && s[i + 1..j + 1] == s[1..][i..j];
    } else {
      var n := |s| - 1;
      TrimExactly(s[..n]);
      var i: nat, j: nat :| Core(s[..n], i, j) && Trim(s[..n]) == s[..n][i..j];
      assert forall k :: 0 <= k < n ==> s[k] == s[..n][k];
      assert Core(s, i, j) && s[i..j] == s[..n][i..j];
    }
  }

  /** Which pieces are not blank, in order. */
  ghost function Spoken(pieces: seq<string>): seq<nat> {
    if pieces == [] then []
    else
      var n := |pieces| - 1;
      Spoken(pieces[..n]) + if Blank(pieces[n]) then [] else [n]
  }

  lemma {:induction false} SpokenExactly(pieces: seq<string>)
    ensures var f := Spoken(pieces);
            && (forall k :: k in f <==> 0 <= k < |pieces| && !Blank(pieces[k]))
            && (forall a, b :: 0 <= a < b < |f| ==> f[a] < f[b])
  {
    if pieces != [] {
      var n := |pieces| - 1;
      SpokenExactly(pieces[..n]);
      var g, f := Spoken(pieces[..n]), Spoken(pieces);
      forall k ensures k in f <==> 0 <= k < |pieces| && !Blank(pieces[k]) {
        assert k in f <==> k in g || (k == n && !Blank(pieces[n]));
        if 0 <= k < n {
          assert pieces[..n][k] == pieces[k];
        }
      }
      assert forall a :: 0 <= a < |g| ==> g[a] in g;
    }
  }

  lemma {:induction false} CleanIsSpoken(pieces: seq<string>)
    ensures |Clean(pieces)| == |Spoken(pieces)|
    ensures forall a :: 0 <= a < |Clean(pieces)| ==>
              0 <= Spoken(pieces)[a] < |pieces| && Clean(pieces)[a] == Trim(pieces[Spoken(pieces)[a]])
  {
    if pieces != [] {
      var n := |pieces| - 1;
      CleanIsSpoken(pieces[..n]);
      TrimEmptyExactly(pieces[n]);
    }
  }

  /** For every script: the statements are exactly the pieces between cuts that are not blank, in order, each without
      the white space around it. */
  lemma StatementsExactly(script: string)
    ensures var pieces, statements := Pieces(script), Clean(Pieces(script));
            exists f: seq<nat> ::
              && |f| == |statements| && (forall a, b :: 0 <= a < b < |f| ==> f[a] < f[b])
              && (forall k :: k in f <==> 0 <= k < |pieces| && !Blank(pieces[k]))
              && (forall a :: 0 <= a < |f| ==> 0 <= f[a] < |pieces| && Trims(pieces[f[a]], statements[a]))
  {
    var pieces := Pieces(script);
    SpokenExactly(pieces);
    CleanIsSpoken(pieces);
    forall a | 0 <= a < |Clean(pieces)| ensures Trims(pieces[Spoken(pieces)[a]], Clean(pieces)[a]) {
      TrimExactly(pieces[Spoken(pieces)[a]]);
    }
  }

  ghost predicate Trims(piece: string, statement: string) {
    exists i: nat, j: nat :: Core(piece, i, j) && statement == piece[i..j]
  }

  // ---------------------------------------------------------------------
  // A doubled quote needs no case of its own
  // ---------------------------------------------------------------------

  /** SQL's own rule: inside a literal, two quotes are one character. Escaped is at the second of them. */
  datatype SqlMode = Plain(mode: Mode) | Escaped

  function SqlAfter(m: SqlMode, script: string, i: nat): SqlMode
    requires i < |script|
  {
    match m
    case Escaped => Plain(Literal)
    case Plain(mode) =>
      if mode == Literal && Pair(script, i, '\'', '\'') then Escaped else Plain(After(mode, script, i))
  }

  function SqlModeAt(script: string, i: nat): SqlMode
    requires i <= |script|
  {
    if i == 0 then Plain(Code) else SqlAfter(SqlModeAt(script, i - 1), script, i - 1)
  }

  lemma {:induction false} EscapedLooksLikeCode(script: string, i: nat)
    requires i <= |script|
    ensures SqlModeAt(script, i) == (if SqlModeAt(script, i).Escaped? then Escaped else Plain(ModeAt(script, i)))
    ensures SqlModeAt(script, i).Escaped? ==> ModeAt(script, i) == Code && Is(script, i, '\'')
  {
    if i > 0 {
      EscapedLooksLikeCode(script, i - 1);
    }
  }

  /** With and without SQL's doubled-quote rule, the same semicolons end statements. */
  lemma DoubledQuotesNeedNoCase(script: string, i: nat)
    requires i < |script|
    ensures Cut(script, i) <==> script[i] == ';' && SqlModeAt(script, i) == Plain(Code)
  {
    EscapedLooksLikeCode(script, i);
  }
}
