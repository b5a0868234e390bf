/** The shell's tokens, as gettoken and peek find them in a line (user/sh.c). */
module ShellTokens {
  import opened Common
  import opened ShellGrammar
  import opened ShellSyntax

  predicate White(c: char) { c == ' ' || c == '\t' || c == '\r' || c == '\n' || c == '\U{000B}' }

  predicate Symbol(c: char) { c == '<' || c == '|' || c == '>' || c == '&' || c == ';' || c == '(' || c == ')' }

  /** A token: its kind and where it is in the line. */
  datatype Token = Token(kind: char, q: nat, eq: nat)

  /** The first place from p on that is not white space. */
  function Skip(s: string, p: nat): (r: nat)
    requires p <= |s|
    ensures p <= r <= |s| && (r < |s| ==> !White(s[r]))
    decreases |s| - p
  {
    if p < |s| && White(s[p]) then Skip(s, p + 1) else p
  }

  predicate InWord(c: char) { !White(c) && !Symbol(c) }

  /** The end of the word that goes on at p. */
  function WordEnd(s: string, p: nat): (r: nat)
    requires p <= |s|
    ensures p <= r <= |s| && (r < |s| ==> !InWord(s[r]))
    decreases |s| - p
  {
    if p < |s| && InWord(s[p]) then WordEnd(s, p + 1) else p
  }

  lemma {:induction false} WordEndIs(s: string, p: nat, e: nat)
    requires p <= e <= |s| && forall k :: p <= k < e ==> InWord(s[k])
    ensures e < |s| && !InWord(s[e]) ==> WordEnd(s, p) == e
    decreases e - p
  {
    if p < e { WordEndIs(s, p + 1, e); }
  }

  lemma {:induction false} WordEndIn(s: string, p: nat, k: nat)
    requires p <= |s| && p <= k < WordEnd(s, p)
    ensures InWord(s[k])
    decreases |s| - p
  {
    if p < k { WordEndIn(s, p + 1, k); }
  }

  /** The token that starts at p. */
  function TokenAt(s: string, p: nat): (t: Token)
    requires p < |s| && !White(s[p])
    ensures t.q == p < t.eq <= |s|
    ensures t.kind == 'a' <==> InWord(s[p])
    ensures t.kind == 'a' ==> t.eq == WordEnd(s, p)
  {
    if s[p] == '>' then (if p + 1 < |s| && s[p + 1] == '>' then Token('+', p, p + 2) else Token('>', p, p + 1))
    else if Symbol(s[p]) then Token(s[p], p, p + 1)
    else Token('a', p, WordEnd(s, p))
  }

  /** The tokens of the line from p on. */
  function Tokens(s: string, p: nat): (ts: seq<Token>)
    requires p <= |s|
    decreases |s| - p
  {
    var q := Skip(s, p);
    if q == |s| then [] else [TokenAt(s, q)] + Tokens(s, TokenAt(s, q).eq)
  }

  function KindsOf(ts: seq<Token>): (ks: string)
    ensures |ks| == |ts| && forall k :: 0 <= k < |ts| ==> ks[k] == ts[k].kind
  {
    seq(|ts|, k requires 0 <= k < |ts| => ts[k].kind)
  }

  /** The text of a token. */
  function TextOf(s: string, t: Token): string { if t.q <= t.eq <= |s| then s[t.q..t.eq] else "" }

  function TextsOf(s: string, ts: seq<Token>): (ws: seq<string>)
    ensures |ws| == |ts| && forall k :: 0 <= k < |ts| ==> ws[k] == TextOf(s, ts[k])
  {
    seq(|ts|, k requires 0 <= k < |ts| => TextOf(s, ts[k]))
  }

  /** Tokens follow each other, and something that is not in a word follows each word. */
  lemma {:induction false} TokensApart(s: string, p: nat, j: nat, k: nat)
    requires p <= |s| && j < k < |Tokens(s, p)|
    ensures var ts := Tokens(s, p);
            ts[j].eq <= ts[k].q && (ts[j].kind == 'a' && ts[k].kind == 'a' ==> ts[j].eq < ts[k].q)
    decreases |s| - p
  {
    var q := Skip(s, p);
    var t := TokenAt(s, q);
    if j == 0 {
      TokenInside(s, t.eq, k - 1);
    } else {
      TokensApart(s, t.eq, j - 1, k - 1);
    }
  }

  /** A token is one at its place; a word is not empty and goes on as far as it can. */
  lemma {:induction false} TokenInside(s: string, p: nat, k: nat)
    requires p <= |s| && k < |Tokens(s, p)|
    ensures var t := Tokens(s, p)[k]; p <= t.q < t.eq <= |s| && !White(s[t.q]) && t == TokenAt(s, t.q)
    decreases |s| - p
  {
    var q := Skip(s, p);
    if k > 0 { TokenInside(s, TokenAt(s, q).eq, k - 1); }
  }

  // ----- printing tokens -----

  /** A word the shell can have: not empty, no white space, symbol or NUL in it. */
  predicate WordOk(w: string) { w != [] && forall k :: 0 <= k < |w| ==> InWord(w[k]) && w[k] != '\0' }

  predicate PieceOk(x: Piece) { x.kind == '+' || Symbol(x.kind) || (x.kind == 'a' && WordOk(x.text)) }

  function Chars(x: Piece): string { if x.kind == 'a' then x.text else if x.kind == '+' then ">>" else [x.kind] }

  /** The pieces as a line, each with a space after it. */
  function Render(xs: seq<Piece>): string {
    if xs == [] then "" else Chars(xs[0]) + " " + Render(xs[1..])
  }

  /** A piece and a space are at p. */
  ghost predicate PieceAt(s: string, p: nat, x: Piece) {
    p + |Chars(x)| < |s| && s[p + |Chars(x)|] == ' ' && forall k :: p <= k < p + |Chars(x)| ==> s[k] == Chars(x)[k - p]
  }

  /** The pieces are what is in s from p on. */
  ghost predicate Laid(s: string, p: nat, xs: seq<Piece>)
    decreases |xs|
  {
    if xs == [] then p == |s| else PieceAt(s, p, xs[0]) && Laid(s, p + |Chars(xs[0])| + 1, xs[1..])
  }

  lemma {:induction false} RenderLaid(a: string, xs: seq<Piece>)
    ensures Laid(a + Render(xs), |a|, xs)
    decreases |xs|
  {
    if xs != [] {
      var c := Chars(xs[0]);
      var b := a + c + " ";
      assert a + Render(xs) == b + Render(xs[1..]);
      RenderLaid(b, xs[1..]);
    }
  }

  /** A piece and the space after it are one token. */
  lemma {:induction false} LexOne(s: string, p: nat, x: Piece)
    requires PieceOk(x) && PieceAt(s, p, x)
    ensures !White(s[p]) && TokenAt(s, p) == Token(x.kind, p, p + |Chars(x)|)
  {
    assert s[p] == Chars(x)[0];
    if x.kind == 'a' {
      WordEndIs(s, p, p + |x.text|);
    } else if x.kind == '+' {
      assert s[p + 1] == ">>"[1];
    }
  }

  lemma {:induction false} SpaceSkipped(s: string, p: nat)
    requires p < |s| && White(s[p])
    ensures Tokens(s, p) == Tokens(s, p + 1)
  {
    assert Skip(s, p) == Skip(s, p + 1);
  }

  ghost predicate PiecesOk(xs: seq<Piece>) { forall m :: 0 <= m < |xs| ==> PieceOk(xs[m]) }

  /** The tokens ts are, one by one, the pieces xs. */
  ghost predicate Matching(s: string, ts: seq<Token>, xs: seq<Piece>) {
    |ts| == |xs| && forall k: nat {:trigger MatchAt(s, ts, xs, k)} :: k < |xs| ==> MatchAt(s, ts, xs, k)
  }

  ghost predicate MatchAt(s: string, ts: seq<Token>, xs: seq<Piece>, k: nat) {
    k < |ts| && k < |xs| && ts[k].kind == xs[k].kind && TextOf(s, ts[k]) == Chars(xs[k])
  }

  lemma {:induction false} MatchMore(s: string, t: Token, us: seq<Token>, ts: seq<Token>, xs: seq<Piece>)
    requires xs != [] && ts == [t] + us && Matching(s, us, xs[1..]) && t.kind == xs[0].kind
        && TextOf(s, t) == Chars(xs[0])
    ensures Matching(s, ts, xs)
  {
    forall k: nat | k < |xs| ensures MatchAt(s, ts, xs, k) {
      if k > 0 { assert MatchAt(s, us, xs[1..], k - 1); }
    }
  }

  /** The tokens from a piece on are that one, then those after the space. */
  lemma {:induction false} LexNext(s: string, p: nat, x: Piece)
    requires PieceOk(x) && PieceAt(s, p, x)
    ensures Tokens(s, p) == [Token(x.kind, p, p + |Chars(x)|)] + Tokens(s, p + |Chars(x)| + 1)
    ensures TextOf(s, Token(x.kind, p, p + |Chars(x)|)) == Chars(x)
  {
    LexOne(s, p, x);
    SpaceSkipped(s, p + |Chars(x)|);
  }

  /** The tokens of a line that was printed are the pieces. */
  lemma {:induction false} LexRender(s: string, p: nat, xs: seq<Piece>)
    requires p <= |s| && Laid(s, p, xs) && PiecesOk(xs)
    ensures Matching(s, Tokens(s, p), xs)
    decreases |xs|
  {
    if xs != [] {
      var e := p + |Chars(xs[0])|;
      LexNext(s, p, xs[0]);
      assert PiecesOk(xs[1..]);
      LexRender(s, e + 1, xs[1..]);
      var us := Tokens(s, e + 1);
      MatchMore(s, Token(xs[0].kind, p, e), us, [Token(xs[0].kind, p, e)] + us, xs);
    }
  }

  // ----- a tree and its line -----

  ghost predicate NoNul(s: string) { forall k :: 0 <= k < |s| ==> s[k] != '\0' }

  /** The words of the tree are words the shell can have. */
  ghost predicate WordsOk(c: Cmd<string>) {
    match c
    case Exec(argv) => forall k :: 0 <= k < |argv| ==> WordOk(argv[k])
    case Redir(d, file, how) => WordOk(file) && WordsOk(d)
    case Pipe(l, r) => WordsOk(l) && WordsOk(r)
    case List(l, r) => WordsOk(l) && WordsOk(r)
    case Back(d) => WordsOk(d)
  }

  lemma {:induction false} JoinOk(xs: seq<Piece>, ys: seq<Piece>)
    requires PiecesOk(xs) && PiecesOk(ys)
    ensures PiecesOk(xs + ys)
  {
  }

  ghost predicate FilesOk(rs: seq<To<string>>) { forall k :: 0 <= k < |rs| ==> WordOk(rs[k].file) }

  lemma {:induction false} BaseOk(c: Cmd<string>)
    requires WordsOk(c)
    ensures WordsOk(Base(c)) && FilesOk(Around(c))
  {
    if c.Redir? { BaseOk(c.cmd); }
  }

  lemma {:induction false} PrintToOk(rs: seq<To<string>>)
    requires FilesOk(rs)
    ensures PiecesOk(PrintTo(rs))
  {
    if rs != [] {
      PrintToOk(rs[1..]);
      JoinOk([Sym(KindOf(rs[0].how)), Word(rs[0].file)], PrintTo(rs[1..]));
    }
  }

  lemma {:induction false} ItemsOk(argv: seq<string>)
    requires WordsOk(Exec(argv))
    ensures PiecesOk(PrintItems(Items(argv)))
  {
    if argv != [] {
      ItemsOk(argv[1..]);
      JoinOk([Word(argv[0])] + [], PrintItems(Items(argv[1..])));
    }
  }

  lemma {:induction false} ExecOk(c: Cmd<string>)
    requires WordsOk(c)
    ensures PiecesOk(Print(ExecOf(c)))
    decreases Size(c), 1
  {
    BaseOk(c);
    var b, rs := Base(c), Around(c);
    PrintToOk(rs);
    if b.Exec? {
      ItemsOk(b.argv);
      JoinOk(PrintTo(rs), PrintItems(Items(b.argv)));
    } else {
      BodyOk(b);
      ParenOk(Print(BodyOf(b)), PrintTo(rs));
    }
  }

  lemma {:induction false} ParenOk(xs: seq<Piece>, rs: seq<Piece>)
    requires PiecesOk(xs) && PiecesOk(rs)
    ensures PiecesOk([Sym('(')] + xs + [Sym(')')] + rs)
  {
    JoinOk([Sym('(')], xs);
    JoinOk([Sym('(')] + xs, [Sym(')')]);
    JoinOk([Sym('(')] + xs + [Sym(')')], rs);
  }

  lemma {:induction false} BodyOk(c: Cmd<string>)
    requires WordsOk(c) && Compound(c)
    ensures PiecesOk(Print(BodyOf(c)))
    decreases Size(c), 0
  {
    match c
    case Pipe(l, r) =>
      ExecOk(l);
      if r.Pipe? { BodyOk(r); } else { ExecOk(r); }
      BothOk(Print(ExecOf(l)), '|', Print(PipeOf(r)));
    case List(l, r) =>
      if l.Back? || l.Pipe? { BodyOk(l); } else { ExecOk(l); }
      if Compound(r) { BodyOk(r); } else { ExecOk(r); }
      BothOk(Print(BacksOf(l)), ';', Print(LineOf(r)));
    case Back(d) =>
      if d.Back? || d.Pipe? { BodyOk(d); } else { ExecOk(d); }
      JoinOk(Print(BacksOf(d)), [Sym('&')]);
  }

  lemma {:induction false} BothOk(xs: seq<Piece>, k: char, ys: seq<Piece>)
    requires PiecesOk(xs) && Symbol(k) && PiecesOk(ys)
    ensures PiecesOk(xs + [Sym(k)] + ys)
  {
    JoinOk(xs, [Sym(k)]);
    JoinOk(xs + [Sym(k)], ys);
  }

  /** The line a tree is printed as. */
  function Show(c: Cmd<string>): string { Render(Print(LineOf(c))) }

  /** What a line means: the tree over its tokens, with their texts for words. */
  function Meaning(s: string): (r: Option<Cmd<string>>) {
    var ts := Tokens(s, 0);
    var p := ParseAll(KindsOf(ts));
    if p.Tree? then Some(Spell(TextsOf(s, ts), p.cmd)) else None
  }

  lemma {:induction false} LineOk(c: Cmd<string>)
    requires WordsOk(c)
    ensures PiecesOk(Print(LineOf(c)))
  {
    if Compound(c) { BodyOk(c); } else { ExecOk(c); }
  }

  /** Tokens that match the pieces have their kinds and words. */
  lemma {:induction false} MatchingHas(s: string, ts: seq<Token>, xs: seq<Piece>)
    requires Matching(s, ts, xs)
    ensures Has(KindsOf(ts), TextsOf(s, ts), 0, xs)
  {
    forall k: nat ensures Same(KindsOf(ts), TextsOf(s, ts), 0, xs, k) {
      if k < |xs| { assert MatchAt(s, ts, xs, k); }
    }
  }

  lemma {:induction false} RenderNoNul(xs: seq<Piece>)
    requires PiecesOk(xs)
    ensures NoNul(Render(xs))
  {
    if xs != [] {
      RenderNoNul(xs[1..]);
      assert PieceOk(xs[0]);
    }
  }

  /** A printed line is one a NUL can end. */
  lemma {:induction false} ShowNoNul(c: Cmd<string>)
    requires WordsOk(c)
    ensures NoNul(Show(c))
  {
    LineOk(c);
    RenderNoNul(Print(LineOf(c)));
  }

  /** The tokens of the line are those of the line y of the syntax. */
  ghost predicate IsLineOf(s: string, y: Syntax) { Reads(KindsOf(Tokens(s, 0)), TextsOf(s, Tokens(s, 0)), y) }

  /** A line means a tree if and only if its tokens are a line of the syntax that denotes the
      tree, so the shell refuses exactly the lines that are not of the syntax. */
  lemma {:induction false} MeansExactly(s: string, c: Cmd<string>)
    ensures Meaning(s) == Some(c) <==> exists y :: IsLineOf(s, y) && Denotes(y) == c
  {
    var ks, ws := KindsOf(Tokens(s, 0)), TextsOf(s, Tokens(s, 0));
    Exactly(ks, ws, c);
    if y :| IsLineOf(s, y) && Denotes(y) == c {
      assert Reads(ks, ws, y);
    }
    if y :| Reads(ks, ws, y) && Denotes(y) == c {
      assert IsLineOf(s, y);
    }
  }

  /** Every tree whose commands have fewer than MAXARGS words comes back from the line it is
      printed as, with the fewest parentheses. */
  lemma {:induction false} RoundTrip(c: Cmd<string>)
    requires Fits(c) && WordsOk(c)
    ensures Meaning(Show(c)) == Some(c)
  {
    var y := LineOf(c);
    var xs := Print(y);
    var s := Render(xs);
    LineOk(c);
    RenderLaid("", xs);
    assert "" + s == s;
    LexRender(s, 0, xs);
    MatchingHas(s, Tokens(s, 0), xs);
    LineOfOk(c);
    assert IsLineOf(s, y);
    MeansExactly(s, c);
  }

  /** The words of a meaning are words the shell can have. */
  lemma {:induction false} SpelledOk(s: string, ts: seq<Token>, c: Cmd<nat>)
    requires ts == Tokens(s, 0) && Sound(KindsOf(ts), c) && NoNul(s)
    ensures WordsOk(Spell(TextsOf(s, ts), c))
    decreases c
  {
    var ws := TextsOf(s, ts);
    match c
    case Exec(argv) =>
      forall k: nat | k < |argv| ensures WordOk(SpellWords(ws, argv, |argv|)[k]) {
        SpellWordsAt(ws, argv, |argv|, k);
        assert Is(KindsOf(ts), argv[k], 'a');
        WordTextOk(s, argv[k]);
      }
    case Redir(d, file, how) =>
      WordTextOk(s, file);
      SpelledOk(s, ts, d);
    case Pipe(l, r) => SpelledOk(s, ts, l); SpelledOk(s, ts, r);
    case List(l, r) => SpelledOk(s, ts, l); SpelledOk(s, ts, r);
    case Back(d) => SpelledOk(s, ts, d);
  }

  lemma {:induction false} WordTextOk(s: string, w: nat)
    requires w < |Tokens(s, 0)| && Tokens(s, 0)[w].kind == 'a' && NoNul(s)
    ensures WordOk(TextOf(s, Tokens(s, 0)[w]))
  {
    TokenInside(s, 0, w);
    var t := Tokens(s, 0)[w];
    forall k | t.q <= k < t.eq ensures InWord(s[k]) { WordEndIn(s, t.q, k); }
  }

  /** What a line means is also what its printed form means. */
  lemma {:induction false} PrintKeepsMeaning(s: string)
    requires Meaning(s).Some? && NoNul(s)
    ensures Meaning(Show(Meaning(s).value)) == Meaning(s)
  {
    var ts := Tokens(s, 0);
    LineSound(KindsOf(ts), 0);
    SoundFits(KindsOf(ts), TextsOf(s, ts), ParseAll(KindsOf(ts)).cmd);
    SpelledOk(s, ts, ParseAll(KindsOf(ts)).cmd);
    RoundTrip(Meaning(s).value);
  }
}
