/** The shell's command trees and its grammar over token kinds (user/sh.c). */
module ShellGrammar {
  const MAXARGS: nat := 10

  /** How a redirection opens its file: reading at 0, or writing at 1 with or without truncation. */
  datatype How = Read | Write | Append

  /** Command trees, with words of type W. */
  datatype Cmd<+W> =
    | Exec(argv: seq<W>)
    | Redir(cmd: Cmd<W>, file: W, how: How)
    | Pipe(left: Cmd<W>, right: Cmd<W>)
    | List(left: Cmd<W>, right: Cmd<W>)
    | Back(cmd: Cmd<W>)

  /** A redirection not yet put around its command. */
  datatype To<+W> = To(file: W, how: How)

  datatype Error = MissingFile | Syntax | MissingParen | TooManyArgs | Leftovers

  /** The panic, or what was parsed and where the parser stopped. */
  datatype Parsed = Fail(error: Error) | Tree(cmd: Cmd<nat>, next: nat)
  datatype Redirections = RFail(error: Error) | Redirs(rs: seq<To<nat>>, next: nat)
  datatype Words = WFail(error: Error) | Args(argv: seq<nat>, rs: seq<To<nat>>, next: nat)

  /** The first n redirections put around a command, the first innermost. */
  function WrapTo<W>(c: Cmd<W>, rs: seq<To<W>>, n: nat): Cmd<W>
    requires n <= |rs|
  {
    if n == 0 then c else Redir(WrapTo(c, rs, n - 1), rs[n - 1].file, rs[n - 1].how)
  }

  function Wrap<W>(c: Cmd<W>, rs: seq<To<W>>): Cmd<W> { WrapTo(c, rs, |rs|) }

  /** Token kinds: a symbol, '+' for ">>", 'a' for a word. */
  predicate Arrow(k: char) { k == '<' || k == '>' || k == '+' }

  function HowOf(k: char): How { if k == '<' then Read else if k == '>' then Write else Append }

  predicate Stops(k: char) { k == '|' || k == ')' || k == '&' || k == ';' }

  predicate Is(ks: string, i: nat, k: char) { i < |ks| && ks[i] == k }

  // ----- the grammar -----

  /** parseredirs from token i on, after the redirections rs. */
  function ParseRedirs(ks: string, i: nat, rs: seq<To<nat>>): (r: Redirections)
    requires i <= |ks|
    ensures r.Redirs? ==> i <= r.next <= |ks| && rs <= r.rs && (r.next < |ks| ==> !Arrow(ks[r.next]))
    decreases |ks| - i
  {
    if i == |ks| || !Arrow(ks[i]) then Redirs(rs, i)
    else if !Is(ks, i + 1, 'a') then RFail(MissingFile)
    else ParseRedirs(ks, i + 2, rs + [To(i + 1, HowOf(ks[i]))])
  }

  /** The loop of parseexec. */
  function ParseArgs(ks: string, i: nat, argv: seq<nat>, rs: seq<To<nat>>): (r: Words)
    requires i <= |ks| && |argv| < MAXARGS
    ensures r.Args? ==>
        && i <= r.next <= |ks| && argv <= r.argv && rs <= r.rs && |r.argv| < MAXARGS
        && (r.next < |ks| ==> Stops(ks[r.next]))
    decreases |ks| - i
  {
    if i == |ks| || Stops(ks[i]) then Args(argv, rs, i)
    else if ks[i] != 'a' then WFail(Syntax)
    else if |argv| + 1 >= MAXARGS then WFail(TooManyArgs)
    else
      var r := ParseRedirs(ks, i + 1, rs);
      if r.RFail? then WFail(r.error) else ParseArgs(ks, r.next, argv + [i], r.rs)
  }

  /** One round of that loop. */
  lemma {:induction false} OneArg(ks: string, i: nat, argv: seq<nat>, rs: seq<To<nat>>)
    requires Is(ks, i, 'a') && |argv| < MAXARGS
    ensures var r := ParseRedirs(ks, i + 1, rs);
            ParseArgs(ks, i, argv, rs) == if |argv| + 1 >= MAXARGS then WFail(TooManyArgs)
                else if r.RFail? then WFail(r.error) else ParseArgs(ks, r.next, argv + [i], r.rs)
  {
  }

  function ParseExec(ks: string, i: nat): (r: Parsed)
    requires i <= |ks|
    ensures r.Tree? ==> i <= r.next <= |ks|
    decreases |ks| - i, 1
  {
    if Is(ks, i, '(') then ParseBlock(ks, i)
    else
      var r := ParseRedirs(ks, i, []);
      if r.RFail? then Fail(r.error)
      else
        var w := ParseArgs(ks, r.next, [], r.rs);
        if w.WFail? then Fail(w.error) else Tree(Wrap(Exec(w.argv), w.rs), w.next)
  }

  function ParseBlock(ks: string, i: nat): (r: Parsed)
    requires i <= |ks| && Is(ks, i, '(')
    ensures r.Tree? ==> i <= r.next <= |ks|
    decreases |ks| - i, 0
  {
    var b := ParseLine(ks, i + 1);
    if b.Fail? then b
    else if !Is(ks, b.next, ')') then Fail(MissingParen)
    else
      var r := ParseRedirs(ks, b.next + 1, []);
      if r.RFail? then Fail(r.error) else Tree(Wrap(b.cmd, r.rs), r.next)
  }

  function ParsePipe(ks: string, i: nat): (r: Parsed)
    requires i <= |ks|
    ensures r.Tree? ==> i <= r.next <= |ks|
    decreases |ks| - i, 2
  {
    var l := ParseExec(ks, i);
    if l.Tree? && Is(ks, l.next, '|') then
      var r := ParsePipe(ks, l.next + 1);
      if r.Fail? then r else Tree(Pipe(l.cmd, r.cmd), r.next)
    else l
  }

  /** The loop of parseline. */
  function ParseBacks(ks: string, i: nat, c: Cmd<nat>): (r: Parsed)
    requires i <= |ks|
    ensures r.Tree? && i <= r.next <= |ks| && !Is(ks, r.next, '&')
    decreases |ks| - i
  {
    if Is(ks, i, '&') then ParseBacks(ks, i + 1, Back(c)) else Tree(c, i)
  }

  function ParseLine(ks: string, i: nat): (r: Parsed)
    requires i <= |ks|
    ensures r.Tree? ==> i <= r.next <= |ks|
    decreases |ks| - i, 3
  {
    var p := ParsePipe(ks, i);
    if p.Fail? then p
    else
      var b := ParseBacks(ks, p.next, p.cmd);
      if Is(ks, b.next, ';') then
        ListWith(b.cmd, ParseLine(ks, b.next + 1))
      else b
  }

  function ListWith(l: Cmd<nat>, r: Parsed): Parsed { if r.Fail? then r else Tree(List(l, r.cmd), r.next) }

  function ParseAll(ks: string): (r: Parsed) {
    var p := ParseLine(ks, 0);
    if p.Tree? && p.next != |ks| then Fail(Leftovers) else p
  }

  // ----- spelling a tree over token numbers -----

  function WordAt(ws: seq<string>, i: nat): string { if i < |ws| then ws[i] else "" }

  /** The first n words. */
  function SpellWords(ws: seq<string>, argv: seq<nat>, n: nat): (r: seq<string>)
    requires n <= |argv|
    ensures |r| == n
  {
    if n == 0 then [] else SpellWords(ws, argv, n - 1) + [WordAt(ws, argv[n - 1])]
  }

  lemma {:induction false} SpellWordsAt(ws: seq<string>, argv: seq<nat>, n: nat, k: nat)
    requires k < n <= |argv|
    ensures SpellWords(ws, argv, n)[k] == WordAt(ws, argv[k])
  {
    if k < n - 1 { SpellWordsAt(ws, argv, n - 1, k); }
  }

  function Spell(ws: seq<string>, c: Cmd<nat>): (r: Cmd<string>) {
    match c
    case Exec(argv) => Exec(SpellWords(ws, argv, |argv|))
    case Redir(d, file, how) => Redir(Spell(ws, d), WordAt(ws, file), how)
    case Pipe(l, r) => Pipe(Spell(ws, l), Spell(ws, r))
    case List(l, r) => List(Spell(ws, l), Spell(ws, r))
    case Back(d) => Back(Spell(ws, d))
  }

  // ----- printing -----

  /** A token to print. */
  datatype Piece = Piece(kind: char, text: string)

  function Sym(k: char): Piece { Piece(k, "") }
  function Word(w: string): Piece { Piece('a', w) }

  function KindOf(h: How): char { if h == Read then '<' else if h == Write then '>' else '+' }

  /** The trees the parser can make: no command has too many words. */
  predicate Fits(c: Cmd<string>) {
    match c
    case Exec(argv) => |argv| < MAXARGS
    case Redir(d, file, how) => Fits(d)
    case Pipe(l, r) => Fits(l) && Fits(r)
    case List(l, r) => Fits(l) && Fits(r)
    case Back(d) => Fits(d)
  }

  // ----- tokens and pieces -----

  /** The tokens with kinds ks and words ws are, from i on, the pieces xs. */
  ghost predicate Has(ks: string, ws: seq<string>, i: nat, xs: seq<Piece>) {
    i + |xs| <= |ks| && forall k: nat {:trigger Same(ks, ws, i, xs, k)} :: Same(ks, ws, i, xs, k)
  }

  ghost predicate Same(ks: string, ws: seq<string>, i: nat, xs: seq<Piece>, k: nat) {
    k < |xs| ==> Is(ks, i + k, xs[k].kind) && (xs[k].kind == 'a' ==> WordAt(ws, i + k) == xs[k].text)
  }

  lemma {:induction false} HasSplit(ks: string, ws: seq<string>, i: nat, a: seq<Piece>, b: seq<Piece>)
    requires Has(ks, ws, i, a + b)
    ensures Has(ks, ws, i, a) && Has(ks, ws, i + |a|, b)
  {
    forall k: nat ensures Same(ks, ws, i, a, k) { assert Same(ks, ws, i, a + b, k); }
    var j := i + |a|;
    forall k: nat ensures Same(ks, ws, j, b, k) { assert Same(ks, ws, i, a + b, |a| + k); }
  }

  lemma {:induction false} HasJoin(ks: string, ws: seq<string>, i: nat, a: seq<Piece>, b: seq<Piece>)
    requires Has(ks, ws, i, a) && Has(ks, ws, i + |a|, b)
    ensures Has(ks, ws, i, a + b)
  {
    var j := i + |a|;
    forall k: nat ensures Same(ks, ws, i, a + b, k) {
      assert Same(ks, ws, i, a, k);
      if k >= |a| { assert Same(ks, ws, j, b, k - |a|); }
    }
  }

  lemma {:induction false} HasAt(ks: string, ws: seq<string>, i: nat, xs: seq<Piece>, k: nat)
    requires Has(ks, ws, i, xs) && k < |xs|
    ensures Is(ks, i + k, xs[k].kind) && (xs[k].kind == 'a' ==> WordAt(ws, i + k) == xs[k].text)
  {
    assert Same(ks, ws, i, xs, k);
  }

  // ----- what the parser makes -----

  /** The tokens that are words of the tree. */
  ghost function Used(c: Cmd<nat>): set<nat> {
    match c
    case Exec(argv) => set k | 0 <= k < |argv| :: argv[k]
    case Redir(d, file, how) => Used(d) + {file}
    case Pipe(l, r) => Used(l) + Used(r)
    case List(l, r) => Used(l) + Used(r)
    case Back(d) => Used(d)
  }

  /** Every word is a word token and no command has too many. */
  ghost predicate Sound(ks: string, c: Cmd<nat>) {
    match c
    case Exec(argv) => |argv| < MAXARGS && forall k :: 0 <= k < |argv| ==> Is(ks, argv[k], 'a')
    case Redir(d, file, how) => Is(ks, file, 'a') && Sound(ks, d)
    case Pipe(l, r) => Sound(ks, l) && Sound(ks, r)
    case List(l, r) => Sound(ks, l) && Sound(ks, r)
    case Back(d) => Sound(ks, d)
  }

  ghost predicate SoundTo(ks: string, rs: seq<To<nat>>) { forall k :: 0 <= k < |rs| ==> Is(ks, rs[k].file, 'a') }

  lemma {:induction false} WrapSound(ks: string, c: Cmd<nat>, rs: seq<To<nat>>, n: nat)
    requires Sound(ks, c) && SoundTo(ks, rs) && n <= |rs|
    ensures Sound(ks, WrapTo(c, rs, n))
  {
    if n > 0 { WrapSound(ks, c, rs, n - 1); }
  }

  lemma {:induction false} RedirsSound(ks: string, i: nat, rs: seq<To<nat>>)
    requires i <= |ks| && SoundTo(ks, rs)
    ensures var r := ParseRedirs(ks, i, rs); r.Redirs? ==> SoundTo(ks, r.rs)
    decreases |ks| - i
  {
    if i < |ks| && Arrow(ks[i]) && Is(ks, i + 1, 'a') {
      RedirsSound(ks, i + 2, rs + [To(i + 1, HowOf(ks[i]))]);
    }
  }

  lemma {:induction false} ArgsSound(ks: string, i: nat, argv: seq<nat>, rs: seq<To<nat>>)
    requires i <= |ks| && SoundTo(ks, rs) && Sound(ks, Exec(argv))
    ensures var r := ParseArgs(ks, i, argv, rs); r.Args? ==> SoundTo(ks, r.rs) && Sound(ks, Exec(r.argv))
    decreases |ks| - i
  {
    if Is(ks, i, 'a') && |argv| + 1 < MAXARGS {
      RedirsSound(ks, i + 1, rs);
      var r := ParseRedirs(ks, i + 1, rs);
      if r.Redirs? { ArgsSound(ks, r.next, argv + [i], r.rs); }
    }
  }

  lemma {:induction false} ExecSound(ks: string, i: nat)
    requires i <= |ks|
    ensures var r := ParseExec(ks, i); r.Tree? ==> Sound(ks, r.cmd)
    decreases |ks| - i, 1
  {
    if Is(ks, i, '(') {
      var b := ParseLine(ks, i + 1);
      LineSound(ks, i + 1);
      if b.Tree? && Is(ks, b.next, ')') {
        RedirsSound(ks, b.next + 1, []);
        var r := ParseRedirs(ks, b.next + 1, []);
        if r.Redirs? { WrapSound(ks, b.cmd, r.rs, |r.rs|); }
      }
    } else {
      RedirsSound(ks, i, []);
      var r := ParseRedirs(ks, i, []);
      if r.Redirs? {
        ArgsSound(ks, r.next, [], r.rs);
        var w := ParseArgs(ks, r.next, [], r.rs);
        if w.Args? { WrapSound(ks, Exec(w.argv), w.rs, |w.rs|); }
      }
    }
  }

  lemma {:induction false} PipeSound(ks: string, i: nat)
    requires i <= |ks|
    ensures var r := ParsePipe(ks, i); r.Tree? ==> Sound(ks, r.cmd)
    decreases |ks| - i, 2
  {
    ExecSound(ks, i);
    var l := ParseExec(ks, i);
    if l.Tree? && Is(ks, l.next, '|') { PipeSound(ks, l.next + 1); }
  }

  lemma {:induction false} BacksSound(ks: string, i: nat, c: Cmd<nat>)
    requires i <= |ks| && Sound(ks, c)
    ensures Sound(ks, ParseBacks(ks, i, c).cmd)
    decreases |ks| - i
  {
    if Is(ks, i, '&') { BacksSound(ks, i + 1, Back(c)); }
  }

  lemma {:induction false} LineSound(ks: string, i: nat)
    requires i <= |ks|
    ensures var r := ParseLine(ks, i); r.Tree? ==> Sound(ks, r.cmd)
    decreases |ks| - i, 3
  {
    PipeSound(ks, i);
    var p := ParsePipe(ks, i);
    if p.Tree? {
      BacksSound(ks, p.next, p.cmd);
      var b := ParseBacks(ks, p.next, p.cmd);
      if Is(ks, b.next, ';') { LineSound(ks, b.next + 1); }
    }
  }

  /** A sound tree fits whatever its words are. */
  lemma {:induction false} SoundFits(ks: string, ws: seq<string>, c: Cmd<nat>)
    requires Sound(ks, c)
    ensures Fits(Spell(ws, c))
  {
    match c
    case Exec(argv) =>
    case Redir(d, file, how) => SoundFits(ks, ws, d);
    case Pipe(l, r) => SoundFits(ks, ws, l); SoundFits(ks, ws, r);
    case List(l, r) => SoundFits(ks, ws, l); SoundFits(ks, ws, r);
    case Back(d) => SoundFits(ks, ws, d);
  }
}
