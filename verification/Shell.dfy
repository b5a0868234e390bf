/** The shell's parser over its line buffer, and the cutting of the buffer into strings (user/sh.c). */
module Shell {
  import opened Common
  import opened ShellGrammar
  import opened ShellTokens

  /** Where a word is in the line: from q up to eq. */
  datatype Span = Span(q: nat, eq: nat)

  /** What a parsing function returns, unless it panics. */
  datatype Result<+T> = Ok(value: T) | Panic(error: Error)

  // ----- trees over places in the line -----

  function SpanAt(ts: seq<Token>, i: nat): Span { if i < |ts| then Span(ts[i].q, ts[i].eq) else Span(0, 0) }

  /** The places of the first n words. */
  function PlacedWords(ts: seq<Token>, argv: seq<nat>, n: nat): (r: seq<Span>)
    requires n <= |argv|
    ensures |r| == n
  {
    if n == 0 then [] else PlacedWords(ts, argv, n - 1) + [SpanAt(ts, argv[n - 1])]
  }

  /** The tree with the places of its words. */
  function Placed(ts: seq<Token>, c: Cmd<nat>): Cmd<Span> {
    match c
    case Exec(argv) => Exec(PlacedWords(ts, argv, |argv|))
    case Redir(d, file, how) => Redir(Placed(ts, d), SpanAt(ts, file), how)
    case Pipe(l, r) => Pipe(Placed(ts, l), Placed(ts, r))
    case List(l, r) => List(Placed(ts, l), Placed(ts, r))
    case Back(d) => Back(Placed(ts, d))
  }

  lemma {:induction false} PlacedPrefix(ts: seq<Token>, argv: seq<nat>, i: nat, n: nat)
    requires n <= |argv|
    ensures PlacedWords(ts, argv + [i], n) == PlacedWords(ts, argv, n)
  {
    if n > 0 { PlacedPrefix(ts, argv, i, n - 1); }
  }

  /** One more word. */
  lemma {:induction false} PlacedMore(ts: seq<Token>, argv: seq<nat>, i: nat)
    ensures Placed(ts, Exec(argv + [i])) == Exec(PlacedWords(ts, argv, |argv|) + [SpanAt(ts, i)])
  {
    PlacedPrefix(ts, argv, i, |argv|);
  }

  /** The redirections rs are those of ns at their places. */
  ghost predicate PlacedTo(ts: seq<Token>, rs: seq<To<Span>>, ns: seq<To<nat>>) {
    |rs| == |ns| && forall k: nat {:trigger PlacedAt(ts, rs, ns, k)} :: k < |rs| ==> PlacedAt(ts, rs, ns, k)
  }

  ghost predicate PlacedAt(ts: seq<Token>, rs: seq<To<Span>>, ns: seq<To<nat>>, k: nat) {
    k < |rs| && k < |ns| && rs[k] == To(SpanAt(ts, ns[k].file), ns[k].how)
  }

  lemma {:induction false} PlacedToMore(ts: seq<Token>, rs: seq<To<Span>>, ns: seq<To<nat>>, i: nat, how: How)
    requires PlacedTo(ts, rs, ns)
    ensures PlacedTo(ts, rs + [To(SpanAt(ts, i), how)], ns + [To(i, how)])
  {
    forall k: nat | k < |rs| + 1 ensures PlacedAt(ts, rs + [To(SpanAt(ts, i), how)], ns + [To(i, how)], k) {
      assert k < |rs| ==> PlacedAt(ts, rs, ns, k);
    }
  }

  lemma {:induction false} PlacedWrap(ts: seq<Token>, c: Cmd<nat>, rs: seq<To<Span>>, ns: seq<To<nat>>, n: nat)
    requires PlacedTo(ts, rs, ns) && n <= |rs|
    ensures Placed(ts, WrapTo(c, ns, n)) == WrapTo(Placed(ts, c), rs, n)
  {
    if n > 0 {
      PlacedWrap(ts, c, rs, ns, n - 1);
      assert PlacedAt(ts, rs, ns, n - 1);
    }
  }

  // ----- the cursor and the tokens -----

  /** Where the white space before token i starts, and where it ends. */
  function GapStart(ts: seq<Token>, i: nat): nat { if 0 < i <= |ts| then ts[i - 1].eq else 0 }
  function GapEnd(s: string, ts: seq<Token>, i: nat): nat { if i < |ts| then ts[i].q else |s| }

  /** The cursor p stands before token i. */
  ghost predicate Before(s: string, ts: seq<Token>, p: nat, i: nat) {
    i <= |ts| && GapStart(ts, i) <= p <= GapEnd(s, ts, i) <= |s|
  }

  lemma {:induction false} SkipMid(s: string, p: nat, x: nat)
    requires p <= |s| && p <= x <= Skip(s, p)
    ensures Skip(s, x) == Skip(s, p)
    decreases |s| - p
  {
    if p < x { SkipMid(s, p + 1, x); }
  }

  /** Between tokens there is white space only. */
  lemma {:induction false} Gap(s: string, p: nat, i: nat)
    requires p <= |s| && i <= |Tokens(s, p)|
    ensures var ts := Tokens(s, p);
            var lo := if i == 0 then p else ts[i - 1].eq;
            lo <= |s| && Skip(s, lo) == GapEnd(s, ts, i)
    decreases |s| - p
  {
    if i > 0 { Gap(s, TokenAt(s, Skip(s, p)).eq, i - 1); }
  }

  /** What is found at the cursor. */
  lemma {:induction false} Found(s: string, ts: seq<Token>, p: nat, i: nat)
    requires ts == Tokens(s, 0) && Before(s, ts, p, i)
    ensures Skip(s, p) == GapEnd(s, ts, i)
    ensures i < |ts| ==>
        GapEnd(s, ts, i) < |s| && !White(s[ts[i].q]) && TokenAt(s, ts[i].q) == ts[i]
        && Skip(s, ts[i].eq) == GapEnd(s, ts, i + 1)
  {
    Gap(s, 0, i);
    SkipMid(s, GapStart(ts, i), p);
    if i < |ts| {
      TokenInside(s, 0, i);
      Gap(s, 0, i + 1);
    }
  }

  /** The symbols a token of this kind starts with one of. */
  predicate HeadIn(k: char, toks: string) { k != 'a' && (if k == '+' then '>' else k) in toks }

  class Parser {
    const buf: array<char>
    const es: nat
    var ps: nat
    ghost const s: string
    ghost const ts: seq<Token>
    ghost const ks: string

    /** A parser at the start of the line that is in b up to the NUL at n. */
    constructor (b: array<char>, n: nat)
      requires n < b.Length && b[n] == '\0' && NoNul(b[..n])
      ensures buf == b && es == n && s == b[..n] && ts == Tokens(s, 0) && ks == KindsOf(ts) && Holds() && At(0)
    {
      buf, es, ps := b, n, 0;
      s, ts, ks := b[..n], Tokens(b[..n], 0), KindsOf(Tokens(b[..n], 0));
      new;
      Gap(s, 0, 0);
      forall k | 0 <= k < |ts| ensures ts[k].kind != '\0' { TokenInside(s, 0, k); }
    }

    /** The buffer holds the line s and a NUL after it; ks are the kinds of its tokens ts. */
    ghost predicate Holds()
      reads buf
    {
      && es == |s| && buf.Length > es && buf[..es] == s && buf[es] == '\0' && NoNul(s) && ts == Tokens(s, 0)
      && |ks| == |ts| && forall k :: 0 <= k < |ts| ==> ks[k] == ts[k].kind != '\0'
    }

    /** The cursor is before token i. */
    ghost predicate At(i: nat)
      reads this`ps
    {
      Before(s, ts, ps, i)
    }

    /** A parsing function panicked as the grammar does, or gave its tree and stopped where it does. */
    ghost predicate Gave(r: Result<Cmd<Span>>, g: Parsed)
      reads this`ps
    {
      if g.Fail? then r == Panic(g.error) else r == Ok(Placed(ts, g.cmd)) && At(g.next)
    }

    /** The loop that both gettoken and peek start with. */
    method SkipWhite(from: nat) returns (p: nat)
      requires Holds() && from <= es
      ensures p == Skip(s, from)
    {
      p := from;
      while p < es && White(buf[p])
        invariant from <= p <= es && Skip(s, p) == Skip(s, from)
      {
        assert s[p] == buf[p];
        p := p + 1;
      }
      if p < es { assert s[p] == buf[p]; }
    }

    /** peek: moves to the next token and says whether it starts with one of the symbols. */
    method Peek(toks: string, ghost i: nat) returns (b: bool)
      requires Holds() && At(i) && forall k :: 0 <= k < |toks| ==> Symbol(toks[k])
      modifies this`ps
      ensures At(i) && old(ps) <= ps == GapEnd(s, ts, i)
      ensures b <==> i < |ks| && HeadIn(ks[i], toks)
    {
      Found(s, ts, ps, i);
      ps := SkipWhite(ps);
      b := buf[ps] != '\0' && buf[ps] in toks;
      if ps < es { assert s[ps] == buf[ps]; }
    }

    /** The part of gettoken that moves over one token: its kind, or 0 at the end of the line. */
    method Scan(q: nat) returns (tok: char, eq: nat)
      requires Holds() && q <= es && (q < es ==> !White(s[q]))
      ensures q == es ==> tok == '\0' && eq == es
      ensures q < es ==> TokenAt(s, q) == Token(tok, q, eq)
    {
      eq := q;
      tok := buf[q];
      if q < es { assert s[q] == buf[q]; }
      if buf[q] == '\0' {
        return;
      }
      if buf[q] in "|();&<" {
        eq := q + 1;
      } else if buf[q] == '>' {
        eq := q + 1;
        if eq < es { assert s[eq] == buf[eq]; }
        if buf[eq] == '>' {
          tok := '+';
          eq := eq + 1;
        }
      } else {
        tok := 'a';
        while eq < es && !White(buf[eq]) && !Symbol(buf[eq])
          invariant q <= eq <= es && WordEnd(s, eq) == WordEnd(s, q)
        {
          assert s[eq] == buf[eq];
          eq := eq + 1;
        }
        if eq < es { assert s[eq] == buf[eq]; }
      }
    }

    /** gettoken: the next token, and the cursor past it and the white space after it. */
    method Gettoken(ghost i: nat) returns (tok: char, q: nat, eq: nat)
      requires Holds() && At(i)
      modifies this`ps
      ensures old(ps) <= ps <= es
      ensures i == |ts| ==> tok == '\0' && At(i)
      ensures i < |ts| ==> tok == ks[i] && Span(q, eq) == SpanAt(ts, i) && At(i + 1) && ps > old(ps)
    {
      Found(s, ts, ps, i);
      q := SkipWhite(ps);
      tok, eq := Scan(q);
      ps := SkipWhite(eq);
    }

    /** The body of the loop of parseredirs: a redirection and its file. */
    method Parseredir(ghost k: nat) returns (r: Result<To<Span>>)
      requires Holds() && At(k) && k < |ks| && Arrow(ks[k])
      modifies this`ps
      ensures old(ps) < ps <= es
      ensures r == if Is(ks, k + 1, 'a') then Ok(To(SpanAt(ts, k + 1), HowOf(ks[k]))) else Panic(MissingFile)
      ensures r.Ok? ==> At(k + 2)
    {
      var tok, q, eq := Gettoken(k);
      var what;
      what, q, eq := Gettoken(k + 1);
      if what != 'a' {
        return Panic(MissingFile);
      }
      r := Ok(To(Span(q, eq), HowOf(tok)));
    }

    /** parseredirs: the redirections from token i on, after rs. */
    method Parseredirs(rs: seq<To<Span>>, ghost i: nat, ghost rn: seq<To<nat>>) returns (r: Result<seq<To<Span>>>)
      requires Holds() && At(i) && PlacedTo(ts, rs, rn)
      modifies this`ps
      ensures old(ps) <= ps <= es
      ensures var g := ParseRedirs(ks, i, rn);
              if g.RFail? then r == Panic(g.error) else r.Ok? && PlacedTo(ts, r.value, g.rs) && At(g.next)
    {
      var got := rs;
      ghost var k: nat, gn: seq<To<nat>> := i, rn;
      var more := Peek("<>", k);
      while more
        invariant old(ps) <= ps <= es && At(k) && PlacedTo(ts, got, gn)
        invariant ParseRedirs(ks, k, gn) == ParseRedirs(ks, i, rn)
        invariant more <==> k < |ks| && Arrow(ks[k])
        decreases es - ps, more
      {
        var one := Parseredir(k);
        if one.Panic? {
          return Panic(one.error);
        }
        PlacedToMore(ts, got, gn, k + 1, HowOf(ks[k]));
        got := got + [one.value];
        gn, k := gn + [To(k + 1, HowOf(ks[k]))], k + 2;
        more := Peek("<>", k);
      }
      r := Ok(got);
    }

    /** parseblock: a line in parentheses, and redirections. */
    method Parseblock(ghost i: nat) returns (r: Result<Cmd<Span>>)
      requires Holds() && At(i) && Is(ks, i, '(')
      modifies this`ps
      ensures old(ps) <= ps <= es
      ensures Gave(r, ParseBlock(ks, i))
      decreases es - ps, 0
    {
      var open := Peek("(", i);
      var tok, q, eq := Gettoken(i);
      r := Parseline(i + 1);
      if r.Panic? {
        return;
      }
      ghost var b := ParseLine(ks, i + 1);
      var close := Peek(")", b.next);
      if !close {
        return Panic(MissingParen);
      }
      tok, q, eq := Gettoken(b.next);
      var rs := Parseredirs([], b.next + 1, []);
      if rs.Panic? {
        return Panic(rs.error);
      }
      PlacedWrap(ts, b.cmd, rs.value, ParseRedirs(ks, b.next + 1, []).rs, |rs.value|);
      r := Ok(Wrap(r.value, rs.value));
    }

    /** parseexec: a block, or words with redirections between and after them. */
    method Parseexec(ghost i: nat) returns (r: Result<Cmd<Span>>)
      requires Holds() && At(i)
      modifies this`ps
      ensures old(ps) <= ps <= es
      ensures Gave(r, ParseExec(ks, i))
      decreases es - ps, 1
    {
      var open := Peek("(", i);
      if open {
        r := Parseblock(i);
        return;
      }
      var rs := Parseredirs([], i, []);
      if rs.Panic? {
        return Panic(rs.error);
      }
      r := Parsewords(rs.value, ParseRedirs(ks, i, []).next, ParseRedirs(ks, i, []).rs);
    }

    /** The loop of parseexec. */
    method Parsewords(rs: seq<To<Span>>, ghost i: nat, ghost rn: seq<To<nat>>) returns (r: Result<Cmd<Span>>)
      requires Holds() && At(i) && PlacedTo(ts, rs, rn)
      modifies this`ps
      ensures old(ps) <= ps <= es
      ensures var g := ParseArgs(ks, i, [], rn); if g.WFail? then r == Panic(g.error)
          else r == Ok(Placed(ts, Wrap(Exec(g.argv), g.rs))) && At(g.next)
    {
      var argv: seq<Span>, around := [], Ok(rs);
      ghost var k: nat, an: seq<nat>, gn: seq<To<nat>> := i, [], rn;
      var stop := Peek("|)&;", k);
      while !stop
        invariant old(ps) <= ps <= es && At(k) && |an| < MAXARGS && Placed(ts, Exec(an)) == Exec(argv)
        invariant around.Ok? && PlacedTo(ts, around.value, gn)
        invariant ParseArgs(ks, k, an, gn) == ParseArgs(ks, i, [], rn)
        invariant stop <==> k < |ks| && Stops(ks[k])
        decreases es - ps, !stop
      {
        var tok, q, eq := Gettoken(k);
        if tok == '\0' {
          break;
        }
        if tok != 'a' {
          return Panic(Syntax);
        }
        PlacedMore(ts, an, k);
        OneArg(ks, k, an, gn);
        argv := argv + [Span(q, eq)];
        if |argv| >= MAXARGS {
          return Panic(TooManyArgs);
        }
        around := Parseredirs(around.value, k + 1, gn);
        if around.Panic? {
          return Panic(around.error);
        }
        ghost var g := ParseRedirs(ks, k + 1, gn);
        an, gn, k := an + [k], g.rs, g.next;
        stop := Peek("|)&;", k);
      }
      PlacedWrap(ts, Exec(an), around.value, gn, |gn|);
      r := Ok(Wrap(Exec(argv), around.value));
    }

    /** parsepipe */
    method Parsepipe(ghost i: nat) returns (r: Result<Cmd<Span>>)
      requires Holds() && At(i)
      modifies this`ps
      ensures old(ps) <= ps <= es
      ensures Gave(r, ParsePipe(ks, i))
      decreases es - ps, 2
    {
      r := Parseexec(i);
      if r.Panic? {
        return;
      }
      ghost var l := ParseExec(ks, i);
      var more := Peek("|", l.next);
      if more {
        var tok, q, eq := Gettoken(l.next);
        var right := Parsepipe(l.next + 1);
        if right.Panic? {
          return right;
        }
        r := Ok(Pipe(r.value, right.value));
      }
    }

    /** parseline */
    method Parseline(ghost i: nat) returns (r: Result<Cmd<Span>>)
      requires Holds() && At(i)
      modifies this`ps
      ensures old(ps) <= ps <= es
      ensures Gave(r, ParseLine(ks, i))
      decreases es - ps, 3
    {
      r := Parsepipe(i);
      if r.Panic? {
        return;
      }
      ghost var p := ParsePipe(ks, i);
      var cmd := Parsebacks(r.value, p.next, p.cmd);
      ghost var b := ParseBacks(ks, p.next, p.cmd);
      r := Parsemore(cmd, b.next, b.cmd);
    }

    /** The end of parseline: another line after a semicolon. */
    method Parsemore(cmd: Cmd<Span>, ghost j: nat, ghost c: Cmd<nat>) returns (r: Result<Cmd<Span>>)
      requires Holds() && At(j) && cmd == Placed(ts, c)
      modifies this`ps
      ensures old(ps) <= ps <= es
      ensures Is(ks, j, ';') ==> Gave(r, ListWith(c, ParseLine(ks, j + 1)))
      ensures !Is(ks, j, ';') ==> r == Ok(cmd) && At(j)
      decreases es - ps, 2
    {
      r := Ok(cmd);
      var more := Peek(";", j);
      if more {
        var tok, q, eq := Gettoken(j);
        var rest := Parseline(j + 1);
        if rest.Panic? {
          return rest;
        }
        r := Ok(List(cmd, rest.value));
      }
    }

    /** The loop of parseline. */
    method Parsebacks(cmd: Cmd<Span>, ghost i: nat, ghost c: Cmd<nat>) returns (r: Cmd<Span>)
      requires Holds() && At(i) && cmd == Placed(ts, c)
      modifies this`ps
      ensures old(ps) <= ps <= es
      ensures var g := ParseBacks(ks, i, c); r == Placed(ts, g.cmd) && At(g.next)
    {
      r := cmd;
      ghost var k: nat, gc := i, c;
      var more := Peek("&", k);
      while more
        invariant old(ps) <= ps <= es && At(k) && r == Placed(ts, gc)
        invariant ParseBacks(ks, k, gc) == ParseBacks(ks, i, c) && (more <==> Is(ks, k, '&'))
        decreases es - ps, more
      {
        var tok, q, eq := Gettoken(k);
        r, gc, k := Back(r), Back(gc), k + 1;
        more := Peek("&", k);
      }
    }

    /** parsecmd up to nulterminate: the tree of the whole line. */
    method Parseall() returns (r: Result<Cmd<Span>>)
      requires Holds() && At(0)
      modifies this`ps
      ensures ParseAll(ks).Fail? ==> r == Panic(ParseAll(ks).error)
      ensures ParseAll(ks).Tree? ==> r == Ok(Placed(ts, ParseAll(ks).cmd))
    {
      r := Parseline(0);
      if r.Ok? {
        ghost var n := ParseLine(ks, 0).next;
        var more := Peek("", n);
        if n < |ts| { Found(s, ts, ps, n); }
        if ps != es {
          return Panic(Leftovers);
        }
      }
    }
  }

  // ----- cutting the buffer into strings -----

  /** The places right after the words of the tree. */
  function Ends(c: Cmd<Span>): set<nat> {
    match c
    case Exec(argv) => set k | 0 <= k < |argv| :: argv[k].eq
    case Redir(d, file, how) => Ends(d) + {file.eq}
    case Pipe(l, r) => Ends(l) + Ends(r)
    case List(l, r) => Ends(l) + Ends(r)
    case Back(d) => Ends(d)
  }

  /** nulterminate: a NUL after each word of the tree, and nothing else changed. */
  method Nulterminate(buf: array<char>, cmd: Cmd<Span>)
    requires forall e :: e in Ends(cmd) ==> e < buf.Length
    modifies buf
    ensures forall k :: 0 <= k < buf.Length ==> buf[k] == if k in Ends(cmd) then '\0' else old(buf[k])
    decreases cmd
  {
    match cmd
    case Exec(argv) =>
      var i := 0;
      while i < |argv|
        invariant 0 <= i <= |argv|
        invariant forall k :: 0 <= k < buf.Length ==> buf[k] == if exists j ::
            0 <= j < i && argv[j].eq == k then '\0' else old(buf[k])
      {
        assert argv[i].eq in Ends(cmd);
        buf[argv[i].eq] := '\0';
        i := i + 1;
      }
    case Redir(d, file, how) =>
      assert Ends(d) <= Ends(cmd) && file.eq in Ends(cmd);
      Nulterminate(buf, d);
      buf[file.eq] := '\0';
    case Pipe(l, r) =>
      assert Ends(l) <= Ends(cmd) && Ends(r) <= Ends(cmd);
      Nulterminate(buf, l);
      Nulterminate(buf, r);
    case List(l, r) =>
      assert Ends(l) <= Ends(cmd) && Ends(r) <= Ends(cmd);
      Nulterminate(buf, l);
      Nulterminate(buf, r);
    case Back(d) =>
      assert Ends(d) <= Ends(cmd);
      Nulterminate(buf, d);
  }

  /** The string that starts at q: what is there up to the first NUL. */
  function CString(b: string, q: nat): string
    decreases |b| - q
  {
    if q >= |b| || b[q] == '\0' then "" else [b[q]] + CString(b, q + 1)
  }

  lemma {:induction false} CStringIs(b: string, q: nat, e: nat)
    requires q <= e < |b| && b[e] == '\0' && forall k :: q <= k < e ==> b[k] != '\0'
    ensures CString(b, q) == b[q..e]
    decreases e - q
  {
    if q < e { CStringIs(b, q + 1, e); }
  }

  function ReadWords(b: string, argv: seq<Span>, n: nat): seq<string>
    requires n <= |argv|
  {
    if n == 0 then [] else ReadWords(b, argv, n - 1) + [CString(b, argv[n - 1].q)]
  }

  /** The tree with the strings its pointers point to. */
  function ReadBack(b: string, c: Cmd<Span>): Cmd<string> {
    match c
    case Exec(argv) => Exec(ReadWords(b, argv, |argv|))
    case Redir(d, file, how) => Redir(ReadBack(b, d), CString(b, file.q), how)
    case Pipe(l, r) => Pipe(ReadBack(b, l), ReadBack(b, r))
    case List(l, r) => List(ReadBack(b, l), ReadBack(b, r))
    case Back(d) => Back(ReadBack(b, d))
  }

  lemma {:induction false} PlacedWordsAt(ts: seq<Token>, argv: seq<nat>, n: nat, k: nat)
    requires k < n <= |argv|
    ensures PlacedWords(ts, argv, n)[k] == SpanAt(ts, argv[k])
  {
    if k < n - 1 { PlacedWordsAt(ts, argv, n - 1, k); }
  }

  /** The ends are those of the tokens used. */
  lemma {:induction false} EndsUsed(ts: seq<Token>, c: Cmd<nat>)
    ensures forall e :: e in Ends(Placed(ts, c)) <==> exists j :: j in Used(c) && SpanAt(ts, j).eq == e
    decreases c
  {
    match c
    case Exec(argv) =>
      var ps := PlacedWords(ts, argv, |argv|);
      forall k: nat | k < |argv| ensures ps[k] == SpanAt(ts, argv[k]) { PlacedWordsAt(ts, argv, |argv|, k); }
      forall e ensures e in Ends(Exec(ps)) <==> exists j :: j in Used(c) && SpanAt(ts, j).eq == e {
        if e in Ends(Exec(ps)) {
          var k :| 0 <= k < |ps| && ps[k].eq == e;
          assert argv[k] in Used(c);
        }
        if j :| j in Used(c) && SpanAt(ts, j).eq == e {
          var k :| 0 <= k < |argv| && argv[k] == j;
          assert ps[k].eq == e;
        }
      }
    case Redir(d, file, how) => EndsUsed(ts, d);
    case Pipe(l, r) => EndsUsed(ts, l); EndsUsed(ts, r);
    case List(l, r) => EndsUsed(ts, l); EndsUsed(ts, r);
    case Back(d) => EndsUsed(ts, d);
  }

  lemma {:induction false} UsedAreWords(ks: string, c: Cmd<nat>, j: nat)
    requires Sound(ks, c) && j in Used(c)
    ensures Is(ks, j, 'a')
    decreases c
  {
    match c
    case Exec(argv) =>
    case Redir(d, file, how) => if j in Used(d) { UsedAreWords(ks, d, j); }
    case Pipe(l, r) => if j in Used(l) { UsedAreWords(ks, l, j); } else { UsedAreWords(ks, r, j); }
    case List(l, r) => if j in Used(l) { UsedAreWords(ks, l, j); } else { UsedAreWords(ks, r, j); }
    case Back(d) => UsedAreWords(ks, d, j);
  }

  /** The buffer b is the line s, its NUL, and NULs after the words used. */
  ghost predicate CutAt(s: string, b: string, ends: set<nat>) {
    |b| > |s| && forall k :: 0 <= k <= |s| ==> b[k] == if k in ends || k == |s| then '\0' else s[k]
  }

  /** No end of a word is inside another: each word reads back as its token. */
  lemma {:induction false} WordReads(s: string, b: string, c: Cmd<nat>, j: nat)
    requires NoNul(s) && Sound(KindsOf(Tokens(s, 0)), c) && j in Used(c) && CutAt(s, b, Ends(Placed(Tokens(s, 0), c)))
    ensures j < |Tokens(s, 0)| && CString(b, Tokens(s, 0)[j].q) == TextOf(s, Tokens(s, 0)[j])
  {
    var ts := Tokens(s, 0);
    UsedAreWords(KindsOf(ts), c, j);
    EndsUsed(ts, c);
    TokenInside(s, 0, j);
    var t := ts[j];
    assert t.eq in Ends(Placed(ts, c));
    forall k | t.q <= k < t.eq ensures b[k] == s[k] {
      if k in Ends(Placed(ts, c)) {
        var i :| i in Used(c) && SpanAt(ts, i).eq == k;
        UsedAreWords(KindsOf(ts), c, i);
        NoEndInside(s, i, j, k);
      }
    }
    CStringIs(b, t.q, t.eq);
    assert b[t.q..t.eq] == s[t.q..t.eq];
  }

  /** The end of one word is not a place in another. */
  lemma {:induction false} NoEndInside(s: string, i: nat, j: nat, k: nat)
    requires i < |Tokens(s, 0)| && j < |Tokens(s, 0)| && Tokens(s, 0)[i].kind == 'a' && Tokens(s, 0)[j].kind == 'a'
    ensures !(Tokens(s, 0)[j].q <= Tokens(s, 0)[i].eq < Tokens(s, 0)[j].eq)
  {
    if i < j {
      TokensApart(s, 0, i, j);
    } else if j < i {
      TokensApart(s, 0, j, i);
      TokenInside(s, 0, i);
    }
  }

  /** So the whole tree reads back as it is spelled. */
  lemma {:induction false} TreeReads(s: string, b: string, ts: seq<Token>, c: Cmd<nat>)
    requires forall j :: j in Used(c) ==> j < |ts| && CString(b, ts[j].q) == TextOf(s, ts[j])
    ensures ReadBack(b, Placed(ts, c)) == Spell(TextsOf(s, ts), c)
    decreases c
  {
    match c
    case Exec(argv) =>
      forall k | 0 <= k < |argv| ensures argv[k] < |ts|
          && CString(b, ts[argv[k]].q) == TextOf(s, ts[argv[k]]) { assert argv[k] in Used(c); }
      WordsRead(s, b, ts, argv, |argv|);
    case Redir(d, file, how) =>
      assert Used(d) <= Used(c) && file in Used(c);
      TreeReads(s, b, ts, d);
    case Pipe(l, r) =>
      assert Used(l) <= Used(c) && Used(r) <= Used(c);
      TreeReads(s, b, ts, l);
      TreeReads(s, b, ts, r);
    case List(l, r) =>
      assert Used(l) <= Used(c) && Used(r) <= Used(c);
      TreeReads(s, b, ts, l);
      TreeReads(s, b, ts, r);
    case Back(d) =>
      assert Used(d) <= Used(c);
      TreeReads(s, b, ts, d);
  }

  lemma {:induction false} WordsRead(s: string, b: string, ts: seq<Token>, argv: seq<nat>, n: nat)
    requires n <= |argv| && forall k :: 0 <= k < |argv| ==>
        argv[k] < |ts| && CString(b, ts[argv[k]].q) == TextOf(s, ts[argv[k]])
    ensures ReadWords(b, PlacedWords(ts, argv, |argv|), n) == SpellWords(TextsOf(s, ts), argv, n)
  {
    if n > 0 {
      WordsRead(s, b, ts, argv, n - 1);
      PlacedWordsAt(ts, argv, |argv|, n - 1);
    }
  }

  /** parsecmd: the line in the buffer is parsed and cut into strings. The tree it returns, read
      through its pointers, is what the line means; every panic is one of the grammar. */
  method Parsecmd(buf: array<char>, ghost n: nat) returns (r: Result<Cmd<Span>>)
    requires n < buf.Length && buf[n] == '\0' && NoNul(buf[..n])
    modifies buf
    ensures r.Panic? <==> Meaning(old(buf[..n])).None?
    ensures r.Panic? ==> buf[..] == old(buf[..]) && ParseAll(KindsOf(Tokens(old(buf[..n]), 0))) == Fail(r.error)
    ensures r.Ok? ==> Meaning(old(buf[..n])) == Some(ReadBack(buf[..], r.value))
    ensures r.Ok? ==> forall k :: 0 <= k < buf.Length && k !in Ends(r.value) ==> buf[k] == old(buf[k])
  {
    var es := 0;
    while buf[es] != '\0'
      invariant 0 <= es <= n && NoNul(buf[..es])
      decreases n - es
    {
      assert es != n;
      es := es + 1;
    }
    ghost var s := buf[..n];
    ghost var ts := Tokens(s, 0);
    var p := new Parser(buf, es);
    r := p.Parseall();
    if r.Panic? {
      return;
    }
    ghost var c := ParseAll(KindsOf(ts)).cmd;
    LineSound(KindsOf(ts), 0);
    EndsFit(s, c);
    Nulterminate(buf, r.value);
    CutReads(s, buf[..], c);
  }

  lemma {:induction false} EndsFit(s: string, c: Cmd<nat>)
    requires Sound(KindsOf(Tokens(s, 0)), c)
    ensures forall e :: e in Ends(Placed(Tokens(s, 0), c)) ==> e <= |s|
  {
    var ts := Tokens(s, 0);
    EndsUsed(ts, c);
    forall e | e in Ends(Placed(ts, c)) ensures e <= |s| {
      var j :| j in Used(c) && SpanAt(ts, j).eq == e;
      UsedAreWords(KindsOf(ts), c, j);
      TokenInside(s, 0, j);
    }
  }

  lemma {:induction false} CutReads(s: string, b: string, c: Cmd<nat>)
    requires NoNul(s) && Sound(KindsOf(Tokens(s, 0)), c) && CutAt(s, b, Ends(Placed(Tokens(s, 0), c)))
    ensures ReadBack(b, Placed(Tokens(s, 0), c)) == Spell(TextsOf(s, Tokens(s, 0)), c)
  {
    forall j | j in Used(c) ensures j < |Tokens(s, 0)| && CString(b, Tokens(s, 0)[j].q) == TextOf(s, Tokens(s, 0)[j]) {
      WordReads(s, b, c, j);
    }
    TreeReads(s, b, Tokens(s, 0), c);
  }
}
