/** The concrete syntax of the shell's lines, and that the parser accepts exactly it (user/sh.c). */
module ShellSyntax {
  import opened ShellGrammar

  /** A word of a command, with the redirections after it. */
  datatype Item = Item(word: string, rs: seq<To<string>>)

  /** A line with its parentheses: a command with redirections before and among its words, a
      line in parentheses with redirections after it, and the operators. */
  datatype Syntax =
    | Simple(pre: seq<To<string>>, items: seq<Item>)
    | Paren(body: Syntax, rs: seq<To<string>>)
    | Piped(left: Syntax, right: Syntax)
    | Listed(left: Syntax, right: Syntax)
    | Backed(body: Syntax)

  // ----- which operators may stand where -----

  /** An operand of '|' on its left. */
  predicate IsExec(y: Syntax): (b: bool)
    ensures b ==> y.Simple? || y.Paren?
    decreases y, 0
  {
    y.Simple? || (y.Paren? && IsLine(y.body))
  }

  /** '|' groups to the right. */
  predicate IsPipe(y: Syntax): (b: bool)
    ensures b ==> !y.Backed? && !y.Listed?
    decreases y, 1
  {
    if y.Piped? then IsExec(y.left) && IsPipe(y.right) else IsExec(y)
  }

  /** '&' is weaker than '|'. */
  predicate IsBacks(y: Syntax): (b: bool)
    ensures b ==> !y.Listed?
    decreases y, 2
  {
    if y.Backed? then IsBacks(y.body) else IsPipe(y)
  }

  /** ';' is the weakest, and groups to the right. */
  predicate IsLine(y: Syntax)
    decreases y, 3
  {
    if y.Listed? then IsBacks(y.left) && IsLine(y.right) else IsBacks(y)
  }

  /** No command has too many words. */
  predicate Few(y: Syntax) {
    match y
    case Simple(pre, items) => |items| < MAXARGS
    case Paren(b, rs) => Few(b)
    case Piped(l, r) => Few(l) && Few(r)
    case Listed(l, r) => Few(l) && Few(r)
    case Backed(b) => Few(b)
  }

  // ----- its tokens and its tree -----

  function PrintTo(rs: seq<To<string>>): (r: seq<Piece>)
    ensures |r| == 2 * |rs|
  {
    if rs == [] then [] else [Sym(KindOf(rs[0].how)), Word(rs[0].file)] + PrintTo(rs[1..])
  }

  function PrintItem(x: Item): (r: seq<Piece>)
    ensures |r| == Width(x)
  {
    [Word(x.word)] + PrintTo(x.rs)
  }

  /** The number of its tokens. */
  function Width(x: Item): nat { 1 + 2 * |x.rs| }

  function PrintItems(xs: seq<Item>): seq<Piece> {
    if xs == [] then [] else PrintItem(xs[0]) + PrintItems(xs[1..])
  }

  function Print(y: Syntax): seq<Piece> {
    match y
    case Simple(pre, items) => PrintTo(pre) + PrintItems(items)
    case Paren(b, rs) => [Sym('(')] + Print(b) + [Sym(')')] + PrintTo(rs)
    case Piped(l, r) => Print(l) + [Sym('|')] + Print(r)
    case Listed(l, r) => Print(l) + [Sym(';')] + Print(r)
    case Backed(b) => Print(b) + [Sym('&')]
  }

  function WordsOf(xs: seq<Item>): (ws: seq<string>)
    ensures |ws| == |xs|
  {
    if xs == [] then [] else [xs[0].word] + WordsOf(xs[1..])
  }

  function FilesOf(xs: seq<Item>): seq<To<string>> {
    if xs == [] then [] else xs[0].rs + FilesOf(xs[1..])
  }

  /** The tree it stands for. All redirections of a command are around it, the first innermost. */
  function Denotes(y: Syntax): Cmd<string> {
    match y
    case Simple(pre, items) => Wrap(Exec(WordsOf(items)), pre + FilesOf(items))
    case Paren(b, rs) => Wrap(Denotes(b), rs)
    case Piped(l, r) => Pipe(Denotes(l), Denotes(r))
    case Listed(l, r) => List(Denotes(l), Denotes(r))
    case Backed(b) => Back(Denotes(b))
  }

  // ----- redirections -----

  /** The redirections, with the numbers their files have as tokens from i on. */
  function Nums(i: nat, rs: seq<To<string>>): (ns: seq<To<nat>>)
    ensures |ns| == |rs|
    decreases |rs|
  {
    if rs == [] then [] else [To(i + 1, rs[0].how)] + Nums(i + 2, rs[1..])
  }

  /** Redirections over token numbers spell redirections. */
  ghost predicate SpellsTo(ws: seq<string>, ns: seq<To<nat>>, rs: seq<To<string>>) {
    |ns| == |rs| && forall k {:trigger ns[k]} :: 0 <= k < |ns| ==>
      WordAt(ws, ns[k].file) == rs[k].file && ns[k].how == rs[k].how
  }

  lemma {:induction false} SpellWrap(ws: seq<string>, c: Cmd<nat>, ns: seq<To<nat>>, rs: seq<To<string>>, n: nat)
    requires SpellsTo(ws, ns, rs) && n <= |ns|
    ensures Spell(ws, WrapTo(c, ns, n)) == WrapTo(Spell(ws, c), rs, n)
  {
    if n > 0 {
      SpellWrap(ws, c, ns, rs, n - 1);
      assert ns[n - 1] == ns[n - 1];
    }
  }

  lemma {:induction false} SpellsJoin(ws: seq<string>, ns: seq<To<nat>>, rs: seq<To<string>>, ms: seq<To<nat>>,
      qs: seq<To<string>>)
    requires SpellsTo(ws, ns, rs) && SpellsTo(ws, ms, qs)
    ensures SpellsTo(ws, ns + ms, rs + qs)
  {
  }

  lemma {:induction false} NumsSpell(ks: string, ws: seq<string>, i: nat, rs: seq<To<string>>)
    requires Has(ks, ws, i, PrintTo(rs))
    ensures SpellsTo(ws, Nums(i, rs), rs)
    decreases |rs|
  {
    if rs != [] {
      var a, b := [Sym(KindOf(rs[0].how)), Word(rs[0].file)], PrintTo(rs[1..]);
      HasSplit(ks, ws, i, a, b);
      HasAt(ks, ws, i, a, 1);
      NumsSpell(ks, ws, i + 2, rs[1..]);
      SpellsJoin(ws, [To(i + 1, rs[0].how)], [rs[0]], Nums(i + 2, rs[1..]), rs[1..]);
      assert [rs[0]] + rs[1..] == rs;
    }
  }

  ghost predicate NoArrow(ks: string, i: nat) { i <= |ks| && (i < |ks| ==> !Arrow(ks[i])) }

  /** parseredirs goes past printed redirections. */
  lemma {:induction false} RedirsBack(ks: string, ws: seq<string>, i: nat, rs: seq<To<string>>, acc: seq<To<nat>>)
    requires Has(ks, ws, i, PrintTo(rs)) && NoArrow(ks, i + 2 * |rs|)
    ensures ParseRedirs(ks, i, acc) == Redirs(acc + Nums(i, rs), i + 2 * |rs|)
    decreases |rs|
  {
    if rs == [] {
      assert acc + [] == acc;
    } else {
      var a, b := [Sym(KindOf(rs[0].how)), Word(rs[0].file)], PrintTo(rs[1..]);
      HasSplit(ks, ws, i, a, b);
      HasAt(ks, ws, i, a, 0);
      HasAt(ks, ws, i, a, 1);
      var x := To(i + 1, rs[0].how);
      RedirsBack(ks, ws, i + 2, rs[1..], acc + [x]);
      assert acc + [x] + Nums(i + 2, rs[1..]) == acc + ([x] + Nums(i + 2, rs[1..]));
    }
  }

  /** What parseredirs goes past are printed redirections. */
  lemma {:induction false} RedirsGot(ks: string, ws: seq<string>, i: nat, acc: seq<To<nat>>)
      returns (rs: seq<To<string>>)
    requires i <= |ks| && ParseRedirs(ks, i, acc).Redirs?
    ensures var r := ParseRedirs(ks, i, acc);
            Has(ks, ws, i, PrintTo(rs)) && r.next == i + 2 * |rs| && r.rs == acc + Nums(i, rs)
    decreases |ks| - i
  {
    if i == |ks| || !Arrow(ks[i]) {
      rs := [];
      assert acc + [] == acc;
    } else {
      var x := To(i + 1, HowOf(ks[i]));
      var qs := RedirsGot(ks, ws, i + 2, acc + [x]);
      rs := [To(WordAt(ws, i + 1), HowOf(ks[i]))] + qs;
      assert rs[1..] == qs;
      var a := [Sym(KindOf(rs[0].how)), Word(rs[0].file)];
      forall k: nat ensures Same(ks, ws, i, a, k) { }
      HasJoin(ks, ws, i, a, PrintTo(qs));
      assert acc + [x] + Nums(i + 2, qs) == acc + ([x] + Nums(i + 2, qs));
    }
  }

  // ----- words -----

  /** The numbers that the words have as tokens from i on. */
  function ArgNums(i: nat, xs: seq<Item>): (ns: seq<nat>)
    ensures |ns| == |xs|
    decreases |xs|
  {
    if xs == [] then [] else [i] + ArgNums(i + Width(xs[0]), xs[1..])
  }

  function FileNums(i: nat, xs: seq<Item>): seq<To<nat>>
    decreases |xs|
  {
    if xs == [] then [] else Nums(i + 1, xs[0].rs) + FileNums(i + Width(xs[0]), xs[1..])
  }

  ghost predicate SpellsWords(ws: seq<string>, ns: seq<nat>, xs: seq<string>) {
    |ns| == |xs| && forall k {:trigger ns[k]} :: 0 <= k < |ns| ==> WordAt(ws, ns[k]) == xs[k]
  }

  lemma {:induction false} SpellExec(ws: seq<string>, ns: seq<nat>, xs: seq<string>)
    requires SpellsWords(ws, ns, xs)
    ensures Spell(ws, Exec(ns)) == Exec(xs)
  {
    var got := SpellWords(ws, ns, |ns|);
    forall k | 0 <= k < |xs| ensures got[k] == xs[k] { SpellWordsAt(ws, ns, |ns|, k); }
    assert got == xs;
  }

  lemma {:induction false} ItemSplit(ks: string, ws: seq<string>, i: nat, x: Item)
    requires Has(ks, ws, i, PrintItem(x))
    ensures Is(ks, i, 'a') && WordAt(ws, i) == x.word && Has(ks, ws, i + 1, PrintTo(x.rs))
  {
    HasSplit(ks, ws, i, [Word(x.word)], PrintTo(x.rs));
    HasAt(ks, ws, i, [Word(x.word)], 0);
  }

  /** The parts of printed words: the first word, its redirections and the others. */
  lemma {:induction false} ItemsSplit(ks: string, ws: seq<string>, i: nat, xs: seq<Item>)
    requires xs != [] && Has(ks, ws, i, PrintItems(xs))
    ensures Is(ks, i, 'a') && WordAt(ws, i) == xs[0].word && Has(ks, ws, i + 1, PrintTo(xs[0].rs))
    ensures Has(ks, ws, i + Width(xs[0]), PrintItems(xs[1..]))
  {
    HasSplit(ks, ws, i, PrintItem(xs[0]), PrintItems(xs[1..]));
    ItemSplit(ks, ws, i, xs[0]);
  }

  lemma {:induction false} ItemsSpell(ks: string, ws: seq<string>, i: nat, xs: seq<Item>)
    requires Has(ks, ws, i, PrintItems(xs))
    ensures SpellsWords(ws, ArgNums(i, xs), WordsOf(xs)) && SpellsTo(ws, FileNums(i, xs), FilesOf(xs))
    decreases |xs|
  {
    if xs != [] {
      ItemsSplit(ks, ws, i, xs);
      var j := i + Width(xs[0]);
      ItemsSpell(ks, ws, j, xs[1..]);
      NumsSpell(ks, ws, i + 1, xs[0].rs);
      SpellsJoin(ws, Nums(i + 1, xs[0].rs), xs[0].rs, FileNums(j, xs[1..]), FilesOf(xs[1..]));
    }
  }

  /** A command ends where the line does or at a symbol that stops it. */
  ghost predicate Ends(ks: string, i: nat) { i <= |ks| && (i < |ks| ==> Stops(ks[i])) }

  lemma {:induction false} ItemsStart(ks: string, ws: seq<string>, i: nat, xs: seq<Item>)
    requires Has(ks, ws, i, PrintItems(xs)) && Ends(ks, i + |PrintItems(xs)|)
    ensures NoArrow(ks, i) && !Is(ks, i, '(')
  {
    if xs != [] { ItemsSplit(ks, ws, i, xs); }
  }

  /** What the loop of parseexec makes of printed words. */
  function Seen(i: nat, xs: seq<Item>, argv: seq<nat>, acc: seq<To<nat>>): Words {
    Args(argv + ArgNums(i, xs), acc + FileNums(i, xs), i + |PrintItems(xs)|)
  }

  lemma {:induction false} SeenMore(i: nat, xs: seq<Item>, j: nat, qs: seq<Item>, argv: seq<nat>, acc: seq<To<nat>>)
    requires xs != [] && j == i + Width(xs[0]) && qs == xs[1..]
    ensures Seen(i, xs, argv, acc) == Seen(j, qs, argv + [i], acc + Nums(i + 1, xs[0].rs))
  {
    var ns, an, fs := Nums(i + 1, xs[0].rs), ArgNums(j, qs), FileNums(j, qs);
    assert ArgNums(i, xs) == [i] + an && FileNums(i, xs) == ns + fs;
    Regroup(argv, [i], an);
    Regroup(acc, ns, fs);
  }

  lemma Regroup<T>(a: seq<T>, b: seq<T>, c: seq<T>)
    ensures a + b + c == a + (b + c)
  {
  }

  lemma {:induction false} SeenNone(i: nat, argv: seq<nat>, acc: seq<To<nat>>)
    ensures Seen(i, [], argv, acc) == Args(argv, acc, i)
  {
    assert argv + [] == argv && acc + [] == acc;
  }

  /** The loop of parseexec goes past printed words. */
  lemma {:induction false} ItemsBack(ks: string, ws: seq<string>, i: nat, xs: seq<Item>, argv: seq<nat>,
      acc: seq<To<nat>>)
    requires Has(ks, ws, i, PrintItems(xs)) && Ends(ks, i + |PrintItems(xs)|) && |argv| + |xs| < MAXARGS
    ensures ParseArgs(ks, i, argv, acc) == Seen(i, xs, argv, acc)
    decreases |xs|
  {
    if xs == [] {
      SeenNone(i, argv, acc);
    } else {
      ItemsSplit(ks, ws, i, xs);
      var j := i + Width(xs[0]);
      ItemsStart(ks, ws, j, xs[1..]);
      RedirsBack(ks, ws, i + 1, xs[0].rs, acc);
      OneArg(ks, i, argv, acc);
      ItemsBack(ks, ws, j, xs[1..], argv + [i], acc + Nums(i + 1, xs[0].rs));
      SeenMore(i, xs, j, xs[1..], argv, acc);
    }
  }

  lemma {:induction false} ItemsJoin(ks: string, ws: seq<string>, i: nat, rs: seq<To<string>>, qs: seq<Item>)
      returns (xs: seq<Item>)
    requires Is(ks, i, 'a') && Has(ks, ws, i + 1, PrintTo(rs)) && Has(ks, ws, i + 1 + 2 * |rs|, PrintItems(qs))
    ensures xs != [] && xs[0] == Item(WordAt(ws, i), rs) && xs[1..] == qs && Has(ks, ws, i, PrintItems(xs))
  {
    xs := [Item(WordAt(ws, i), rs)] + qs;
    assert xs[1..] == qs;
    var a := [Word(xs[0].word)];
    forall k: nat ensures Same(ks, ws, i, a, k) { }
    HasJoin(ks, ws, i, a, PrintTo(rs));
    HasJoin(ks, ws, i, PrintItem(xs[0]), PrintItems(qs));
  }

  lemma {:induction false} OneMoreItem(ks: string, ws: seq<string>, i: nat, rs: seq<To<string>>, qs: seq<Item>,
      j: nat, argv: seq<nat>, acc: seq<To<nat>>, w: Words) returns (xs: seq<Item>)
    requires Is(ks, i, 'a') && Has(ks, ws, i + 1, PrintTo(rs)) && j == i + 1 + 2 * |rs|
    requires Has(ks, ws, j, PrintItems(qs)) && w == Seen(j, qs, argv + [i], acc + Nums(i + 1, rs))
    ensures Has(ks, ws, i, PrintItems(xs)) && w == Seen(i, xs, argv, acc)
  {
    xs := ItemsJoin(ks, ws, i, rs, qs);
    SeenMore(i, xs, j, qs, argv, acc);
  }

  lemma {:induction false} NextArg(ks: string, i: nat, argv: seq<nat>, acc: seq<To<nat>>, w: Words)
      returns (r: Redirections)
    requires i < |ks| && !Stops(ks[i]) && |argv| < MAXARGS && w == ParseArgs(ks, i, argv, acc) && w.Args?
    ensures r == ParseRedirs(ks, i + 1, acc) && r.Redirs?
    ensures Is(ks, i, 'a') && |argv| + 1 < MAXARGS && w == ParseArgs(ks, r.next, argv + [i], r.rs)
  {
    r := ParseRedirs(ks, i + 1, acc);
  }

  /** What the loop of parseexec goes past are printed words. */
  lemma {:induction false} ItemsGot(ks: string, ws: seq<string>, i: nat, argv: seq<nat>, acc: seq<To<nat>>, w: Words)
      returns (xs: seq<Item>)
    requires i <= |ks| && |argv| < MAXARGS && w == ParseArgs(ks, i, argv, acc) && w.Args?
    ensures Has(ks, ws, i, PrintItems(xs)) && w == Seen(i, xs, argv, acc)
    decreases |ks| - i
  {
    if i == |ks| || Stops(ks[i]) {
      xs := [];
      SeenNone(i, argv, acc);
    } else {
      var r := NextArg(ks, i, argv, acc, w);
      var rs := RedirsGot(ks, ws, i + 1, acc);
      var qs := ItemsGot(ks, ws, r.next, argv + [i], r.rs, w);
      xs := OneMoreItem(ks, ws, i, rs, qs, r.next, argv, acc, w);
    }
  }

  // ----- tokens of a line and what was parsed -----

  /** What was parsed from token i on are the tokens of y, which denotes it. */
  ghost predicate Spans(ks: string, ws: seq<string>, i: nat, y: Syntax, p: Parsed) {
    && p.Tree? && Few(y) && Has(ks, ws, i, Print(y)) && p.next == i + |Print(y)|
    && Spell(ws, p.cmd) == Denotes(y)
  }

  lemma {:induction false} SpansSimple(ks: string, ws: seq<string>, i: nat, y: Syntax, j: nat, w: Words)
    requires y.Simple? && Few(y) && Has(ks, ws, i, PrintTo(y.pre)) && j == i + 2 * |y.pre|
    requires Has(ks, ws, j, PrintItems(y.items)) && w == Seen(j, y.items, [], [] + Nums(i, y.pre))
    ensures Spans(ks, ws, i, y, Tree(Wrap(Exec(w.argv), w.rs), w.next))
  {
    var ns, xs := Nums(i, y.pre), y.items;
    var an, fs := ArgNums(j, xs), ns + FileNums(j, xs);
    assert [] + an == an && [] + ns == ns;
    HasJoin(ks, ws, i, PrintTo(y.pre), PrintItems(xs));
    NumsSpell(ks, ws, i, y.pre);
    ItemsSpell(ks, ws, j, xs);
    SpellsJoin(ws, ns, y.pre, FileNums(j, xs), FilesOf(xs));
    SpellExec(ws, an, WordsOf(xs));
    SpellWrap(ws, Exec(an), fs, y.pre + FilesOf(xs), |fs|);
  }

  lemma {:induction false} SymHas(ks: string, ws: seq<string>, i: nat, k: char)
    requires Is(ks, i, k) && k != 'a'
    ensures Has(ks, ws, i, [Sym(k)])
  {
    forall j: nat ensures Same(ks, ws, i, [Sym(k)], j) { }
  }

  lemma {:induction false} SpansParen(ks: string, ws: seq<string>, i: nat, l: Parsed, b: Syntax, rs: seq<To<string>>)
    requires Is(ks, i, '(') && Spans(ks, ws, i + 1, b, l) && Is(ks, l.next, ')') && Has(ks, ws, l.next + 1, PrintTo(rs))
    ensures Spans(ks, ws, i, Paren(b, rs), Tree(Wrap(l.cmd, Nums(l.next + 1, rs)), l.next + 1 + 2 * |rs|))
  {
    SymHas(ks, ws, i, '(');
    SymHas(ks, ws, l.next, ')');
    HasJoin(ks, ws, i, [Sym('(')], Print(b));
    HasJoin(ks, ws, i, [Sym('(')] + Print(b), [Sym(')')]);
    HasJoin(ks, ws, i, [Sym('(')] + Print(b) + [Sym(')')], PrintTo(rs));
    NumsSpell(ks, ws, l.next + 1, rs);
    SpellWrap(ws, l.cmd, Nums(l.next + 1, rs), rs, |rs|);
  }

  lemma {:induction false} TwoJoin(ks: string, ws: seq<string>, i: nat, a: seq<Piece>, k: char, b: seq<Piece>)
    requires Has(ks, ws, i, a) && Is(ks, i + |a|, k) && k != 'a' && Has(ks, ws, i + |a| + 1, b)
    ensures Has(ks, ws, i, a + [Sym(k)] + b)
  {
    SymHas(ks, ws, i + |a|, k);
    HasJoin(ks, ws, i, a, [Sym(k)]);
    HasJoin(ks, ws, i, a + [Sym(k)], b);
  }

  lemma {:induction false} SpansTwo(ks: string, ws: seq<string>, i: nat, x: Syntax, l: Parsed, z: Syntax, r: Parsed)
    requires Spans(ks, ws, i, x, l) && l.next < |ks| && Spans(ks, ws, l.next + 1, z, r)
    ensures ks[l.next] == '|' ==> Spans(ks, ws, i, Piped(x, z), Tree(Pipe(l.cmd, r.cmd), r.next))
    ensures ks[l.next] == ';' ==> Spans(ks, ws, i, Listed(x, z), Tree(List(l.cmd, r.cmd), r.next))
  {
    if ks[l.next] != 'a' { TwoJoin(ks, ws, i, Print(x), ks[l.next], Print(z)); }
  }

  // ----- every line of the syntax is parsed as the tree it denotes -----

  /** parseexec at a command without parentheses. */
  lemma {:induction false} OneExec(ks: string, i: nat, r: Redirections, w: Words)
    requires i <= |ks| && !Is(ks, i, '(') && r == ParseRedirs(ks, i, []) && r.Redirs?
        && w == ParseArgs(ks, r.next, [], r.rs)
    ensures ParseExec(ks, i) == if w.WFail? then Fail(w.error) else Tree(Wrap(Exec(w.argv), w.rs), w.next)
  {
  }

  lemma {:induction false} SimpleStart(ks: string, ws: seq<string>, i: nat, y: Syntax) returns (j: nat)
    requires y.Simple? && Has(ks, ws, i, Print(y)) && Ends(ks, i + |Print(y)|)
    ensures j == i + 2 * |y.pre| && j + |PrintItems(y.items)| == i + |Print(y)|
    ensures Has(ks, ws, i, PrintTo(y.pre)) && Has(ks, ws, j, PrintItems(y.items)) && NoArrow(ks, j) && !Is(ks, i, '(')
  {
    j := i + 2 * |y.pre|;
    HasSplit(ks, ws, i, PrintTo(y.pre), PrintItems(y.items));
    ItemsStart(ks, ws, j, y.items);
    if y.pre != [] { HasAt(ks, ws, i, PrintTo(y.pre), 0); }
  }

  lemma {:induction false} SimpleWords(ks: string, ws: seq<string>, i: nat, pre: seq<To<string>>, j: nat, xs: seq<Item>)
      returns (r: Redirections, w: Words)
    requires j == i + 2 * |pre| && Has(ks, ws, i, PrintTo(pre)) && NoArrow(ks, j)
    requires |xs| < MAXARGS && Has(ks, ws, j, PrintItems(xs)) && Ends(ks, j + |PrintItems(xs)|)
    ensures i <= |ks| && r == ParseRedirs(ks, i, []) && r.Redirs? && w == ParseArgs(ks, r.next, [], r.rs)
    ensures w == Seen(j, xs, [], [] + Nums(i, pre))
  {
    var ns := [] + Nums(i, pre);
    RedirsBack(ks, ws, i, pre, []);
    r := Redirs(ns, j);
    ItemsBack(ks, ws, j, xs, [], ns);
    w := Seen(j, xs, [], ns);
  }

  lemma {:induction false} SimpleBack(ks: string, ws: seq<string>, i: nat, y: Syntax) returns (p: Parsed)
    requires y.Simple? && Few(y) && Has(ks, ws, i, Print(y)) && Ends(ks, i + |Print(y)|)
    ensures i <= |ks| && p == ParseExec(ks, i) && Spans(ks, ws, i, y, p)
  {
    var j := SimpleStart(ks, ws, i, y);
    var r, w := SimpleWords(ks, ws, i, y.pre, j, y.items);
    OneExec(ks, i, r, w);
    SpansSimple(ks, ws, i, y, j, w);
    p := Tree(Wrap(Exec(w.argv), w.rs), w.next);
  }

  /** The line that starts at i is over at j. */
  ghost predicate Over(ks: string, j: nat) { j <= |ks| && (j < |ks| ==> ks[j] == ')') }

  lemma {:induction false} ParenSplit(ks: string, ws: seq<string>, i: nat, body: seq<Piece>, rs: seq<To<string>>)
    requires Has(ks, ws, i, [Sym('(')] + body + [Sym(')')] + PrintTo(rs))
    ensures Is(ks, i, '(') && Has(ks, ws, i + 1, body) && Is(ks, i + 1 + |body|, ')')
    ensures Has(ks, ws, i + 2 + |body|, PrintTo(rs))
  {
    HasSplit(ks, ws, i, [Sym('(')] + body + [Sym(')')], PrintTo(rs));
    HasSplit(ks, ws, i, [Sym('(')] + body, [Sym(')')]);
    HasSplit(ks, ws, i, [Sym('(')], body);
    HasAt(ks, ws, i, [Sym('(')], 0);
    HasAt(ks, ws, i + 1 + |body|, [Sym(')')], 0);
  }

  lemma {:induction false} BlockBack(ks: string, ws: seq<string>, i: nat, l: Parsed, y: Syntax)
    requires Is(ks, i, '(') && l == ParseLine(ks, i + 1) && y.Paren? && Spans(ks, ws, i + 1, y.body, l)
    requires Is(ks, l.next, ')') && Has(ks, ws, l.next + 1, PrintTo(y.rs)) && Ends(ks, l.next + 1 + 2 * |y.rs|)
    ensures Spans(ks, ws, i, y, ParseExec(ks, i))
  {
    RedirsBack(ks, ws, l.next + 1, y.rs, []);
    var ns := Nums(l.next + 1, y.rs);
    assert [] + ns == ns;
    SpansParen(ks, ws, i, l, y.body, y.rs);
  }

  lemma {:induction false} ExecBack(ks: string, ws: seq<string>, i: nat, y: Syntax) returns (p: Parsed)
    requires IsExec(y) && Few(y) && Has(ks, ws, i, Print(y)) && Ends(ks, i + |Print(y)|)
    ensures i <= |ks| && p == ParseExec(ks, i) && Spans(ks, ws, i, y, p)
    decreases y, 0
  {
    if y.Simple? {
      p := SimpleBack(ks, ws, i, y);
    } else {
      ParenSplit(ks, ws, i, Print(y.body), y.rs);
      var l := LineBack(ks, ws, i + 1, y.body);
      BlockBack(ks, ws, i, l, y);
      p := ParseExec(ks, i);
    }
  }

  lemma {:induction false} TwoSplit(ks: string, ws: seq<string>, i: nat, a: seq<Piece>, k: char, b: seq<Piece>)
    requires Has(ks, ws, i, a + [Sym(k)] + b)
    ensures Has(ks, ws, i, a) && Is(ks, i + |a|, k) && Has(ks, ws, i + |a| + 1, b)
  {
    HasSplit(ks, ws, i, a + [Sym(k)], b);
    HasSplit(ks, ws, i, a, [Sym(k)]);
    HasAt(ks, ws, i + |a|, [Sym(k)], 0);
  }

  lemma {:induction false} PipeBack(ks: string, ws: seq<string>, i: nat, y: Syntax) returns (p: Parsed)
    requires IsPipe(y) && Few(y) && Has(ks, ws, i, Print(y))
    requires Ends(ks, i + |Print(y)|) && !Is(ks, i + |Print(y)|, '|')
    ensures i <= |ks| && p == ParsePipe(ks, i) && Spans(ks, ws, i, y, p)
    decreases y, 1
  {
    if y.Piped? {
      TwoSplit(ks, ws, i, Print(y.left), '|', Print(y.right));
      var l := ExecBack(ks, ws, i, y.left);
      var r := PipeBack(ks, ws, l.next + 1, y.right);
      SpansTwo(ks, ws, i, y.left, l, y.right, r);
      p := Tree(Pipe(l.cmd, r.cmd), r.next);
    } else {
      p := ExecBack(ks, ws, i, y);
    }
  }

  /** The loop of parseline, which starts after p, comes to b. */
  ghost predicate Loops(ks: string, p: Parsed, b: Parsed) {
    && p.Tree? && p.next <= |ks| && b.Tree? && b.next <= |ks|
    && ParseBacks(ks, p.next, p.cmd) == ParseBacks(ks, b.next, b.cmd)
  }

  lemma {:induction false} LoopsMore(ks: string, p: Parsed, b: Parsed)
    requires Loops(ks, p, b) && Is(ks, b.next, '&')
    ensures Loops(ks, p, Tree(Back(b.cmd), b.next + 1))
  {
  }

  lemma {:induction false} BacksBack(ks: string, ws: seq<string>, i: nat, y: Syntax) returns (p: Parsed, b: Parsed)
    requires IsBacks(y) && Few(y) && Has(ks, ws, i, Print(y))
    requires Ends(ks, i + |Print(y)|) && !Is(ks, i + |Print(y)|, '|')
    ensures i <= |ks| && p == ParsePipe(ks, i) && Loops(ks, p, b) && Spans(ks, ws, i, y, b)
    decreases y, 2
  {
    if y.Backed? {
      HasSplit(ks, ws, i, Print(y.body), [Sym('&')]);
      HasAt(ks, ws, i + |Print(y.body)|, [Sym('&')], 0);
      p, b := BacksBack(ks, ws, i, y.body);
      LoopsMore(ks, p, b);
      b := Tree(Back(b.cmd), b.next + 1);
    } else {
      p := PipeBack(ks, ws, i, y);
      b := p;
    }
  }

  /** parseline after its loop. */
  lemma {:induction false} AfterLoop(ks: string, i: nat, p: Parsed, b: Parsed)
    requires i <= |ks| && p == ParsePipe(ks, i) && Loops(ks, p, b) && !Is(ks, b.next, '&')
    ensures ParseLine(ks, i) == if Is(ks, b.next, ';') then ListWith(b.cmd, ParseLine(ks, b.next + 1)) else b
  {
  }

  lemma {:induction false} LineBack(ks: string, ws: seq<string>, i: nat, y: Syntax) returns (l: Parsed)
    requires IsLine(y) && Few(y) && Has(ks, ws, i, Print(y)) && Over(ks, i + |Print(y)|)
    ensures i <= |ks| && l == ParseLine(ks, i) && Spans(ks, ws, i, y, l)
    decreases y, 3
  {
    if y.Listed? {
      TwoSplit(ks, ws, i, Print(y.left), ';', Print(y.right));
      var p, b := BacksBack(ks, ws, i, y.left);
      var r := LineBack(ks, ws, b.next + 1, y.right);
      AfterLoop(ks, i, p, b);
      SpansTwo(ks, ws, i, y.left, b, y.right, r);
      l := Tree(List(b.cmd, r.cmd), r.next);
    } else {
      var p, b := BacksBack(ks, ws, i, y);
      AfterLoop(ks, i, p, b);
      l := b;
    }
  }

  // ----- every line that is parsed is one of the syntax -----

  lemma {:induction false} SimpleGot(ks: string, ws: seq<string>, i: nat, p: Parsed) returns (y: Syntax)
    requires i <= |ks| && !Is(ks, i, '(') && p == ParseExec(ks, i) && p.Tree?
    ensures y.Simple? && Spans(ks, ws, i, y, p)
  {
    var r := ParseRedirs(ks, i, []);
    var pre := RedirsGot(ks, ws, i, []);
    var w := ParseArgs(ks, r.next, [], r.rs);
    OneExec(ks, i, r, w);
    var xs := ItemsGot(ks, ws, r.next, [], r.rs, w);
    y := Simple(pre, xs);
    SpansSimple(ks, ws, i, y, r.next, w);
  }

  lemma {:induction false} BlockGot(ks: string, ws: seq<string>, i: nat, l: Parsed, b: Syntax, p: Parsed)
      returns (y: Syntax)
    requires Is(ks, i, '(') && l == ParseLine(ks, i + 1) && p == ParseExec(ks, i) && p.Tree?
    requires IsLine(b) && Spans(ks, ws, i + 1, b, l)
    ensures IsExec(y) && Spans(ks, ws, i, y, p)
  {
    var rs := RedirsGot(ks, ws, l.next + 1, []);
    var ns := Nums(l.next + 1, rs);
    assert [] + ns == ns;
    SpansParen(ks, ws, i, l, b, rs);
    y := Paren(b, rs);
  }

  lemma {:induction false} ExecGot(ks: string, ws: seq<string>, i: nat, p: Parsed) returns (y: Syntax)
    requires i <= |ks| && p == ParseExec(ks, i) && p.Tree?
    ensures IsExec(y) && Spans(ks, ws, i, y, p)
    decreases |ks| - i, 0
  {
    if Is(ks, i, '(') {
      var l := ParseLine(ks, i + 1);
      var b := LineGot(ks, ws, i + 1, l);
      y := BlockGot(ks, ws, i, l, b, p);
    } else {
      y := SimpleGot(ks, ws, i, p);
    }
  }

  lemma {:induction false} PipeGot(ks: string, ws: seq<string>, i: nat, p: Parsed) returns (y: Syntax)
    requires i <= |ks| && p == ParsePipe(ks, i) && p.Tree?
    ensures IsPipe(y) && Spans(ks, ws, i, y, p)
    decreases |ks| - i, 1
  {
    var l := ParseExec(ks, i);
    y := ExecGot(ks, ws, i, l);
    if Is(ks, l.next, '|') {
      var r := ParsePipe(ks, l.next + 1);
      var z := PipeGot(ks, ws, l.next + 1, r);
      SpansTwo(ks, ws, i, y, l, z, r);
      y := Piped(y, z);
    }
  }

  lemma {:induction false} BacksGot(ks: string, ws: seq<string>, i: nat, x: Syntax, l: Parsed) returns (y: Syntax)
    requires IsBacks(x) && Spans(ks, ws, i, x, l) && l.next <= |ks|
    ensures IsBacks(y) && Spans(ks, ws, i, y, ParseBacks(ks, l.next, l.cmd))
    decreases |ks| - l.next
  {
    if Is(ks, l.next, '&') {
      SymHas(ks, ws, l.next, '&');
      HasJoin(ks, ws, i, Print(x), [Sym('&')]);
      y := BacksGot(ks, ws, i, Backed(x), Tree(Back(l.cmd), l.next + 1));
    } else {
      y := x;
    }
  }

  lemma {:induction false} LineGot(ks: string, ws: seq<string>, i: nat, p: Parsed) returns (y: Syntax)
    requires i <= |ks| && p == ParseLine(ks, i) && p.Tree?
    ensures IsLine(y) && Spans(ks, ws, i, y, p)
    decreases |ks| - i, 2
  {
    var l := ParsePipe(ks, i);
    var x := PipeGot(ks, ws, i, l);
    y := BacksGot(ks, ws, i, x, l);
    var b := ParseBacks(ks, l.next, l.cmd);
    AfterLoop(ks, i, l, b);
    if Is(ks, b.next, ';') {
      var r := ParseLine(ks, b.next + 1);
      var z := LineGot(ks, ws, b.next + 1, r);
      SpansTwo(ks, ws, i, y, b, z, r);
      y := Listed(y, z);
    }
  }

  // ----- both together -----

  /** The tokens are those of the line y of the syntax. */
  ghost predicate Reads(ks: string, ws: seq<string>, y: Syntax) {
    IsLine(y) && Few(y) && |ks| == |Print(y)| && Has(ks, ws, 0, Print(y))
  }

  /** The parser accepts tokens with a tree if and only if they are a line of the syntax that
      denotes it. */
  lemma {:induction false} Exactly(ks: string, ws: seq<string>, c: Cmd<string>)
    ensures (ParseAll(ks).Tree? && Spell(ws, ParseAll(ks).cmd) == c)
        <==> exists y :: Reads(ks, ws, y) && Denotes(y) == c
  {
    if ParseAll(ks).Tree? && Spell(ws, ParseAll(ks).cmd) == c {
      var y := LineGot(ks, ws, 0, ParseAll(ks));
      assert Reads(ks, ws, y);
    }
    if y :| Reads(ks, ws, y) && Denotes(y) == c {
      var p := LineBack(ks, ws, 0, y);
    }
  }

  // ----- a line for every tree, with the fewest parentheses -----

  function Size(c: Cmd<string>): nat {
    match c
    case Exec(argv) => 0
    case Redir(d, file, how) => 1 + Size(d)
    case Pipe(l, r) => 1 + Size(l) + Size(r)
    case List(l, r) => 1 + Size(l) + Size(r)
    case Back(d) => 1 + Size(d)
  }

  /** The command inside the redirections. */
  function Base(c: Cmd<string>): (b: Cmd<string>)
    ensures !b.Redir? && Size(b) <= Size(c) && (!c.Redir? ==> b == c)
  {
    if c.Redir? then Base(c.cmd) else c
  }

  function Around(c: Cmd<string>): seq<To<string>> {
    if c.Redir? then Around(c.cmd) + [To(c.file, c.how)] else []
  }

  function Items(argv: seq<string>): (xs: seq<Item>)
    ensures |xs| == |argv|
  {
    if argv == [] then [] else [Item(argv[0], [])] + Items(argv[1..])
  }

  predicate Compound(c: Cmd<string>) { c.Pipe? || c.List? || c.Back? }

  function ExecOf(c: Cmd<string>): Syntax
    decreases Size(c), 1
  {
    if Base(c).Exec? then Simple(Around(c), Items(Base(c).argv)) else Paren(BodyOf(Base(c)), Around(c))
  }

  function PipeOf(c: Cmd<string>): Syntax
    decreases Size(c), 2
  {
    if c.Pipe? then BodyOf(c) else ExecOf(c)
  }

  function BacksOf(c: Cmd<string>): Syntax
    decreases Size(c), 2
  {
    if c.Back? || c.Pipe? then BodyOf(c) else ExecOf(c)
  }

  function LineOf(c: Cmd<string>): Syntax
    decreases Size(c), 2
  {
    if Compound(c) then BodyOf(c) else ExecOf(c)
  }

  function BodyOf(c: Cmd<string>): Syntax
    requires Compound(c)
    decreases Size(c), 0
  {
    match c
    case Pipe(l, r) => Piped(ExecOf(l), PipeOf(r))
    case List(l, r) => Listed(BacksOf(l), LineOf(r))
    case Back(d) => Backed(BacksOf(d))
  }

  lemma {:induction false} WrapPrefix<W>(c: Cmd<W>, rs: seq<To<W>>, r: To<W>, n: nat)
    requires n <= |rs|
    ensures WrapTo(c, rs + [r], n) == WrapTo(c, rs, n)
  {
    if n > 0 { WrapPrefix(c, rs, r, n - 1); }
  }

  lemma {:induction false} WrapBase(c: Cmd<string>)
    ensures Wrap(Base(c), Around(c)) == c
    ensures Fits(c) ==> Fits(Base(c))
  {
    if c.Redir? {
      WrapBase(c.cmd);
      WrapPrefix(Base(c), Around(c.cmd), To(c.file, c.how), |Around(c.cmd)|);
    }
  }

  lemma {:induction false} ItemsPlain(argv: seq<string>)
    ensures WordsOf(Items(argv)) == argv && FilesOf(Items(argv)) == []
  {
    if argv != [] {
      ItemsPlain(argv[1..]);
      assert [argv[0]] + argv[1..] == argv;
    }
  }

  ghost predicate Stands(y: Syntax, c: Cmd<string>) { Denotes(y) == c && (Fits(c) ==> Few(y)) }

  lemma {:induction false} ExecIsLine(y: Syntax)
    requires IsExec(y)
    ensures IsPipe(y) && IsBacks(y) && IsLine(y)
  {
    assert IsPipe(y);
    assert IsBacks(y);
  }

  lemma {:induction false} ExecOfOk(c: Cmd<string>)
    ensures IsExec(ExecOf(c)) && IsPipe(ExecOf(c)) && IsBacks(ExecOf(c)) && IsLine(ExecOf(c))
    ensures Stands(ExecOf(c), c)
    decreases Size(c), 1
  {
    WrapBase(c);
    if Base(c).Exec? {
      ItemsPlain(Base(c).argv);
      assert Around(c) + [] == Around(c);
    } else {
      BodyOfOk(Base(c));
    }
    ExecIsLine(ExecOf(c));
  }

  lemma {:induction false} BodyOfOk(c: Cmd<string>)
    requires Compound(c)
    ensures IsLine(BodyOf(c)) && (!c.List? ==> IsBacks(BodyOf(c))) && (c.Pipe? ==> IsPipe(BodyOf(c)))
    ensures Stands(BodyOf(c), c)
    decreases Size(c), 0
  {
    match c
    case Pipe(l, r) =>
      ExecOfOk(l);
      if r.Pipe? { BodyOfOk(r); } else { ExecOfOk(r); }
    case List(l, r) =>
      if l.Back? || l.Pipe? { BodyOfOk(l); } else { ExecOfOk(l); }
      if Compound(r) { BodyOfOk(r); } else { ExecOfOk(r); }
    case Back(d) =>
      if d.Back? || d.Pipe? { BodyOfOk(d); } else { ExecOfOk(d); }
  }

  /** Every tree has a line that denotes it. */
  lemma {:induction false} LineOfOk(c: Cmd<string>)
    ensures IsLine(LineOf(c)) && Denotes(LineOf(c)) == c && (Fits(c) ==> Few(LineOf(c)))
  {
    if Compound(c) { BodyOfOk(c); } else { ExecOfOk(c); }
  }

  function Parens(y: Syntax): nat {
    match y
    case Simple(pre, items) => 0
    case Paren(b, rs) => 1 + Parens(b)
    case Piped(l, r) => Parens(l) + Parens(r)
    case Listed(l, r) => Parens(l) + Parens(r)
    case Backed(b) => Parens(b)
  }

  lemma {:induction false} BaseWrap(c: Cmd<string>, rs: seq<To<string>>, n: nat)
    requires n <= |rs|
    ensures Base(WrapTo(c, rs, n)) == Base(c)
  {
    if n > 0 { BaseWrap(c, rs, n - 1); }
  }

  lemma {:induction false} FewestExec(y: Syntax)
    requires IsExec(y)
    ensures Parens(ExecOf(Denotes(y))) <= Parens(y)
    decreases y, 0
  {
    match y
    case Simple(pre, items) => BaseWrap(Exec(WordsOf(items)), pre + FilesOf(items), |pre + FilesOf(items)|);
    case Paren(b, rs) =>
      BaseWrap(Denotes(b), rs, |rs|);
      FewestLine(b);
  }

  lemma {:induction false} FewestPipe(y: Syntax)
    requires IsPipe(y)
    ensures Parens(PipeOf(Denotes(y))) <= Parens(y)
    decreases y, 1
  {
    if y.Piped? {
      FewestExec(y.left);
      FewestPipe(y.right);
    } else {
      FewestExec(y);
    }
  }

  lemma {:induction false} FewestBacks(y: Syntax)
    requires IsBacks(y)
    ensures Parens(BacksOf(Denotes(y))) <= Parens(y)
    decreases y, 2
  {
    if y.Backed? { FewestBacks(y.body); } else { FewestPipe(y); }
  }

  /** No line that denotes the tree has fewer parentheses. */
  lemma {:induction false} FewestLine(y: Syntax)
    requires IsLine(y)
    ensures Parens(LineOf(Denotes(y))) <= Parens(y)
    decreases y, 3
  {
    if y.Listed? {
      FewestBacks(y.left);
      FewestLine(y.right);
    } else {
      FewestBacks(y);
    }
  }
}
