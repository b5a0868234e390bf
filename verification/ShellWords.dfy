/** Which words of a line the shell's parser puts where (user/sh.c). */
module ShellWords {
  import opened ShellGrammar

  // ----- no word is dropped -----

  ghost predicate IsFile(rs: seq<To<nat>>, n: nat, p: nat) {
    n <= |rs| && exists k :: 0 <= k < n && rs[k].file == p
  }

  /** The words of the tree are those of the command and the files of the redirections. */
  lemma {:induction false} WrapUses(c: Cmd<nat>, rs: seq<To<nat>>, n: nat, p: nat)
    requires n <= |rs|
    ensures p in Used(WrapTo(c, rs, n)) <==> p in Used(c) || IsFile(rs, n, p)
  {
    if n > 0 {
      WrapUses(c, rs, n - 1, p);
      if rs[n - 1].file == p { assert IsFile(rs, n, p); }
      if IsFile(rs, n - 1, p) { assert IsFile(rs, n, p); }
    }
  }

  /** Token p is a word between i and j. */
  ghost predicate WordIn(ks: string, i: nat, j: nat, p: nat) { i <= p < j && Is(ks, p, 'a') }

  lemma AppendFile(rs: seq<To<nat>>, t: To<nat>, p: nat)
    ensures IsFile(rs + [t], |rs| + 1, p) <==> IsFile(rs, |rs|, p) || t.file == p
  {
    var rs' := rs + [t];
    assert rs'[|rs|] == t;
    if k :| 0 <= k < |rs| && rs[k].file == p { assert rs'[k].file == p; }
    if k :| 0 <= k < |rs'| && rs'[k].file == p { assert k < |rs| ==> rs[k].file == p; }
  }

  lemma {:induction false} RedirsUse(ks: string, i: nat, rs: seq<To<nat>>, p: nat)
    requires i <= |ks|
    ensures var r := ParseRedirs(ks, i, rs);
            r.Redirs? ==> (IsFile(r.rs, |r.rs|, p) <==> IsFile(rs, |rs|, p) || WordIn(ks, i, r.next, p))
    decreases |ks| - i
  {
    if i < |ks| && Arrow(ks[i]) && Is(ks, i + 1, 'a') {
      AppendFile(rs, To(i + 1, HowOf(ks[i])), p);
      RedirsUse(ks, i + 2, rs + [To(i + 1, HowOf(ks[i]))], p);
    }
  }

  lemma {:induction false} ArgsUse(ks: string, i: nat, argv: seq<nat>, rs: seq<To<nat>>, p: nat)
    requires i <= |ks| && |argv| < MAXARGS
    ensures var r := ParseArgs(ks, i, argv, rs);
            r.Args? ==> (p in r.argv || IsFile(r.rs, |r.rs|, p)
                         <==> p in argv || IsFile(rs, |rs|, p) || WordIn(ks, i, r.next, p))
    decreases |ks| - i
  {
    if Is(ks, i, 'a') && |argv| + 1 < MAXARGS {
      RedirsUse(ks, i + 1, rs, p);
      var r := ParseRedirs(ks, i + 1, rs);
      if r.Redirs? { ArgsUse(ks, r.next, argv + [i], r.rs, p); }
    }
  }

  lemma ExecUsed(argv: seq<nat>, p: nat)
    ensures p in Used(Exec(argv)) <==> p in argv
  {
  }

  lemma {:induction false} ExecUses(ks: string, i: nat, p: nat)
    requires i <= |ks|
    ensures var r := ParseExec(ks, i); r.Tree? ==> (p in Used(r.cmd) <==> WordIn(ks, i, r.next, p))
    decreases |ks| - i, 1
  {
    if Is(ks, i, '(') {
      BlockUses(ks, i, p);
    } else {
      RedirsUse(ks, i, [], p);
      var r := ParseRedirs(ks, i, []);
      if r.Redirs? {
        ArgsUse(ks, r.next, [], r.rs, p);
        var w := ParseArgs(ks, r.next, [], r.rs);
        if w.Args? {
          WrapUses(Exec(w.argv), w.rs, |w.rs|, p);
          ExecUsed(w.argv, p);
        }
      }
    }
  }

  lemma {:induction false} BlockUses(ks: string, i: nat, p: nat)
    requires Is(ks, i, '(')
    ensures var r := ParseBlock(ks, i); r.Tree? ==> (p in Used(r.cmd) <==> WordIn(ks, i, r.next, p))
    decreases |ks| - i, 0
  {
    LineUses(ks, i + 1, p);
    var b := ParseLine(ks, i + 1);
    if b.Tree? && Is(ks, b.next, ')') {
      RedirsUse(ks, b.next + 1, [], p);
      var r := ParseRedirs(ks, b.next + 1, []);
      if r.Redirs? { WrapUses(b.cmd, r.rs, |r.rs|, p); }
    }
  }

  lemma {:induction false} PipeUses(ks: string, i: nat, p: nat)
    requires i <= |ks|
    ensures var r := ParsePipe(ks, i); r.Tree? ==> (p in Used(r.cmd) <==> WordIn(ks, i, r.next, p))
    decreases |ks| - i, 2
  {
    ExecUses(ks, i, p);
    var l := ParseExec(ks, i);
    if l.Tree? && Is(ks, l.next, '|') { PipeUses(ks, l.next + 1, p); }
  }

  lemma {:induction false} BacksUse(ks: string, i: nat, c: Cmd<nat>, p: nat)
    requires i <= |ks|
    ensures var r := ParseBacks(ks, i, c); Used(r.cmd) == Used(c) && !WordIn(ks, i, r.next, p)
    decreases |ks| - i
  {
    if Is(ks, i, '&') { BacksUse(ks, i + 1, Back(c), p); }
  }

  /** The words of the tree are exactly the words that the parser has gone past. */
  lemma {:induction false} LineUses(ks: string, i: nat, p: nat)
    requires i <= |ks|
    ensures var r := ParseLine(ks, i); r.Tree? ==> (p in Used(r.cmd) <==> WordIn(ks, i, r.next, p))
    decreases |ks| - i, 3
  {
    PipeUses(ks, i, p);
    var l := ParsePipe(ks, i);
    if l.Tree? {
      BacksUse(ks, l.next, l.cmd, p);
      var b := ParseBacks(ks, l.next, l.cmd);
      if Is(ks, b.next, ';') { LineUses(ks, b.next + 1, p); }
    }
  }

  // ----- each is used once, in order -----

  ghost predicate Increasing(xs: seq<nat>) { forall j, k :: 0 <= j < k < |xs| ==> xs[j] < xs[k] }

  /** The words of each command are in the order of the line, the words before a '|' or ';' come
      before those after it, and the file of a redirection is no other word. */
  ghost predicate Ordered(c: Cmd<nat>) {
    match c
    case Exec(argv) => Increasing(argv)
    case Redir(d, file, how) => Ordered(d) && file !in Used(d)
    case Pipe(l, r) => Ordered(l) && Ordered(r) && AllBefore(l, r)
    case List(l, r) => Ordered(l) && Ordered(r) && AllBefore(l, r)
    case Back(d) => Ordered(d)
  }

  ghost predicate AllBefore(l: Cmd<nat>, r: Cmd<nat>) {
    forall p, q :: p in Used(l) && q in Used(r) ==> p < q
  }

  /** Before token i: words in order, and files in order that are none of them. */
  ghost predicate Collected(argv: seq<nat>, rs: seq<To<nat>>, i: nat) {
    && Increasing(argv) && (forall k :: 0 <= k < |argv| ==> argv[k] < i)
    && FilesBelow(rs, i) && forall k :: 0 <= k < |rs| ==> rs[k].file !in argv
  }

  ghost predicate FilesBelow(rs: seq<To<nat>>, i: nat) {
    && (forall k :: 0 <= k < |rs| ==> rs[k].file < i)
    && (forall j, k :: 0 <= j < k < |rs| ==> rs[j].file < rs[k].file)
  }

  lemma {:induction false} RedirsCollect(ks: string, i: nat, argv: seq<nat>, rs: seq<To<nat>>)
    requires i <= |ks| && Collected(argv, rs, i)
    ensures var r := ParseRedirs(ks, i, rs); r.Redirs? ==> Collected(argv, r.rs, r.next)
    decreases |ks| - i
  {
    if i < |ks| && Arrow(ks[i]) && Is(ks, i + 1, 'a') {
      RedirsCollect(ks, i + 2, argv, rs + [To(i + 1, HowOf(ks[i]))]);
    }
  }

  lemma {:induction false} ArgsCollect(ks: string, i: nat, argv: seq<nat>, rs: seq<To<nat>>)
    requires i <= |ks| && |argv| < MAXARGS && Collected(argv, rs, i)
    ensures var r := ParseArgs(ks, i, argv, rs); r.Args? ==> Collected(r.argv, r.rs, r.next)
    decreases |ks| - i
  {
    if Is(ks, i, 'a') && |argv| + 1 < MAXARGS {
      RedirsCollect(ks, i + 1, argv + [i], rs);
      var r := ParseRedirs(ks, i + 1, rs);
      if r.Redirs? { ArgsCollect(ks, r.next, argv + [i], r.rs); }
    }
  }

  lemma {:induction false} WrapOrdered(c: Cmd<nat>, rs: seq<To<nat>>, n: nat, i: nat)
    requires Ordered(c) && n <= |rs| && FilesBelow(rs, i) && forall k :: 0 <= k < |rs| ==> rs[k].file !in Used(c)
    ensures Ordered(WrapTo(c, rs, n))
  {
    if n > 0 {
      WrapOrdered(c, rs, n - 1, i);
      WrapUses(c, rs, n - 1, rs[n - 1].file);
    }
  }

  lemma {:induction false} ExecOrdered(ks: string, i: nat)
    requires i <= |ks|
    ensures var r := ParseExec(ks, i); r.Tree? ==> Ordered(r.cmd)
    decreases |ks| - i, 1
  {
    if Is(ks, i, '(') {
      BlockOrdered(ks, i);
    } else {
      RedirsCollect(ks, i, [], []);
      var r := ParseRedirs(ks, i, []);
      if r.Redirs? {
        ArgsCollect(ks, r.next, [], r.rs);
        var w := ParseArgs(ks, r.next, [], r.rs);
        if w.Args? { WrapOrdered(Exec(w.argv), w.rs, |w.rs|, w.next); }
      }
    }
  }

  lemma {:induction false} BlockOrdered(ks: string, i: nat)
    requires Is(ks, i, '(')
    ensures var r := ParseBlock(ks, i); r.Tree? ==> Ordered(r.cmd)
    decreases |ks| - i, 0
  {
    LineOrdered(ks, i + 1);
    var b := ParseLine(ks, i + 1);
    if b.Tree? && Is(ks, b.next, ')') {
      FilesAfter(ks, b.next + 1, []);
      var r := ParseRedirs(ks, b.next + 1, []);
      if r.Redirs? {
        forall k | 0 <= k < |r.rs| ensures r.rs[k].file !in Used(b.cmd) {
          LineUses(ks, i + 1, r.rs[k].file);
        }
        WrapOrdered(b.cmd, r.rs, |r.rs|, r.next);
      }
    }
  }

  /** Files of redirections that were parsed from i on come after i. */
  lemma {:induction false} FilesAfter(ks: string, i: nat, rs: seq<To<nat>>)
    requires i <= |ks| && FilesBelow(rs, i)
    ensures var r := ParseRedirs(ks, i, rs);
            r.Redirs? ==> FilesBelow(r.rs, r.next) && forall k :: |rs| <= k < |r.rs| ==> r.rs[k].file >= i
    decreases |ks| - i
  {
    if i < |ks| && Arrow(ks[i]) && Is(ks, i + 1, 'a') { FilesAfter(ks, i + 2, rs + [To(i + 1, HowOf(ks[i]))]); }
  }

  lemma {:induction false} PipeOrdered(ks: string, i: nat)
    requires i <= |ks|
    ensures var r := ParsePipe(ks, i); r.Tree? ==> Ordered(r.cmd)
    decreases |ks| - i, 2
  {
    ExecOrdered(ks, i);
    var l := ParseExec(ks, i);
    if l.Tree? && Is(ks, l.next, '|') {
      PipeOrdered(ks, l.next + 1);
      var r := ParsePipe(ks, l.next + 1);
      if r.Tree? {
        forall p, q | p in Used(l.cmd) && q in Used(r.cmd) ensures p < q {
          ExecUses(ks, i, p);
          PipeUses(ks, l.next + 1, q);
        }
      }
    }
  }

  lemma {:induction false} BacksOrdered(ks: string, i: nat, c: Cmd<nat>)
    requires i <= |ks| && Ordered(c)
    ensures Ordered(ParseBacks(ks, i, c).cmd)
    decreases |ks| - i
  {
    if Is(ks, i, '&') { BacksOrdered(ks, i + 1, Back(c)); }
  }

  /** The tree that the parser makes uses each word once, and in the order of the line. */
  lemma {:induction false} LineOrdered(ks: string, i: nat)
    requires i <= |ks|
    ensures var r := ParseLine(ks, i); r.Tree? ==> Ordered(r.cmd)
    decreases |ks| - i, 3
  {
    PipeOrdered(ks, i);
    var l := ParsePipe(ks, i);
    if l.Tree? {
      BacksOrdered(ks, l.next, l.cmd);
      var b := ParseBacks(ks, l.next, l.cmd);
      if Is(ks, b.next, ';') {
        LineOrdered(ks, b.next + 1);
        var r := ParseLine(ks, b.next + 1);
        if r.Tree? {
          forall p, q | p in Used(b.cmd) && q in Used(r.cmd) ensures p < q {
            PipeUses(ks, i, p);
            BacksUse(ks, l.next, l.cmd, p);
            LineUses(ks, b.next + 1, q);
          }
        }
      }
    }
  }

  /** A line that is accepted: its tree has all words of the line, each once and in order. */
  lemma AllWordsUsed(ks: string, p: nat)
    requires ParseAll(ks).Tree?
    ensures p in Used(ParseAll(ks).cmd) <==> Is(ks, p, 'a')
    ensures Ordered(ParseAll(ks).cmd)
  {
    LineUses(ks, 0, p);
    LineOrdered(ks, 0);
  }
}
