/** The regular expression matcher of grep (user/grep.c). Patterns and texts are strings
    without the final NUL. */
module Grep {
  // ----- the language of a pattern -----

  /** A pattern after its first character was found not to be special. */
  datatype Regex = Empty | End | One(c: char, rest: Regex) | Many(c: char, rest: Regex)

  /** How a pattern reads: a star after a character is looked for before "$" is, and "$" is
      special only at the end. */
  function Parse(re: string): Regex {
    if re == [] then Empty
    else if |re| > 1 && re[1] == '*' then Many(re[0], Parse(re[2..]))
    else if re == "$" then End
    else One(re[0], Parse(re[1..]))
  }

  predicate Accepts(c: char, d: char) { c == '.' || c == d }

  /** w is a word of r, in a place where `after` follows it. */
  ghost predicate Word(r: Regex, w: string, after: string)
    decreases r, 0
  {
    match r
    case Empty => w == []
    case End => w == [] && after == []
    case One(c, rest) => w != [] && Accepts(c, w[0]) && Word(rest, w[1..], after)
    case Many(c, rest) => exists k: nat :: Splits(c, rest, w, after, k)
  }

  /** The first k characters of w are for a star, and the others for what follows it. */
  ghost predicate Splits(c: char, rest: Regex, w: string, after: string, k: nat)
    decreases rest, 1
  {
    k <= |w| && All(c, w[..k]) && Word(rest, w[k..], after)
  }

  ghost predicate All(c: char, w: string) { forall i :: 0 <= i < |w| ==> Accepts(c, w[i]) }

  /** The text from i to j is a word of r. */
  ghost predicate At(r: Regex, text: string, i: nat, j: nat) {
    i <= j <= |text| && Word(r, text[i..j], text[j..])
  }

  /** Some word of r starts at i. */
  ghost predicate Here(r: Regex, text: string, i: nat) { exists j: nat :: At(r, text, i, j) }

  /** The text has a word of the pattern, at its start if the pattern begins with "^". */
  ghost predicate Found(re: string, text: string) {
    if re != [] && re[0] == '^' then Here(Parse(re[1..]), text, 0) else exists i: nat ::
        i <= |text| && Here(Parse(re), text, i)
  }

  // ----- one step of the matcher -----

  lemma HereEmpty(text: string, i: nat)
    requires i <= |text|
    ensures Here(Empty, text, i)
  {
    assert At(Empty, text, i, i);
  }

  lemma HereEnd(text: string, i: nat)
    requires i <= |text|
    ensures Here(End, text, i) <==> i == |text|
  {
    if i == |text| { assert At(End, text, i, i); }
  }

  lemma HereOne(c: char, rest: Regex, text: string, i: nat)
    requires i <= |text|
    ensures Here(One(c, rest), text, i) <==> i < |text| && Accepts(c, text[i]) && Here(rest, text, i + 1)
  {
    var r := One(c, rest);
    if Here(r, text, i) {
      var j: nat :| At(r, text, i, j);
      assert text[i..j][1..] == text[i + 1..j];
      assert At(rest, text, i + 1, j);
    }
    if i < |text| && Accepts(c, text[i]) && Here(rest, text, i + 1) {
      var j: nat :| At(rest, text, i + 1, j);
      assert text[i..j][1..] == text[i + 1..j];
      assert At(r, text, i, j);
    }
  }

  /** A star can take the text up to k and leave the rest to what follows it. */
  ghost predicate Takes(c: char, rest: Regex, text: string, i: nat, k: nat) {
    i <= k <= |text| && All(c, text[i..k]) && Here(rest, text, k)
  }

  lemma {:induction false} HereMany(c: char, rest: Regex, text: string, i: nat)
    requires i <= |text|
    ensures Here(Many(c, rest), text, i) <==> exists k: nat :: Takes(c, rest, text, i, k)
  {
    if Here(Many(c, rest), text, i) {
      var k := ManyTakes(c, rest, text, i);
    }
    if k: nat :| Takes(c, rest, text, i, k) {
      TakesMany(c, rest, text, i, k);
    }
  }

  lemma {:induction false} ManyTakes(c: char, rest: Regex, text: string, i: nat) returns (k: nat)
    requires i <= |text| && Here(Many(c, rest), text, i)
    ensures Takes(c, rest, text, i, k)
  {
    var j: nat :| At(Many(c, rest), text, i, j);
    var w := text[i..j];
    assert Word(Many(c, rest), w, text[j..]);
    assert exists n: nat :: Splits(c, rest, w, text[j..], n);
    var n: nat :| Splits(c, rest, w, text[j..], n);
    k := i + n;
    assert w[..n] == text[i..k] && w[n..] == text[k..j];
    assert At(rest, text, k, j);
  }

  lemma {:induction false} TakesMany(c: char, rest: Regex, text: string, i: nat, k: nat)
    requires i <= |text| && Takes(c, rest, text, i, k)
    ensures Here(Many(c, rest), text, i)
  {
    var j: nat :| At(rest, text, k, j);
    var w := text[i..j];
    assert w[..k - i] == text[i..k] && w[k - i..] == text[k..j];
    assert Splits(c, rest, w, text[j..], k - i);
    assert At(Many(c, rest), text, i, j);
  }

  // ----- the matcher -----

  /** matchhere: pattern re at position i of the text. */
  method Matchhere(re: string, text: string, i: nat) returns (m: bool)
    requires i <= |text|
    ensures m <==> Here(Parse(re), text, i)
    decreases |re|, 0
  {
    if re == [] {
      HereEmpty(text, i);
      return true;
    }
    if |re| > 1 && re[1] == '*' {
      m := Matchstar(re[0], re[2..], text, i);
      return;
    }
    if re[0] == '$' && |re| == 1 {
      assert re == "$";
      HereEnd(text, i);
      return i == |text|;
    }
    HereOne(re[0], Parse(re[1..]), text, i);
    if i < |text| && (re[0] == '.' || re[0] == text[i]) {
      m := Matchhere(re[1..], text, i + 1);
      return;
    }
    return false;
  }

  /** matchstar: c* and then re, at position i. */
  method Matchstar(c: char, re: string, text: string, i: nat) returns (m: bool)
    requires i <= |text|
    ensures m <==> Here(Many(c, Parse(re)), text, i)
    decreases |re|, 1
  {
    HereMany(c, Parse(re), text, i);
    var t := i;
    while true
      invariant i <= t <= |text| && All(c, text[i..t])
      invariant forall k: nat :: i <= k < t ==> !Here(Parse(re), text, k)
      decreases |text| - t
    {
      var here := Matchhere(re, text, t);
      if here {
        assert Takes(c, Parse(re), text, i, t);
        return true;
      }
      if t == |text| || !(text[t] == c || c == '.') {
        break;
      }
      assert text[i..t + 1] == text[i..t] + [text[t]];
      t := t + 1;
    }
    forall k: nat ensures !Takes(c, Parse(re), text, i, k) {
      assert t < k <= |text| ==> text[i..k][t - i] == text[t];
    }
    return false;
  }

  /** match: 1 if and only if the pattern is found in the text. */
  method Match(re: string, text: string) returns (m: bool)
    ensures m <==> Found(re, text)
  {
    if re != [] && re[0] == '^' {
      m := Matchhere(re[1..], text, 0);
      return;
    }
    var t := 0;
    while true
      invariant t <= |text|
      invariant forall i: nat :: i < t ==> !Here(Parse(re), text, i)
      decreases |text| - t
    {
      var here := Matchhere(re, text, t);
      if here {
        return true;
      }
      if t == |text| {
        break;
      }
      t := t + 1;
    }
    return false;
  }
}
